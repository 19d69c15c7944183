/**
 When a request comes back without anybody else's doing: TryGet waits for its answer once
 it is queued, so it depends on how many workers can still serve and how many requests
 are before it.
 */
module PoolWaiting {
  import opened PoolModel
  import opened PoolLending
  import opened PoolLosses

  /** The worker has its object, or will have it back without a further return. */
  predicate CanServe(s: State, w: nat) {
    && w in s.workers
    && var p := s.workers[w].phase;
       !p.Away() || (p.lease in s.channels && s.channels[p.lease].slot.Some?)
  }

  ghost function Able(s: State): set<nat> {
    set w | w in s.workers && CanServe(s, w)
  }

  ghost predicate Pending(s: State, r: nat) {
    r in s.queue || exists w :: Handles(s, w, r)
  }

  /** Requests still to be answered, under contexts that have not run out. */
  ghost function Live(s: State): set<nat> {
    set r | r in s.borrowers && !s.borrowers[r].expired && Pending(s, r)
  }

  /** Workers that can serve beyond the requests there are. */
  ghost function Spare(s: State): int {
    |Able(s)| - |Live(s)|
  }

  /** Only workers act, and r takes its answer. */
  predicate Alone(es: seq<Event>, r: nat) {
    forall i | 0 <= i < |es| :: es[i].Work? || es[i] == Borrow(r, Accept)
  }

  /** The call has returned. */
  predicate Back(s: State, r: nat) {
    r in s.borrowers && (s.borrowers[r].stage.Ended? || s.borrowers[r].stage.Holding?)
  }

  // --- What workers do to both counts -------------------------------------------------------

  /** No other worker uses this one's lease. */
  lemma OtherLease(s: State, w: nat, v: nat)
    requires LeasesExact(s) && w in s.workers && v in s.workers && v != w
    requires s.workers[w].phase.OnLease() && s.workers[v].phase.OnLease()
    ensures s.workers[v].phase.lease != s.workers[w].phase.lease
    ensures s.workers[v].phase.lease in s.channels && s.workers[v].phase.lease < s.nextLease
  {
    assert w in s.leases && v in s.leases;
  }

  lemma OthersAble(s: State, w: nat, task: Task, v: nat)
    requires LeasesExact(s) && Workable(s, w, task) && v != w
    ensures CanServe(Working(s, w, task), v) <==> CanServe(s, v)
  {
    if v in s.workers && s.workers[v].phase.Away() {
      if s.workers[w].phase.OnLease() {
        OtherLease(s, w, v);
      } else {
        assert v in s.leases;
      }
    }
    hide LeasesExact;
  }

  /** Being delivered is the only way a worker becomes unable. */
  lemma OwnAble(s: State, w: nat, task: Task)
    requires LeasesExact(s) && Workable(s, w, task)
    ensures CanServe(Working(s, w, task), w) <==> CanServe(s, w) && !task.Deliver?
    ensures task.Deliver? ==> CanServe(s, w)
  {
    if s.workers[w].phase.OnLease() {
      assert w in s.leases;
    }
  }

  lemma WorkAble(s: State, w: nat, task: Task)
    requires LeasesExact(s) && Workable(s, w, task)
    ensures Able(Working(s, w, task)) == Able(s) - if task.Deliver? then {w} else {}
    ensures task.Deliver? ==> w in Able(s)
  {
    hide LeasesExact, CanServe, Working, Workable;
    OwnAble(s, w, task);
    WorkingKeys(s, w, task);
    WorkerThere(s, w, task);
    forall v ensures v in Able(Working(s, w, task)) <==> v in Able(s) && !(v == w && task.Deliver?) {
      if v != w {
        OthersAble(s, w, task, v);
      }
    }
  }

  lemma WorkerThere(s: State, w: nat, task: Task)
    requires Workable(s, w, task)
    ensures w in s.workers
  {
  }

  /** The request a worker is answering. */
  function RequestOf(s: State, w: nat): nat {
    if w in s.workers && s.workers[w].phase.Answering() then s.workers[w].phase.request else 0
  }

  lemma WorkPending(s: State, w: nat, task: Task, q: nat)
    requires Requests(s) && Workable(s, w, task)
    ensures Pending(Working(s, w, task), q) <==>
              Pending(s, q) && !((task.Deliver? || task.Refuse?) && RequestOf(s, w) == q)
  {
    var t := Working(s, w, task);
    if Pending(s, q) && q !in s.queue {
      var v :| Handles(s, v, q);
      assert v == w || Handles(t, v, q);
      assert v == w && !task.Deliver? && !task.Refuse? ==> Handles(t, w, q);
    }
    if q in s.queue && task.NextRequest? && q == s.queue[0] {
      assert Handles(t, w, q);
    }
    if Pending(t, q) && q !in t.queue {
      var v :| Handles(t, v, q);
      assert v != w ==> Handles(s, v, q);
      assert v == w && !task.NextRequest? ==> Handles(s, w, q);
    }
  }

  lemma WorkLive(s: State, w: nat, task: Task)
    requires Requests(s) && Workable(s, w, task)
    ensures Live(Working(s, w, task)) == Live(s) - if task.Deliver? then {RequestOf(s, w)} else {}
  {
    hide Requests, Pending;
    var t := Working(s, w, task);
    forall q ensures q in Live(t) <==> q in Live(s) && !(task.Deliver? && RequestOf(s, w) == q) {
      WorkPending(s, w, task, q);
    }
  }

  /** A worker's step never adds to what can be spared, and takes from it only by delivering in vain. */
  lemma WorkSpare(s: State, w: nat, task: Task)
    requires Sound(s) && Workable(s, w, task)
    ensures Spare(Working(s, w, task)) ==
              Spare(s) - if task.Deliver? && RequestOf(s, w) !in Live(s) then 1 else 0
    ensures !task.Deliver? ==> Able(Working(s, w, task)) == Able(s) && Live(Working(s, w, task)) == Live(s)
  {
    hide LeasesExact, Exclusive, Requests, Served, InOrder, Able, Live, Working, Workable;
    WorkAble(s, w, task);
    WorkLive(s, w, task);
    if task.Deliver? {
      OneLess(Able(s), w);
      OneLess(Live(s), RequestOf(s, w));
    } else {
      assert Able(s) - {} == Able(s) && Live(s) - {} == Live(s);
    }
  }

  lemma OneLess(a: set<nat>, x: nat)
    ensures |a - {x}| == |a| - if x in a then 1 else 0
  {
    assert x !in a ==> a - {x} == a;
  }

  lemma AcceptSpare(s: State, r: nat)
    requires Movable(s, r, Accept)
    ensures var t := Moving(s, r, Accept);
            && Able(t) == Able(s) && Live(t) == Live(s)
            && t.borrowers.Keys == s.borrowers.Keys && forall q :: Pending(t, q) <==> Pending(s, q)
  {
    var t := Moving(s, r, Accept);
    assert forall w :: CanServe(t, w) <==> CanServe(s, w);
    assert forall w, q :: Handles(t, w, q) <==> Handles(s, w, q);
    assert forall q :: Pending(t, q) <==> Pending(s, q);
    assert Able(t) == Able(s);
  }

  // --- Counting requests against workers ----------------------------------------------------

  /** Workers with a live request in hand. */
  ghost function Engaged(s: State): set<nat> {
    set w | w in s.workers && s.workers[w].phase.Answering() && s.workers[w].phase.request in Live(s)
  }

  ghost function RequestsOf(s: State, ws: set<nat>): set<nat> {
    set w | w in ws :: RequestOf(s, w)
  }

  lemma {:induction false} ImageSize(s: State, ws: set<nat>)
    ensures |RequestsOf(s, ws)| <= |ws|
    decreases |ws|
  {
    if ws != {} {
      var w :| w in ws;
      ImageSize(s, ws - {w});
      assert RequestsOf(s, ws) == RequestsOf(s, ws - {w}) + {RequestOf(s, w)};
    }
  }

  lemma {:induction false} InjectiveImageSize(s: State, ws: set<nat>)
    requires forall v, w | v in ws && w in ws && RequestOf(s, v) == RequestOf(s, w) :: v == w
    ensures |RequestsOf(s, ws)| == |ws|
    decreases |ws|
  {
    if ws != {} {
      var w :| w in ws;
      InjectiveImageSize(s, ws - {w});
      assert RequestsOf(s, ws) == RequestsOf(s, ws - {w}) + {RequestOf(s, w)};
      assert RequestOf(s, w) !in RequestsOf(s, ws - {w});
    }
  }

  lemma LiveInHand(s: State, r: nat, q: nat)
    requires s.queue == [r] && q in Live(s) && q != r
    ensures q in RequestsOf(s, Engaged(s))
  {
    var v :| Handles(s, v, q);
    assert v in Engaged(s) && RequestOf(s, v) == q;
  }

  lemma EngagedAble(s: State, w: nat)
    requires w in s.workers && s.workers[w].phase.Idle?
    ensures Engaged(s) + {w} <= Able(s) && w !in Engaged(s)
  {
    hide Live;
  }

  /** The queue has come down to r: then every live request before it is in some worker's hands. */
  lemma LastInQueue(s: State, r: nat, w: nat)
    requires s.queue == [r] && w in s.workers && s.workers[w].phase.Idle?
    ensures Spare(s) >= 0
  {
    var busy := Engaged(s);
    EngagedAble(s, w);
    hide Engaged, RequestsOf, Able, Live;
    forall q | q in Live(s) ensures q in RequestsOf(s, busy) + {r} {
      if q != r {
        LiveInHand(s, r, q);
      }
    }
    SubsetSize(Live(s), RequestsOf(s, busy) + {r});
    ImageSize(s, busy);
    assert |RequestsOf(s, busy) + {r}| <= |RequestsOf(s, busy)| + 1;
    SubsetSize(busy + {w}, Able(s));
  }

  // --- Nobody to spare: r stays in the queue ---------------------------------------------------

  /** r waits in the queue behind everybody else, and there is nobody to spare for it. */
  ghost predicate Behind(s: State, r: nat) {
    && Spare(s) < 0 && s.queue != [] && s.queue[|s.queue| - 1] == r
    && r in s.borrowers && s.borrowers[r].stage.Waiting? && s.borrowers[r].slot.Empty?
  }

  lemma BehindStep(s: State, e: Event, r: nat)
    requires Sound(s) && Behind(s, r) && (e.Work? || e == Borrow(r, Accept))
    ensures Behind(Next(s, e), r)
  {
    hide LeasesExact, Exclusive, Served, InOrder, Able, Live, Spare, CountedWorkers;
    if e.Work? && Workable(s, e.w, e.task) {
      WorkSpare(s, e.w, e.task);
      if e.task.NextRequest? && |s.queue| == 1 {
        assert s.queue == [r];
        LastInQueue(s, r, e.w);
      }
      assert e.task.Deliver? ==> s.workers[e.w].phase.request !in s.queue;
    }
  }

  lemma {:induction false} StaysBehind(s: State, es: seq<Event>, r: nat)
    requires Sound(s) && Behind(s, r) && Alone(es, r)
    ensures Sound(Run(s, es)) && Behind(Run(s, es), r)
  {
    hide Sound, Behind, Next;
    if es != [] {
      StaysBehind(s, es[..|es| - 1], r);
      BehindStep(Run(s, es[..|es| - 1]), es[|es| - 1], r);
      StepSound(Run(s, es[..|es| - 1]), es[|es| - 1]);
    }
  }

  // --- Somebody to spare: a schedule that serves r ------------------------------------------------

  /** On its way to being idle, without answering a live request. */
  ghost predicate Freeing(s: State, w: nat) {
    && CanServe(s, w)
    && (s.workers[w].phase.Answering() ==>
          var q := s.workers[w].phase.request; q in s.borrowers && s.borrowers[q].expired)
  }

  function Rank(p: Phase): nat {
    match p
    case Idle => 0
    case Refused(_) => 1
    case Leased(_, _) => 2
    case Taken(_) => 3
    case Unlisted(_) => 1
    case Received(_, _) => 2
    case Lent(_) => 3
    case Sent(_) => 4
  }

  /** The task that takes a worker towards being idle. */
  function NextTask(p: Phase): Task {
    match p
    case Idle => NextRequest
    case Taken(_) => Checkout
    case Leased(_, _) => Refuse
    case Refused(_) => CancelLease
    case Sent(_) => CountLease
    case Lent(_) => Collect
    case Received(_, _) => Unlist
    case Unlisted(_) => Settle
  }

  lemma FreeingStep(s: State, w: nat)
    requires Sound(s) && Freeing(s, w) && !s.workers[w].phase.Idle?
    ensures var task := NextTask(s.workers[w].phase);
            && Workable(s, w, task) && !task.Deliver?
            && var t := Working(s, w, task);
               && w in t.workers && Freeing(t, w) && Rank(t.workers[w].phase) < Rank(s.workers[w].phase)
               && t.queue == s.queue && t.borrowers == s.borrowers
  {
    hide Exclusive, Requests, Served, InOrder, CountedWorkers;
    if s.workers[w].phase.OnLease() {
      assert w in s.leases;
    }
  }

  lemma {:induction false} BringIdle(s: State, w: nat, r: nat) returns (es: seq<Event>)
    requires Sound(s) && Freeing(s, w)
    ensures Alone(es, r)
    ensures var t := Run(s, es);
            && Sound(t) && w in t.workers && t.workers[w].phase.Idle?
            && t.queue == s.queue && t.borrowers == s.borrowers && Spare(t) == Spare(s)
    decreases Rank(s.workers[w].phase)
  {
    hide Sound, Run, Able, Live;
    if s.workers[w].phase.Idle? {
      RunEmpty(s);
      es := [];
    } else {
      var task := NextTask(s.workers[w].phase);
      FreeingStep(s, w);
      hide Freeing, NextTask, Rank, Workable, Working;
      WorkSpare(s, w, task);
      var t := Next(s, Work(w, task));
      StepSound(s, Work(w, task));
      var rest := BringIdle(t, w, r);
      RunOne(s, Work(w, task));
      RunAppend(s, [Work(w, task)], rest);
      es := [Work(w, task)] + rest;
    }
  }

  /** With workers to spare and r still queued, one of them is or can become idle. */
  lemma SomebodyFree(s: State, r: nat) returns (w: nat)
    requires Sound(s) && Spare(s) >= 0 && r in s.queue && r in Live(s)
    ensures Freeing(s, w)
  {
    hide LeasesExact, Exclusive, Served, InOrder, CountedWorkers;
    var busy := Engaged(s);
    InjectiveImageSize(s, busy);
    forall q | q in RequestsOf(s, busy) ensures q in Live(s) - {r} {
    }
    SubsetSize(RequestsOf(s, busy), Live(s) - {r});
    OneLess(Live(s), r);
    if Able(s) <= busy {
      SubsetSize(Able(s), busy);
    }
    w :| w in Able(s) && w !in busy;
    if s.workers[w].phase.Answering() {
      assert Handles(s, w, s.workers[w].phase.request);
      assert Open(s, s.workers[w].phase.request);
    }
  }

  /** The pool is sound still, and as many workers can be spared. */
  ghost predicate Level(s: State, t: State) {
    Sound(t) && Spare(t) == Spare(s)
  }

  lemma DeliverLevel(s: State, w: nat)
    requires Sound(s) && Workable(s, w, Deliver) && RequestOf(s, w) in Live(s)
    ensures Level(s, Next(s, Work(w, Deliver)))
  {
    hide Sound, Live, Spare, Working;
    StepSound(s, Work(w, Deliver));
    WorkSpare(s, w, Deliver);
  }

  lemma WorkLevel(s: State, w: nat, task: Task)
    requires Sound(s) && Workable(s, w, task) && !task.Deliver?
    ensures Level(s, Next(s, Work(w, task)))
  {
    hide Sound, Live, Spare, Working;
    StepSound(s, Work(w, task));
    WorkSpare(s, w, task);
  }

  lemma AcceptLevel(s: State, r: nat)
    requires Sound(s) && Movable(s, r, Accept)
    ensures Level(s, Next(s, Borrow(r, Accept))) && Back(Next(s, Borrow(r, Accept)), r)
  {
    hide Sound, Able, Live;
    StepSound(s, Borrow(r, Accept));
    AcceptSpare(s, r);
  }

  /** r is in a worker's hands: it delivers, and r takes the object. */
  lemma ServeNow(s: State, w: nat, r: nat) returns (es: seq<Event>)
    requires Sound(s) && Handles(s, w, r) && r in s.borrowers && s.borrowers[r].stage.Waiting? && !s.borrowers[r].expired
    ensures Alone(es, r) && Back(Run(s, es), r) && Level(s, Run(s, es))
    decreases if s.workers[w].phase.Taken? then 1 else 0
  {
    hide Run, Sound, Level, Able, Live, Spare;
    if s.workers[w].phase.Taken? {
      var t := Next(s, Work(w, Checkout));
      WorkLevel(s, w, Checkout);
      LevelMeans(s, t);
      var rest := ServeNow(t, w, r);
      RunOne(s, Work(w, Checkout));
      RunAppend(s, [Work(w, Checkout)], rest);
      es := [Work(w, Checkout)] + rest;
      LevelOn(s, t, Run(s, es));
    } else {
      DeliverNow(s, w, r);
      var t := Next(s, Work(w, Deliver));
      LevelMeans(s, t);
      AcceptLevel(t, r);
      RunOne(s, Work(w, Deliver));
      RunLast(s, [Work(w, Deliver)], Borrow(r, Accept));
      es := [Work(w, Deliver)] + [Borrow(r, Accept)];
      LevelOn(s, t, Run(s, es));
    }
  }

  lemma LevelMeans(s: State, t: State)
    requires Level(s, t)
    ensures Sound(t) && Spare(t) == Spare(s)
  {
  }

  lemma LevelOn(s: State, t: State, u: State)
    requires Level(s, t) && Level(t, u)
    ensures Level(s, u)
  {
  }

  lemma DeliverNow(s: State, w: nat, r: nat)
    requires Sound(s) && Handles(s, w, r) && s.workers[w].phase.Leased?
    requires r in s.borrowers && s.borrowers[r].stage.Waiting? && !s.borrowers[r].expired
    ensures var t := Next(s, Work(w, Deliver)); Level(s, t) && Movable(t, r, Accept)
  {
    hide Spare, LeasesExact, Exclusive, Served, InOrder, CountedWorkers;
    assert Open(s, r) && Single(s.borrowers[r]);
    assert Pending(s, r);
    hide Sound, Live, Level, Pending;
    assert r in Live(s) by { PendingLive(s, r); }
    DeliverLevel(s, w);
  }

  lemma PendingLive(s: State, r: nat)
    requires r in s.borrowers && !s.borrowers[r].expired && Pending(s, r)
    ensures r in Live(s)
  {
  }

  /** r waits under a live context, and there are workers to spare or r has its answer. */
  ghost predicate Hopeful(s: State, r: nat) {
    && r in s.borrowers && s.borrowers[r].stage.Waiting? && !s.borrowers[r].expired
    && (Spare(s) >= 0 || !s.borrowers[r].slot.Empty?)
  }

  lemma {:induction false} ServeInTurn(s: State, r: nat) returns (es: seq<Event>)
    requires Sound(s) && Hopeful(s, r)
    ensures Alone(es, r) && Back(Run(s, es), r) && Level(s, Run(s, es))
    decreases |s.queue|
  {
    hide LeasesExact, Exclusive, Requests, InOrder, CountedWorkers, Run, Able, Spare, Level;
    if !s.borrowers[r].slot.Empty? {
      AcceptLevel(s, r);
      RunOne(s, Borrow(r, Accept));
      es := [Borrow(r, Accept)];
    } else if w :| Handles(s, w, r) {
      es := ServeNow(s, w, r);
    } else {
      assert Waited(s, r);
      assert Pending(s, r);
      hide Served;
      var w := SomebodyFree(s, r);
      hide Freeing;
      var freed := BringIdle(s, w, r);
      var t := Run(s, freed);
      es := TakeNext(s, freed, t, w, r);
    }
  }

  /** The freed worker takes the next request, which leaves fewer before r. */
  lemma TakeNext(s: State, freed: seq<Event>, t: State, w: nat, r: nat) returns (es: seq<Event>)
    requires Sound(t) && t == Run(s, freed) && Alone(freed, r)
    requires w in t.workers && t.workers[w].phase.Idle? && t.queue == s.queue != []
    requires Hopeful(t, r) && t.borrowers[r].slot.Empty? && Spare(t) == Spare(s)
    ensures Alone(es, r) && Back(Run(s, es), r) && Level(s, Run(s, es))
    decreases |s.queue|, 0
  {
    hide Sound, Run, Able, Live;
    var u := Next(t, Work(w, NextRequest));
    WorkSpare(t, w, NextRequest);
    StepSound(t, Work(w, NextRequest));
    assert Spare(u) == Spare(t);
    var rest := ServeInTurn(u, r);
    RunLast(s, freed, Work(w, NextRequest));
    RunAppend(s, freed + [Work(w, NextRequest)], rest);
    es := freed + [Work(w, NextRequest)] + rest;
  }

  // --- The call --------------------------------------------------------------------------------

  lemma Queued(s: State, r: nat)
    requires Sound(s) && r !in s.borrowers && |s.queue| < s.queueSize
    ensures var t := Next(s, TryGet(r));
            && Able(t) == Able(s) && Live(t) == Live(s) + {r} && r !in Live(s)
            && t.queue == s.queue + [r] && r in t.borrowers && t.borrowers[r].stage.Waiting?
            && t.borrowers[r].slot.Empty? && !t.borrowers[r].expired
            && t.borrowers.Keys == s.borrowers.Keys + {r} && forall q :: Pending(t, q) <==> Pending(s, q) || q == r
  {
    hide LeasesExact, Exclusive, Served, InOrder, CountedWorkers;
    var t := Next(s, TryGet(r));
    assert forall w, q :: Handles(t, w, q) <==> Handles(s, w, q);
    assert forall w :: CanServe(t, w) <==> CanServe(s, w);
    forall q ensures Pending(t, q) <==> Pending(s, q) || q == r {
    }
    forall q | q in s.queue ensures q in s.borrowers {
      assert Open(s, q);
    }
    assert forall w | w in s.workers && s.workers[w].phase.Answering() :: Open(s, s.workers[w].phase.request);
  }

  ghost predicate CanReturn(s: State, r: nat) {
    exists es :: Alone(es, r) && Back(Run(Next(s, TryGet(r)), es), r)
  }

  /**
   TryGet is said not to block. It can come back without any other borrower's doing exactly
   if the queue is full, or more workers can serve than there are live requests before it;
   otherwise it waits until somebody returns an object.
   */
  lemma TryGetCanReturnExactly(s: State, r: nat)
    requires Sound(s) && r !in s.borrowers
    ensures CanReturn(s, r) <==> |s.queue| >= s.queueSize || Spare(s) > 0
  {
    hide *;
    if |s.queue| >= s.queueSize {
      FullReturns(s, r);
    } else if Spare(s) > 0 {
      SpareReturns(s, r);
    } else {
      NoneToSpareWaits(s, r);
    }
  }

  lemma FullReturns(s: State, r: nat)
    requires r !in s.borrowers && |s.queue| >= s.queueSize
    ensures CanReturn(s, r)
  {
    var t := Next(s, TryGet(r));
    hide Run;
    RunEmpty(t);
    assert Alone([], r) && Back(Run(t, []), r);
  }

  lemma SpareReturns(s: State, r: nat)
    requires Sound(s) && r !in s.borrowers && |s.queue| < s.queueSize && Spare(s) > 0
    ensures CanReturn(s, r)
  {
    hide Sound, Run, Able, Live, Next, Alone, Back;
    StepSound(s, TryGet(r));
    Queued(s, r);
    assert |Live(s) + {r}| == |Live(s)| + 1;
    var es := ServeInTurn(Next(s, TryGet(r)), r);
  }

  lemma NoneToSpareWaits(s: State, r: nat)
    requires Sound(s) && r !in s.borrowers && |s.queue| < s.queueSize && Spare(s) <= 0
    ensures !CanReturn(s, r)
  {
    hide Sound, Run, Able, Live, Next, Alone;
    var t := Next(s, TryGet(r));
    StepSound(s, TryGet(r));
    Queued(s, r);
    assert |Live(s) + {r}| == |Live(s)| + 1;
    assert Behind(t, r);
    forall es | Alone(es, r) ensures !Back(Run(t, es), r) {
      StaysBehind(t, es, r);
    }
  }

  /** Every object TryGet obtains leaves fewer to spare. */
  lemma {:induction false} ObtainingUsesOne(s: State, r: nat, es: seq<Event>)
    requires Sound(s) && r !in s.borrowers && |s.queue| < s.queueSize && Alone(es, r)
    ensures var t := Run(Next(s, TryGet(r)), es); Sound(t) && Spare(t) <= Spare(s) - 1
  {
    hide Sound, Run, Able, Live, Next;
    StepSound(s, TryGet(r));
    Queued(s, r);
    assert |Live(s) + {r}| == |Live(s)| + 1;
    AloneSpare(Next(s, TryGet(r)), r, es);
  }

  lemma {:induction false} AloneSpare(s: State, r: nat, es: seq<Event>)
    requires Sound(s) && Alone(es, r)
    ensures Sound(Run(s, es)) && Spare(Run(s, es)) <= Spare(s)
  {
    hide Sound, Able, Live, Spare;
    if es != [] {
      var before, e := Run(s, es[..|es| - 1]), es[|es| - 1];
      AloneSpare(s, r, es[..|es| - 1]);
      StepSound(before, e);
      AloneStepSpare(before, r, e);
    }
  }

  lemma AloneStepSpare(s: State, r: nat, e: Event)
    requires Sound(s) && (e.Work? || e == Borrow(r, Accept))
    ensures Spare(Next(s, e)) <= Spare(s)
  {
    hide Sound, Able, Live, Moving, Working, Movable, Workable;
    if e.Work? {
      if Workable(s, e.w, e.task) {
        WorkSpare(s, e.w, e.task);
      }
    } else if Movable(s, r, Accept) {
      AcceptSpare(s, r);
    }
  }
}
