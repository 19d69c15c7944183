/**
 Whether TryGet and TryGetMany block: what becomes of a call in every schedule of the
 workers that is run to its end, and how many objects calls in a row obtain.
 */
module PoolBlocking {
  import opened PoolModel
  import opened PoolLending
  import opened PoolLosses
  import opened PoolWaiting
  import opened PoolCalls

  /** Requests still to be answered, whether their contexts live or not. */
  ghost function Unanswered(s: State): set<nat> {
    set q | q in s.borrowers && Pending(s, q)
  }

  /** Workers that can serve beyond all the requests there are. */
  ghost function Slack(s: State): int {
    |Able(s)| - |Unanswered(s)|
  }

  /** No worker can do anything, and r has nothing to accept. */
  ghost predicate Final(s: State, r: nat) {
    (forall w, task :: !Workable(s, w, task)) && !Movable(s, r, Accept)
  }

  // --- What the steps do to the slack --------------------------------------------------------

  lemma Unanswering(s: State, w: nat, task: Task)
    requires Requests(s) && Workable(s, w, task)
    ensures Unanswered(Working(s, w, task)) ==
              Unanswered(s) - if task.Deliver? || task.Refuse? then {RequestOf(s, w)} else {}
    ensures task.Deliver? || task.Refuse? ==> RequestOf(s, w) in Unanswered(s)
  {
    WorkingStages(s, w, task);
    if task.Deliver? || task.Refuse? {
      assert Handles(s, w, RequestOf(s, w)) && Open(s, RequestOf(s, w));
    }
    hide Requests, Pending, Working, Workable;
    var t := Working(s, w, task);
    forall q ensures q in Unanswered(t) <==> q in Unanswered(s) && !((task.Deliver? || task.Refuse?) && RequestOf(s, w) == q) {
      WorkPending(s, w, task, q);
    }
  }

  /** Delivering takes a worker and a request; refusing takes a request only. */
  lemma WorkSlack(s: State, w: nat, task: Task)
    requires Sound(s) && Workable(s, w, task)
    ensures Slack(Working(s, w, task)) == Slack(s) + if task.Refuse? then 1 else 0
  {
    hide LeasesExact, Exclusive, Requests, Served, InOrder, CountedWorkers, Able, Unanswered, Working, Workable, RequestOf;
    WorkAble(s, w, task);
    Unanswering(s, w, task);
    OneLess(Able(s), w);
    OneLess(Unanswered(s), RequestOf(s, w));
    assert Able(s) - {} == Able(s) && Unanswered(s) - {} == Unanswered(s);
  }

  lemma AcceptSlack(s: State, r: nat)
    requires Movable(s, r, Accept)
    ensures Slack(Moving(s, r, Accept)) == Slack(s)
  {
    hide Able, Pending, Moving, Movable;
    AcceptSpare(s, r);
    assert Unanswered(Moving(s, r, Accept)) == Unanswered(s);
  }

  predicate IsRefusal(s: State, e: Event) {
    e.Work? && e.task.Refuse? && Workable(s, e.w, e.task)
  }

  /** How many requests the workers refuse on the way. */
  function Refusals(s: State, es: seq<Event>): nat {
    if es == [] then 0
    else Refusals(s, es[..|es| - 1]) + if IsRefusal(Run(s, es[..|es| - 1]), es[|es| - 1]) then 1 else 0
  }

  lemma StepSlack(s: State, e: Event, r: nat)
    requires Sound(s) && (e.Work? || e == Borrow(r, Accept))
    ensures Slack(Next(s, e)) == Slack(s) + if IsRefusal(s, e) then 1 else 0
  {
    hide Sound, Slack, Moving, Working, Movable, Workable;
    if e.Work? {
      if Workable(s, e.w, e.task) {
        WorkSlack(s, e.w, e.task);
      }
    } else if Movable(s, r, Accept) {
      AcceptSlack(s, r);
    }
  }

  lemma {:induction false} AloneSlack(s: State, r: nat, es: seq<Event>)
    requires Sound(s) && Alone(es, r)
    ensures Sound(Run(s, es)) && Slack(Run(s, es)) == Slack(s) + Refusals(s, es)
  {
    hide Sound, Slack, Next, IsRefusal;
    if es != [] {
      var before, e := Run(s, es[..|es| - 1]), es[|es| - 1];
      AloneSlack(s, r, es[..|es| - 1]);
      StepSound(before, e);
      StepSlack(before, e, r);
    }
  }

  // --- The end of a schedule ------------------------------------------------------------------

  /** r was the last to join the queue. */
  predicate Tail(s: State, r: nat) {
    s.queue == [] || s.queue[|s.queue| - 1] == r
  }

  lemma {:induction false} AloneTail(s: State, r: nat, es: seq<Event>)
    requires Tail(s, r) && Alone(es, r)
    ensures Tail(Run(s, es), r)
  {
    hide Next, Tail;
    if es != [] {
      AloneTail(s, r, es[..|es| - 1]);
      StepTail(Run(s, es[..|es| - 1]), r, es[|es| - 1]);
    }
  }

  lemma StepTail(s: State, r: nat, e: Event)
    requires Tail(s, r) && (e.Work? || e == Borrow(r, Accept))
    ensures Tail(Next(s, e), r)
  {
  }

  /** What a worker that can serve does next, as long as there are requests. */
  lemma AbleWorks(s: State, w: nat)
    requires LeasesExact(s) && Requests(s) && CanServe(s, w) && s.queue != []
    ensures exists task :: Workable(s, w, task)
  {
    var p := s.workers[w].phase;
    if p.OnLease() {
      assert w in s.leases;
    }
    hide LeasesExact, Requests;
    match p
    case Idle => assert Workable(s, w, NextRequest);
    case Taken(_) => assert Workable(s, w, Checkout);
    case Leased(q, _) => LeasedDelivers(s, w);
    case Refused(_) => assert Workable(s, w, CancelLease);
    case Sent(_) => assert Workable(s, w, CountLease);
    case Lent(_) => assert Workable(s, w, Collect);
    case Received(_, _) => assert Workable(s, w, Unlist);
    case Unlisted(_) => assert Workable(s, w, Settle);
  }

  lemma LeasedDelivers(s: State, w: nat)
    requires Requests(s) && w in s.workers && s.workers[w].phase.Leased?
    ensures Workable(s, w, Deliver)
  {
    assert Open(s, s.workers[w].phase.request) && Single(s.borrowers[s.workers[w].phase.request]);
  }

  lemma HandlerWorks(s: State, w: nat, q: nat)
    requires Requests(s) && Handles(s, w, q)
    ensures exists task :: Workable(s, w, task)
  {
    if s.workers[w].phase.Leased? {
      LeasedDelivers(s, w);
    } else {
      assert Workable(s, w, Checkout);
    }
  }

  /** At the end nobody has a request in hand. */
  lemma NoneInHand(s: State, r: nat, w: nat, q: nat)
    requires Requests(s) && Final(s, r)
    ensures !Handles(s, w, q)
  {
    hide Requests, Handles, Workable;
    if Handles(s, w, q) {
      HandlerWorks(s, w, q);
    }
  }

  /** At the end either no worker is left that can serve, or no request. */
  lemma EndedEither(s: State, r: nat)
    requires Sound(s) && Final(s, r)
    ensures s.queue == [] || Able(s) == {}
    ensures forall q :: q in Unanswered(s) <==> q in s.queue
  {
    hide LeasesExact, Exclusive, Requests, Served, InOrder, CountedWorkers;
    if s.queue != [] && Able(s) != {} {
      var w :| w in Able(s);
      AbleWorks(s, w);
    }
    hide CanServe, Workable;
    forall q ensures q in Unanswered(s) <==> q in s.queue {
      forall w ensures !Handles(s, w, q) {
        NoneInHand(s, r, w, q);
      }
      hide Final;
      if q in s.queue {
        QueuedKnown(s, q);
      }
    }
  }

  lemma QueuedKnown(s: State, q: nat)
    requires Requests(s) && q in s.queue
    ensures q in s.borrowers && !s.borrowers[q].stage.Holding?
  {
    assert Open(s, q);
  }

  /** r waits or has its object, under a context that does not run out, and nobody queued after it. */
  ghost predicate Underway(s: State, r: nat) {
    && r in s.borrowers && !s.borrowers[r].slot.Failure? && !s.borrowers[r].expired
    && (s.borrowers[r].stage.Waiting? || s.borrowers[r].stage.Holding?)
    && Tail(s, r)
  }

  lemma StaysUnderway(s: State, r: nat, es: seq<Event>)
    requires Sound(s) && Underway(s, r) && Alone(es, r)
    ensures Underway(Run(s, es), r)
  {
    hide Sound, Run, Tail;
    TryGetNeverFailed(s, r, es);
    AloneTail(s, r, es);
  }

  /** At the end the call is back exactly if there was a worker for every request. */
  lemma EndedBack(s: State, r: nat)
    requires Sound(s) && Final(s, r) && Underway(s, r)
    ensures Back(s, r) <==> Slack(s) >= 0
  {
    EndedEither(s, r);
    hide LeasesExact, Exclusive, Requests, InOrder, CountedWorkers, Able, CanServe, Workable;
    if s.borrowers[r].stage.Waiting? {
      assert Waited(s, r);
      assert r in Unanswered(s);
      assert |Able(s)| == 0 && |Unanswered(s)| > 0;
    } else {
      if s.queue != [] {
        QueuedKnown(s, r);
      }
      assert Unanswered(s) == {};
    }
  }

  // --- Schedules end -----------------------------------------------------------------------------

  /** Steps to being idle again. */
  function Distance(p: Phase): nat {
    match p
    case Idle => 0
    case Refused(_) => 1
    case Unlisted(_) => 1
    case Received(_, _) => 2
    case Lent(_) => 3
    case Sent(_) => 4
    case Leased(_, _) => 5
    case Taken(_) => 6
  }

  ghost function Ahead(s: State): set<(nat, nat)> {
    set w, k: nat | w in s.workers && k < Distance(s.workers[w].phase) :: (w, k)
  }

  /** More than the workers can still do. */
  ghost function WorkLeft(s: State): nat {
    7 * |s.queue| + |Ahead(s)|
  }

  lemma DistanceAfter(s: State, w: nat, task: Task)
    requires Workable(s, w, task)
    ensures var t := Working(s, w, task);
            && t.workers == s.workers[w := t.workers[w]]
            && |t.queue| == |s.queue| - (if task.NextRequest? then 1 else 0)
            && (!task.NextRequest? ==> Distance(t.workers[w].phase) < Distance(s.workers[w].phase))
  {
  }

  lemma AheadDown(s: State, t: State, w: nat)
    requires w in s.workers && w in t.workers && t.workers == s.workers[w := t.workers[w]]
    requires Distance(t.workers[w].phase) < Distance(s.workers[w].phase)
    ensures |Ahead(t)| < |Ahead(s)|
  {
    hide Distance;
    var last := (w, Distance(s.workers[w].phase) - 1);
    assert last in Ahead(s) && last !in Ahead(t);
    SubsetSize(Ahead(t), Ahead(s) - {last});
  }

  lemma AheadUp(s: State, t: State, w: nat)
    requires w in s.workers && w in t.workers && t.workers == s.workers[w := t.workers[w]]
    ensures |Ahead(t)| <= |Ahead(s)| + 6
  {
    var six := {(w, 0), (w, 1), (w, 2), (w, 3), (w, 4), (w, 5)};
    forall p | p in Ahead(t) ensures p in Ahead(s) + six {
      assert p.0 == w ==> p.1 < 6;
    }
    SubsetSize(Ahead(t), Ahead(s) + six);
    hide Ahead;
    assert |Ahead(s) + six| <= |Ahead(s)| + |six|;
  }

  lemma WorkGoesDown(s: State, w: nat, task: Task)
    requires Workable(s, w, task)
    ensures WorkLeft(Working(s, w, task)) < WorkLeft(s)
  {
    hide Ahead, Working;
    DistanceAfter(s, w, task);
    WorkingKeys(s, w, task);
    if task.NextRequest? {
      AheadUp(s, Working(s, w, task), w);
    } else {
      AheadDown(s, Working(s, w, task), w);
    }
  }

  /** What is still to come: of the workers, and the call's acceptance of its answer. */
  ghost function StepsLeft(s: State, r: nat): nat {
    WorkLeft(s) + if r in s.borrowers && s.borrowers[r].stage.Waiting? then 1 else 0
  }

  predicate Possible(s: State, e: Event) {
    match e
    case Borrow(r, move) => Movable(s, r, move)
    case Work(w, task) => Workable(s, w, task)
    case _ => false
  }

  ghost predicate AllPossible(s: State, es: seq<Event>) {
    es == [] || (AllPossible(s, es[..|es| - 1]) && Possible(Run(s, es[..|es| - 1]), es[|es| - 1]))
  }

  lemma StepGoesDown(s: State, r: nat, e: Event)
    requires Possible(s, e) && (e.Work? || e == Borrow(r, Accept))
    ensures StepsLeft(Next(s, e), r) < StepsLeft(s, r)
  {
    if e.Work? {
      WorkGoesDown(s, e.w, e.task);
      WorkingStages(s, e.w, e.task);
      hide Working, Workable, WorkLeft;
    } else {
      assert Ahead(Next(s, e)) == Ahead(s);
    }
  }

  /** No schedule goes on for ever: it has at most so many steps. */
  lemma {:induction false} SchedulesEnd(s: State, r: nat, es: seq<Event>)
    requires Alone(es, r) && AllPossible(s, es)
    ensures |es| + StepsLeft(Run(s, es), r) <= StepsLeft(s, r)
  {
    hide Next, StepsLeft, Possible;
    if es != [] {
      SchedulesEnd(s, r, es[..|es| - 1]);
      StepGoesDown(Run(s, es[..|es| - 1]), r, es[|es| - 1]);
    }
  }

  /** A step that is no refusal, unless the end is reached: who can refuse can deliver. */
  lemma StepOn(s: State, r: nat) returns (e: Event)
    requires Sound(s) && !Final(s, r)
    ensures (e.Work? || e == Borrow(r, Accept)) && Possible(s, e) && !IsRefusal(s, e)
  {
    hide LeasesExact, Exclusive, Requests, Served, InOrder, CountedWorkers;
    if Movable(s, r, Accept) {
      e := Borrow(r, Accept);
    } else {
      var w, task :| Workable(s, w, task);
      if task.Refuse? {
        LeasedDelivers(s, w);
        e := Work(w, Deliver);
      } else {
        e := Work(w, task);
      }
    }
  }

  /** From every state a schedule without refusals runs to its end. */
  lemma {:induction false} RunOut(s: State, r: nat) returns (es: seq<Event>)
    requires Sound(s)
    ensures Alone(es, r) && Sound(Run(s, es)) && Final(Run(s, es), r) && Slack(Run(s, es)) == Slack(s)
    decreases StepsLeft(s, r)
  {
    hide *;
    if Final(s, r) {
      RunEmpty(s);
      es := [];
      NothingAlone(r);
    } else {
      var e := StepOn(s, r);
      StepSound(s, e);
      StepSlack(s, e, r);
      StepGoesDown(s, r, e);
      var rest := RunOut(Next(s, e), r);
      RunOne(s, e);
      RunAppend(s, [e], rest);
      AloneFirst(e, rest, r);
      es := [e] + rest;
    }
  }

  lemma NothingAlone(r: nat)
    ensures Alone([], r)
  {
  }

  lemma AloneFirst(e: Event, es: seq<Event>, r: nat)
    requires Alone(es, r) && (e.Work? || e == Borrow(r, Accept))
    ensures Alone([e] + es, r)
  {
  }

  // --- One call ------------------------------------------------------------------------------------

  lemma TryGetUnderway(s: State, r: nat)
    requires Sound(s) && r !in s.borrowers && |s.queue| < s.queueSize
    ensures var t := Next(s, TryGet(r)); Sound(t) && Underway(t, r) && Slack(t) == Slack(s) - 1
  {
    hide Sound, Able, Pending;
    var t := Next(s, TryGet(r));
    StepSound(s, TryGet(r));
    Queued(s, r);
    assert Unanswered(t) == Unanswered(s) + {r} && r !in Unanswered(s);
  }

  /**
   A schedule of the workers that is run to its end: the call is back exactly if workers
   were left over for it when it came, or by way of requests refused.
   */
  lemma EndsBackExactly(s: State, r: nat, es: seq<Event>)
    requires Sound(s) && r !in s.borrowers && |s.queue| < s.queueSize
    requires Alone(es, r) && Final(Run(Next(s, TryGet(r)), es), r)
    ensures Back(Run(Next(s, TryGet(r)), es), r) <==> Slack(s) + Refusals(Next(s, TryGet(r)), es) > 0
  {
    hide *;
    var t := Next(s, TryGet(r));
    TryGetUnderway(s, r);
    AloneSlack(t, r, es);
    StaysUnderway(t, r, es);
    EndedBack(Run(t, es), r);
  }

  /** Whatever the workers do: when nothing more can happen the call is back. */
  ghost predicate AlwaysReturns(s: State, r: nat) {
    forall es :: Alone(es, r) && Final(Run(Next(s, TryGet(r)), es), r) ==> Back(Run(Next(s, TryGet(r)), es), r)
  }

  /**
   TryGet is said not to block. It comes back in every schedule of the workers exactly if
   the queue is full, or more workers can serve than there are requests before it, those
   of borrowers whose context has run out included.
   */
  lemma TryGetReturnsExactly(s: State, r: nat)
    requires Sound(s) && r !in s.borrowers
    ensures AlwaysReturns(s, r) <==> |s.queue| >= s.queueSize || Slack(s) > 0
  {
    hide Sound, Run, Next, Final, Slack, Back, Alone;
    var t := Next(s, TryGet(r));
    if |s.queue| >= s.queueSize {
      forall es | Alone(es, r) ensures Back(Run(t, es), r) {
        FullEnds(s, r, es);
      }
    } else if Slack(s) > 0 {
      forall es | Alone(es, r) && Final(Run(t, es), r) ensures Back(Run(t, es), r) {
        EndsBackExactly(s, r, es);
      }
    } else {
      TryGetUnderway(s, r);
      var es := RunOut(t, r);
      StaysUnderway(t, r, es);
      EndedBack(Run(t, es), r);
    }
  }

  lemma FullEnds(s: State, r: nat, es: seq<Event>)
    requires Sound(s) && r !in s.borrowers && |s.queue| >= s.queueSize && Alone(es, r)
    ensures Back(Run(Next(s, TryGet(r)), es), r)
  {
    hide Sound, Run, Alone;
    StepSound(s, TryGet(r));
    EndedStays(Next(s, TryGet(r)), r, es);
  }

  lemma TryGetEnds(s: State, call: nat, es: seq<Event>)
    requires Sound(s) && call !in s.borrowers && Alone(es, call)
    ensures var t := Run(Next(s, TryGet(call)), es);
            && call in t.borrowers
            && (|s.queue| >= s.queueSize ==> t.borrowers[call].stage.Ended?)
            && (|s.queue| < s.queueSize ==>
                  && (t.borrowers[call].stage.Waiting? || t.borrowers[call].stage.Holding?)
                  && Spare(t) < Spare(s) && (t.borrowers[call].stage.Holding? ==> Spare(s) > 0))
  {
    hide Sound, Run, Spare, Alone;
    StepSound(s, TryGet(call));
    TryGetCanReturnExactly(s, call);
    assert Back(Run(Next(s, TryGet(call)), es), call) ==> CanReturn(s, call);
    if |s.queue| >= s.queueSize {
      EndedStays(Next(s, TryGet(call)), call, es);
    } else {
      TryGetNeverFailed(Next(s, TryGet(call)), call, es);
      ObtainingUsesOne(s, call, es);
    }
  }

  lemma {:induction false} EndedStays(s: State, r: nat, es: seq<Event>)
    requires Sound(s) && r in s.borrowers && s.borrowers[r].stage.Ended? && Alone(es, r)
    ensures r in Run(s, es).borrowers && Run(s, es).borrowers[r].stage.Ended?
  {
    hide Sound, Next;
    if es != [] {
      EndedStays(s, r, es[..|es| - 1]);
      EndedStep(Run(s, es[..|es| - 1]), r, es[|es| - 1]);
    }
  }

  lemma EndedStep(s: State, r: nat, e: Event)
    requires r in s.borrowers && s.borrowers[r].stage.Ended? && (e.Work? || e == Borrow(r, Accept))
    ensures r in Next(s, e).borrowers && Next(s, e).borrowers[r].stage.Ended?
  {
  }

  /**
   The two conditions differ: with a request queued whose context has run out, and one
   worker, the worker may refuse it and serve the call, or deliver to it in vain.
   */
  lemma ReturnsOnlySometimes()
    ensures var s := Run(NewPool(1, 2), DeadRequest(0));
            |s.queue| < s.queueSize && CanReturn(s, 1) && !AlwaysReturns(s, 1)
  {
    hide Run, Sound, Able, Live, Unanswered;
    var s := Run(NewPool(1, 2), DeadRequest(0));
    RunSound(1, 2, DeadRequest(0));
    RunThree(NewPool(1, 2), Get(0, true), Borrow(0, Enqueue), Borrow(0, Expire));
    OneDeadCounted(s);
    TryGetCanReturnExactly(s, 1);
    TryGetReturnsExactly(s, 1);
  }

  lemma OneDeadCounted(s: State)
    requires s.workers == map[0 := Worker(0, Idle)] && s.queue == [0]
    requires s.borrowers.Keys == {0} && s.borrowers[0].expired
    ensures Able(s) == {0} && Live(s) == {} && Unanswered(s) == {0}
  {
    assert Pending(s, 0);
  }

  // --- Calls in a row --------------------------------------------------------------------------

  /** The call has its object. */
  predicate Holds(s: State, r: nat) {
    r in s.borrowers && s.borrowers[r].stage.Holding?
  }

  /** The pool after k calls of TryGet, each with what the workers and the call itself do until the next. */
  function Tries(s: State, first: nat, es: nat -> seq<Event>, k: nat): State {
    if k == 0 then s else Run(Next(Tries(s, first, es, k - 1), TryGet(first + k - 1)), es(k - 1))
  }

  /** Each of them obtains an object. */
  predicate Obtains(s: State, first: nat, es: nat -> seq<Event>, k: nat) {
    k == 0 || (Obtains(s, first, es, k - 1) && Holds(Tries(s, first, es, k), first + k - 1))
  }

  /** Each of them is given all the time it can use. */
  ghost predicate RunToTheEnd(s: State, first: nat, es: nat -> seq<Event>, k: nat) {
    k == 0 || (RunToTheEnd(s, first, es, k - 1) && Final(Tries(s, first, es, k), first + k - 1))
  }

  ghost predicate Unrefused(s: State, first: nat, es: nat -> seq<Event>, k: nat) {
    k == 0 || (Unrefused(s, first, es, k - 1) && Refusals(Next(Tries(s, first, es, k - 1), TryGet(first + k - 1)), es(k - 1)) == 0)
  }

  ghost predicate Scheduled(es: nat -> seq<Event>, first: nat) {
    forall i: nat :: Alone(es(i), first + i)
  }

  ghost predicate Fresh(s: State, first: nat) {
    forall r | r in s.borrowers :: r < first
  }

  lemma OneTry(s: State, r: nat, es: seq<Event>)
    requires Sound(s) && Fresh(s, r) && Alone(es, r)
    ensures var t := Run(Next(s, TryGet(r)), es);
            && Sound(t) && Fresh(t, r + 1) && t.queueSize == s.queueSize
            && (Holds(t, r) ==> |s.queue| < s.queueSize && t.queue == [] && Spare(t) < Spare(s) && Spare(s) > 0)
  {
    hide Sound, Run, Next, Spare, Alone;
    var u := Next(s, TryGet(r));
    StepSound(s, TryGet(r));
    BeginOthersStay(s, TryGet(r), r);
    RunOthersStay(u, es, r);
    SizeKept(u, es);
    TryGetEnds(s, r, es);
    if |s.queue| < s.queueSize {
      TryGetUnderway(s, r);
      StaysUnderway(u, r, es);
      if Holds(Run(u, es), r) {
        HolderLast(Run(u, es), r);
      }
    }
  }

  lemma HolderLast(s: State, r: nat)
    requires Sound(s) && Holds(s, r) && Underway(s, r)
    ensures s.queue == []
  {
    hide LeasesExact, Exclusive, Requests, Served, InOrder, CountedWorkers;
    if s.queue != [] {
      QueuedKnown(s, r);
    }
  }

  lemma {:induction false} TriesSound(s: State, first: nat, es: nat -> seq<Event>, k: nat)
    requires Sound(s) && Fresh(s, first) && Scheduled(es, first)
    ensures var t := Tries(s, first, es, k); Sound(t) && Fresh(t, first + k) && t.queueSize == s.queueSize
  {
    hide Sound, Run, Next, Fresh;
    if k > 0 {
      TriesSound(s, first, es, k - 1);
      OneTry(Tries(s, first, es, k - 1), first + k - 1, es(k - 1));
    }
  }

  /** What they obtain is taken from what can be spared. */
  lemma {:induction false} ObtainedFromSpare(s: State, first: nat, es: nat -> seq<Event>, k: nat)
    requires Sound(s) && Fresh(s, first) && Scheduled(es, first) && k > 0 && Obtains(s, first, es, k)
    ensures |s.queue| < s.queueSize && Tries(s, first, es, k).queue == []
    ensures Spare(Tries(s, first, es, k)) <= Spare(s) - k && k <= Spare(s)
  {
    hide Sound, Run, Next, Fresh, Spare, Holds;
    if k > 1 {
      ObtainedFromSpare(s, first, es, k - 1);
    }
    TriesSound(s, first, es, k - 1);
    OneTry(Tries(s, first, es, k - 1), first + k - 1, es(k - 1));
  }

  lemma {:induction false} NotObtained(s: State, first: nat, es: nat -> seq<Event>, i: nat, k: nat)
    requires i < k && !Holds(Tries(s, first, es, i + 1), first + i)
    ensures !Obtains(s, first, es, k)
  {
    hide Run, Next, Holds;
    if i < k - 1 {
      NotObtained(s, first, es, i, k - 1);
    }
  }

  lemma NoTries(s: State, first: nat, es: nat -> seq<Event>)
    ensures Tries(s, first, es, 0) == s && Obtains(s, first, es, 0)
  {
  }

  lemma TryAfter(s: State, first: nat, es: nat -> seq<Event>, i: nat, k: nat)
    requires i < k
    ensures var t := Tries(s, first, es, i + 1);
            && t == Run(Next(Tries(s, first, es, i), TryGet(first + i)), es(i))
            && (Obtains(s, first, es, i) && Holds(t, first + i) ==> Obtains(s, first, es, i + 1))
            && (!Holds(t, first + i) ==> !Obtains(s, first, es, k))
  {
    hide Run, Next, Holds;
    if !Holds(Tries(s, first, es, i + 1), first + i) {
      NotObtained(s, first, es, i, k);
    }
  }

  /** Only the first k schedules matter. */
  lemma {:induction false} TriesAlike(s: State, first: nat, es: nat -> seq<Event>, fs: nat -> seq<Event>, k: nat)
    requires forall i: nat | i < k :: es(i) == fs(i)
    ensures Tries(s, first, es, k) == Tries(s, first, fs, k) && Obtains(s, first, es, k) == Obtains(s, first, fs, k)
    ensures RunToTheEnd(s, first, es, k) == RunToTheEnd(s, first, fs, k) && Unrefused(s, first, es, k) == Unrefused(s, first, fs, k)
  {
    hide Run, Next, Holds, Final, Refusals;
    if k > 0 {
      TriesAlike(s, first, es, fs, k - 1);
    }
  }

  /** Where it can be served, a call has a schedule that gives it an object and uses up one worker only. */
  lemma ObtainOne(s: State, r: nat) returns (es: seq<Event>)
    requires Sound(s) && r !in s.borrowers && |s.queue| < s.queueSize && Spare(s) > 0
    ensures Alone(es, r) && Holds(Run(Next(s, TryGet(r)), es), r)
    ensures Spare(Run(Next(s, TryGet(r)), es)) == Spare(s) - 1
  {
    hide Sound, Run, Able, Live, Next, Alone;
    var t := Next(s, TryGet(r));
    StepSound(s, TryGet(r));
    Queued(s, r);
    assert |Live(s) + {r}| == |Live(s)| + 1;
    es := ServeInTurn(t, r);
    TryGetNeverFailed(t, r, es);
  }

  lemma {:induction false} ObtainMany(s: State, first: nat, k: nat) returns (es: nat -> seq<Event>)
    requires Sound(s) && Fresh(s, first) && |s.queue| < s.queueSize && k <= Spare(s)
    ensures Scheduled(es, first) && Obtains(s, first, es, k) && Spare(Tries(s, first, es, k)) == Spare(s) - k
  {
    hide Sound, Run, Next, Spare, Holds;
    if k == 0 {
      es := (i: nat) => [];
    } else {
      var before := ObtainMany(s, first, k - 1);
      var u := Tries(s, first, before, k - 1);
      TriesSound(s, first, before, k - 1);
      if k > 1 {
        ObtainedFromSpare(s, first, before, k - 1);
      }
      var last := ObtainOne(u, first + k - 1);
      es := (i: nat) => if i == k - 1 then last else before(i);
      TriesAlike(s, first, es, before, k - 1);
    }
  }

  /** The first k calls of TryGet can all obtain an object exactly if the queue has room and as many workers can be spared. */
  lemma TryGetManyCanObtainExactly(s: State, first: nat, k: nat)
    requires Sound(s) && Fresh(s, first) && k > 0
    ensures (exists es: nat -> seq<Event> :: Scheduled(es, first) && Obtains(s, first, es, k)) <==>
              |s.queue| < s.queueSize && k <= Spare(s)
  {
    hide *;
    if es: nat -> seq<Event> :| Scheduled(es, first) && Obtains(s, first, es, k) {
      ObtainedFromSpare(s, first, es, k);
    }
    if |s.queue| < s.queueSize && k <= Spare(s) {
      var es := ObtainMany(s, first, k);
    }
  }

  /** And they do obtain them, whatever the workers do, exactly if there are workers left for all of them. */
  lemma TryGetManyObtainsExactly(s: State, first: nat, k: nat)
    requires Sound(s) && Fresh(s, first) && k > 0
    ensures (forall es: nat -> seq<Event> :: Scheduled(es, first) && RunToTheEnd(s, first, es, k) ==> Obtains(s, first, es, k)) <==>
              |s.queue| < s.queueSize && k <= Slack(s)
  {
    hide *;
    if |s.queue| < s.queueSize && k <= Slack(s) {
      forall es: nat -> seq<Event> | Scheduled(es, first) && RunToTheEnd(s, first, es, k)
        ensures Obtains(s, first, es, k)
      {
        SlackObtains(s, first, es, k);
      }
    } else {
      var es := RunManyOut(s, first, k);
      if Obtains(s, first, es, k) {
        ObtainedFromSpare(s, first, es, k);
        ObtainedFromSlack(s, first, es, k);
      }
    }
  }

  lemma EndedTry(s: State, r: nat, es: seq<Event>)
    requires Sound(s) && Fresh(s, r) && Alone(es, r) && |s.queue| < s.queueSize
    requires Final(Run(Next(s, TryGet(r)), es), r)
    ensures var t := Run(Next(s, TryGet(r)), es);
            && Slack(t) == Slack(s) - 1 + Refusals(Next(s, TryGet(r)), es)
            && (Holds(t, r) <==> Slack(t) >= 0)
  {
    hide Sound, Run, Next, Slack, Alone, Refusals, Final, Tail;
    var t := Next(s, TryGet(r));
    TryGetUnderway(s, r);
    AloneSlack(t, r, es);
    StaysUnderway(t, r, es);
    EndedBack(Run(t, es), r);
  }

  lemma {:induction false} SlackObtains(s: State, first: nat, es: nat -> seq<Event>, k: nat)
    requires Sound(s) && Fresh(s, first) && Scheduled(es, first) && RunToTheEnd(s, first, es, k)
    requires |s.queue| < s.queueSize && k <= Slack(s)
    ensures Obtains(s, first, es, k) && Slack(Tries(s, first, es, k)) >= Slack(s) - k
  {
    hide Sound, Run, Next, Slack, Holds, Final, Alone, Fresh, Refusals;
    if k > 0 {
      SlackObtains(s, first, es, k - 1);
      var before := Tries(s, first, es, k - 1);
      TriesSound(s, first, es, k - 1);
      if k > 1 {
        ObtainedFromSpare(s, first, es, k - 1);
      }
      EndedTry(before, first + k - 1, es(k - 1));
    }
  }

  /** Without refusals each call takes one off the slack. */
  lemma {:induction false} ObtainedFromSlack(s: State, first: nat, es: nat -> seq<Event>, k: nat)
    requires Sound(s) && Fresh(s, first) && Scheduled(es, first) && k > 0 && Obtains(s, first, es, k)
    requires RunToTheEnd(s, first, es, k) && Unrefused(s, first, es, k)
    ensures Slack(Tries(s, first, es, k)) == Slack(s) - k >= 0
  {
    hide Sound, Run, Next, Slack, Holds, Final, Alone, Fresh, Refusals, Spare;
    if k > 1 {
      ObtainedFromSlack(s, first, es, k - 1);
      ObtainedFromSpare(s, first, es, k - 1);
    }
    var before := Tries(s, first, es, k - 1);
    TriesSound(s, first, es, k - 1);
    ObtainedFromSpare(s, first, es, k);
    EndedTry(before, first + k - 1, es(k - 1));
  }

  lemma {:induction false} RunManyOut(s: State, first: nat, k: nat) returns (es: nat -> seq<Event>)
    requires Sound(s) && Fresh(s, first)
    ensures Scheduled(es, first) && RunToTheEnd(s, first, es, k) && Unrefused(s, first, es, k)
  {
    hide Sound, Run, Next, Slack, Holds, Final, Alone, Fresh, Refusals;
    if k == 0 {
      es := (i: nat) => [];
      forall i: nat ensures Alone(es(i), first + i) {
        NothingAlone(first + i);
      }
    } else {
      var before := RunManyOut(s, first, k - 1);
      TriesSound(s, first, before, k - 1);
      var u := Next(Tries(s, first, before, k - 1), TryGet(first + k - 1));
      StepSound(Tries(s, first, before, k - 1), TryGet(first + k - 1));
      var last := RunOut(u, first + k - 1);
      AloneSlack(u, first + k - 1, last);
      es := (i: nat) => if i == k - 1 then last else before(i);
      TriesAlike(s, first, es, before, k - 1);
    }
  }
}
