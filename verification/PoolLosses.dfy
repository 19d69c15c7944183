/**
 What the pool can lose: objects delivered to borrowers that have left, requests failed
 although the queue has room, and borrowers that wait for a queue to fill again.
 */
module PoolLosses {
  import opened PoolModel
  import opened PoolLending

  lemma {:induction false} RunAppend(s: State, es: seq<Event>, fs: seq<Event>)
    ensures Run(s, es + fs) == Run(Run(s, es), fs)
    decreases |fs|
  {
    if fs == [] {
      assert es + fs == es;
    } else {
      assert (es + fs)[..|es + fs| - 1] == es + fs[..|fs| - 1];
      RunAppend(s, es, fs[..|fs| - 1]);
    }
  }

  lemma RunOne(s: State, e: Event)
    ensures Run(s, [e]) == Next(s, e)
  {
    assert [e][..0] == [];
  }

  lemma RunLast(s: State, es: seq<Event>, e: Event)
    ensures Run(s, es + [e]) == Next(Run(s, es), e)
  {
    assert (es + [e])[..|es|] == es;
  }

  // --- Objects delivered in vain -----------------------------------------------------------

  /** Delivered to a borrower that has already left. */
  predicate Stranded(s: State, o: nat, r: nat) {
    r in s.borrowers && s.borrowers[r].stage.Ended? && s.borrowers[r].slot == Object(o)
  }

  /** An object delivered after its borrower gave up stays in the result slot: no step ever brings it back. */
  lemma {:induction false} StrandedForGood(s: State, es: seq<Event>, o: nat, r: nat)
    requires Sound(s) && Stranded(s, o, r)
    ensures Sound(Run(s, es)) && Stranded(Run(s, es), o, r)
    decreases |es|
  {
    hide Sound, Next, Stranded;
    if es != [] {
      StrandedForGood(s, es[..|es| - 1], o, r);
      StepSound(Run(s, es[..|es| - 1]), es[|es| - 1]);
      StrandedStep(Run(s, es[..|es| - 1]), es[|es| - 1], o, r);
    }
  }

  lemma StrandedStep(s: State, e: Event, o: nat, r: nat)
    requires Sound(s) && Stranded(s, o, r)
    ensures Stranded(Next(s, e), o, r)
  {
    hide LeasesExact, Exclusive, Served, CountedWorkers;
    match e
    case Borrow(q, move) => StrandedMove(s, q, move, o, r);
    case Work(w, task) => hide Requests;
    case _ => hide Requests;
  }

  lemma StrandedMove(s: State, q: nat, move: Move, o: nat, r: nat)
    requires Stranded(s, o, r)
    ensures Movable(s, q, move) ==> Stranded(Moving(s, q, move), o, r)
  {
  }

  /** Who has left without its context having run out has no answer coming. */
  ghost predicate LeftSettled(s: State) {
    forall r | r in s.borrowers && s.borrowers[r].stage.Ended? && !s.borrowers[r].expired ::
      s.borrowers[r].slot.Empty? && r !in s.queue && forall w :: !Handles(s, w, r)
  }

  lemma MoverSettled(s: State, r: nat, move: Move)
    requires Requests(s) && LeftSettled(s) && Movable(s, r, move)
    ensures var t := Moving(s, r, move);
            t.borrowers[r].stage.Ended? && !t.borrowers[r].expired ==>
              t.borrowers[r].slot.Empty? && r !in t.queue && forall w :: !Handles(t, w, r)
  {
    var t := Moving(s, r, move);
    assert Single(s.borrowers[r]);
    assert r in s.queue ==> Open(s, r);
    forall w ensures Handles(t, w, r) ==> Open(s, r) {
      assert Handles(t, w, r) ==> Handles(s, w, r);
    }
    hide Requests;
  }

  lemma MoveLeavesOthers(s: State, r: nat, move: Move, q: nat)
    requires Movable(s, r, move) && q != r
    ensures var t := Moving(s, r, move);
            && t.workers == s.workers && (q in t.queue ==> q in s.queue) && (q in t.borrowers <==> q in s.borrowers)
            && (q in s.borrowers ==>
                  && t.borrowers[q].stage == s.borrowers[q].stage && t.borrowers[q].expired == s.borrowers[q].expired
                  && (t.borrowers[q].slot == s.borrowers[q].slot || q in s.queue))
  {
  }

  lemma MovingLeftSettled(s: State, r: nat, move: Move)
    requires Requests(s) && LeftSettled(s) && Movable(s, r, move)
    ensures LeftSettled(Moving(s, r, move))
  {
    var t := Moving(s, r, move);
    MoverSettled(s, r, move);
    hide Requests, Moving, Movable;
    forall q | q in t.borrowers && t.borrowers[q].stage.Ended? && !t.borrowers[q].expired
      ensures t.borrowers[q].slot.Empty? && q !in t.queue && forall w :: !Handles(t, w, q)
    {
      if q != r {
        MoveLeavesOthers(s, r, move, q);
        forall w ensures !Handles(t, w, q) {
          assert !Handles(s, w, q);
        }
      }
    }
  }

  lemma WorkingLeftSettled(s: State, w: nat, task: Task)
    requires LeftSettled(s) && Workable(s, w, task)
    ensures LeftSettled(Working(s, w, task))
  {
    var t := Working(s, w, task);
    forall q | q in t.borrowers && t.borrowers[q].stage.Ended? && !t.borrowers[q].expired
      ensures t.borrowers[q].slot.Empty? && q !in t.queue && forall v :: !Handles(t, v, q)
    {
      assert !Handles(s, w, q);
      forall v ensures !Handles(t, v, q) {
        assert !Handles(s, v, q);
      }
    }
  }

  lemma BeginLeftSettled(s: State, e: Event)
    requires Requests(s) && LeftSettled(s) && (e.Get? || e.TryGet?)
    ensures LeftSettled(Next(s, e))
  {
    var t := Next(s, e);
    forall q | q in t.borrowers && t.borrowers[q].stage.Ended? && !t.borrowers[q].expired
      ensures t.borrowers[q].slot.Empty? && q !in t.queue && forall v :: !Handles(t, v, q)
    {
      assert q in s.queue ==> Open(s, q);
      forall v ensures !Handles(t, v, q) {
        assert Handles(s, v, q) ==> Open(s, q);
        assert q in s.borrowers ==> !Handles(s, v, q);
      }
    }
  }

  lemma StepLeftSettled(s: State, e: Event)
    requires Sound(s) && LeftSettled(s)
    ensures LeftSettled(Next(s, e))
  {
    hide LeftSettled, Requests, LeasesExact, Exclusive, Served, InOrder, Moving, Working, Movable, Workable;
    match e
    case Borrow(r, move) => if Movable(s, r, move) { MovingLeftSettled(s, r, move); }
    case Work(w, task) => if Workable(s, w, task) { WorkingLeftSettled(s, w, task); }
    case _ => BeginLeftSettled(s, e);
  }

  /** Which requests of the run carry a context that can run out. */
  predicate Respects(es: seq<Event>, cancellable: nat -> bool) {
    forall i | 0 <= i < |es| && es[i].Get? && es[i].cancellable :: cancellable(es[i].r)
  }

  ghost predicate Contexts(s: State, cancellable: nat -> bool) {
    forall r | r in s.borrowers && s.borrowers[r].cancellable :: cancellable(r)
  }

  lemma StepContexts(s: State, e: Event, cancellable: nat -> bool)
    requires Contexts(s, cancellable) && Respects([e], cancellable)
    ensures Contexts(Next(s, e), cancellable)
  {
    assert [e][0] == e;
    hide Moving, Working, Movable, Workable;
    match e
    case Borrow(r, move) => if Movable(s, r, move) { MovingKeepsContexts(s, r, move); }
    case Work(w, task) => if Workable(s, w, task) { WorkingKeepsContexts(s, w, task); }
    case _ =>
  }

  lemma MovingKeepsContexts(s: State, r: nat, move: Move)
    requires Movable(s, r, move)
    ensures var t := Moving(s, r, move);
            t.borrowers.Keys == s.borrowers.Keys && forall q | q in t.borrowers :: t.borrowers[q].cancellable == s.borrowers[q].cancellable
  {
    if move.DropOldest? {
      AnswerKeepsContexts(s.(queue := s.queue[1..]), s.queue[0], Failure);
    }
    hide Answer;
  }

  lemma AnswerKeepsContexts(s: State, r: nat, answer: Slot)
    ensures var t := Answer(s, r, answer);
            t.borrowers.Keys == s.borrowers.Keys && forall q | q in t.borrowers :: t.borrowers[q].cancellable == s.borrowers[q].cancellable
  {
  }

  lemma WorkingKeepsContexts(s: State, w: nat, task: Task)
    requires Workable(s, w, task)
    ensures var t := Working(s, w, task);
            t.borrowers.Keys == s.borrowers.Keys && forall q | q in t.borrowers :: t.borrowers[q].cancellable == s.borrowers[q].cancellable
  {
  }

  lemma {:induction false} RunSettled(capacity: nat, queueSize: int, es: seq<Event>, cancellable: nat -> bool)
    requires capacity > 0 && Respects(es, cancellable)
    ensures var s := Run(NewPool(capacity, queueSize), es);
            Sound(s) && LeftSettled(s) && Contexts(s, cancellable)
    decreases |es|
  {
    hide Sound, Next, LeftSettled, Contexts;
    RunSound(capacity, queueSize, es);
    if es == [] {
      NewSettled(capacity, queueSize, cancellable);
    } else {
      var before, e := Run(NewPool(capacity, queueSize), es[..|es| - 1]), es[|es| - 1];
      RunSettled(capacity, queueSize, es[..|es| - 1], cancellable);
      StepLeftSettled(before, e);
      assert [e][0] == e;
      StepContexts(before, e, cancellable);
    }
  }

  lemma NewSettled(capacity: nat, queueSize: int, cancellable: nat -> bool)
    requires capacity > 0
    ensures LeftSettled(NewPool(capacity, queueSize)) && Contexts(NewPool(capacity, queueSize), cancellable)
  {
  }

  /** In every run an object is only ever stranded with a borrower whose context has run out. */
  lemma StrandedHadExpired(capacity: nat, queueSize: int, es: seq<Event>, o: nat, r: nat)
    requires capacity > 0 && Stranded(Run(NewPool(capacity, queueSize), es), o, r)
    ensures Run(NewPool(capacity, queueSize), es).borrowers[r].expired
  {
    hide Next, Run, LeasesExact, Exclusive, Served, InOrder;
    RunSettled(capacity, queueSize, es, _ => true);
  }

  ghost predicate CanStrand(capacity: nat, queueSize: int, cancellable: nat -> bool)
    requires capacity > 0
  {
    exists es, o, r :: Respects(es, cancellable) && Stranded(Run(NewPool(capacity, queueSize), es), o, r)
  }

  /** The context runs out while a worker delivers, and the borrower chooses to leave. */
  function Unlucky(w: nat, r: nat): seq<Event> {
    [Borrow(r, Expire), Work(w, Deliver), Borrow(r, Abandon)]
  }

  function TakenUp(r: nat): seq<Event> {
    [Get(r, true), Borrow(r, Enqueue), Work(0, NextRequest), Work(0, Checkout)]
  }

  lemma RunEmpty(s: State)
    ensures Run(s, []) == s
  {
  }

  lemma RunThree(s: State, a: Event, b: Event, c: Event)
    ensures Run(s, [a, b, c]) == Next(Next(Next(s, a), b), c)
  {
    RunEmpty(s);
    RunLast(s, [], a);
    RunLast(s, [a], b);
    RunLast(s, [a, b], c);
    assert [] + [a] == [a] && [a] + [b] == [a, b] && [a, b] + [c] == [a, b, c];
  }

  /** Whatever else is going on, a cancellable request a worker has taken up can end like that. */
  lemma TakenUpCanStrand(s: State, w: nat, r: nat)
    requires w in s.workers && s.workers[w].phase.Leased? && s.workers[w].phase.request == r
    requires r in s.borrowers && s.borrowers[r].cancellable && s.borrowers[r].stage.Waiting? && s.borrowers[r].slot.Empty?
    ensures Stranded(Run(s, Unlucky(w, r)), s.workers[w].item, r)
  {
    hide Run;
    RunThree(s, Borrow(r, Expire), Work(w, Deliver), Borrow(r, Abandon));
  }

  lemma RequestTakenUp(capacity: nat, queueSize: int, r: nat)
    requires capacity > 0
    ensures var s := Run(NewPool(capacity, queueSize), TakenUp(r));
            && 0 in s.workers && s.workers[0] == Worker(0, Leased(r, 0))
            && r in s.borrowers && s.borrowers[r] == Borrower(true, false, Waiting, Empty, 0, 0)
  {
    hide Run;
    var s := NewPool(capacity, queueSize);
    RunThree(s, Get(r, true), Borrow(r, Enqueue), Work(0, NextRequest));
    RunLast(s, [Get(r, true), Borrow(r, Enqueue), Work(0, NextRequest)], Work(0, Checkout));
    assert TakenUp(r) == [Get(r, true), Borrow(r, Enqueue), Work(0, NextRequest)] + [Work(0, Checkout)];
  }

  /** A pool can strand an object exactly if some request may carry a context that can run out. */
  lemma StrandsExactly(capacity: nat, queueSize: int, cancellable: nat -> bool)
    requires capacity > 0
    ensures CanStrand(capacity, queueSize, cancellable) <==> exists r :: cancellable(r)
  {
    hide Run, Next, Sound, Stranded;
    if CanStrand(capacity, queueSize, cancellable) {
      var es, o, r :| Respects(es, cancellable) && Stranded(Run(NewPool(capacity, queueSize), es), o, r);
      RunSettled(capacity, queueSize, es, cancellable);
      StrandedNeedsContext(Run(NewPool(capacity, queueSize), es), o, r, cancellable);
    }
    if r :| cancellable(r) {
      RequestTakenUp(capacity, queueSize, r);
      TakenUpCanStrand(Run(NewPool(capacity, queueSize), TakenUp(r)), 0, r);
      RunAppend(NewPool(capacity, queueSize), TakenUp(r), Unlucky(0, r));
      assert Respects(TakenUp(r) + Unlucky(0, r), cancellable);
    }
  }

  lemma StrandedNeedsContext(s: State, o: nat, r: nat, cancellable: nat -> bool)
    requires Sound(s) && LeftSettled(s) && Contexts(s, cancellable) && Stranded(s, o, r)
    ensures cancellable(r)
  {
    hide LeasesExact, Exclusive, Served, InOrder;
    assert Single(s.borrowers[r]);
  }

  // --- What a call of Get ends with ---------------------------------------------------------

  /** Ended under a live context it was answered, once; and whoever has an object was. */
  predicate Accounted(s: State, r: nat) {
    && r in s.borrowers
    && var b := s.borrowers[r];
       && (b.stage.Ended? && !b.expired ==> b.answers == 1)
       && (b.stage.Holding? || b.stage.Returning? ==> b.answers == 1)
  }

  lemma MovingAccounted(s: State, q: nat, move: Move, r: nat)
    requires Sound(s) && Accounted(s, r) && Movable(s, q, move)
    ensures Accounted(Moving(s, q, move), r)
  {
    hide Exclusive, LeasesExact, Served, InOrder, CountedWorkers;
    assert Single(s.borrowers[r]);
    if move.FindLease? {
      HeldIsOnLease(s, q);
    }
    if move.DropOldest? {
      assert Open(s, s.queue[0]);
    }
    hide Requests;
  }

  lemma WorkingAccounted(s: State, w: nat, task: Task, r: nat)
    requires Requests(s) && Accounted(s, r) && Workable(s, w, task)
    ensures Accounted(Working(s, w, task), r)
  {
    if task.Deliver? {
      assert Open(s, s.workers[w].phase.request);
    }
    hide Requests;
  }

  lemma StepAccounted(s: State, e: Event, r: nat)
    requires Sound(s) && Accounted(s, r)
    ensures Accounted(Next(s, e), r)
  {
    hide Moving, Working, Movable, Workable, Accounted, LeasesExact, Exclusive, Requests, Served, InOrder;
    match e
    case Borrow(q, move) => if Movable(s, q, move) { MovingAccounted(s, q, move, r); }
    case Work(w, task) => if Workable(s, w, task) { WorkingAccounted(s, w, task, r); }
    case _ => BeginAccounted(s, e, r);
  }

  lemma BeginAccounted(s: State, e: Event, r: nat)
    requires Accounted(s, r) && (e.Get? || e.TryGet?)
    ensures Accounted(Next(s, e), r)
  {
  }

  /** However the run goes on, a call of Get ends only with an answer or with its context run out. */
  lemma {:induction false} GetEndsAnswered(s: State, r: nat, cancellable: bool, es: seq<Event>)
    requires Sound(s) && r !in s.borrowers
    ensures var t := Run(Next(s, Get(r, cancellable)), es); Sound(t) && Accounted(t, r)
    decreases |es|
  {
    hide Sound, Accounted;
    var begun := Next(s, Get(r, cancellable));
    if es == [] {
      StepSound(s, Get(r, cancellable));
      assert Accounted(begun, r) by {
        JustBegun(s, r, cancellable);
      }
    } else {
      hide Next;
      GetEndsAnswered(s, r, cancellable, es[..|es| - 1]);
      StepSound(Run(begun, es[..|es| - 1]), es[|es| - 1]);
      StepAccounted(Run(begun, es[..|es| - 1]), es[|es| - 1], r);
    }
  }

  lemma JustBegun(s: State, r: nat, cancellable: bool)
    requires r !in s.borrowers
    ensures Accounted(Next(s, Get(r, cancellable)), r)
  {
  }

  // --- Requests failed although there is room ----------------------------------------------

  /** The step puts one more request into the queue. */
  predicate Joins(s: State, e: Event) {
    |Next(s, e).queue| > |s.queue|
  }

  /** A worker, or a borrower making room, takes the oldest request out. */
  predicate Removes(s: State, e: Event) {
    match e
    case Borrow(r, move) => move.DropOldest? && Movable(s, r, move)
    case Work(w, task) => task.NextRequest? && Workable(s, w, task)
    case _ => false
  }

  function Balance(s: State, es: seq<Event>): int {
    if es == [] then 0
    else
      var before, e := Run(s, es[..|es| - 1]), es[|es| - 1];
      Balance(s, es[..|es| - 1]) + (if Joins(before, e) then 1 else 0) - (if Removes(before, e) then 1 else 0)
  }

  lemma StepBalance(s: State, e: Event)
    ensures |Next(s, e).queue| == |s.queue| + (if Joins(s, e) then 1 else 0) - (if Removes(s, e) then 1 else 0)
  {
    match e
    case Borrow(r, move) =>
      if Movable(s, r, move) { assert |Moving(s, r, move).queue| <= |s.queue| + 1; }
    case Work(w, task) =>
    case _ =>
  }

  lemma {:induction false} QueueBalance(s: State, es: seq<Event>)
    ensures |Run(s, es).queue| == |s.queue| + Balance(s, es)
  {
    hide Next, Joins, Removes;
    if es != [] {
      QueueBalance(s, es[..|es| - 1]);
      StepBalance(Run(s, es[..|es| - 1]), es[|es| - 1]);
    }
  }

  /** Some borrower is about to fail a request although the queue is not full. */
  ghost predicate DropsWithRoom(s: State) {
    exists r :: Movable(s, r, DropOldest) && |s.queue| < s.queueSize
  }

  /** r itself does not move; its context may run out. */
  predicate Stays(es: seq<Event>, r: nat) {
    forall i | 0 <= i < |es| && es[i].Borrow? && es[i].r == r :: es[i].move.Expire?
  }

  predicate AboutToDrop(s: State, r: nat) {
    r in s.borrowers && s.borrowers[r].stage.Dropping?
  }

  lemma StaysDropping(s: State, e: Event, r: nat)
    requires AboutToDrop(s, r) && (e.Borrow? && e.r == r ==> e.move.Expire?)
    ensures AboutToDrop(Next(s, e), r)
  {
    hide Working, Workable;
    match e
    case Borrow(_, move) => if Movable(s, e.r, move) { DroppingMove(s, e.r, move, r); }
    case Work(w, task) => if Workable(s, w, task) { WorkingStages(s, w, task); }
    case _ =>
  }

  lemma DroppingMove(s: State, q: nat, move: Move, r: nat)
    requires AboutToDrop(s, r) && Movable(s, q, move) && (q == r ==> move.Expire?)
    ensures AboutToDrop(Moving(s, q, move), r)
  {
  }

  lemma {:induction false} KeepsDropping(s: State, es: seq<Event>, r: nat)
    requires AboutToDrop(s, r) && Stays(es, r)
    ensures AboutToDrop(Run(s, es), r)
  {
    hide Next, AboutToDrop;
    if es != [] {
      KeepsDropping(s, es[..|es| - 1], r);
      StaysDropping(Run(s, es[..|es| - 1]), es[|es| - 1], r);
    }
  }

  /**
   A borrower finds the queue full and does not move while the others do es. Then it is
   about to fail the oldest request although there is room exactly if in between more
   requests were taken out than joined; and hangs exactly if as many more as there are places.
   */
  lemma DropsWithRoomAfter(s: State, es: seq<Event>, r: nat)
    requires Sound(s) && Movable(s, r, Enqueue) && |s.queue| >= s.queueSize && Stays(es, r)
    ensures var found := Next(s, Borrow(r, Enqueue)); var t := Run(found, es);
            && AboutToDrop(t, r) && t.queueSize == s.queueSize
            && (Movable(t, r, DropOldest) && |t.queue| < t.queueSize <==> 0 < s.queueSize + Balance(found, es) < s.queueSize)
            && (Hangs(t, r) <==> s.queueSize + Balance(found, es) == 0)
  {
    hide Next, Run, Balance, Stays, LeasesExact, Exclusive, Served, InOrder;
    var found := Next(s, Borrow(r, Enqueue));
    FullMeansDropping(s, r);
    StepSound(s, Borrow(r, Enqueue));
    KeepsDropping(found, es, r);
    QueueBalance(found, es);
    SizeKept(found, es);
  }

  lemma FullMeansDropping(s: State, r: nat)
    requires Movable(s, r, Enqueue) && |s.queue| >= s.queueSize
    ensures AboutToDrop(Next(s, Borrow(r, Enqueue)), r) && Next(s, Borrow(r, Enqueue)).queue == s.queue
  {
  }

  lemma {:induction false} SizeKept(s: State, es: seq<Event>)
    requires Sound(s)
    ensures Sound(Run(s, es)) && Run(s, es).queueSize == s.queueSize && Run(s, es).workers.Keys == s.workers.Keys
  {
    hide Sound, Next;
    if es != [] {
      SizeKept(s, es[..|es| - 1]);
      StepSound(Run(s, es[..|es| - 1]), es[|es| - 1]);
    }
  }

  // --- Filling the queue ---------------------------------------------------------------------

  /** k requests whose contexts have run out, and every worker idle. */
  ghost predicate Filled(s: State, k: nat) {
    && 0 in s.workers && (forall w | w in s.workers :: s.workers[w].phase.Idle?)
    && |s.queue| == k
    && (forall r | r in s.borrowers :: r < k)
    && (forall i | 0 <= i < k :: s.queue[i] in s.borrowers && s.borrowers[s.queue[i]].expired)
  }

  function DeadRequest(r: nat): seq<Event> {
    [Get(r, true), Borrow(r, Enqueue), Borrow(r, Expire)]
  }

  function DeadRequests(k: nat): seq<Event> {
    if k == 0 then [] else DeadRequests(k - 1) + DeadRequest(k - 1)
  }

  lemma OneDeadRequest(s: State, k: nat)
    requires Filled(s, k) && k < s.queueSize
    ensures Filled(Run(s, DeadRequest(k)), k + 1)
  {
    hide Run;
    RunThree(s, Get(k, true), Borrow(k, Enqueue), Borrow(k, Expire));
  }

  lemma {:induction false} Fill(capacity: nat, queueSize: int, k: nat)
    requires capacity > 0 && k <= NewPool(capacity, queueSize).queueSize
    ensures var s := Run(NewPool(capacity, queueSize), DeadRequests(k));
            Sound(s) && Filled(s, k) && s.queueSize == NewPool(capacity, queueSize).queueSize
  {
    hide Sound, Run, Filled;
    var s := NewPool(capacity, queueSize);
    RunSound(capacity, queueSize, DeadRequests(k));
    if k == 0 {
      RunEmpty(s);
      assert Filled(s, 0) by { EmptyPoolFilled(capacity, queueSize); }
    } else {
      Fill(capacity, queueSize, k - 1);
      OneDeadRequest(Run(s, DeadRequests(k - 1)), k - 1);
      RunAppend(s, DeadRequests(k - 1), DeadRequest(k - 1));
    }
  }

  lemma EmptyPoolFilled(capacity: nat, queueSize: int)
    requires capacity > 0
    ensures Filled(NewPool(capacity, queueSize), 0)
  {
  }

  /** Two places in the queue are what it takes, and enough. */
  lemma DropsWithRoomExactly(capacity: nat, queueSize: int)
    requires capacity > 0
    ensures (exists es :: DropsWithRoom(Run(NewPool(capacity, queueSize), es))) <==> NewPool(capacity, queueSize).queueSize >= 2
  {
    hide Sound, Run;
    var s, n := NewPool(capacity, queueSize), NewPool(capacity, queueSize).queueSize;
    if es :| DropsWithRoom(Run(s, es)) {
      RunSound(capacity, queueSize, es);
    }
    if n >= 2 {
      Fill(capacity, queueSize, n);
      var full := Run(s, DeadRequests(n));
      var late := [Get(n, true), Borrow(n, Enqueue), Work(0, NextRequest)];
      RunThree(full, Get(n, true), Borrow(n, Enqueue), Work(0, NextRequest));
      RunAppend(s, DeadRequests(n), late);
      assert Movable(Run(s, DeadRequests(n) + late), n, DropOldest);
    }
  }

  // --- Borrowers that cannot go on -------------------------------------------------------------

  /** Nothing the borrower can do by itself; its context may still run out. */
  ghost predicate Stuck(s: State, r: nat) {
    r in s.borrowers && forall move :: Movable(s, r, move) ==> move.Expire?
  }

  /**
   Exactly who is stuck: who has ended, who waits for an answer under a live context, and
   who wants to make room in a queue that is empty by now, even if the context has run out.
   */
  lemma StuckExactly(s: State, r: nat)
    requires Sound(s) && r in s.borrowers
    ensures var b := s.borrowers[r];
            Stuck(s, r) <==>
              || b.stage.Ended?
              || (b.stage.Waiting? && b.slot.Empty? && !b.expired)
              || (b.stage.Dropping? && s.queue == [])
  {
    hide Exclusive, Requests, Served, InOrder;
    var b := s.borrowers[r];
    assert b.stage.Trying? ==> Movable(s, r, Enqueue);
    assert b.stage.Dropping? && s.queue != [] ==> Movable(s, r, DropOldest);
    assert b.stage.Waiting? && !b.slot.Empty? ==> Movable(s, r, Accept);
    assert b.stage.Waiting? && b.expired ==> Movable(s, r, Abandon);
    assert b.stage.Holding? ==> Movable(s, r, FindLease);
    assert b.stage.Returning? ==> Movable(s, r, GiveBack);
  }

  predicate Hangs(s: State, r: nat) {
    r in s.borrowers && s.borrowers[r].stage.Dropping? && s.queue == []
  }

  ghost predicate NobodyJoins(s: State, es: seq<Event>) {
    es == [] || (NobodyJoins(s, es[..|es| - 1]) && !Joins(Run(s, es[..|es| - 1]), es[|es| - 1]))
  }

  lemma HangingStep(s: State, e: Event, r: nat)
    requires Hangs(s, r) && !Joins(s, e)
    ensures Hangs(Next(s, e), r)
  {
    StepBalance(s, e);
    hide Joins;
    match e
    case Borrow(q, move) => if Movable(s, q, move) { HangingMove(s, q, move, r); }
    case Work(w, task) => if Workable(s, w, task) { hide Workable, Working; WorkingStages(s, w, task); }
    case _ => hide Moving, Working, Movable, Workable;
  }

  lemma HangingMove(s: State, q: nat, move: Move, r: nat)
    requires Hangs(s, r) && Movable(s, q, move)
    ensures var t := Moving(s, q, move); r in t.borrowers && t.borrowers[r].stage.Dropping?
  {
  }

  lemma WorkingStages(s: State, w: nat, task: Task)
    requires Workable(s, w, task)
    ensures var t := Working(s, w, task);
            t.borrowers.Keys == s.borrowers.Keys && forall q | q in t.borrowers :: t.borrowers[q].stage == s.borrowers[q].stage
  {
  }

  /** The hanging borrower is freed by another request only: however long it takes, and though its context runs out. */
  lemma {:induction false} HangsUntilSomebodyJoins(s: State, es: seq<Event>, r: nat)
    requires Hangs(s, r) && NobodyJoins(s, es)
    ensures Hangs(Run(s, es), r)
  {
    hide Next, Joins, Hangs;
    if es != [] {
      HangsUntilSomebodyJoins(s, es[..|es| - 1], r);
      HangingStep(Run(s, es[..|es| - 1]), es[|es| - 1], r);
    }
  }

  /** And then it is that request it can fail, whoever could have served it. */
  lemma HangingFailsTheNext(s: State, r: nat, q: nat)
    requires Sound(s) && Hangs(s, r) && q !in s.borrowers && s.queueSize >= 1
    ensures var t := Next(s, TryGet(q));
            Movable(t, r, DropOldest) && Next(t, Borrow(r, DropOldest)).borrowers[q].slot == Failure
  {
    hide Exclusive, Requests, LeasesExact, Served, InOrder;
  }

  // --- A run that hangs a borrower -----------------------------------------------------------

  /** All workers idle, and all requests queued for borrowers whose contexts have run out. */
  ghost predicate Draining(s: State, r: nat) {
    && 0 in s.workers && (forall w | w in s.workers :: s.workers[w].phase.Idle?)
    && r in s.borrowers && s.borrowers[r].stage.Dropping? && s.borrowers[r].expired
    && (forall q | q in s.queue :: q in s.borrowers && s.borrowers[q].expired)
  }

  function RefuseOne(): seq<Event> {
    [Work(0, NextRequest), Work(0, Checkout), Work(0, Refuse)] + [Work(0, CancelLease)]
  }

  function RefuseAll(k: nat): seq<Event> {
    if k == 0 then [] else RefuseOne() + RefuseAll(k - 1)
  }

  lemma DrainOne(s: State, r: nat)
    requires Sound(s) && Draining(s, r) && s.queue != []
    ensures var t := Run(s, RefuseOne()); Draining(t, r) && t.queue == s.queue[1..]
  {
    hide Run, Sound;
    RunThree(s, Work(0, NextRequest), Work(0, Checkout), Work(0, Refuse));
    RunLast(s, [Work(0, NextRequest), Work(0, Checkout), Work(0, Refuse)], Work(0, CancelLease));
  }

  lemma {:induction false} DrainAll(s: State, r: nat, k: nat)
    requires Sound(s) && Draining(s, r) && |s.queue| == k
    ensures var t := Run(s, RefuseAll(k)); Sound(t) && Draining(t, r) && t.queue == []
    decreases k
  {
    hide Sound, Draining, Run;
    if k == 0 {
      RunEmpty(s);
    } else {
      DrainOne(s, r);
      SizeKept(s, RefuseOne());
      DrainAll(Run(s, RefuseOne()), r, k - 1);
      RunAppend(s, RefuseOne(), RefuseAll(k - 1));
    }
  }

  lemma LateBorrower(s: State, n: nat)
    requires Filled(s, n) && s.queueSize == n
    ensures var t := Run(s, [Get(n, true), Borrow(n, Enqueue), Borrow(n, Expire)]);
            Draining(t, n) && |t.queue| == n
  {
    hide Run;
    RunThree(s, Get(n, true), Borrow(n, Enqueue), Borrow(n, Expire));
  }

  /** In every pool some run ends with all workers idle, nothing queued, and a borrower hanging past its context. */
  lemma HangReached(capacity: nat, queueSize: int) returns (es: seq<Event>)
    requires capacity > 0
    ensures var s := Run(NewPool(capacity, queueSize), es); var r := s.queueSize;
            && Hangs(s, r) && s.borrowers[r].expired && Stuck(s, r)
            && forall w | w in s.workers :: s.workers[w].phase.Idle?
  {
    hide Sound, Run;
    var s, n := NewPool(capacity, queueSize), NewPool(capacity, queueSize).queueSize;
    var late := [Get(n, true), Borrow(n, Enqueue), Borrow(n, Expire)];
    Fill(capacity, queueSize, n);
    var full := Run(s, DeadRequests(n));
    LateBorrower(full, n);
    SizeKept(full, late);
    DrainAll(Run(full, late), n, n);
    SizeKept(Run(full, late), RefuseAll(n));
    RunAppend(s, DeadRequests(n), late);
    RunAppend(s, DeadRequests(n) + late, RefuseAll(n));
    es := DeadRequests(n) + late + RefuseAll(n);
    hide Filled;
    StuckExactly(Run(s, es), n);
  }
}
