/** In every interleaving: who has which object, which leases are listed, and who is answered. */
module PoolLending {
  import opened Common
  import opened MapSums
  import opened PoolModel

  datatype Place = InWorker(w: nat) | InResult(r: nat) | WithBorrower(r: nat) | InReturn(l: nat)

  /** The object is at the place. */
  predicate Located(s: State, o: nat, p: Place) {
    match p
    case InWorker(w) => w in s.workers && s.workers[w].item == o && !s.workers[w].phase.Away()
    case InResult(r) => r in s.borrowers && s.borrowers[r].slot == Object(o)
    case WithBorrower(r) =>
      r in s.borrowers && var stage := s.borrowers[r].stage; (stage.Holding? || stage.Returning?) && stage.item == o
    case InReturn(l) => l in s.channels && s.channels[l].slot == Some(o)
  }

  ghost predicate Somewhere(s: State, o: nat) {
    exists p :: Located(s, o, p)
  }

  /** Every object made is in exactly one place, and nothing else is anywhere. */
  ghost predicate Exclusive(s: State) {
    && (forall o | o in s.workers :: Somewhere(s, o))
    && (forall o, p | Located(s, o, p) :: o in s.workers)
    && (forall o, p, q | Located(s, o, p) && Located(s, o, q) :: p == q)
  }

  /** The lease table lists exactly the objects of workers on lease, under their current lease. */
  ghost predicate LeasesExact(s: State) {
    && (forall w | w in s.workers :: s.workers[w].item == w)
    && (forall w | w in s.workers && (s.workers[w].phase.Received? || s.workers[w].phase.Unlisted?) ::
          s.workers[w].phase.returned == w)
    && (forall o :: o in s.leases <==> o in s.workers && s.workers[o].phase.OnLease())
    && (forall o | o in s.leases ::
          var l := s.leases[o];
          l == s.workers[o].phase.lease && l in s.channels && s.channels[l].item == o && !s.channels[l].closed)
    && (forall l | l in s.channels ::
          l < s.nextLease &&
          (s.channels[l].slot.Some? ==>
             var o := s.channels[l].slot.value;
             o == s.channels[l].item && o in s.leases && s.leases[o] == l && s.workers[o].phase.Away()))
    && (forall r | r in s.borrowers && s.borrowers[r].stage.Returning? ::
          var stage := s.borrowers[r].stage;
          stage.item in s.leases && s.leases[stage.item] == stage.lease)
  }

  /** Each open request waits in one place, unanswered. */
  ghost predicate Requests(s: State) {
    && |s.queue| <= s.queueSize
    && (forall i | 0 <= i < |s.queue| :: Open(s, s.queue[i]))
    && (forall i, j | 0 <= i < j < |s.queue| :: s.queue[i] != s.queue[j])
    && (forall w | w in s.workers && s.workers[w].phase.Answering() ::
          var r := s.workers[w].phase.request; Open(s, r) && r !in s.queue)
    && (forall v, w | v in s.workers && w in s.workers && s.workers[v].phase.Answering() && s.workers[w].phase.Answering() ::
          s.workers[v].phase.request == s.workers[w].phase.request ==> v == w)
    && (forall r | r in s.borrowers :: Single(s.borrowers[r]))
  }

  predicate Open(s: State, r: nat) {
    && r in s.borrowers && s.borrowers[r].answers == 0
    && (s.borrowers[r].stage.Waiting? || s.borrowers[r].stage.Ended?)
  }

  predicate Single(b: Borrower) {
    && b.answers <= 1 && (!b.slot.Empty? ==> b.answers == 1)
    && (!b.stage.Waiting? && !b.stage.Ended? ==> b.slot.Empty?)
    && (b.stage.Trying? || b.stage.Dropping? ==> b.answers == 0)
    && (b.expired ==> b.cancellable)
  }

  predicate Handles(s: State, w: nat, r: nat) {
    w in s.workers && s.workers[w].phase.Answering() && s.workers[w].phase.request == r
  }

  ghost predicate Waited(s: State, r: nat) {
    r in s.borrowers && s.borrowers[r].stage.Waiting? && s.borrowers[r].slot.Empty? && !s.borrowers[r].expired
  }

  /** Nobody waits in vain: a request not yet answered is queued or with a worker, or its context has run out. */
  ghost predicate Served(s: State) {
    forall r | Waited(s, r) :: r in s.queue || exists w :: Handles(s, w, r)
  }

  /** The queue is in the order of the tickets. */
  ghost predicate InOrder(s: State) {
    && (forall r | r in s.borrowers :: s.borrowers[r].ticket <= s.nextTicket)
    && (forall i | 0 <= i < |s.queue| :: s.queue[i] in s.borrowers && s.borrowers[s.queue[i]].ticket < s.nextTicket)
    && (forall i, j | 0 <= i < j < |s.queue| :: s.borrowers[s.queue[i]].ticket < s.borrowers[s.queue[j]].ticket)
  }

  ghost function CountedWorkers(s: State): set<nat> {
    set w | w in s.workers && s.workers[w].phase.Counted()
  }

  ghost predicate Sound(s: State) {
    && LeasesExact(s) && Exclusive(s) && Requests(s) && Served(s) && InOrder(s)
    && s.activeLeases == |CountedWorkers(s)|
    && s.faults == 0
  }

  /** The object o went from p to q, and nothing else moved. */
  ghost predicate Moved(s: State, t: State, o: nat, p: Place, q: Place) {
    && Located(s, o, p)
    && forall x, y :: Located(t, x, y) <==> (x == o && y == q) || (Located(s, x, y) && !(x == o && y == p))
  }

  ghost predicate Still(s: State, t: State) {
    forall x, y :: Located(t, x, y) <==> Located(s, x, y)
  }

  lemma MoveKeeps(s: State, t: State, o: nat, p: Place, q: Place)
    requires Exclusive(s) && Moved(s, t, o, p, q) && t.workers.Keys == s.workers.Keys
    ensures Exclusive(t)
  {
    hide Located;
    forall x | x in t.workers ensures Somewhere(t, x) {
      if x == o {
        assert Located(t, x, q);
      } else {
        var y :| Located(s, x, y);
        assert Located(t, x, y);
      }
    }
  }

  lemma StillKeeps(s: State, t: State)
    requires Exclusive(s) && Still(s, t) && t.workers.Keys == s.workers.Keys
    ensures Exclusive(t)
  {
    hide Located;
    forall x | x in t.workers ensures Somewhere(t, x) {
      var y :| Located(s, x, y);
      assert Located(t, x, y);
    }
  }

  /** What a borrower holds is on lease, its return channel open and empty. */
  lemma HeldIsOnLease(s: State, r: nat)
    requires LeasesExact(s) && Exclusive(s) && r in s.borrowers
    requires s.borrowers[r].stage.Holding? || s.borrowers[r].stage.Returning?
    ensures var stage := s.borrowers[r].stage;
            && stage.item in s.leases
            && (stage.Returning? ==> s.leases[stage.item] == stage.lease)
            && var l := s.leases[stage.item];
               l in s.channels && s.channels[l].slot.None? && !s.channels[l].closed
  {
    var o := s.borrowers[r].stage.item;
    assert Located(s, o, WithBorrower(r));
    assert s.workers[o].phase.Away() || Located(s, o, InWorker(o));
    var l := s.leases[o];
    if s.channels[l].slot.Some? {
      assert Located(s, o, InReturn(l));
    }
  }

  lemma AcceptPlaces(s: State, r: nat)
    requires Exclusive(s) && Movable(s, r, Accept)
    ensures Exclusive(Moving(s, r, Accept))
  {
    hide Exclusive;
    var t, b := Moving(s, r, Accept), s.borrowers[r];
    if b.slot.Object? {
      MoveKeeps(s, t, b.slot.item, InResult(r), WithBorrower(r));
    } else {
      StillKeeps(s, t);
    }
  }

  lemma GiveBackPlaces(s: State, r: nat)
    requires LeasesExact(s) && Exclusive(s) && Movable(s, r, GiveBack)
    ensures Exclusive(Moving(s, r, GiveBack))
  {
    hide Exclusive, LeasesExact;
    HeldIsOnLease(s, r);
    var b := s.borrowers[r];
    MoveKeeps(s, Moving(s, r, GiveBack), b.stage.item, WithBorrower(r), InReturn(b.stage.lease));
  }

  lemma MovingPlaces(s: State, r: nat, move: Move)
    requires LeasesExact(s) && Exclusive(s) && Movable(s, r, move)
    ensures Exclusive(Moving(s, r, move))
  {
    hide Exclusive, LeasesExact;
    if move.Accept? {
      AcceptPlaces(s, r);
    } else if move.GiveBack? {
      GiveBackPlaces(s, r);
    } else {
      if move.FindLease? {
        HeldIsOnLease(s, r);
      }
      StillKeeps(s, Moving(s, r, move));
    }
  }

  lemma DeliverPlaces(s: State, w: nat)
    requires LeasesExact(s) && Exclusive(s) && Workable(s, w, Deliver)
    ensures Exclusive(Working(s, w, Deliver))
  {
    hide Exclusive, LeasesExact;
    assert s.workers[w].item == w by {
      WorkerOwns(s, w);
    }
    MoveKeeps(s, Working(s, w, Deliver), w, InWorker(w), InResult(s.workers[w].phase.request));
  }

  lemma WorkerOwns(s: State, w: nat)
    requires LeasesExact(s) && w in s.workers
    ensures s.workers[w].item == w
    ensures var p := s.workers[w].phase; (p.Received? || p.Unlisted?) ==> p.returned == w
  {
  }

  lemma FreshLease(s: State)
    requires LeasesExact(s)
    ensures s.nextLease !in s.channels
  {
  }

  lemma CollectPlaces(s: State, w: nat)
    requires LeasesExact(s) && Exclusive(s) && Workable(s, w, Collect)
    ensures Exclusive(Working(s, w, Collect))
  {
    hide Exclusive;
    var p := s.workers[w].phase;
    assert s.channels[p.lease].slot == Some(w);
    hide LeasesExact;
    MoveKeeps(s, Working(s, w, Collect), w, InReturn(p.lease), InWorker(w));
  }

  lemma WorkingPlaces(s: State, w: nat, task: Task)
    requires LeasesExact(s) && Exclusive(s) && Workable(s, w, task)
    ensures Exclusive(Working(s, w, task))
  {
    hide Exclusive, LeasesExact;
    if task.Deliver? {
      DeliverPlaces(s, w);
    } else if task.Collect? {
      CollectPlaces(s, w);
    } else {
      WorkerOwns(s, w);
      FreshLease(s);
      StillKeeps(s, Working(s, w, task));
    }
  }

  lemma GiveBackLeases(s: State, r: nat)
    requires LeasesExact(s) && Exclusive(s) && Movable(s, r, GiveBack)
    ensures LeasesExact(Moving(s, r, GiveBack))
  {
    HeldIsOnLease(s, r);
    HeldIsAway(s, r);
    hide Exclusive;
  }

  /** A step that touches borrowers only, and begins no return without a lease. */
  lemma BorrowersOnly(s: State, t: State)
    requires LeasesExact(s)
    requires t.workers == s.workers && t.leases == s.leases && t.channels == s.channels && t.nextLease == s.nextLease
    requires forall r | r in t.borrowers && t.borrowers[r].stage.Returning? ::
               || (r in s.borrowers && t.borrowers[r].stage == s.borrowers[r].stage)
               || (t.borrowers[r].stage.item in s.leases && s.leases[t.borrowers[r].stage.item] == t.borrowers[r].stage.lease)
    ensures LeasesExact(t)
  {
  }

  lemma MovingLeases(s: State, r: nat, move: Move)
    requires LeasesExact(s) && Exclusive(s) && Movable(s, r, move)
    ensures LeasesExact(Moving(s, r, move))
  {
    hide Exclusive, LeasesExact;
    if move.GiveBack? {
      GiveBackLeases(s, r);
    } else {
      if move.FindLease? {
        HeldIsOnLease(s, r);
      }
      BorrowersOnly(s, Moving(s, r, move));
    }
  }

  lemma HeldIsAway(s: State, r: nat)
    requires LeasesExact(s) && Exclusive(s) && r in s.borrowers
    requires s.borrowers[r].stage.Holding? || s.borrowers[r].stage.Returning?
    ensures var o := s.borrowers[r].stage.item; o in s.workers && s.workers[o].phase.Away()
  {
    var o := s.borrowers[r].stage.item;
    assert Located(s, o, WithBorrower(r));
    assert s.workers[o].phase.Away() || Located(s, o, InWorker(o));
  }

  /** No put is under way for an object its worker has at hand. */
  lemma NoneReturning(s: State, w: nat)
    requires LeasesExact(s) && Exclusive(s) && w in s.workers && !s.workers[w].phase.Away()
    ensures forall r | r in s.borrowers && s.borrowers[r].stage.Returning? :: s.borrowers[r].stage.item != w
    ensures forall l | l in s.channels && s.channels[l].slot.Some? :: s.channels[l].item != w
  {
    assert Located(s, w, InWorker(w));
    forall r | r in s.borrowers && s.borrowers[r].stage.Returning? ensures s.borrowers[r].stage.item != w {
      assert s.borrowers[r].stage.item == w ==> Located(s, w, WithBorrower(r));
    }
    forall l | l in s.channels && s.channels[l].slot.Some? ensures s.channels[l].item != w {
      assert s.channels[l].item == w ==> Located(s, w, InReturn(l));
    }
  }

  lemma CollectedAlone(s: State, w: nat)
    requires LeasesExact(s) && Exclusive(s) && Workable(s, w, Collect)
    ensures forall r | r in s.borrowers && s.borrowers[r].stage.Returning? :: s.borrowers[r].stage.item != w
  {
    var l := s.workers[w].phase.lease;
    assert Located(s, w, InReturn(l));
    forall r | r in s.borrowers && s.borrowers[r].stage.Returning? ensures s.borrowers[r].stage.item != w {
      assert s.borrowers[r].stage.item == w ==> Located(s, w, WithBorrower(r));
    }
  }

  lemma CheckoutLeases(s: State, w: nat)
    requires LeasesExact(s) && Exclusive(s) && Workable(s, w, Checkout)
    ensures LeasesExact(Working(s, w, Checkout))
  {
    hide Exclusive, Located;
    NoneReturning(s, w);
  }

  lemma CancelLeases(s: State, w: nat)
    requires LeasesExact(s) && Exclusive(s) && Workable(s, w, CancelLease)
    ensures LeasesExact(Working(s, w, CancelLease))
  {
    hide Exclusive, Located;
    NoneReturning(s, w);
  }

  lemma CollectLeases(s: State, w: nat)
    requires LeasesExact(s) && Exclusive(s) && Workable(s, w, Collect)
    ensures LeasesExact(Working(s, w, Collect))
  {
    hide Exclusive, Located;
    CollectedAlone(s, w);
  }

  lemma UnlistLeases(s: State, w: nat)
    requires LeasesExact(s) && Exclusive(s) && Workable(s, w, Unlist)
    ensures LeasesExact(Working(s, w, Unlist))
  {
    hide Exclusive, Located;
    NoneReturning(s, w);
  }

  lemma WorkingLeases(s: State, w: nat, task: Task)
    requires LeasesExact(s) && Exclusive(s) && Workable(s, w, task)
    ensures LeasesExact(Working(s, w, task))
  {
    hide Exclusive;
    match task
    case Checkout => hide LeasesExact; CheckoutLeases(s, w);
    case CancelLease => hide LeasesExact; CancelLeases(s, w);
    case Collect => hide LeasesExact; CollectLeases(s, w);
    case Unlist => hide LeasesExact; UnlistLeases(s, w);
    case Deliver =>
    case _ =>
  }

  // --- Requests -----------------------------------------------------------------------

  lemma EnqueueRequests(s: State, r: nat)
    requires Requests(s) && Movable(s, r, Enqueue)
    ensures Requests(Moving(s, r, Enqueue))
  {
    TryingNotQueued(s, r);
    assert Single(s.borrowers[r]) && !Open(s, r);
    assert Single(Moving(s, r, Enqueue).borrowers[r]);
    hide Single;
  }

  lemma DropRequests(s: State, r: nat)
    requires Requests(s) && Movable(s, r, DropOldest)
    ensures Requests(Moving(s, r, DropOldest))
  {
    assert Open(s, s.queue[0]);
  }

  /** One borrower moves on by itself; its request is no longer, or was not, open. */
  lemma OneBorrower(s: State, t: State, r: nat)
    requires Requests(s) && r in s.borrowers && r in t.borrowers && t == s.(borrowers := s.borrowers[r := t.borrowers[r]])
    requires Single(t.borrowers[r]) && (Open(s, r) ==> Open(t, r))
    ensures Requests(t)
  {
    hide Single;
  }

  lemma MovingRequests(s: State, r: nat, move: Move)
    requires LeasesExact(s) && Exclusive(s) && Requests(s) && Movable(s, r, move)
    ensures Requests(Moving(s, r, move))
  {
    hide LeasesExact, Exclusive;
    match move
    case Enqueue => EnqueueRequests(s, r);
    case DropOldest => DropRequests(s, r);
    case FindLease => HeldIsOnLease(s, r); OneBorrower(s, Moving(s, r, move), r);
    case GiveBack => GiveBackRequests(s, r);
    case _ => OneBorrower(s, Moving(s, r, move), r);
  }

  lemma GiveBackRequests(s: State, r: nat)
    requires LeasesExact(s) && Exclusive(s) && Requests(s) && Movable(s, r, GiveBack)
    ensures Requests(Moving(s, r, GiveBack))
  {
    hide LeasesExact, Exclusive, Requests;
    HeldIsOnLease(s, r);
    var t := Moving(s, r, GiveBack);
    EndRequests(s, t, r);
  }

  lemma EndRequests(s: State, t: State, r: nat)
    requires Requests(s) && r in s.borrowers && t == SetStage(s.(channels := t.channels), r, Ended)
    ensures Requests(t)
  {
  }

  lemma NextRequestRequests(s: State, w: nat)
    requires Requests(s) && Workable(s, w, NextRequest)
    ensures Requests(Working(s, w, NextRequest))
  {
    assert Open(s, s.queue[0]);
  }

  lemma DeliverRequests(s: State, w: nat)
    requires Requests(s) && Workable(s, w, Deliver)
    ensures Requests(Working(s, w, Deliver))
  {
  }

  lemma WorkingRequests(s: State, w: nat, task: Task)
    requires Requests(s) && Workable(s, w, task)
    ensures Requests(Working(s, w, task))
  {
    match task
    case NextRequest => hide Requests; NextRequestRequests(s, w);
    case Deliver => hide Requests; DeliverRequests(s, w);
    case _ =>
  }

  lemma MovingServed(s: State, r: nat, move: Move)
    requires Requests(s) && Served(s) && Movable(s, r, move)
    ensures Served(Moving(s, r, move))
  {
    var t := Moving(s, r, move);
    forall q | Waited(t, q) ensures q in t.queue || exists w :: Handles(t, w, q) {
      if q != r {
        assert Waited(s, q);
        if q !in s.queue {
          var w :| Handles(s, w, q);
          assert Handles(t, w, q);
        }
      }
    }
  }

  lemma WorkingServed(s: State, w: nat, task: Task)
    requires Served(s) && Workable(s, w, task)
    ensures Served(Working(s, w, task))
  {
    var t := Working(s, w, task);
    forall q | Waited(t, q) ensures q in t.queue || exists v :: Handles(t, v, q) {
      assert Waited(s, q);
      if q !in s.queue {
        var v :| Handles(s, v, q);
        assert v == w || Handles(t, v, q);
        assert v == w ==> Handles(t, w, q);
      } else if task.NextRequest? && q == s.queue[0] {
        assert Handles(t, w, q);
      }
    }
  }

  lemma BeginSound(s: State, e: Event)
    requires LeasesExact(s) && Exclusive(s) && (e.Get? || e.TryGet?)
    ensures LeasesExact(Next(s, e)) && Exclusive(Next(s, e))
  {
    hide LeasesExact, Exclusive;
    BorrowersOnly(s, Next(s, e));
    StillKeeps(s, Next(s, e));
  }

  lemma BeginRequests(s: State, e: Event)
    requires Requests(s) && (e.Get? || e.TryGet?)
    ensures Requests(Next(s, e))
  {
    if e.r !in s.borrowers {
      assert !Open(s, e.r);
      assert Single(Next(s, e).borrowers[e.r]);
    }
    hide Single;
  }

  lemma BeginServed(s: State, e: Event)
    requires Served(s) && (e.Get? || e.TryGet?)
    ensures Served(Next(s, e))
  {
    var t := Next(s, e);
    forall q | Waited(t, q) ensures q in t.queue || exists w :: Handles(t, w, q) {
      if q != e.r || q in s.borrowers {
        assert Waited(s, q);
        if q !in s.queue {
          var w :| Handles(s, w, q);
          assert Handles(t, w, q);
        }
      }
    }
  }

  // --- First come, first served -----------------------------------------------------------

  /** Nothing but a shorter queue, or answers and stages of borrowers. */
  lemma TicketsKept(s: State, t: State)
    requires InOrder(s) && t.nextTicket == s.nextTicket
    requires t.queue == s.queue || (s.queue != [] && t.queue == s.queue[1..])
    requires forall r | r in t.borrowers :: r in s.borrowers && t.borrowers[r].ticket == s.borrowers[r].ticket
    requires s.borrowers.Keys <= t.borrowers.Keys
    ensures InOrder(t)
  {
  }

  lemma EnqueueInOrder(s: State, r: nat)
    requires InOrder(s) && Movable(s, r, Enqueue) && r !in s.queue
    ensures InOrder(Moving(s, r, Enqueue))
  {
  }

  lemma MovingInOrder(s: State, r: nat, move: Move)
    requires Requests(s) && InOrder(s) && Movable(s, r, move)
    ensures InOrder(Moving(s, r, move))
  {
    hide InOrder, Requests;
    if move.Enqueue? {
      TryingNotQueued(s, r);
      EnqueueInOrder(s, r);
    } else {
      TicketsKept(s, Moving(s, r, move));
    }
  }

  lemma TryingNotQueued(s: State, r: nat)
    requires Requests(s) && r in s.borrowers && s.borrowers[r].stage.Trying?
    ensures r !in s.queue
  {
    assert !Open(s, r);
  }

  lemma WorkingInOrder(s: State, w: nat, task: Task)
    requires InOrder(s) && Workable(s, w, task)
    ensures InOrder(Working(s, w, task))
  {
    hide InOrder;
    TicketsKept(s, Working(s, w, task));
  }

  lemma BeginInOrder(s: State, e: Event)
    requires InOrder(s) && (e.Get? || e.TryGet?)
    ensures InOrder(Next(s, e))
  {
  }

  // --- Counting ------------------------------------------------------------------------

  lemma CountedAfter(s: State, t: State, w: nat)
    requires w in s.workers && w in t.workers && t.workers == s.workers[w := t.workers[w]]
    ensures |CountedWorkers(t)| - (if t.workers[w].phase.Counted() then 1 else 0) ==
            |CountedWorkers(s)| - (if s.workers[w].phase.Counted() then 1 else 0)
  {
    assert CountedWorkers(t) - {w} == CountedWorkers(s) - {w};
    assert w in CountedWorkers(t) ==> |CountedWorkers(t) - {w}| == |CountedWorkers(t)| - 1;
    assert w in CountedWorkers(s) ==> |CountedWorkers(s) - {w}| == |CountedWorkers(s)| - 1;
    assert w !in CountedWorkers(t) ==> CountedWorkers(t) - {w} == CountedWorkers(t);
    assert w !in CountedWorkers(s) ==> CountedWorkers(s) - {w} == CountedWorkers(s);
  }

  lemma WorkingCounts(s: State, w: nat, task: Task)
    requires Workable(s, w, task) && s.activeLeases == |CountedWorkers(s)|
    ensures Working(s, w, task).activeLeases == |CountedWorkers(Working(s, w, task))|
  {
    hide CountedWorkers;
    CountedAfter(s, Working(s, w, task), w);
  }

  lemma StepSound(s: State, e: Event)
    requires Sound(s)
    ensures Sound(Next(s, e)) && Next(s, e).workers.Keys == s.workers.Keys && Next(s, e).queueSize == s.queueSize
  {
    hide LeasesExact, Exclusive, Requests, Served, InOrder, CountedWorkers, Movable, Workable, Moving, Working;
    StepKeys(s, e);
    match e
    case Borrow(r, move) =>
      if Movable(s, r, move) {
        MovingSound(s, r, move);
      }
    case Work(w, task) =>
      if Workable(s, w, task) {
        WorkingSound(s, w, task);
      }
    case _ =>
      BeginSound(s, e);
      BeginRequests(s, e);
      BeginServed(s, e);
      BeginInOrder(s, e);
      BeginCounts(s, e);
  }

  lemma StepKeys(s: State, e: Event)
    ensures Next(s, e).workers.Keys == s.workers.Keys && Next(s, e).queueSize == s.queueSize
  {
    hide Moving, Working, Movable, Workable;
    match e
    case Borrow(r, move) =>
      if Movable(s, r, move) {
        MovingKeys(s, r, move);
      }
    case Work(w, task) =>
      if Workable(s, w, task) {
        WorkingKeys(s, w, task);
      }
    case _ =>
  }

  lemma MovingKeys(s: State, r: nat, move: Move)
    requires Movable(s, r, move)
    ensures Moving(s, r, move).workers.Keys == s.workers.Keys && Moving(s, r, move).queueSize == s.queueSize
  {
  }

  lemma WorkingKeys(s: State, w: nat, task: Task)
    requires Workable(s, w, task)
    ensures Working(s, w, task).workers.Keys == s.workers.Keys && Working(s, w, task).queueSize == s.queueSize
  {
  }

  lemma BeginCounts(s: State, e: Event)
    requires e.Get? || e.TryGet?
    ensures CountedWorkers(Next(s, e)) == CountedWorkers(s)
  {
  }

  lemma WorkingSound(s: State, w: nat, task: Task)
    requires Sound(s) && Workable(s, w, task)
    ensures Sound(Working(s, w, task))
  {
    hide LeasesExact, Exclusive, Requests, Served, InOrder, CountedWorkers, Workable;
    WorkingInOrder(s, w, task);
    WorkingPlaces(s, w, task);
    WorkingLeases(s, w, task);
    WorkingRequests(s, w, task);
    WorkingServed(s, w, task);
    WorkingCounts(s, w, task);
  }

  lemma MovingSound(s: State, r: nat, move: Move)
    requires Sound(s) && Movable(s, r, move)
    ensures Sound(Moving(s, r, move))
  {
    hide LeasesExact, Exclusive, Requests, Served, InOrder;
    MovingInOrder(s, r, move);
    MovingPlaces(s, r, move);
    MovingLeases(s, r, move);
    MovingRequests(s, r, move);
    MovingServed(s, r, move);
    if move.FindLease? || move.GiveBack? {
      HeldIsOnLease(s, r);
    }
  }

  lemma NewSound(capacity: nat, queueSize: int)
    requires capacity > 0
    ensures Sound(NewPool(capacity, queueSize))
  {
    var s := NewPool(capacity, queueSize);
    forall o | o in s.workers ensures Somewhere(s, o) {
      assert Located(s, o, InWorker(o));
    }
    assert CountedWorkers(s) == {};
  }

  lemma {:induction false} RunSound(capacity: nat, queueSize: int, es: seq<Event>)
    requires capacity > 0
    ensures var s := Run(NewPool(capacity, queueSize), es);
            && Sound(s) && s.workers.Keys == NewPool(capacity, queueSize).workers.Keys
            && s.queueSize == NewPool(capacity, queueSize).queueSize
    decreases |es|
  {
    hide Sound, Next;
    if es == [] {
      NewSound(capacity, queueSize);
    } else {
      RunSound(capacity, queueSize, es[..|es| - 1]);
      StepSound(Run(NewPool(capacity, queueSize), es[..|es| - 1]), es[|es| - 1]);
    }
  }

  // --- What every run keeps --------------------------------------------------------------

  /** Each of the objects is in exactly one place, and no two borrowers hold the same one. */
  lemma ExclusiveLending(capacity: nat, queueSize: int, es: seq<Event>)
    requires capacity > 0
    ensures var s := Run(NewPool(capacity, queueSize), es);
            && (forall o: nat | o < capacity :: Somewhere(s, o))
            && (forall o: nat, p | Located(s, o, p) :: o < capacity)
            && (forall o, p, q | Located(s, o, p) && Located(s, o, q) :: p == q)
            && (forall q, r | q in s.borrowers && r in s.borrowers && s.borrowers[q].stage.Holding? && s.borrowers[r].stage.Holding? ::
                  s.borrowers[q].stage.item == s.borrowers[r].stage.item ==> q == r)
  {
    RunSound(capacity, queueSize, es);
    hide LeasesExact, Requests, Served, Next, Run;
    var s := Run(NewPool(capacity, queueSize), es);
    forall q, r | q in s.borrowers && r in s.borrowers && s.borrowers[q].stage.Holding? && s.borrowers[r].stage.Holding?
      ensures s.borrowers[q].stage.item == s.borrowers[r].stage.item ==> q == r
    {
      assert Located(s, s.borrowers[q].stage.item, WithBorrower(q));
      assert Located(s, s.borrowers[r].stage.item, WithBorrower(r));
    }
  }

  /**
   The lease table lists exactly the objects between checkout and removal, and a put of
   an object the borrower holds finds its lease and an open, empty return channel: no put
   ever ends in an error.
   */
  lemma LeaseTableExact(capacity: nat, queueSize: int, es: seq<Event>)
    requires capacity > 0
    ensures var s := Run(NewPool(capacity, queueSize), es);
            && s.faults == 0
            && (forall o :: o in s.leases <==> o in s.workers && s.workers[o].phase.OnLease())
            && (forall r | r in s.borrowers && (s.borrowers[r].stage.Holding? || s.borrowers[r].stage.Returning?) ::
                  var o := s.borrowers[r].stage.item;
                  o in s.leases && s.leases[o] in s.channels && s.channels[s.leases[o]] == Lease(o, None, false))
  {
    RunSound(capacity, queueSize, es);
    hide Exclusive, Requests, Served, Next, Run;
    var s := Run(NewPool(capacity, queueSize), es);
    forall r | r in s.borrowers && (s.borrowers[r].stage.Holding? || s.borrowers[r].stage.Returning?)
      ensures var o := s.borrowers[r].stage.item;
              o in s.leases && s.leases[o] in s.channels && s.channels[s.leases[o]] == Lease(o, None, false)
    {
      HeldIsOnLease(s, r);
    }
  }

  /**
   The queue keeps within its size; every request is answered at most once, so a worker
   about to deliver and a borrower about to drop a request both find its slot empty; and
   a request whose context lives is queued, with a worker, or answered.
   */
  lemma RequestDiscipline(capacity: nat, queueSize: int, es: seq<Event>)
    requires capacity > 0
    ensures var s := Run(NewPool(capacity, queueSize), es);
            && |s.queue| <= (if queueSize <= 0 then capacity else queueSize)
            && (forall i, j | 0 <= i < j < |s.queue| :: s.queue[i] != s.queue[j])
            && (forall r | r in s.borrowers :: s.borrowers[r].answers <= 1)
            && (forall w | w in s.workers && s.workers[w].phase.Leased? :: Workable(s, w, Deliver))
            && (forall r | r in s.queue :: r in s.borrowers && s.borrowers[r].slot.Empty?)
            && (forall r | Waited(s, r) :: r in s.queue || exists w :: Handles(s, w, r))
  {
    RunSound(capacity, queueSize, es);
    hide Exclusive, LeasesExact, Next, Run;
    var s := Run(NewPool(capacity, queueSize), es);
    forall w | w in s.workers && s.workers[w].phase.Leased? ensures Workable(s, w, Deliver) {
      assert Open(s, s.workers[w].phase.request);
    }
    forall r | r in s.queue ensures r in s.borrowers && s.borrowers[r].slot.Empty? {
      assert Open(s, r);
    }
  }

  lemma HeadIsOldest(s: State, q: nat)
    requires Requests(s) && InOrder(s) && q in s.queue
    ensures s.queue[0] in s.borrowers && q in s.borrowers && Open(s, s.queue[0])
    ensures s.borrowers[s.queue[0]].ticket <= s.borrowers[q].ticket
  {
    var i :| 0 <= i < |s.queue| && s.queue[i] == q;
    assert Open(s, s.queue[0]) && Open(s, s.queue[i]);
  }

  /** The queued request that no other one was queued before. */
  ghost predicate Oldest(s: State, first: nat) {
    && first in s.queue && first in s.borrowers
    && forall q | q in s.queue :: q in s.borrowers && s.borrowers[first].ticket <= s.borrowers[q].ticket
  }

  /** What a worker takes is the request queued first. */
  lemma TakesOldest(capacity: nat, queueSize: int, es: seq<Event>, w: nat)
    requires capacity > 0 && Workable(Run(NewPool(capacity, queueSize), es), w, NextRequest)
    ensures var s := Run(NewPool(capacity, queueSize), es);
            Oldest(s, Next(s, Work(w, NextRequest)).workers[w].phase.request)
  {
    RunSound(capacity, queueSize, es);
    var s := Run(NewPool(capacity, queueSize), es);
    hide LeasesExact, Exclusive, Served, Run, CountedWorkers, Requests, InOrder;
    forall q | q in s.queue ensures q in s.borrowers && s.borrowers[s.queue[0]].ticket <= s.borrowers[q].ticket {
      HeadIsOldest(s, q);
    }
  }

  /** And what a borrower fails to make room is the request queued first: it is told so, and gone from the queue. */
  lemma DropsOldest(capacity: nat, queueSize: int, es: seq<Event>, r: nat) returns (first: nat)
    requires capacity > 0 && Movable(Run(NewPool(capacity, queueSize), es), r, DropOldest)
    ensures var s := Run(NewPool(capacity, queueSize), es); var t := Next(s, Borrow(r, DropOldest));
            && Oldest(s, first) && s.queue == [first] + t.queue
            && first in t.borrowers && t.borrowers[first].slot == Failure && t.borrowers[first].answers == 1
  {
    RunSound(capacity, queueSize, es);
    var s := Run(NewPool(capacity, queueSize), es);
    hide LeasesExact, Exclusive, Served, Run, CountedWorkers, InOrder;
    first := s.queue[0];
    forall q | q in s.queue ensures q in s.borrowers && s.borrowers[first].ticket <= s.borrowers[q].ticket {
      HeadIsOldest(s, q);
    }
    assert Open(s, first) && !Open(s, r);
  }

  lemma SubsetSize<T>(a: set<T>, b: set<T>)
    requires a <= b
    ensures |a| <= |b|
  {
    if a != {} {
      var x :| x in a;
      SubsetSize(a - {x}, b - {x});
    }
  }

  /** The counter is the number of objects delivered, counted, and not yet counted back, so the gauge never needs its clamp. */
  lemma CounterExact(capacity: nat, queueSize: int, es: seq<Event>)
    requires capacity > 0
    ensures var s := Run(NewPool(capacity, queueSize), es);
            && s.activeLeases == |CountedWorkers(s)|
            && 0 <= s.activeLeases <= capacity == |s.workers|
            && Available(s) == capacity - s.activeLeases
  {
    RunSound(capacity, queueSize, es);
    hide LeasesExact, Exclusive, Requests, Served, Next, Run;
    var s := Run(NewPool(capacity, queueSize), es);
    assert |s.workers.Keys| == |s.workers|;
    KeysSize(s.workers, capacity);
    SubsetSize(CountedWorkers(s), s.workers.Keys);
  }

  lemma {:induction false} KeysSize(m: map<nat, Worker>, n: nat)
    requires forall w: nat :: w in m <==> w < n
    ensures |m| == n
  {
    if n > 0 {
      CardRemove(m, n - 1);
      KeysSize(m - {n - 1}, n - 1);
    } else {
      assert m == map[];
    }
  }
}
