/**
 One call into a pool, made while nobody else calls: the caller's own steps and those of
 the workers, in the order given.
 */
module PoolCalls {
  import opened Common
  import opened PoolModel
  import opened PoolLending
  import opened PoolLosses
  import opened PoolWaiting

  /** Only workers act. */
  predicate OnlyWorkers(es: seq<Event>) {
    forall i | 0 <= i < |es| :: es[i].Work?
  }

  predicate OfGet(move: Move) {
    !move.FindLease? && !move.GiveBack?
  }

  /** Only workers act, and the call r of Get. */
  predicate Own(es: seq<Event>, r: nat) {
    forall i | 0 <= i < |es| :: es[i].Work? || (es[i].Borrow? && es[i].r == r && OfGet(es[i].move))
  }

  /** What borrowers have in their hands. */
  ghost function HeldObjects(s: State): set<nat> {
    set r | r in s.borrowers && s.borrowers[r].stage.Holding? :: s.borrowers[r].stage.item
  }

  /** No call is under way. */
  ghost predicate Rested(s: State) {
    Sound(s) && forall r | r in s.borrowers :: s.borrowers[r].stage.Holding? || s.borrowers[r].stage.Ended?
  }

  // --- Other borrowers ------------------------------------------------------------------------

  /** Nobody comes or goes but r, and all others stay where they were. */
  ghost predicate OthersStay(s: State, t: State, r: nat) {
    && t.borrowers.Keys == s.borrowers.Keys + (if r in t.borrowers then {r} else {})
    && forall q | q in s.borrowers && q != r :: t.borrowers[q].stage == s.borrowers[q].stage
  }

  lemma MoveOthersStay(s: State, r: nat, move: Move)
    requires Movable(s, r, move)
    ensures OthersStay(s, Moving(s, r, move), r)
  {
  }

  lemma StepOthersStay(s: State, e: Event, r: nat)
    requires r in s.borrowers && (e.Work? || (e.Borrow? && e.r == r))
    ensures OthersStay(s, Next(s, e), r) && (e.Work? ==> Next(s, e).borrowers[r].stage == s.borrowers[r].stage)
  {
    hide Moving, Working, Movable, Workable;
    match e
    case Borrow(_, move) => if Movable(s, r, move) { MoveOthersStay(s, r, move); }
    case Work(w, task) => if Workable(s, w, task) { WorkingStages(s, w, task); }
    case _ =>
  }

  lemma {:induction false} RunOthersStay(s: State, es: seq<Event>, r: nat)
    requires Sound(s) && r in s.borrowers && (Own(es, r) || Alone(es, r))
    ensures Sound(Run(s, es)) && OthersStay(s, Run(s, es), r) && r in Run(s, es).borrowers
    ensures OnlyWorkers(es) ==> Run(s, es).borrowers[r].stage == s.borrowers[r].stage
  {
    hide Sound, Next;
    if es != [] {
      RunOthersStay(s, es[..|es| - 1], r);
      var before, e := Run(s, es[..|es| - 1]), es[|es| - 1];
      StepSound(before, e);
      StepOthersStay(before, e, r);
    }
  }

  lemma {:induction false} WorkersOnly(s: State, es: seq<Event>)
    requires Sound(s) && OnlyWorkers(es)
    ensures var t := Run(s, es);
            && Sound(t) && t.borrowers.Keys == s.borrowers.Keys
            && forall r | r in s.borrowers :: t.borrowers[r].stage == s.borrowers[r].stage
  {
    hide Sound, Next;
    if es != [] {
      WorkersOnly(s, es[..|es| - 1]);
      var before, e := Run(s, es[..|es| - 1]), es[|es| - 1];
      StepSound(before, e);
      WorkerStages(before, e);
    }
  }

  lemma WorkerStages(s: State, e: Event)
    requires e.Work?
    ensures var t := Next(s, e);
            t.borrowers.Keys == s.borrowers.Keys && forall r | r in s.borrowers :: t.borrowers[r].stage == s.borrowers[r].stage
  {
    hide Working, Workable;
    if Workable(s, e.w, e.task) {
      WorkingStages(s, e.w, e.task);
    }
  }

  // --- Objects in hand -------------------------------------------------------------------------

  /** Two calls never hold one object. */
  lemma OneHolder(s: State, q: nat, r: nat)
    requires Exclusive(s) && q in s.borrowers && r in s.borrowers
    requires s.borrowers[q].stage.Holding? && s.borrowers[r].stage.Holding? && s.borrowers[q].stage.item == s.borrowers[r].stage.item
    ensures q == r
  {
    assert Located(s, s.borrowers[q].stage.item, WithBorrower(q));
    assert Located(s, s.borrowers[q].stage.item, WithBorrower(r));
  }

  /** The call r began without an object; what it holds now is new, and all else is held as before. */
  lemma HeldAfterGet(s: State, t: State, r: nat)
    requires Rested(s) && Sound(t) && r !in s.borrowers && r in t.borrowers && OthersStay(s, t, r)
    ensures t.borrowers[r].stage.Holding? ==>
              var o := t.borrowers[r].stage.item; Rested(t) && o !in HeldObjects(s) && HeldObjects(t) == HeldObjects(s) + {o}
    ensures t.borrowers[r].stage.Ended? ==> Rested(t)
    ensures !t.borrowers[r].stage.Holding? ==> HeldObjects(t) == HeldObjects(s)
  {
    hide LeasesExact, Exclusive, Requests, Served, InOrder, CountedWorkers;
    forall q | q in t.borrowers && q != r ensures q in s.borrowers && t.borrowers[q].stage == s.borrowers[q].stage {
    }
    if t.borrowers[r].stage.Holding? {
      var o := t.borrowers[r].stage.item;
      if o in HeldObjects(s) {
        var q :| q in s.borrowers && s.borrowers[q].stage.Holding? && s.borrowers[q].stage.item == o;
        OneHolder(t, q, r);
      }
    }
    HeldTogether(s, t, r);
  }

  lemma HeldTogether(s: State, t: State, r: nat)
    requires r !in s.borrowers && r in t.borrowers && OthersStay(s, t, r)
    ensures HeldObjects(t) ==
              HeldObjects(s) + if t.borrowers[r].stage.Holding? then {t.borrowers[r].stage.item} else {}
  {
    forall o | o in HeldObjects(s) ensures o in HeldObjects(t) {
      var q :| q in s.borrowers && s.borrowers[q].stage.Holding? && s.borrowers[q].stage.item == o;
      assert t.borrowers[q].stage == s.borrowers[q].stage;
    }
    forall o | o in HeldObjects(t) ensures o in HeldObjects(s) || (t.borrowers[r].stage.Holding? && o == t.borrowers[r].stage.item) {
      var q :| q in t.borrowers && t.borrowers[q].stage.Holding? && t.borrowers[q].stage.item == o;
      assert q != r ==> s.borrowers[q].stage == t.borrowers[q].stage;
    }
  }

  /** What a call of Get does, however it goes: it holds one more object, or nothing has changed hands. */
  ghost predicate Called(s: State, t: State, r: nat) {
    && r in t.borrowers && t.borrowers.Keys == s.borrowers.Keys + {r}
    && (t.borrowers[r].stage.Holding? ==>
          var o := t.borrowers[r].stage.item; Rested(t) && o !in HeldObjects(s) && HeldObjects(t) == HeldObjects(s) + {o})
    && (t.borrowers[r].stage.Ended? ==> Rested(t))
    && (!t.borrowers[r].stage.Holding? ==> HeldObjects(t) == HeldObjects(s))
  }

  lemma GetEffect(s: State, begin: Event, es: seq<Event>, r: nat)
    requires Rested(s) && r !in s.borrowers && (Own(es, r) || Alone(es, r))
    requires begin == TryGet(r) || (begin.Get? && begin.r == r)
    ensures Called(s, Run(Next(s, begin), es), r)
  {
    var u := Next(s, begin);
    StepSound(s, begin);
    BeginOthersStay(s, begin, r);
    hide Sound, Run, Next;
    RunOthersStay(u, es, r);
    OthersStayOn(s, u, Run(u, es), r);
    hide OthersStay;
    HeldAfterGet(s, Run(u, es), r);
  }

  lemma BeginOthersStay(s: State, begin: Event, r: nat)
    requires r !in s.borrowers && (begin == TryGet(r) || (begin.Get? && begin.r == r))
    ensures OthersStay(s, Next(s, begin), r) && r in Next(s, begin).borrowers
  {
  }

  lemma OthersStayOn(s: State, t: State, u: State, r: nat)
    requires OthersStay(s, t, r) && OthersStay(t, u, r) && r in t.borrowers && r in u.borrowers
    ensures OthersStay(s, u, r) && u.borrowers.Keys == s.borrowers.Keys + {r}
  {
  }

  // --- Giving an object back ------------------------------------------------------------------------

  /** A put of an object nobody holds goes unnoticed: it finds a lease, and at the end an open and empty channel. */
  predicate Unnoticed(s: State, o: nat, during: seq<Event>) {
    && o in s.leases
    && var t := Run(s, during);
       s.leases[o] in t.channels && t.channels[s.leases[o]].slot.None? && !t.channels[s.leases[o]].closed
  }

  /** The worker has seen the return of its object through: the lease is gone. */
  predicate Processed(s: State, o: nat) {
    o in s.workers && (s.workers[o].phase.Idle? || s.workers[o].phase.Taken? || s.workers[o].phase.Unlisted?)
  }

  /** Nobody has the object, and its return has not been received either. */
  predicate Returned(s: State, o: nat) {
    o in s.workers && s.workers[o].phase.Away() &&
    s.workers[o].phase.lease in s.channels && s.channels[s.workers[o].phase.lease].slot.Some?
  }

  /**
   Exactly when a second return is noticed at once: while the first has not been received,
   and after its lease is gone. In between it is taken for a return, as it is for an object
   checked out for the next request or left in a result slot.
   */
  lemma SecondReturnNoticed(s: State, o: nat)
    requires Sound(s) && o in s.workers
    ensures Unnoticed(s, o, []) <==> !Processed(s, o) && !Returned(s, o)
  {
    hide Exclusive, Requests, Served, InOrder, CountedWorkers;
    RunEmpty(s);
    hide Run;
    if s.workers[o].phase.OnLease() {
      assert o in s.leases;
    }
  }

  /** A put that has found a lease which its worker then cancels is noticed too, by a panic. */
  lemma CancelledMeanwhile(s: State, w: nat)
    requires Sound(s) && w in s.workers && s.workers[w].phase.Refused?
    ensures Next(s, Work(w, CancelLease)).workers[w].phase.Idle?
    ensures CutOff(s, w, [Work(w, CancelLease)]) && !Unnoticed(s, w, [Work(w, CancelLease)])
  {
    hide Exclusive, Requests, Served, InOrder, CountedWorkers;
    RunOne(s, Work(w, CancelLease));
    hide Run;
    assert w in s.leases;
  }

  /** One call, one lease, both for object 0. */
  predicate OneLease(s: State, phase: Phase, stage: Stage) {
    && 0 in s.workers && s.workers[0] == Worker(0, phase)
    && 0 in s.borrowers && s.borrowers.Keys == {0} && s.borrowers[0].stage == stage && s.borrowers[0].slot.Empty?
    && s.leases == map[0 := 0] && s.channels == map[0 := Lease(0, None, false)]
  }

  lemma CheckedOut(capacity: nat, queueSize: int)
    requires capacity > 0
    ensures OneLease(Run(NewPool(capacity, queueSize), [TryGet(0), Work(0, NextRequest), Work(0, Checkout)]), Leased(0, 0), Waiting)
  {
    hide Run;
    RunThree(NewPool(capacity, queueSize), TryGet(0), Work(0, NextRequest), Work(0, Checkout));
  }

  lemma HandedOver(s: State)
    requires OneLease(s, Leased(0, 0), Waiting)
    ensures OneLease(Run(s, [Work(0, Deliver), Work(0, CountLease), Borrow(0, Accept)]), Lent(0), Holding(0))
  {
    hide Run;
    RunThree(s, Work(0, Deliver), Work(0, CountLease), Borrow(0, Accept));
  }

  lemma GivenBack(s: State)
    requires OneLease(s, Lent(0), Holding(0))
    ensures OneLease(Run(s, [Borrow(0, FindLease), Borrow(0, GiveBack), Work(0, Collect)]), Received(0, 0), Ended)
  {
    hide Run;
    RunThree(s, Borrow(0, FindLease), Borrow(0, GiveBack), Work(0, Collect));
  }

  /** A run of any pool gets in between, with the object back and nobody holding anything. */
  lemma SecondReturnUnnoticed(capacity: nat, queueSize: int) returns (es: seq<Event>)
    requires capacity > 0
    ensures var s := Run(NewPool(capacity, queueSize), es);
            Rested(s) && HeldObjects(s) == {} && Unnoticed(s, 0, [])
  {
    hide Run, Sound;
    var s := NewPool(capacity, queueSize);
    var lent := [TryGet(0), Work(0, NextRequest), Work(0, Checkout)];
    var held := [Work(0, Deliver), Work(0, CountLease), Borrow(0, Accept)];
    var back := [Borrow(0, FindLease), Borrow(0, GiveBack), Work(0, Collect)];
    es := lent + held + back;
    CheckedOut(capacity, queueSize);
    HandedOver(Run(s, lent));
    RunAppend(s, lent, held);
    GivenBack(Run(s, lent + held));
    RunAppend(s, lent + held, back);
    RunSound(capacity, queueSize, es);
    RunEmpty(Run(s, es));
    hide NewPool;
  }

  lemma SameStagesSameHands(s: State, t: State)
    requires t.borrowers.Keys == s.borrowers.Keys
    requires forall r | r in s.borrowers :: t.borrowers[r].stage == s.borrowers[r].stage
    ensures HeldObjects(t) == HeldObjects(s)
  {
    forall o ensures o in HeldObjects(s) <==> o in HeldObjects(t) {
      if o in HeldObjects(s) {
        var r :| r in s.borrowers && s.borrowers[r].stage.Holding? && s.borrowers[r].stage.item == o;
        assert t.borrowers[r].stage == s.borrowers[r].stage;
      }
      if o in HeldObjects(t) {
        var r :| r in t.borrowers && t.borrowers[r].stage.Holding? && t.borrowers[r].stage.item == o;
        assert s.borrowers[r].stage == t.borrowers[r].stage;
      }
    }
  }

  /** A put that finds a lease, and at the end its channel closed: sending on that panics. */
  predicate CutOff(s: State, o: nat, during: seq<Event>) {
    && o in s.leases
    && var t := Run(s, during); s.leases[o] in t.channels && t.channels[s.leases[o]].closed
  }

  /** put: the borrower that holds the object gives it back; for anybody else the lease table decides. cut: it panics. */
  method Return(s: State, o: nat, during: seq<Event>) returns (t: State, ok: bool, cut: bool)
    requires OnlyWorkers(during)
    ensures Rested(s) && o in HeldObjects(s) ==> ok && Rested(t) && HeldObjects(t) == HeldObjects(s) - {o}
    ensures Rested(s) && o in HeldObjects(s) && during == [] ==> t.leases == s.leases && OneReturned(s, t, o)
    ensures o !in HeldObjects(s) ==> (ok <==> Unnoticed(s, o, during)) && (cut <==> CutOff(s, o, during))
    ensures ok || o in HeldObjects(s) ==> !cut
    ensures Rested(s) && o !in HeldObjects(s) ==> HeldObjects(t) == HeldObjects(s)
    ensures o !in HeldObjects(s) ==>
              var u := Run(s, during);
              if o !in s.leases then t == s
              else if cut then t == u
              else if !ok then t == u.(leases := u.leases - {o})
              else var l := s.leases[o]; l in u.channels && t == u.(channels := u.channels[l := Lease(u.channels[l].item, Some(o), false)])
  {
    cut := false;
    if r :| r in s.borrowers && s.borrowers[r].stage == Holding(o) {
      t := Next(Run(Next(s, Borrow(r, FindLease)), during), Borrow(r, GiveBack));
      ok := t.faults == s.faults;
      if Rested(s) {
        HolderReturns(s, r, o, during);
      }
      return;
    }
    if o !in s.leases {
      return s, false, false;
    }
    var l := s.leases[o];
    t := Run(s, during);
    if Rested(s) {
      WorkersOnly(s, during);
      SameStagesSameHands(s, t);
    }
    assert HeldObjects(t.(leases := t.leases - {o})) == HeldObjects(t);
    assert l in t.channels ==> HeldObjects(t.(channels := t.channels[l := t.channels[l].(slot := Some(o))])) == HeldObjects(t);
    ok := l in t.channels && t.channels[l].slot.None? && !t.channels[l].closed;
    if l in t.channels && t.channels[l].closed {
      cut := true;
    } else if ok {
      t := t.(channels := t.channels[l := t.channels[l].(slot := Some(o))]);
    } else {
      t := t.(leases := t.leases - {o});
    }
  }

  /** The return channel of o has been filled, and no other. */
  ghost predicate OneReturned(s: State, t: State, o: nat) {
    && o in s.leases
    && t.channels.Keys == s.channels.Keys
    && (forall l | l in s.channels && l != s.leases[o] :: t.channels[l] == s.channels[l])
    && s.leases[o] in t.channels && t.channels[s.leases[o]].slot.Some?
  }

  lemma HolderReturns(s: State, r: nat, o: nat, during: seq<Event>)
    requires Rested(s) && r in s.borrowers && s.borrowers[r].stage == Holding(o) && OnlyWorkers(during)
    ensures var t := Next(Run(Next(s, Borrow(r, FindLease)), during), Borrow(r, GiveBack));
            && t.faults == s.faults && Rested(t) && HeldObjects(t) == HeldObjects(s) - {o}
            && (during == [] ==> t.leases == s.leases && OneReturned(s, t, o))
  {
    hide Run, LeasesExact, Exclusive, Requests, Served, InOrder, CountedWorkers;
    HeldIsOnLease(s, r);
    var found := Next(s, Borrow(r, FindLease));
    StepSound(s, Borrow(r, FindLease));
    var u := Run(found, during);
    WorkersOnly(found, during);
    HeldIsOnLease(u, r);
    StepSound(u, Borrow(r, GiveBack));
    var t := Next(u, Borrow(r, GiveBack));
    HeldWithout(s, t, r, o);
    if during == [] {
      RunEmpty(found);
    }
  }

  lemma HeldWithout(s: State, t: State, r: nat, o: nat)
    requires Exclusive(s) && r in s.borrowers && s.borrowers[r].stage == Holding(o)
    requires t.borrowers.Keys == s.borrowers.Keys && t.borrowers[r].stage.Ended?
    requires forall q | q in s.borrowers && q != r :: t.borrowers[q].stage == s.borrowers[q].stage
    ensures HeldObjects(t) == HeldObjects(s) - {o}
  {
    hide Exclusive;
    forall x ensures x in HeldObjects(t) <==> x in HeldObjects(s) && x != o {
      if x in HeldObjects(t) {
        var q :| q in t.borrowers && t.borrowers[q].stage.Holding? && t.borrowers[q].stage.item == x;
        assert q != r && s.borrowers[q].stage == t.borrowers[q].stage;
        if x == o {
          OneHolder(s, q, r);
        }
      }
      if x in HeldObjects(s) && x != o {
        var q :| q in s.borrowers && s.borrowers[q].stage.Holding? && s.borrowers[q].stage.item == x;
        assert t.borrowers[q].stage == s.borrowers[q].stage;
      }
    }
  }

  // --- TryGet without other callers ----------------------------------------------------------------

  /** Nobody fails the request: it waits, or it has its object. */
  lemma {:induction false} TryGetNeverFailed(s: State, r: nat, es: seq<Event>)
    requires Sound(s) && r in s.borrowers && Alone(es, r)
    requires !s.borrowers[r].slot.Failure? && (s.borrowers[r].stage.Waiting? || s.borrowers[r].stage.Holding?)
    ensures var t := Run(s, es);
            && r in t.borrowers && !t.borrowers[r].slot.Failure? && t.borrowers[r].expired == s.borrowers[r].expired
            && (t.borrowers[r].stage.Waiting? || t.borrowers[r].stage.Holding?)
  {
    hide Sound, Next;
    if es != [] {
      TryGetNeverFailed(s, r, es[..|es| - 1]);
      NeverFailedStep(Run(s, es[..|es| - 1]), r, es[|es| - 1]);
    }
  }

  lemma NeverFailedStep(s: State, r: nat, e: Event)
    requires r in s.borrowers && (e.Work? || e == Borrow(r, Accept))
    requires !s.borrowers[r].slot.Failure? && (s.borrowers[r].stage.Waiting? || s.borrowers[r].stage.Holding?)
    ensures var t := Next(s, e);
            && r in t.borrowers && !t.borrowers[r].slot.Failure? && t.borrowers[r].expired == s.borrowers[r].expired
            && (t.borrowers[r].stage.Waiting? || t.borrowers[r].stage.Holding?)
  {
  }
}
