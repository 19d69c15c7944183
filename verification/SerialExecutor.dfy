/**
 The goroutine that owns a script runtime and runs callbacks handed to it through an
 unbuffered queue, and the calls Execute and Close around it. Callbacks end, do not
 panic, and do not call Execute themselves.
 */
module SerialExecutor {
  import opened MapSums

  /** A call of Execute. From Locked to Sent it holds the read lock. */
  datatype Call = Fresh | Locked | Refusing | Sending | Sent | Awaiting | Rejected | Done(value: int)
  {
    predicate Reading() {
      Locked? || Refusing? || Sending? || Sent?
    }

    predicate Over() {
      Rejected? || Done?
    }

    /** Its callback has been handed to the loop. */
    predicate Handed() {
      Sent? || Awaiting? || Done?
    }
  }

  /** A call of Close. From Holding to Unlocking it holds the write lock. */
  datatype Closer = Entering | Wanting | Locking | Holding | Marked | Unlocking | Joining | Finished

  /** The once that lets one Close through. */
  datatype Once = Unused | Running(closer: nat) | Used

  /** A waiting writer already keeps new readers out. */
  datatype Writer = NoWriter | Pending | Held

  datatype Loop = Ready | Busy(call: nat) | Gone

  /**
   outcomes: results put on the calls' one-slot channels and not yet taken; runs: the
   callbacks run, in order, with their results; panics: sends on, or second closes of,
   the closed queue.
   */
  datatype State = State(
    calls: map<nat, Call>, closers: map<nat, Closer>, once: Once, writer: Writer, readers: set<nat>,
    closed: bool, queueClosed: bool, loop: Loop, outcomes: map<nat, int>, runs: seq<(nat, int)>, panics: nat)

  datatype Event =
    | Execute(e: nat)
    | RLock(e: nat)
    | Check(e: nat)
    | Hand(e: nat)
    | RUnlock(e: nat)
    | Take(e: nat)
    | Finish(value: int)
    | EndLoop
    | Close(c: nat)
    | Enter(c: nat)
    | Announce(c: nat)
    | Lock(c: nat)
    | Mark(c: nat)
    | CloseQueue(c: nat)
    | Unlock(c: nat)
    | Join(c: nat)

  predicate Stage(s: State, e: nat, stage: Call) {
    e in s.calls && s.calls[e] == stage
  }

  predicate CloserAt(s: State, c: nat, stage: Closer) {
    c in s.closers && s.closers[c] == stage
  }

  predicate Enabled(s: State, ev: Event) {
    match ev
    case Execute(e) => e !in s.calls
    case RLock(e) => Stage(s, e, Fresh) && s.writer.NoWriter?
    case Check(e) => Stage(s, e, Locked)
    case Hand(e) => Stage(s, e, Sending) && (s.queueClosed || s.loop.Ready?)
    case RUnlock(e) => Stage(s, e, Sent) || Stage(s, e, Refusing)
    case Take(e) => Stage(s, e, Awaiting) && e in s.outcomes
    case Finish(_) => s.loop.Busy?
    case EndLoop => s.loop.Ready? && s.queueClosed
    case Close(c) => c !in s.closers
    case Enter(c) => CloserAt(s, c, Entering) && !s.once.Running?
    case Announce(c) => CloserAt(s, c, Wanting) && s.writer.NoWriter?
    case Lock(c) => CloserAt(s, c, Locking) && s.readers == {}
    case Mark(c) => CloserAt(s, c, Holding)
    case CloseQueue(c) => CloserAt(s, c, Marked)
    case Unlock(c) => CloserAt(s, c, Unlocking)
    case Join(c) => CloserAt(s, c, Joining) && s.loop.Gone?
  }

  function To(s: State, e: nat, stage: Call): State {
    s.(calls := s.calls[e := stage])
  }

  function CloserTo(s: State, c: nat, stage: Closer): State {
    s.(closers := s.closers[c := stage])
  }

  /** A step that is not enabled does nothing. */
  function Next(s: State, ev: Event): State {
    if !Enabled(s, ev) then s
    else
      match ev
      case Execute(e) => To(s, e, Fresh)
      case RLock(e) => To(s.(readers := s.readers + {e}), e, Locked)
      case Check(e) => To(s, e, if s.closed then Refusing else Sending)
      case Hand(e) =>
        if s.queueClosed then To(s.(panics := s.panics + 1, readers := s.readers - {e}), e, Rejected)
        else To(s.(loop := Busy(e)), e, Sent)
      case RUnlock(e) => To(s.(readers := s.readers - {e}), e, if s.calls[e].Sent? then Awaiting else Rejected)
      case Take(e) => To(s.(outcomes := s.outcomes - {e}), e, Done(s.outcomes[e]))
      case Finish(value) =>
        s.(loop := Ready, outcomes := s.outcomes[s.loop.call := value], runs := s.runs + [(s.loop.call, value)])
      case EndLoop => s.(loop := Gone)
      case Close(c) => CloserTo(s, c, Entering)
      case Enter(c) =>
        if s.once.Used? then CloserTo(s, c, Finished) else CloserTo(s.(once := Running(c)), c, Wanting)
      case Announce(c) => CloserTo(s.(writer := Pending), c, Locking)
      case Lock(c) => CloserTo(s.(writer := Held), c, Holding)
      case Mark(c) =>
        if s.closed then CloserTo(s.(writer := NoWriter, once := Used), c, Finished)
        else CloserTo(s.(closed := true), c, Marked)
      case CloseQueue(c) =>
        CloserTo(s.(queueClosed := true, panics := s.panics + if s.queueClosed then 1 else 0), c, Unlocking)
      case Unlock(c) => CloserTo(s.(writer := NoWriter), c, Joining)
      case Join(c) => CloserTo(s.(once := Used), c, Finished)
  }

  function Start(): State {
    State(map[], map[], Unused, NoWriter, {}, false, false, Ready, map[], [], 0)
  }

  function Run(s: State, es: seq<Event>): State {
    if es == [] then s else Next(Run(s, es[..|es| - 1]), es[|es| - 1])
  }

  // --- Invariants ------------------------------------------------------------------------

  predicate InRuns(runs: seq<(nat, int)>, e: nat) {
    exists i :: 0 <= i < |runs| && runs[i].0 == e
  }

  /** Who reads, who writes, and what closed means. */
  ghost predicate Locks(s: State) {
    && (forall e :: e in s.readers <==> e in s.calls && s.calls[e].Reading())
    && (s.writer.Held? ==> s.readers == {})
    && (forall e | e in s.calls && s.calls[e].Sending? :: !s.closed)
    && s.panics == 0
  }

  /** One Close goes through, and its progress tells the lock and the flags. */
  ghost predicate Closing(s: State) {
    && (forall c | c in s.closers && !s.closers[c].Entering? ::
          if s.closers[c].Finished? then s.once.Used? else s.once == Running(c))
    && match s.once
       case Unused => s.writer.NoWriter? && !s.closed && !s.queueClosed && !s.loop.Gone?
       case Used => s.writer.NoWriter? && s.closed && s.queueClosed && s.loop.Gone?
       case Running(c) =>
         c in s.closers &&
         var at := s.closers[c];
         && !at.Entering? && !at.Finished?
         && (s.writer.Pending? <==> at.Locking?)
         && (s.writer.Held? <==> at.Holding? || at.Marked? || at.Unlocking?)
         && (s.closed <==> at.Marked? || at.Unlocking? || at.Joining?)
         && (s.queueClosed <==> at.Unlocking? || at.Joining?)
         && (s.loop.Gone? ==> s.queueClosed)
  }

  /** Every callback handed over is being run, or has run once and its result is kept for its caller. */
  ghost predicate Results(s: State) {
    && (s.loop.Busy? ==> s.loop.call in s.calls && s.calls[s.loop.call].Handed())
    && (forall e | e in s.calls :: Settled(s, e))
    && (forall e | e in s.outcomes :: e in s.calls)
    && (forall i | 0 <= i < |s.runs| :: s.runs[i].0 in s.calls && Kept(s, s.runs[i].0, s.runs[i].1))
    && (forall i, j | 0 <= i < j < |s.runs| :: s.runs[i].0 != s.runs[j].0)
  }

  predicate Kept(s: State, e: nat, value: int)
    requires e in s.calls
  {
    s.calls[e] == Done(value) || ((s.calls[e].Sent? || s.calls[e].Awaiting?) && e in s.outcomes && s.outcomes[e] == value)
  }

  ghost predicate Settled(s: State, e: nat)
    requires e in s.calls
  {
    if !s.calls[e].Handed() then s.loop != Busy(e) && e !in s.outcomes && !InRuns(s.runs, e)
    else if s.calls[e].Done? then s.loop != Busy(e) && e !in s.outcomes && InRuns(s.runs, e)
    else if s.loop == Busy(e) then e !in s.outcomes && !InRuns(s.runs, e)
    else e in s.outcomes && InRuns(s.runs, e)
  }

  ghost predicate Sound(s: State) {
    Locks(s) && Closing(s) && Results(s)
  }

  lemma StepLocks(s: State, ev: Event)
    requires Sound(s)
    ensures Locks(Next(s, ev))
  {
    hide Results;
  }

  lemma StepClosing(s: State, ev: Event)
    requires Sound(s)
    ensures Closing(Next(s, ev))
  {
    hide Results;
  }

  /** One call moves on, and neither the loop nor the other calls' results change. */
  lemma OneCall(s: State, t: State, e: nat)
    requires Results(s) && e in t.calls && t.calls == s.calls[e := t.calls[e]] && t.runs == s.runs
    requires t.outcomes == s.outcomes || t.outcomes == s.outcomes - {e}
    requires t.loop == s.loop || (!s.loop.Busy? && t.loop == Busy(e) && t.calls[e].Handed())
    requires Settled(t, e)
    requires e !in s.calls ==> !InRuns(s.runs, e)
    requires forall i | 0 <= i < |s.runs| && s.runs[i].0 == e :: Kept(t, e, s.runs[i].1)
    ensures Results(t)
  {
  }

  lemma NoCall(s: State, t: State)
    requires Results(s) && t.calls == s.calls && t.runs == s.runs && t.outcomes == s.outcomes
    requires t.loop == s.loop || (!s.loop.Busy? && !t.loop.Busy?)
    ensures Results(t)
  {
  }

  lemma NotInRuns(s: State, e: nat)
    requires Results(s) && (e in s.calls ==> !s.calls[e].Handed())
    ensures !InRuns(s.runs, e) && e !in s.outcomes && s.loop != Busy(e)
  {
  }

  lemma InRunsLast(runs: seq<(nat, int)>, e: nat, value: int, x: nat)
    ensures InRuns(runs + [(e, value)], x) <==> InRuns(runs, x) || x == e
  {
    var more := runs + [(e, value)];
    assert more[|runs|] == (e, value);
    if InRuns(runs, x) {
      var i :| 0 <= i < |runs| && runs[i].0 == x;
      assert more[i].0 == x;
    }
  }

  lemma RunsOnce(s: State, e: nat, value: int)
    requires Results(s) && !InRuns(s.runs, e)
    ensures var more := s.runs + [(e, value)]; forall i, j | 0 <= i < j < |more| :: more[i].0 != more[j].0
  {
    NoRun(s, e);
  }

  lemma FinishResults(s: State, value: int)
    requires Results(s) && s.loop.Busy?
    ensures Results(Next(s, Finish(value)))
  {
    var t, e := Next(s, Finish(value)), s.loop.call;
    assert !InRuns(s.runs, e);
    RunsOnce(s, e, value);
    NoRun(s, e);
    hide InRuns;
    forall x ensures InRuns(t.runs, x) <==> InRuns(s.runs, x) || x == e {
      InRunsLast(s.runs, e, value, x);
    }
    forall i | 0 <= i < |t.runs| ensures t.runs[i].0 in t.calls && Kept(t, t.runs[i].0, t.runs[i].1) {
      assert i < |s.runs| ==> t.runs[i] == s.runs[i];
    }
  }

  lemma RUnlockResults(s: State, e: nat)
    requires Results(s) && Enabled(s, RUnlock(e))
    ensures Results(Next(s, RUnlock(e)))
  {
    var t := Next(s, RUnlock(e));
    if s.calls[e].Refusing? {
      NotInRuns(s, e);
    }
    hide InRuns;
    OneCall(s, t, e);
  }

  lemma TakeResults(s: State, e: nat)
    requires Results(s) && Enabled(s, Take(e))
    ensures Results(Next(s, Take(e)))
  {
    OneCall(s, Next(s, Take(e)), e);
  }

  lemma StepResults(s: State, ev: Event)
    requires Locks(s) && Closing(s) && Results(s)
    ensures Results(Next(s, ev))
  {
    hide Closing, Results, InRuns;
    var t := Next(s, ev);
    if Enabled(s, ev) {
      match ev
      case Execute(e) => NotInRuns(s, e); NoRun(s, e); OneCall(s, t, e);
      case RLock(e) => NotInRuns(s, e); NoRun(s, e); OneCall(s, t, e);
      case Check(e) => NotInRuns(s, e); NoRun(s, e); OneCall(s, t, e);
      case Hand(e) => NotInRuns(s, e); NoRun(s, e); OneCall(s, t, e);
      case RUnlock(e) => RUnlockResults(s, e);
      case Take(e) => TakeResults(s, e);
      case Finish(value) => FinishResults(s, value);
      case _ => NoCall(s, t);
    }
  }

  lemma NoRun(s: State, e: nat)
    requires !InRuns(s.runs, e)
    ensures forall i | 0 <= i < |s.runs| :: s.runs[i].0 != e
  {
  }

  lemma StepSound(s: State, ev: Event)
    requires Sound(s)
    ensures Sound(Next(s, ev))
  {
    hide Locks, Closing, Results, Next;
    StepLocks(s, ev);
    StepClosing(s, ev);
    StepResults(s, ev);
  }

  lemma {:induction false} RunSound(es: seq<Event>)
    ensures Sound(Run(Start(), es))
    decreases |es|
  {
    hide Sound, Next;
    if es == [] {
      StartSound();
    } else {
      RunSound(es[..|es| - 1]);
      StepSound(Run(Start(), es[..|es| - 1]), es[|es| - 1]);
    }
  }

  lemma StartSound()
    ensures Sound(Start())
  {
  }

  // --- What callers can rely on ------------------------------------------------------------

  /** Nothing is ever sent on the closed queue, and it is closed once. */
  lemma NoSendAfterClose(es: seq<Event>)
    ensures var s := Run(Start(), es);
            && s.panics == 0
            && (forall e | e in s.calls && s.calls[e].Sending? :: !s.closed && !s.queueClosed)
  {
    hide Next, Results;
    RunSound(es);
  }

  /**
   A call gets the result of its own callback, which has run exactly once; a call that
   was refused has had no run at all.
   */
  lemma OwnResult(es: seq<Event>, e: nat)
    requires e in Run(Start(), es).calls
    ensures var s := Run(Start(), es);
            && (s.calls[e].Done? ==> (e, s.calls[e].value) in s.runs)
            && (s.calls[e].Rejected? ==> forall i | 0 <= i < |s.runs| :: s.runs[i].0 != e)
            && (forall i, j | 0 <= i < j < |s.runs| :: s.runs[i].0 != s.runs[j].0)
  {
    hide Next, Locks, Closing;
    RunSound(es);
    var s := Run(Start(), es);
    if s.calls[e].Done? {
      var i :| 0 <= i < |s.runs| && s.runs[i].0 == e;
      assert Kept(s, s.runs[i].0, s.runs[i].1) && s.runs[i] == (e, s.calls[e].value);
    }
  }

  /** Once a Close has returned the loop is gone, and every callback ever handed over has run. */
  lemma CloseWaits(es: seq<Event>, c: nat, e: nat)
    requires CloserAt(Run(Start(), es), c, Finished)
    ensures var s := Run(Start(), es);
            && s.closed && s.loop.Gone?
            && (e in s.calls && s.calls[e].Handed() ==> InRuns(s.runs, e))
            && (e in s.calls ==> !s.calls[e].Sending?)
  {
    hide Next;
    RunSound(es);
  }

  /** Once a Close has announced itself no call of Execute comes in before it has been through. */
  lemma NoNewReaders(s: State, ev: Event)
    requires !s.writer.NoWriter?
    ensures Next(s, ev).readers <= s.readers
  {
  }

  // --- Everybody gets through ----------------------------------------------------------------

  /** Steps that do not begin a new call. */
  predicate Internal(ev: Event) {
    !ev.Execute? && !ev.Close?
  }

  ghost predicate Quiet(s: State) {
    && (forall e | e in s.calls :: s.calls[e].Over())
    && (forall c | c in s.closers :: s.closers[c].Finished?)
  }

  function CallWeight(e: nat, call: Call): real {
    match call
    case Fresh => 6.0
    case Locked => 5.0
    case Sending => 4.0
    case Sent => 2.0
    case Refusing | Awaiting => 1.0
    case Rejected | Done(_) => 0.0
  }

  function CloserWeight(c: nat, closer: Closer): real {
    match closer
    case Entering => 7.0
    case Wanting => 6.0
    case Locking => 5.0
    case Holding => 4.0
    case Marked => 3.0
    case Unlocking => 2.0
    case Joining => 1.0
    case Finished => 0.0
  }

  /** An upper bound on the steps until all calls have returned. */
  ghost function Distance(s: State): real {
    Sum(s.calls, CallWeight) + Sum(s.closers, CloserWeight) + LoopWeight(s.loop)
  }

  function LoopWeight(loop: Loop): real {
    match loop
    case Ready => 1.0
    case Busy(_) => 2.0
    case Gone => 0.0
  }

  lemma CallMoves(s: State, t: State, e: nat)
    requires e in s.calls && e in t.calls && t.calls == s.calls[e := t.calls[e]] && t.closers == s.closers
    ensures Distance(t) - LoopWeight(t.loop) - CallWeight(e, t.calls[e]) ==
              Distance(s) - LoopWeight(s.loop) - CallWeight(e, s.calls[e])
  {
    Split(s.calls, e, CallWeight);
    Write(s.calls, e, t.calls[e], CallWeight);
  }

  lemma CloserMoves(s: State, t: State, c: nat)
    requires c in s.closers && c in t.closers && t.closers == s.closers[c := t.closers[c]] && t.calls == s.calls
    ensures Distance(t) - LoopWeight(t.loop) - CloserWeight(c, t.closers[c]) ==
              Distance(s) - LoopWeight(s.loop) - CloserWeight(c, s.closers[c])
  {
    Split(s.closers, c, CloserWeight);
    Write(s.closers, c, t.closers[c], CloserWeight);
  }

  lemma CallNearer(s: State, ev: Event)
    requires Enabled(s, ev) && (ev.RLock? || ev.Check? || ev.Hand? || ev.RUnlock? || ev.Take?)
    ensures Distance(Next(s, ev)) <= Distance(s) - 1.0
  {
    hide Distance;
    CallMoves(s, Next(s, ev), ev.e);
  }

  lemma CloserNearer(s: State, ev: Event)
    requires Enabled(s, ev)
    requires ev.Enter? || ev.Announce? || ev.Lock? || ev.Mark? || ev.CloseQueue? || ev.Unlock? || ev.Join?
    ensures Distance(Next(s, ev)) <= Distance(s) - 1.0
  {
    hide Distance;
    CloserMoves(s, Next(s, ev), ev.c);
  }

  lemma Nearer(s: State, ev: Event)
    requires Internal(ev) && Enabled(s, ev)
    ensures Distance(Next(s, ev)) <= Distance(s) - 1.0
  {
    if ev.Finish? || ev.EndLoop? {
    } else {
      hide Distance, Next, Enabled;
      if ev.RLock? || ev.Check? || ev.Hand? || ev.RUnlock? || ev.Take? {
        CallNearer(s, ev);
      } else {
        CloserNearer(s, ev);
      }
    }
  }

  /** A call with the lock or past it can move, or the loop can. */
  lemma CallCanMove(s: State, e: nat)
    requires Sound(s) && e in s.calls && !s.calls[e].Over() && !s.calls[e].Fresh?
    ensures exists ev :: Internal(ev) && Enabled(s, ev)
  {
    var ev := if s.loop.Busy? then Finish(0)
              else match s.calls[e]
                case Locked => Check(e)
                case Sending => Hand(e)
                case Awaiting => Take(e)
                case _ => RUnlock(e);
    assert Internal(ev) && Enabled(s, ev);
  }

  /** The Close that was let through can move once no call holds the lock. */
  lemma CloserCanMove(s: State)
    requires Sound(s) && s.once.Running? && s.readers == {}
    ensures exists ev :: Internal(ev) && Enabled(s, ev)
  {
    hide Results;
    var c := s.once.closer;
    var ev := if s.loop.Busy? then Finish(0)
              else match s.closers[c]
                case Wanting => Announce(c)
                case Locking => Lock(c)
                case Holding => Mark(c)
                case Marked => CloseQueue(c)
                case Unlocking => Unlock(c)
                case _ => if s.loop.Gone? then Join(c) else EndLoop;
    assert Internal(ev) && Enabled(s, ev);
  }

  /** No deadlock: as long as a call of Execute or Close has not returned, some step is possible. */
  lemma NoDeadlock(es: seq<Event>)
    ensures var s := Run(Start(), es);
            !Quiet(s) ==> exists ev :: Internal(ev) && Enabled(s, ev)
  {
    RunSound(es);
    hide Next, Run, Results;
    var s := Run(Start(), es);
    if e :| e in s.calls && !s.calls[e].Over() && !s.calls[e].Fresh? {
      CallCanMove(s, e);
    } else if s.once.Running? {
      assert s.readers == {};
      CloserCanMove(s);
    } else if c :| c in s.closers && !s.closers[c].Finished? {
      assert Enabled(s, Enter(c));
    } else if e :| e in s.calls && s.calls[e].Fresh? {
      assert Enabled(s, RLock(e));
    }
  }

  ghost predicate Working(s: State, es: seq<Event>) {
    es == [] || (Working(s, es[..|es| - 1]) && Internal(es[|es| - 1]) && Enabled(Run(s, es[..|es| - 1]), es[|es| - 1]))
  }

  /** And without new calls the steps run out, so all of them return. */
  lemma {:induction false} WorkIsBounded(s: State, es: seq<Event>)
    requires Working(s, es)
    ensures |es| as real + Distance(Run(s, es)) <= Distance(s)
    ensures Distance(Run(s, es)) >= 0.0
    decreases |es|
  {
    hide Next, Enabled, Distance;
    DistanceNonNegative(Run(s, es));
    if es != [] {
      var before := Run(s, es[..|es| - 1]);
      WorkIsBounded(s, es[..|es| - 1]);
      Nearer(before, es[|es| - 1]);
    }
  }

  lemma DistanceNonNegative(s: State)
    ensures Distance(s) >= 0.0
  {
    NonNegative(s.calls, CallWeight);
    NonNegative(s.closers, CloserWeight);
  }
}
