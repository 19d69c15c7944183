/** When trading is halted, for how long, and what the breach count still does after a halt is lifted. */
module RiskHalt {
  import opened Common
  import opened RiskModel

  predicate Timed(e: Event) {
    e.Check? || e.Execution?
  }

  /** The clock readings of es start at from or later and never go back. */
  predicate Ordered(es: seq<Event>, from: int)
    decreases |es|
  {
    es == [] ||
    if Timed(es[0]) then from <= es[0].now && Ordered(es[1..], es[0].now) else Ordered(es[1..], from)
  }

  function LastReading(es: seq<Event>, from: int): int
    decreases |es|
  {
    if es == [] then from else LastReading(es[1..], if Timed(es[0]) then es[0].now else from)
  }

  /** When the kill switch was last engaged, if last was the answer before es. */
  function LastEngaged(s: State, es: seq<Event>, last: Option<int>): Option<int>
    decreases |es|
  {
    if es == [] then last
    else LastEngaged(Next(s, es[0]), es[1..], if Step(s, es[0]).0.engaged then Some(es[0].now) else last)
  }

  /** The halt called at time last is still in force at time now. */
  predicate HaltInForce(l: Limits, last: Option<int>, now: int) {
    last.Some? && (l.Reopens() ==> now <= last.value + l.breaker.cooldown)
  }

  lemma StepRecorded(s: State, e: Event)
    ensures var a := Step(s, e).0;
            match e
            case Check(now, throttled, _) =>
              if throttled then a == Audited(s, 0, false) else Recorded(Audited(LiftExpiredHalt(s, now), 0, false), a, now)
            case Execution(now, _, _) => Recorded(Audited(s, 0, false), a, now)
            case Observe(_, _) => a.breaches == 0 && !a.engaged && SameAlarm(s, a.state) && a.state.limits == s.limits
            case Reset => a == Audited(ResetKillSwitch(s), 0, false)
            case SetLimits(limits) => a == Audited(s.(limits := limits), 0, false)
  {
    hide HandleExecution, CheckOrder;
    if e.Execution? {
      ExecutionRecorded(s, e.now, e.symbol, e.report);
    } else if e.Check? {
      CheckRecorded(s, e.now, e.throttled, e.req);
    }
  }

  /** The state remembers the last engagement as its cooldown and its halt flag. */
  predicate Remembers(s: State, last: Option<int>, clock: int) {
    && s.cooldownUntil == (if last.Some? && s.limits.Reopens() then Some(last.value + s.limits.breaker.cooldown) else None)
    && (last.Some? ==> last.value <= clock)
    && (s.killSwitch ==> last.Some?)
    && (!s.killSwitch ==> !HaltInForce(s.limits, last, clock))
  }

  lemma StepRemembers(s: State, e: Event, last: Option<int>, clock: int)
    requires Remembers(s, last, clock) && !e.Reset? && !e.SetLimits?
    requires Timed(e) ==> clock <= e.now
    ensures var (a, _) := Step(s, e);
            && a.state.limits == s.limits && (a.engaged ==> Timed(e))
            && Remembers(a.state, if a.engaged then Some(e.now) else last, if Timed(e) then e.now else clock)
  {
    hide Step;
    StepRecorded(s, e);
  }

  lemma {:induction false} RunRemembers(s: State, es: seq<Event>, last: Option<int>, clock: int)
    requires Remembers(s, last, clock) && Unattended(es) && Ordered(es, clock)
    ensures Run(s, es).limits == s.limits
    ensures Remembers(Run(s, es), LastEngaged(s, es, last), LastReading(es, clock))
    decreases |es|
  {
    hide Step;
    if es != [] {
      var e := es[0];
      StepRemembers(s, e, last, clock);
      RunRemembers(Next(s, e), es[1..], if Step(s, e).0.engaged then Some(e.now) else last,
                   if Timed(e) then e.now else clock);
    }
  }

  /**
   After any unattended run with an ordered clock, an order that gets past the
   rate limiters is turned away by a halt exactly when the kill switch has been
   engaged and the last engagement is not yet a positive cooldown in the past.
   */
  lemma HaltExact(l: Limits, es: seq<Event>, from: int, e: Event)
    requires Unattended(es) && Ordered(es, from) && e.Check? && !e.throttled && LastReading(es, from) <= e.now
    ensures var t := Run(Init(l), es); var last := LastEngaged(Init(l), es, None);
            && (Step(t, e).1.Halted? <==> HaltInForce(l, last, e.now))
            && t.cooldownUntil == (if last.Some? && l.Reopens() then Some(last.value + l.breaker.cooldown) else None)
  {
    RunRemembers(Init(l), es, None, from);
  }

  /** An engagement is never later than the last one. */
  lemma {:induction false} EngagementsPrecedeLast(s: State, es: seq<Event>, last: Option<int>, clock: int, i: nat)
    requires Remembers(s, last, clock) && Unattended(es) && Ordered(es, clock)
    requires i < |es| && Step(Run(s, es[..i]), es[i]).0.engaged
    ensures LastEngaged(s, es, last).Some? && es[i].now <= LastEngaged(s, es, last).value
    decreases |es|
  {
    hide Step;
    var e := es[0];
    StepRemembers(s, e, last, clock);
    var t, now := Next(s, e), if Step(s, e).0.engaged then Some(e.now) else last;
    if i == 0 {
      assert es[..0] == [];
      LastGrows(t, es[1..], now, e.now);
    } else {
      assert es[..i][0] == e && es[..i][1..] == es[1..][..i - 1];
      EngagementsPrecedeLast(t, es[1..], now, if Timed(e) then e.now else clock, i - 1);
    }
  }

  lemma {:induction false} LastGrows(s: State, es: seq<Event>, last: Option<int>, clock: int)
    requires Remembers(s, last, clock) && Unattended(es) && Ordered(es, clock) && last.Some?
    ensures LastEngaged(s, es, last).Some? && last.value <= LastEngaged(s, es, last).value
    decreases |es|
  {
    hide Step;
    if es != [] {
      var e := es[0];
      StepRemembers(s, e, last, clock);
      LastGrows(Next(s, e), es[1..], if Step(s, e).0.engaged then Some(e.now) else last,
                if Timed(e) then e.now else clock);
    }
  }

  lemma {:induction false} OrderedPrefix(es: seq<Event>, from: int, j: nat)
    requires Ordered(es, from) && j < |es|
    ensures Ordered(es[..j], from)
    ensures Timed(es[j]) ==> LastReading(es[..j], from) <= es[j].now
    decreases |es|
  {
    if j > 0 {
      var now := if Timed(es[0]) then es[0].now else from;
      assert es[..j][0] == es[0] && es[..j][1..] == es[1..][..j - 1] && es[1..][j - 1] == es[j];
      OrderedPrefix(es[1..], now, j - 1);
    }
  }

  /**
   Whenever an order is admitted after the kill switch was engaged, the breaker
   is on and its full cooldown has passed since that engagement.
   */
  lemma HaltSafety(l: Limits, es: seq<Event>, from: int, i: nat, j: nat)
    requires Unattended(es) && Ordered(es, from) && i < j < |es|
    requires Step(Run(Init(l), es[..i]), es[i]).0.engaged
    requires Admits(Run(Init(l), es[..j]), es[j])
    ensures l.Reopens() && es[j].now > es[i].now + l.breaker.cooldown
  {
    OrderedPrefix(es, from, j);
    assert es[..j][..i] == es[..i] && es[..j][i] == es[i];
    EngagementsPrecedeLast(Init(l), es[..j], None, from, i);
    HaltExact(l, es[..j], from, es[j]);
  }

  // --- The breach count ---------------------------------------------------------------------

  /** Refusals, overruns and rejections since the last reset, count of them before es. */
  function Tally(s: State, es: seq<Event>, count: int): int
    decreases |es|
  {
    if es == [] then count
    else Tally(Next(s, es[0]), es[1..], if es[0].Reset? then 0 else count + Observed(s, es[0]))
  }

  lemma StepTallies(s: State, e: Event)
    ensures Next(s, e).failureCount == if e.Reset? then 0 else s.failureCount + Observed(s, e)
    ensures Observed(s, e) > 0 && AtThreshold(s.limits, Next(s, e).failureCount) ==>
              Step(s, e).0.engaged && Next(s, e).killSwitch
    ensures !e.SetLimits? ==> Next(s, e).limits == s.limits
  {
    hide Step, Observed;
    StepRecorded(s, e);
    BreachesObserved(s, e);
  }

  lemma {:induction false} RunTallies(s: State, es: seq<Event>)
    ensures Run(s, es).failureCount == Tally(s, es, s.failureCount)
    decreases |es|
  {
    hide Step, Observed;
    if es != [] {
      StepTallies(s, es[0]);
      RunTallies(Next(s, es[0]), es[1..]);
    }
  }

  /** In every run the failure count is the number of refusals, overruns and rejections since the last reset. */
  lemma FailureCountExact(l: Limits, es: seq<Event>)
    ensures Run(Init(l), es).failureCount == Tally(Init(l), es, 0)
  {
    RunTallies(Init(l), es);
  }

  lemma {:induction false} BudgetKept(s: State, es: seq<Event>)
    requires !s.limits.Reopens() && s.cooldownUntil.None? && (forall e | e in es :: !e.SetLimits?)
    requires s.killSwitch || !AtThreshold(s.limits, s.failureCount)
    ensures var t := Run(s, es); t.killSwitch || !AtThreshold(s.limits, t.failureCount)
    decreases |es|
  {
    if es != [] {
      StepTallies(s, es[0]);
      BudgetStep(s, es[0]);
      BudgetKept(Next(s, es[0]), es[1..]);
    }
  }

  lemma BudgetStep(s: State, e: Event)
    requires !s.limits.Reopens() && s.cooldownUntil.None? && !e.SetLimits?
    ensures Next(s, e).cooldownUntil.None?
    ensures s.killSwitch && !e.Reset? ==> Next(s, e).killSwitch
  {
    hide Step;
    StepRecorded(s, e);
  }

  /**
   Under fixed limits whose breaker never reopens, trading that is not halted is
   within its breach budget, resets included.
   */
  lemma BreachBudget(l: Limits, es: seq<Event>)
    requires !l.Reopens() && forall e | e in es :: !e.SetLimits?
    ensures Run(Init(l), es).killSwitch || !AtThreshold(l, Tally(Init(l), es, 0))
  {
    BudgetKept(Init(l), es);
    FailureCountExact(l, es);
  }

  lemma {:induction false} CountOnlyGrows(s: State, es: seq<Event>)
    requires Unattended(es)
    ensures Run(s, es).failureCount >= s.failureCount && Run(s, es).limits == s.limits
    decreases |es|
  {
    if es != [] {
      StepTallies(s, es[0]);
      CountOnlyGrows(Next(s, es[0]), es[1..]);
    }
  }

  /**
   A lifted halt does not give the budget back: once the count has met a
   threshold, every later breach halts trading again at once.
   */
  lemma SpentBudgetHaltsAtEveryBreach(l: Limits, es: seq<Event>, later: seq<Event>, e: Event)
    requires (forall x | x in es :: !x.SetLimits?) && Unattended(later)
    requires AtThreshold(l, Tally(Init(l), es, 0))
    requires Observed(Run(Init(l), es + later), e) > 0
    ensures Step(Run(Init(l), es + later), e).0.engaged && Next(Run(Init(l), es + later), e).killSwitch
  {
    FailureCountExact(l, es);
    RunAppend(Init(l), es, later);
    FixedLimits(Init(l), es);
    CountOnlyGrows(Run(Init(l), es), later);
    StepTallies(Run(Init(l), es + later), e);
  }

  lemma {:induction false} FixedLimits(s: State, es: seq<Event>)
    requires forall x | x in es :: !x.SetLimits?
    ensures Run(s, es).limits == s.limits
    decreases |es|
  {
    if es != [] {
      StepTallies(s, es[0]);
      FixedLimits(Next(s, es[0]), es[1..]);
    }
  }

  /** Without the kill switch no breach ever halts trading, breaker or not. */
  lemma BreakerNeedsKillSwitch(l: Limits, es: seq<Event>)
    requires !l.killSwitchEnabled && forall x | x in es :: !x.SetLimits?
    ensures !Run(Init(l), es).killSwitch
  {
    NeverEngaged(Init(l), es);
  }

  lemma {:induction false} NeverEngaged(s: State, es: seq<Event>)
    requires !s.limits.killSwitchEnabled && !s.killSwitch && forall x | x in es :: !x.SetLimits?
    ensures !Run(s, es).killSwitch
    decreases |es|
  {
    if es != [] {
      StepTallies(s, es[0]);
      NeverEngages(s, es[0]);
      NeverEngaged(Next(s, es[0]), es[1..]);
    }
  }

  lemma NeverEngages(s: State, e: Event)
    requires !s.limits.killSwitchEnabled && !s.killSwitch
    ensures !Next(s, e).killSwitch
  {
    hide Step;
    StepRecorded(s, e);
  }
}
