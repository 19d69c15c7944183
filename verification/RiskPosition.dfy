/**
 How far positions can run past the configured maximum. The pre-trade check
 looks at the filled position only, so live orders can overshoot together.
 */
module RiskPosition {
  import opened Common
  import opened MapSums
  import opened RiskModel

  /** +1 for everything that adds to the position, -1 for sells. */
  function Direction(side: Side): real {
    if side.Sell? then -1.0 else 1.0
  }

  /** The report agrees with the live order it is about. */
  predicate Agrees(s: State, symbol: string, report: Report) {
    && report.clientOrderId in s.orders && report.filledQuantity.Some?
    && var o := s.orders[report.clientOrderId];
       && symbol == o.symbol && Direction(report.side) == Direction(o.side)
       && report.filledQuantity.value <= o.quantity
  }

  /**
   What the venue and the strategy owe the manager: an admission does not reuse
   a live client id, and a report about a live order names the order's symbol
   and side and never fills more than was ordered.
   */
  predicate Honest(s: State, e: Event) {
    && (Admits(s, e) ==> e.req.clientOrderId !in s.orders)
    && (Reaches(s, e) ==> Agrees(s, e.symbol, e.report))
  }

  predicate HonestRun(s: State, es: seq<Event>)
    decreases |es|
  {
    es == [] || (Honest(s, es[0]) && HonestRun(Next(s, es[0]), es[1..]))
  }

  /** The kill switch, once engaged, stays engaged. */
  predicate HaltsForGood(l: Limits) {
    l.killSwitchEnabled && !l.Reopens()
  }

  /** (2K - 1) times the maximum position, K the concurrency limit. */
  ghost function Bound(l: Limits): real
    requires l.maxConcurrent >= 1
  {
    l.maxPosition + Times(l.maxConcurrent - 1, 2.0 * l.maxPosition)
  }

  // --- Outstanding quantity ------------------------------------------------------

  /** What an order can still move the position of a symbol in direction d. */
  ghost function Rest(symbol: string, d: real): (string, Order) -> real {
    (id: string, o: Order) => if o.symbol == symbol && Direction(o.side) == d then o.quantity - o.filled else 0.0
  }

  ghost function Outstanding(s: State, symbol: string, d: real): real {
    Sum(s.orders, Rest(symbol, d))
  }

  /** The position of a symbol in direction d if everything outstanding that way fills. */
  ghost function Reach(s: State, symbol: string, d: real): real {
    d * s.Position(symbol) + Outstanding(s, symbol, d)
  }

  /** The in-flight count is the number of live orders, within the limit. */
  ghost predicate Counted(s: State, sym: string) {
    s.Inflight(sym) == |s.Live(sym)| <= s.limits.maxConcurrent
  }

  ghost predicate Sound(s: State) {
    var l := s.limits; var m := l.maxPosition;
    && m > 0.0 && l.maxConcurrent >= 1
    && (forall id | id in s.orders ::
          var o := s.orders[id]; 0.0 <= o.filled <= o.quantity <= 2.0 * m && 0.0 < o.quantity)
    && (forall sym :: Counted(s, sym))
    && (forall sym :: Reach(s, sym, 1.0) <= Bound(l) && Reach(s, sym, -1.0) <= Bound(l))
    && (l.maxConcurrent > 1 ==> HaltsForGood(l) && s.cooldownUntil.None?)
    && (l.maxConcurrent > 1 && !s.killSwitch ==> forall sym :: Abs(s.Position(sym)) <= m)
  }

  lemma OutstandingNonNegative(s: State, symbol: string, d: real)
    requires forall id | id in s.orders :: s.orders[id].filled <= s.orders[id].quantity
    ensures Outstanding(s, symbol, d) >= 0.0
  {
    NonNegative(s.orders, Rest(symbol, d));
  }

  /** While the manager still admits, every position is within the maximum. */
  lemma WithinWhileTrading(s: State, symbol: string)
    requires Sound(s) && (s.limits.maxConcurrent > 1 ==> !s.killSwitch)
    ensures Abs(s.Position(symbol)) <= s.limits.maxPosition
  {
    if s.limits.maxConcurrent == 1 {
      OutstandingNonNegative(s, symbol, 1.0);
      OutstandingNonNegative(s, symbol, -1.0);
      assert Reach(s, symbol, 1.0) <= Bound(s.limits) && Reach(s, symbol, -1.0) <= Bound(s.limits);
    }
  }

  // --- One step ---------------------------------------------------------------------

  lemma AlarmSticks(s: State, e: Event)
    requires !s.limits.Reopens() && s.cooldownUntil.None? && !e.Reset? && !e.SetLimits?
    ensures Next(s, e).cooldownUntil.None?
    ensures s.killSwitch ==> Next(s, e).killSwitch
  {
    if e.Execution? {
      ExecutionRecorded(s, e.now, e.symbol, e.report);
    } else if e.Check? {
      CheckRecorded(s, e.now, e.throttled, e.req);
    }
  }

  /** Closing the order and recording a rejection keep the halt and the position of the fill. */
  lemma FillHaltKept(s: State, now: int, symbol: string, report: Report)
    requires report.clientOrderId in s.orders && report.filledQuantity.Some?
    ensures var order := s.orders[report.clientOrderId];
            var cumulative := Max(report.filledQuantity.value, 0.0);
            var fill := ApplyFill(s, now, symbol, report.side, cumulative - order.filled, FillPrice(order, report)).state;
            var t := HandleExecution(s, now, symbol, report).state;
            && (cumulative > order.filled ==> t.positions == fill.positions && (fill.killSwitch ==> t.killSwitch))
            && (cumulative <= order.filled ==> t.positions == s.positions)
  {
    hide ApplyFill;
  }

  lemma FillHalts(s: State, e: Event)
    requires Reaches(s, e) && s.limits.killSwitchEnabled && s.limits.maxPosition > 0.0
    requires Abs(s.Position(e.symbol)) <= s.limits.maxPosition
    ensures !Next(s, e).killSwitch ==> Abs(Next(s, e).Position(e.symbol)) <= s.limits.maxPosition
  {
    var order := s.orders[e.report.clientOrderId];
    var delta := Max(e.report.filledQuantity.value, 0.0) - order.filled;
    ApplyFillRecorded(s, e.now, e.symbol, e.report.side, delta, FillPrice(order, e.report));
    FillHaltKept(s, e.now, e.symbol, e.report);
  }

  lemma AdmitOutstanding(s: State, t: State, req: Request, sym: string, d: real)
    requires Admission(s, t, req) && req.clientOrderId !in s.orders
    ensures Outstanding(t, sym, d) ==
              Outstanding(s, sym, d) + if req.symbol == sym && Direction(req.side) == d then req.quantity.value else 0.0
  {
    var id := req.clientOrderId;
    assert s.orders - {id} == s.orders;
    Write(s.orders, id, t.orders[id], Rest(sym, d));
  }

  /** What is outstanding one way is at most twice the limit an order. */
  lemma OutstandingBounded(s: State, sym: string, d: real, n: nat)
    requires Sound(s) && |s.Live(sym)| <= n && (d == 1.0 || d == -1.0)
    ensures Outstanding(s, sym, d) <= Times(n, 2.0 * s.limits.maxPosition)
  {
    var m := 2.0 * s.limits.maxPosition;
    CountBound(s.orders, Rest(sym, d), s.Live(sym), m);
    TimesMonotone(|s.Live(sym)|, n, m);
  }

  lemma AdmitReach(s: State, t: State, req: Request, sym: string, d: real)
    requires Sound(s) && Admission(s, t, req) && WithinLimits(s, req) && req.clientOrderId !in s.orders
    requires d == 1.0 || d == -1.0
    requires s.limits.maxConcurrent > 1 ==> !s.killSwitch
    ensures Reach(t, sym, d) <= Bound(s.limits)
  {
    AdmitOutstanding(s, t, req, sym, d);
    assert Reach(s, sym, 1.0) <= Bound(s.limits) && Reach(s, sym, -1.0) <= Bound(s.limits);
    if sym == req.symbol {
      assert Counted(s, sym);
      OutstandingBounded(s, sym, d, s.limits.maxConcurrent - 1);
      WithinWhileTrading(s, sym);
    }
  }

  lemma AdmitCounts(s: State, t: State, req: Request, sym: string)
    requires Admission(s, t, req) && WithinLimits(s, req) && req.clientOrderId !in s.orders
    requires Counted(s, sym) && s.limits.maxConcurrent >= 1
    ensures Counted(t, sym)
  {
    LiveAfterAdmission(s, t, req, sym);
  }

  lemma AdmitSound(s: State, t: State, req: Request)
    requires Sound(s) && Admission(s, t, req) && WithinLimits(s, req) && req.clientOrderId !in s.orders
    requires s.limits.maxConcurrent > 1 ==> !s.killSwitch && t.cooldownUntil.None?
    ensures Sound(t)
  {
    WithinWhileTrading(s, req.symbol);
    forall sym
      ensures Counted(t, sym)
      ensures Reach(t, sym, 1.0) <= Bound(s.limits) && Reach(t, sym, -1.0) <= Bound(s.limits)
    {
      assert Counted(s, sym);
      AdmitCounts(s, t, req, sym);
      AdmitReach(s, t, req, sym, 1.0);
      AdmitReach(s, t, req, sym, -1.0);
    }
    forall sym | s.limits.maxConcurrent > 1 ensures Abs(t.Position(sym)) <= s.limits.maxPosition {
      WithinWhileTrading(s, sym);
    }
  }

  /** Filling or closing an order never extends the reach either way. */
  lemma ExecutionReach(s: State, t: State, symbol: string, report: Report, sym: string, d: real)
    requires Sound(s) && Agrees(s, symbol, report) && Booking(s, t, symbol, report)
    requires d == 1.0 || d == -1.0
    ensures Reach(t, sym, d) <= Reach(s, sym, d)
  {
    var id, w := report.clientOrderId, Rest(sym, d);
    Split(s.orders, id, w);
    if !Terminal(report.state) {
      Write(s.orders, id, t.orders[id], w);
    }
  }

  lemma CloseCounts(s: State, t: State, id: string, sym: string)
    requires id in s.orders && t.orders == s.orders - {id} && t.limits == s.limits
    requires t.inflight == Release(s, s.orders[id].symbol).inflight
    requires Counted(s, sym)
    ensures Counted(t, sym)
  {
    LiveAfterClose(s, t, id, sym);
    var live, own := s.Live(sym), s.orders[id].symbol;
    if own == sym {
      assert |live - {id}| == |live| - 1;
    } else {
      assert live - {id} == live;
    }
  }

  lemma ExecutionCounts(s: State, t: State, symbol: string, report: Report, sym: string)
    requires Agrees(s, symbol, report) && Booking(s, t, symbol, report) && Counted(s, sym)
    ensures Counted(t, sym)
  {
    if Terminal(report.state) {
      CloseCounts(s, t, report.clientOrderId, sym);
    } else {
      assert t.Live(sym) == s.Live(sym);
    }
  }

  lemma ExecutionSound(s: State, t: State, symbol: string, report: Report)
    requires Sound(s) && Agrees(s, symbol, report) && Booking(s, t, symbol, report)
    requires s.limits.maxConcurrent > 1 ==> t.cooldownUntil.None? && (s.killSwitch ==> t.killSwitch)
    requires (s.limits.maxConcurrent > 1 && !t.killSwitch) ==> Abs(t.Position(symbol)) <= s.limits.maxPosition
    ensures Sound(t)
  {
    forall sym
      ensures Counted(t, sym)
      ensures Reach(t, sym, 1.0) <= Bound(s.limits) && Reach(t, sym, -1.0) <= Bound(s.limits)
    {
      assert Counted(s, sym) && Reach(s, sym, 1.0) <= Bound(s.limits) && Reach(s, sym, -1.0) <= Bound(s.limits);
      ExecutionCounts(s, t, symbol, report, sym);
      ExecutionReach(s, t, symbol, report, sym, 1.0);
      ExecutionReach(s, t, symbol, report, sym, -1.0);
    }
    forall sym | s.limits.maxConcurrent > 1 && !t.killSwitch ensures Abs(t.Position(sym)) <= s.limits.maxPosition {
      if sym != symbol {
        WithinWhileTrading(s, sym);
      }
    }
  }

  lemma OtherSound(s: State, t: State)
    requires Sound(s) && SameBooks(s, t)
    requires s.limits.maxConcurrent > 1 ==> t.cooldownUntil.None? && (s.killSwitch ==> t.killSwitch)
    ensures Sound(t)
  {
    forall sym
      ensures Counted(t, sym)
      ensures Reach(t, sym, 1.0) <= Bound(s.limits) && Reach(t, sym, -1.0) <= Bound(s.limits)
    {
      assert t.Live(sym) == s.Live(sym);
      assert Counted(s, sym) && Reach(s, sym, 1.0) <= Bound(s.limits) && Reach(s, sym, -1.0) <= Bound(s.limits);
    }
    forall sym | s.limits.maxConcurrent > 1 && !t.killSwitch ensures Abs(t.Position(sym)) <= s.limits.maxPosition {
      WithinWhileTrading(s, sym);
    }
  }

  lemma StepSound(s: State, e: Event)
    requires Sound(s) && Honest(s, e) && !e.Reset? && !e.SetLimits?
    ensures Sound(Next(s, e)) && Next(s, e).limits == s.limits
  {
    var t := Next(s, e);
    if s.limits.maxConcurrent > 1 {
      AlarmSticks(s, e);
    }
    if Admits(s, e) {
      AdmitEffect(s, e);
      AdmitSound(s, t, e.req);
    } else if Reaches(s, e) {
      ExecutionEffect(s, e);
      if s.limits.maxConcurrent > 1 && !t.killSwitch {
        WithinWhileTrading(s, e.symbol);
        FillHalts(s, e);
      }
      ExecutionSound(s, t, e.symbol, e.report);
    } else {
      OtherEffect(s, e);
      OtherSound(s, t);
    }
  }

  // --- Whole runs --------------------------------------------------------------------

  lemma {:induction false} RunSound(s: State, es: seq<Event>)
    requires Sound(s) && HonestRun(s, es) && Unattended(es)
    ensures Sound(Run(s, es)) && Run(s, es).limits == s.limits
    decreases |es|
  {
    if es != [] {
      StepSound(s, es[0]);
      RunSound(Next(s, es[0]), es[1..]);
    }
  }

  lemma InitSound(l: Limits)
    requires l.maxPosition > 0.0 && l.maxConcurrent >= 1 && (l.maxConcurrent == 1 || HaltsForGood(l))
    ensures Sound(Init(l))
  {
    var s := Init(l);
    TimesMonotone(0, l.maxConcurrent - 1, 2.0 * l.maxPosition);
    forall sym ensures Reach(s, sym, 1.0) == 0.0 == Reach(s, sym, -1.0) && Counted(s, sym) {
      assert s.Live(sym) == {};
    }
  }

  /**
   With a kill switch that halts for good, or a single order at a time, no run
   takes a position past (2K - 1) times the maximum, however orders interleave.
   */
  lemma PositionBound(l: Limits, es: seq<Event>, symbol: string)
    requires l.maxPosition > 0.0 && l.maxConcurrent >= 1 && (l.maxConcurrent == 1 || HaltsForGood(l))
    requires HonestRun(Init(l), es) && Unattended(es)
    ensures Abs(Run(Init(l), es).Position(symbol)) <= (2 * l.maxConcurrent - 1) as real * l.maxPosition
  {
    InitSound(l);
    RunSound(Init(l), es);
    var t := Run(Init(l), es);
    OutstandingNonNegative(t, symbol, 1.0);
    OutstandingNonNegative(t, symbol, -1.0);
    assert Reach(t, symbol, 1.0) <= Bound(l) && Reach(t, symbol, -1.0) <= Bound(l);
    BoundIs(l);
  }

  lemma BoundIs(l: Limits)
    requires l.maxConcurrent >= 1
    ensures Bound(l) == (2 * l.maxConcurrent - 1) as real * l.maxPosition
  {
    TimesIsProduct(l.maxConcurrent - 1, 2.0 * l.maxPosition);
    var k := (l.maxConcurrent - 1) as real;
    assert (2 * l.maxConcurrent - 1) as real == 2.0 * k + 1.0;
    assert k * (2.0 * l.maxPosition) == (2.0 * k) * l.maxPosition;
  }
}
