/**
 The risk manager as a function of its state: one step per exported operation,
 with decimals as reals and one clock reading per operation.
 */
module RiskModel {
  import opened Common
  import Text

  datatype Side = Buy | Sell | OtherSide

  datatype CircuitBreaker = CircuitBreaker(enabled: bool, threshold: int, cooldown: int)

  datatype Limits = Limits(
    maxPosition: real,
    maxNotional: real,
    maxConcurrent: int,
    priceBandPercent: real,
    allowedOrderTypes: seq<string>,
    killSwitchEnabled: bool,
    maxBreaches: int,
    breaker: CircuitBreaker)
  {
    /** The lower-cased order types the manager accepts; empty accepts all. */
    function AllowedTypes(): set<string> {
      set t | t in allowedOrderTypes && Text.Trim(t) != [] :: Text.Lower(Text.Trim(t))
    }

    /** The breaker lifts a halt only with a positive cooldown. */
    predicate Reopens() {
      breaker.enabled && breaker.cooldown > 0
    }
  }

  datatype Order = Order(symbol: string, side: Side, quantity: real, filled: real, limitPrice: real)

  datatype State = State(
    limits: Limits,
    positions: map<string, real>,
    notionals: map<string, real>,
    marketPrices: map<string, real>,
    orders: map<string, Order>,
    inflight: map<string, int>,
    failureCount: int,
    killSwitch: bool,
    cooldownUntil: Option<int>)
  {
    function Position(symbol: string): real {
      At(positions, symbol, 0.0)
    }

    function Inflight(symbol: string): int {
      At(inflight, symbol, 0)
    }

    ghost function Live(symbol: string): set<string> {
      set id | id in orders && orders[id].symbol == symbol
    }
  }

  function Init(limits: Limits): State {
    State(limits, map[], map[], map[], map[], map[], 0, false, None)
  }

  /** A decimal as the caller wrote it: None when it does not parse. */
  type Decimal = Option<real>

  datatype Request = Request(
    clientOrderId: string, symbol: string, side: Side, orderType: string,
    price: Option<Decimal>, quantity: Decimal)

  datatype ExecState = Ack | Partial | Filled | Cancelled | Rejected | Expired | OtherState

  datatype Report = Report(
    clientOrderId: string, side: Side, state: ExecState, filledQuantity: Decimal, avgFillPrice: Decimal)

  datatype Breach =
    | OrderTypeBreach | ValidationBreach | PriceBandBreach
    | PositionBreach | NotionalBreach | ConcurrencyBreach

  datatype Verdict =
    | Admitted
    | Throttled
    | Halted(breakerOpen: bool)
    | Refused(breach: Breach)
    | NotAnOrder

  /** A state together with what was recorded on the way to it. */
  datatype Audited = Audited(state: State, breaches: nat, engaged: bool)

  function Signed(side: Side, quantity: real): real {
    if side.Sell? then -quantity else quantity
  }

  function Notional(position: real, price: real): real {
    Abs(position) * price
  }

  predicate Terminal(state: ExecState) {
    state.Filled? || state.Cancelled? || state.Rejected? || state.Expired?
  }

  // --- Kill switch -----------------------------------------------------------

  /** The same limits, positions, live orders and in-flight counts. */
  predicate SameBooks(s: State, t: State) {
    t.limits == s.limits && t.positions == s.positions && t.orders == s.orders && t.inflight == s.inflight
  }

  /** The same breach count and the same halt. */
  predicate SameAlarm(s: State, t: State) {
    t.failureCount == s.failureCount && t.killSwitch == s.killSwitch && t.cooldownUntil == s.cooldownUntil
  }

  /** A count that engages the kill switch when a breach is recorded. */
  predicate AtThreshold(l: Limits, count: int) {
    && l.killSwitchEnabled
    && (|| (l.maxBreaches > 0 && count >= l.maxBreaches)
        || (l.breaker.enabled && l.breaker.threshold > 0 && count >= l.breaker.threshold))
  }

  function Halt(s: State, now: int): (t: State)
    ensures SameBooks(s, t) && t.marketPrices == s.marketPrices
  {
    if !s.limits.killSwitchEnabled then s
    else
      s.(killSwitch := true,
         cooldownUntil := if s.limits.Reopens() then Some(now + s.limits.breaker.cooldown) else s.cooldownUntil)
  }

  function Count(s: State, now: int): (t: State)
    ensures SameBooks(s, t) && t.marketPrices == s.marketPrices
  {
    var counted := s.(failureCount := s.failureCount + 1);
    if AtThreshold(s.limits, counted.failureCount) then Halt(counted, now) else counted
  }

  function RecordBreach(a: Audited, now: int): (r: Audited)
    ensures SameBooks(a.state, r.state) && r.state.marketPrices == a.state.marketPrices
  {
    Audited(Count(a.state, now), a.breaches + 1, a.engaged || AtThreshold(a.state.limits, a.state.failureCount + 1))
  }

  /** A breach found after the fact halts trading whatever the count. */
  function HaltIf(a: Audited, breached: bool, now: int): (r: Audited)
    ensures SameBooks(a.state, r.state) && r.state.marketPrices == a.state.marketPrices
  {
    if breached
    then Audited(Halt(Count(a.state, now), now), a.breaches + 1, a.engaged || a.state.limits.killSwitchEnabled)
    else a
  }

  function LiftExpiredHalt(s: State, now: int): (r: State)
    ensures SameBooks(s, r)
  {
    if s.killSwitch && s.limits.breaker.enabled && s.cooldownUntil.Some? && now > s.cooldownUntil.value
    then s.(killSwitch := false)
    else s
  }

  function HaltVerdict(s: State, now: int): Verdict {
    Halted(s.limits.breaker.enabled && s.cooldownUntil.Some? && now < s.cooldownUntil.value)
  }

  // --- Pre-trade checks ------------------------------------------------------

  predicate TypeAllowed(s: State, orderType: string) {
    s.limits.AllowedTypes() == {} || Text.Lower(orderType) in s.limits.AllowedTypes()
  }

  datatype Priced = Price(value: real) | Unpriced(breach: Breach)

  /** The highest and the lowest price within percent of a reference. */
  function BandEdges(percent: real, reference: real): (real, real) {
    (reference * (1.0 + percent / 100.0), reference * (1.0 - percent / 100.0))
  }

  /** The band check; the first price seen becomes the reference. */
  function PriceBand(s: State, symbol: string, price: real): (r: (State, Priced))
    ensures SameBooks(s, r.0) && SameAlarm(s, r.0)
  {
    var reference := At(s.marketPrices, symbol, 0.0);
    var (upper, lower) := BandEdges(s.limits.priceBandPercent, reference);
    if s.limits.priceBandPercent <= 0.0 then (s, Price(price))
    else if reference <= 0.0 then (s.(marketPrices := s.marketPrices[symbol := price]), Price(price))
    else if price > upper || price < lower then (s, Unpriced(PriceBandBreach))
    else (s, Price(price))
  }

  function ResolvePrice(s: State, req: Request): (r: (State, Priced))
    ensures SameBooks(s, r.0) && SameAlarm(s, r.0)
  {
    match req.price
    case Some(Some(price)) => PriceBand(s, req.symbol, price)
    case Some(None) => (s, Unpriced(ValidationBreach))
    case None =>
      var market := At(s.marketPrices, req.symbol, 0.0);
      if req.orderType == "Limit" || market <= 0.0 then (s, Unpriced(ValidationBreach))
      else PriceBand(s, req.symbol, market)
  }

  function ExposureBreach(s: State, req: Request, quantity: real, price: real): Option<Breach> {
    var projected := s.Position(req.symbol) + Signed(req.side, quantity);
    if s.limits.maxPosition > 0.0 && Abs(projected) > s.limits.maxPosition then Some(PositionBreach)
    else if s.limits.maxNotional > 0.0 && Notional(projected, price) > s.limits.maxNotional then Some(NotionalBreach)
    else if s.limits.maxConcurrent > 0 && s.Inflight(req.symbol) >= s.limits.maxConcurrent then Some(ConcurrencyBreach)
    else None
  }

  function Admit(s: State, req: Request, quantity: real, price: real): State {
    s.(inflight := s.inflight[req.symbol := s.Inflight(req.symbol) + 1],
       orders := s.orders[req.clientOrderId := Order(req.symbol, req.side, quantity, 0.0, price)])
  }

  /** The first check that fails, with the state those checks leave behind. */
  function Screen(s: State, req: Request): (r: (State, Option<Breach>, real))
    ensures SameBooks(s, r.0) && SameAlarm(s, r.0)
  {
    if !TypeAllowed(s, req.orderType) then (s, Some(OrderTypeBreach), 0.0)
    else if req.quantity.None? || req.quantity.value <= 0.0 then (s, Some(ValidationBreach), 0.0)
    else
      var (priced, result) := ResolvePrice(s, req);
      match result
      case Unpriced(breach) => (priced, Some(breach), 0.0)
      case Price(price) => (priced, ExposureBreach(priced, req, req.quantity.value, price), price)
  }

  /** throttled: one of the two rate limiters gave up waiting. */
  function CheckOrder(s: State, now: int, throttled: bool, req: Request): (Audited, Verdict) {
    if throttled then (Audited(s, 0, false), Throttled)
    else
      var active := LiftExpiredHalt(s, now);
      if active.killSwitch then (Audited(active, 0, false), HaltVerdict(active, now))
      else
        var (screened, breach, price) := Screen(active, req);
        match breach
        case Some(b) => (RecordBreach(Audited(screened, 0, false), now), Refused(b))
        case None => (Audited(Admit(screened, req, req.quantity.value, price), 0, false), Admitted)
  }

  // --- Executions ------------------------------------------------------------

  function ApplyFill(s: State, now: int, symbol: string, side: Side, quantity: real, price: real): (r: Audited)
    ensures r.state.limits == s.limits && r.state.orders == s.orders && r.state.inflight == s.inflight
    ensures r.state.marketPrices == s.marketPrices
    ensures r.state.positions == s.positions[symbol := s.Position(symbol) + Signed(side, quantity)]
  {
    var position := s.Position(symbol) + Signed(side, quantity);
    var notional := Notional(position, price);
    var filled := Audited(s.(positions := s.positions[symbol := position],
                             notionals := s.notionals[symbol := notional]), 0, false);
    var checked := HaltIf(filled, s.limits.maxPosition > 0.0 && Abs(position) > s.limits.maxPosition, now);
    HaltIf(checked, s.limits.maxNotional > 0.0 && notional > s.limits.maxNotional, now)
  }

  function Release(s: State, symbol: string): State {
    if s.Inflight(symbol) > 0 then s.(inflight := s.inflight[symbol := s.Inflight(symbol) - 1]) else s
  }

  function FillPrice(order: Order, report: Report): real {
    if report.avgFillPrice.Some? && report.avgFillPrice.value > 0.0 then report.avgFillPrice.value else order.limitPrice
  }

  /** Books the part of a cumulative fill not booked before. */
  function BookFill(s: State, now: int, symbol: string, report: Report, cumulative: real): (r: Audited)
    requires report.clientOrderId in s.orders
    ensures report.clientOrderId in r.state.orders && r.state.marketPrices == s.marketPrices
  {
    var order := s.orders[report.clientOrderId];
    if cumulative > order.filled then
      var a := ApplyFill(s, now, symbol, report.side, cumulative - order.filled, FillPrice(order, report));
      a.(state := a.state.(orders := a.state.orders[report.clientOrderId := order.(filled := cumulative)]))
    else Audited(s, 0, false)
  }

  function CloseOrder(s: State, id: string): State
    requires id in s.orders
  {
    var released := Release(s, s.orders[id].symbol);
    released.(orders := released.orders - {id})
  }

  function Settle(s: State, report: Report): (t: State)
    requires report.clientOrderId in s.orders
    ensures t.marketPrices == s.marketPrices && t.positions == s.positions
  {
    if Terminal(report.state) then CloseOrder(s, report.clientOrderId) else s
  }

  function HandleExecution(s: State, now: int, symbol: string, report: Report): Audited {
    if report.clientOrderId !in s.orders || report.filledQuantity.None? then Audited(s, 0, false)
    else
      var booked := BookFill(s, now, symbol, report, Max(report.filledQuantity.value, 0.0));
      var closed := booked.(state := Settle(booked.state, report));
      if report.state.Rejected? && s.limits.killSwitchEnabled then RecordBreach(closed, now) else closed
  }

  function ObserveMarketPrice(s: State, symbol: string, price: real): State {
    if price <= 0.0 then s else s.(marketPrices := s.marketPrices[symbol := price])
  }

  function ResetKillSwitch(s: State): State {
    s.(killSwitch := false, failureCount := 0, cooldownUntil := None)
  }

  // --- Runs ------------------------------------------------------------------

  datatype Event =
    | Check(now: int, throttled: bool, req: Request)
    | Execution(now: int, symbol: string, report: Report)
    | Observe(symbol: string, price: real)
    | Reset
    | SetLimits(limits: Limits)

  function Step(s: State, e: Event): (Audited, Verdict) {
    match e
    case Check(now, throttled, req) => CheckOrder(s, now, throttled, req)
    case Execution(now, symbol, report) => (HandleExecution(s, now, symbol, report), NotAnOrder)
    case Observe(symbol, price) => (Audited(ObserveMarketPrice(s, symbol, price), 0, false), NotAnOrder)
    case Reset => (Audited(ResetKillSwitch(s), 0, false), NotAnOrder)
    case SetLimits(limits) => (Audited(s.(limits := limits), 0, false), NotAnOrder)
  }

  function Next(s: State, e: Event): State {
    Step(s, e).0.state
  }

  function Run(s: State, es: seq<Event>): State
    decreases |es|
  {
    if es == [] then s else Run(Next(s, es[0]), es[1..])
  }

  /** e is a check that put an order under its client id. */
  predicate Admits(s: State, e: Event) {
    e.Check? && Step(s, e).1.Admitted?
  }

  /** e is a report that reaches the fill and release logic. */
  predicate Reaches(s: State, e: Event) {
    e.Execution? && e.report.clientOrderId in s.orders && e.report.filledQuantity.Some?
  }

  /** Neither the limits nor the kill switch are touched by hand. */
  predicate Unattended(es: seq<Event>) {
    forall e | e in es :: !e.Reset? && !e.SetLimits?
  }

  lemma {:induction false} RunAppend(s: State, es: seq<Event>, fs: seq<Event>)
    ensures Run(s, es + fs) == Run(Run(s, es), fs)
    decreases |es|
  {
    if es == [] {
      assert es + fs == fs;
    } else {
      assert (es + fs)[0] == es[0] && (es + fs)[1..] == es[1..] + fs;
      RunAppend(Next(s, es[0]), es[1..], fs);
    }
  }

  // --- What a step does to each part of the state ------------------------------

  /** What an admission does to orders, positions and in-flight counts. */
  ghost predicate Admission(s: State, t: State, req: Request) {
    && req.quantity.Some? && req.quantity.value > 0.0
    && t.limits == s.limits && t.positions == s.positions
    && t.inflight == s.inflight[req.symbol := s.Inflight(req.symbol) + 1]
    && req.clientOrderId in t.orders
    && var o := t.orders[req.clientOrderId];
       && o.symbol == req.symbol && o.side == req.side && o.quantity == req.quantity.value && o.filled == 0.0
       && t.orders == s.orders[req.clientOrderId := o]
  }

  /** The limits an admitted request was within. */
  predicate WithinLimits(s: State, req: Request)
    requires req.quantity.Some?
  {
    && (s.limits.maxConcurrent > 0 ==> s.Inflight(req.symbol) < s.limits.maxConcurrent)
    && (s.limits.maxPosition > 0.0 ==>
          Abs(s.Position(req.symbol) + Signed(req.side, req.quantity.value)) <= s.limits.maxPosition)
  }

  /** What a report on a live order does to them. */
  ghost predicate Booking(s: State, t: State, symbol: string, report: Report)
    requires report.clientOrderId in s.orders && report.filledQuantity.Some?
  {
    var id := report.clientOrderId; var o := s.orders[id];
    var filled := Max(o.filled, Max(report.filledQuantity.value, 0.0));
    && t.limits == s.limits
    && t.orders == (if Terminal(report.state) then s.orders - {id} else s.orders[id := o.(filled := filled)])
    && t.inflight == (if Terminal(report.state) then Release(s, o.symbol).inflight else s.inflight)
    && (forall sym :: t.Position(sym) == s.Position(sym) +
          if sym == symbol then Signed(report.side, filled - o.filled) else 0.0)
  }

  lemma AdmitEffect(s: State, e: Event)
    requires Admits(s, e)
    ensures Admission(s, Next(s, e), e.req) && WithinLimits(s, e.req)
    ensures !LiftExpiredHalt(s, e.now).killSwitch
    ensures !Next(s, e).killSwitch && Next(s, e).cooldownUntil == s.cooldownUntil
  {
  }

  lemma ExecutionEffect(s: State, e: Event)
    requires Reaches(s, e)
    ensures Booking(s, Next(s, e), e.symbol, e.report)
  {
    hide BookFill, RecordBreach;
    BookFillEffect(s, e.now, e.symbol, e.report);
    var booked := BookFill(s, e.now, e.symbol, e.report, Max(e.report.filledQuantity.value, 0.0)).state;
    SettleEffect(s, booked, Next(s, e), e.symbol, e.report);
  }

  /** The fill of a report is on the books; the order is not settled yet. */
  ghost predicate Booked(s: State, t: State, symbol: string, report: Report)
    requires report.clientOrderId in s.orders && report.filledQuantity.Some?
  {
    var o := s.orders[report.clientOrderId];
    var filled := Max(o.filled, Max(report.filledQuantity.value, 0.0));
    && t.limits == s.limits && t.inflight == s.inflight
    && t.orders == s.orders[report.clientOrderId := o.(filled := filled)]
    && (forall sym :: t.Position(sym) == s.Position(sym) +
          if sym == symbol then Signed(report.side, filled - o.filled) else 0.0)
  }

  lemma BookFillEffect(s: State, now: int, symbol: string, report: Report)
    requires report.clientOrderId in s.orders && report.filledQuantity.Some?
    ensures Booked(s, BookFill(s, now, symbol, report, Max(report.filledQuantity.value, 0.0)).state, symbol, report)
  {
    assert s.orders[report.clientOrderId := s.orders[report.clientOrderId]] == s.orders;
  }

  lemma SettleEffect(s: State, booked: State, t: State, symbol: string, report: Report)
    requires report.clientOrderId in s.orders && report.filledQuantity.Some?
    requires Booked(s, booked, symbol, report) && SameBooks(Settle(booked, report), t)
    ensures Booking(s, t, symbol, report)
  {
    hide Signed;
    assert booked.orders - {report.clientOrderId} == s.orders - {report.clientOrderId};
    forall sym ensures t.Position(sym) == booked.Position(sym) {
    }
  }

  /** Every other step leaves orders, positions and in-flight counts alone. */
  lemma OtherEffect(s: State, e: Event)
    requires !Admits(s, e) && !Reaches(s, e)
    ensures var t := Next(s, e);
            && t.orders == s.orders && t.positions == s.positions && t.inflight == s.inflight
            && (!e.SetLimits? ==> t.limits == s.limits)
  {
  }

  lemma LiveAfterAdmission(s: State, t: State, req: Request, symbol: string)
    requires Admission(s, t, req)
    ensures t.Live(symbol) == s.Live(symbol) - {req.clientOrderId} + if req.symbol == symbol then {req.clientOrderId} else {}
  {
    forall id ensures id in t.Live(symbol) <==>
        (id == req.clientOrderId && req.symbol == symbol) || (id != req.clientOrderId && id in s.Live(symbol))
    {
    }
  }

  lemma LiveAfterClose(s: State, t: State, id: string, symbol: string)
    requires t.orders == s.orders - {id}
    ensures t.Live(symbol) == s.Live(symbol) - {id}
  {
  }

  // --- What a step does to the breach count and the halt -----------------------

  /**
   From a to b, at time now: every breach is counted, one that meets a threshold
   halts, and the halt is either untouched or was called anew.
   */
  predicate Recorded(a: Audited, b: Audited, now: int) {
    && b.state.limits == a.state.limits
    && b.breaches - a.breaches == b.state.failureCount - a.state.failureCount >= 0
    && (b.breaches > a.breaches && AtThreshold(b.state.limits, b.state.failureCount) ==> b.engaged && b.state.killSwitch)
    && (|| (b.engaged == a.engaged && b.state.killSwitch == a.state.killSwitch && b.state.cooldownUntil == a.state.cooldownUntil)
        || (b.engaged && b.state.killSwitch && a.state.limits.killSwitchEnabled && b.state.cooldownUntil ==
              if a.state.limits.Reopens() then Some(now + a.state.limits.breaker.cooldown) else a.state.cooldownUntil))
  }

  lemma RecordedChain(a: Audited, b: Audited, c: Audited, now: int)
    requires Recorded(a, b, now) && Recorded(b, c, now)
    ensures Recorded(a, c, now)
  {
  }

  lemma RecordBreachRecorded(a: Audited, now: int)
    ensures Recorded(a, RecordBreach(a, now), now) && RecordBreach(a, now).breaches == a.breaches + 1
  {
  }

  lemma HaltIfRecorded(a: Audited, breached: bool, now: int)
    ensures var r := HaltIf(a, breached, now);
            && Recorded(a, r, now)
            && (a.state.killSwitch || (breached && a.state.limits.killSwitchEnabled) ==> r.state.killSwitch)
  {
  }

  lemma ApplyFillRecorded(s: State, now: int, symbol: string, side: Side, quantity: real, price: real)
    ensures var r := ApplyFill(s, now, symbol, side, quantity, price);
            && Recorded(Audited(s, 0, false), r, now)
            && (s.limits.killSwitchEnabled && s.limits.maxPosition > 0.0 && !r.state.killSwitch ==>
                  Abs(r.state.Position(symbol)) <= s.limits.maxPosition)
  {
    hide Halt, Count, HaltIf, Notional, AtThreshold;
    var position := s.Position(symbol) + Signed(side, quantity);
    var notional := Notional(position, price);
    var filled := Audited(s.(positions := s.positions[symbol := position],
                             notionals := s.notionals[symbol := notional]), 0, false);
    var over := s.limits.maxPosition > 0.0 && Abs(position) > s.limits.maxPosition;
    var rich := s.limits.maxNotional > 0.0 && notional > s.limits.maxNotional;
    HaltIfRecorded(filled, over, now);
    HaltIfRecorded(HaltIf(filled, over, now), rich, now);
    RecordedChain(filled, HaltIf(filled, over, now), HaltIf(HaltIf(filled, over, now), rich, now), now);
    assert Recorded(filled, ApplyFill(s, now, symbol, side, quantity, price), now);
  }

  lemma ExecutionRecorded(s: State, now: int, symbol: string, report: Report)
    ensures Recorded(Audited(s, 0, false), HandleExecution(s, now, symbol, report), now)
  {
    hide ApplyFill, RecordBreach;
    if report.clientOrderId in s.orders && report.filledQuantity.Some? {
      var id, cumulative := report.clientOrderId, Max(report.filledQuantity.value, 0.0);
      var order := s.orders[id];
      ApplyFillRecorded(s, now, symbol, report.side, cumulative - order.filled, FillPrice(order, report));
      var booked := BookFill(s, now, symbol, report, cumulative);
      var closed := booked.(state := Settle(booked.state, report));
      RecordBreachRecorded(closed, now);
      RecordedChain(Audited(s, 0, false), closed, RecordBreach(closed, now), now);
    }
  }

  lemma CheckRecorded(s: State, now: int, throttled: bool, req: Request)
    ensures var a := CheckOrder(s, now, throttled, req).0;
            if throttled then a == Audited(s, 0, false) else Recorded(Audited(LiftExpiredHalt(s, now), 0, false), a, now)
    ensures CheckOrder(s, now, throttled, req).0.breaches == if CheckOrder(s, now, throttled, req).1.Refused? then 1 else 0
  {
    hide RecordBreach, Screen;
    RecordBreachRecorded(Audited(Screen(LiftExpiredHalt(s, now), req).0, 0, false), now);
  }

  // --- Which events are breaches, as seen from outside ---------------------------

  /** A report about a live order that brings a fill not booked before. */
  predicate Fills(s: State, e: Event) {
    Reaches(s, e) && Max(e.report.filledQuantity.value, 0.0) > s.orders[e.report.clientOrderId].filled
  }

  /** What a position is worth at a price, long or short. */
  function Worth(position: real, price: real): real {
    if position < 0.0 then -(position * price) else position * price
  }

  predicate Past(position: real, limit: real) {
    limit > 0.0 && (position > limit || position < -limit)
  }

  predicate TooDear(position: real, price: real, limit: real) {
    limit > 0.0 && Worth(position, price) > limit
  }

  /** The limits that a new fill left the position and its worth beyond, at the average price reported or else the order's. */
  function Overruns(s: State, e: Event): nat {
    if !Fills(s, e) then 0
    else
      var x, average := Next(s, e).Position(e.symbol), e.report.avgFillPrice;
      var p := if average.Some? && average.value > 0.0 then average.value else s.orders[e.report.clientOrderId].limitPrice;
      (if Past(x, s.limits.maxPosition) then 1 else 0) + (if TooDear(x, p, s.limits.maxNotional) then 1 else 0)
  }

  lemma WorthIsNotional(position: real, price: real)
    ensures Worth(position, price) == Notional(position, price)
  {
    assert (-position) * price == -(position * price);
  }

  /** A live order comes back rejected while the kill switch is on. */
  predicate Rejects(s: State, e: Event) {
    Reaches(s, e) && e.report.state.Rejected? && s.limits.killSwitchEnabled
  }

  /** Refused orders, limits overrun by a fill, and rejections. */
  function Observed(s: State, e: Event): nat {
    if e.Check? then (if Step(s, e).1.Refused? then 1 else 0)
    else Overruns(s, e) + if Rejects(s, e) then 1 else 0
  }

  lemma FillObserved(s: State, now: int, symbol: string, side: Side, quantity: real, price: real)
    ensures var a := ApplyFill(s, now, symbol, side, quantity, price); var t := a.state;
            && t.notionals == s.notionals[symbol := Worth(t.Position(symbol), price)]
            && a.breaches ==
                 (if Past(t.Position(symbol), s.limits.maxPosition) then 1 else 0) +
                 (if TooDear(t.Position(symbol), price, s.limits.maxNotional) then 1 else 0)
            && (a.engaged <==> a.breaches > 0 && s.limits.killSwitchEnabled)
            && t.failureCount == s.failureCount + a.breaches
  {
    hide Halt, Count, HaltIf, Notional, AtThreshold;
    var position := s.Position(symbol) + Signed(side, quantity);
    var notional := Notional(position, price);
    var filled := Audited(s.(positions := s.positions[symbol := position],
                             notionals := s.notionals[symbol := notional]), 0, false);
    var over := s.limits.maxPosition > 0.0 && Abs(position) > s.limits.maxPosition;
    var rich := s.limits.maxNotional > 0.0 && notional > s.limits.maxNotional;
    WorthIsNotional(position, price);
    hide Worth;
    HaltIfObserved(filled, over, now);
    HaltIfObserved(HaltIf(filled, over, now), rich, now);
  }

  lemma HaltIfObserved(a: Audited, breached: bool, now: int)
    ensures var r := HaltIf(a, breached, now);
            && r.breaches == a.breaches + (if breached then 1 else 0)
            && r.state.failureCount == a.state.failureCount + (if breached then 1 else 0)
            && (r.engaged <==> a.engaged || (breached && a.state.limits.killSwitchEnabled))
            && r.state.notionals == a.state.notionals
  {
  }

  /** What closing an order and recording a rejection leave of the fill. */
  lemma SettledObserved(s: State, booked: Audited, report: Report, now: int)
    requires report.clientOrderId in booked.state.orders
    ensures var closed := booked.(state := Settle(booked.state, report)); var r := RecordBreach(closed, now);
            && closed.state.positions == r.state.positions == booked.state.positions
            && closed.state.notionals == r.state.notionals == booked.state.notionals
            && closed.state.failureCount == booked.state.failureCount && closed.state.limits == booked.state.limits
            && r.state.failureCount == booked.state.failureCount + 1 && r.breaches == booked.breaches + 1
            && (r.engaged <==> booked.engaged || AtThreshold(booked.state.limits, r.state.failureCount))
  {
  }

  /**
   Every breach that is recorded is one of those, each counted once; and the kill switch
   is engaged exactly when it is enabled and a fill overran a limit, or some breach
   brought the count to a threshold.
   */
  lemma BreachesObserved(s: State, e: Event)
    ensures Step(s, e).0.breaches == Observed(s, e)
    ensures Step(s, e).0.engaged <==>
              s.limits.killSwitchEnabled &&
              (Overruns(s, e) > 0 || (Observed(s, e) > 0 && AtThreshold(s.limits, Next(s, e).failureCount)))
  {
    if e.Check? {
      CheckRecorded(s, e.now, e.throttled, e.req);
    } else if Reaches(s, e) {
      ReportObserved(s, e);
    }
  }

  lemma ReportObserved(s: State, e: Event)
    requires Reaches(s, e)
    ensures Step(s, e).0.breaches == Overruns(s, e) + if Rejects(s, e) then 1 else 0
    ensures Step(s, e).0.engaged <==>
              s.limits.killSwitchEnabled &&
              (Overruns(s, e) > 0 || (Rejects(s, e) && AtThreshold(s.limits, Next(s, e).failureCount)))
  {
    hide ApplyFill, Settle, RecordBreach;
    var r := e.report;
    var order, cumulative := s.orders[r.clientOrderId], Max(r.filledQuantity.value, 0.0);
    FillObserved(s, e.now, e.symbol, r.side, cumulative - order.filled, FillPrice(order, r));
    SettledObserved(s, BookFill(s, e.now, e.symbol, r, cumulative), r, e.now);
  }
}
