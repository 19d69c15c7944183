/**
 What the risk manager answers and what it writes down, told from the request or the
 report, the state and the limits alone.
 */
module RiskOutcome {
  import Text
  import opened Common
  import opened RiskModel

  function Held(s: State, symbol: string): real {
    if symbol in s.positions then s.positions[symbol] else 0.0
  }

  /** The number of breaches is one at which the kill switch engages. */
  predicate Spent(l: Limits, count: int) {
    l.killSwitchEnabled &&
    ((l.maxBreaches > 0 && count >= l.maxBreaches) ||
     (l.breaker.enabled && l.breaker.threshold > 0 && count >= l.breaker.threshold))
  }

  /** Until when a halt called now lasts. */
  function HaltEnd(s: State, now: int): Option<int> {
    if s.limits.breaker.enabled && s.limits.breaker.cooldown > 0 then Some(now + s.limits.breaker.cooldown) else s.cooldownUntil
  }

  // --- The answer to an order ---------------------------------------------------------------

  /** Halted, and not by a breaker whose cooldown is over. */
  predicate StillHalted(s: State, now: int) {
    s.killSwitch && !(s.limits.breaker.enabled && s.cooldownUntil.Some? && s.cooldownUntil.value < now)
  }

  /** The type is on the list, up to letter case and surrounding space, or nothing is. */
  predicate Listed(l: Limits, orderType: string) {
    || (forall i | 0 <= i < |l.allowedOrderTypes| :: Text.Trim(l.allowedOrderTypes[i]) == "")
    || (exists i :: 0 <= i < |l.allowedOrderTypes| && Text.Trim(l.allowedOrderTypes[i]) != "" &&
                    Text.Lower(Text.Trim(l.allowedOrderTypes[i])) == Text.Lower(orderType))
  }

  predicate Known(s: State, symbol: string) {
    symbol in s.marketPrices && s.marketPrices[symbol] > 0.0
  }

  /** The caller's price; without one, and except for limit orders, the market's if there is any. */
  predicate PricedAt(s: State, req: Request, p: real) {
    || req.price == Some(Some(p))
    || (req.price == None && req.orderType != "Limit" && Known(s, req.symbol) && s.marketPrices[req.symbol] == p)
  }

  /** Within the percentage of the reference price, where there is one. */
  predicate InBand(s: State, symbol: string, p: real) {
    s.limits.priceBandPercent > 0.0 && Known(s, symbol) ==>
      var reference := s.marketPrices[symbol];
      var most := reference * s.limits.priceBandPercent / 100.0;
      -most <= p - reference <= most
  }

  /** The position if all of the order is filled. */
  function Projected(s: State, req: Request): real
    requires req.quantity.Some?
  {
    if req.side.Sell? then Held(s, req.symbol) - req.quantity.value else Held(s, req.symbol) + req.quantity.value
  }

  /** What a request must meet, one requirement for each kind of breach. */
  ghost predicate Meets(s: State, req: Request, breach: Breach) {
    match breach
    case OrderTypeBreach => Listed(s.limits, req.orderType)
    case ValidationBreach => req.quantity.Some? && req.quantity.value > 0.0 && exists p :: PricedAt(s, req, p)
    case PriceBandBreach => forall p | PricedAt(s, req, p) :: InBand(s, req.symbol, p)
    case PositionBreach => req.quantity.Some? ==> !Past(Projected(s, req), s.limits.maxPosition)
    case NotionalBreach =>
      req.quantity.Some? ==> forall p | PricedAt(s, req, p) :: !TooDear(Projected(s, req), p, s.limits.maxNotional)
    case ConcurrencyBreach =>
      s.limits.maxConcurrent > 0 && req.symbol in s.inflight ==> s.inflight[req.symbol] < s.limits.maxConcurrent
  }

  function Place(breach: Breach): nat {
    match breach
    case OrderTypeBreach => 0
    case ValidationBreach => 1
    case PriceBandBreach => 2
    case PositionBreach => 3
    case NotionalBreach => 4
    case ConcurrencyBreach => 5
  }

  /** The first requirement that is not met. */
  ghost predicate FirstFailing(s: State, req: Request, breach: Breach) {
    !Meets(s, req, breach) && forall b: Breach | Place(b) < Place(breach) :: Meets(s, req, b)
  }

  lemma PositionHeld(s: State, symbol: string)
    ensures s.Position(symbol) == Held(s, symbol)
  {
  }

  lemma TypeListed(s: State, orderType: string)
    ensures TypeAllowed(s, orderType) <==> Listed(s.limits, orderType)
  {
    hide Text.Trim, Text.Lower;
    var types := s.limits.allowedOrderTypes;
    forall i | 0 <= i < |types| && Text.Trim(types[i]) != ""
      ensures Text.Lower(Text.Trim(types[i])) in s.limits.AllowedTypes()
    {
      assert types[i] in types;
    }
  }

  lemma BandMeaning(percent: real, reference: real, p: real)
    ensures var (upper, lower) := BandEdges(percent, reference);
            var most := reference * percent / 100.0;
            p > upper || p < lower <==> !(-most <= p - reference <= most)
  {
    assert reference * (1.0 + percent / 100.0) == reference + reference * (percent / 100.0);
    assert reference * (1.0 - percent / 100.0) == reference - reference * (percent / 100.0);
    assert reference * (percent / 100.0) == reference * percent / 100.0;
  }

  /** The first price offered for a symbol without a reference becomes its reference. */
  function References(s: State, symbol: string, p: real): map<string, real> {
    if s.limits.priceBandPercent > 0.0 && !Known(s, symbol) then s.marketPrices[symbol := p] else s.marketPrices
  }

  lemma BandResolved(s: State, symbol: string, p: real)
    ensures var (t, r) := PriceBand(s, symbol, p);
            && t == s.(marketPrices := References(s, symbol, p))
            && r == if InBand(s, symbol, p) then Price(p) else Unpriced(PriceBandBreach)
  {
    if Known(s, symbol) {
      BandMeaning(s.limits.priceBandPercent, s.marketPrices[symbol], p);
    }
    hide BandEdges;
    assert s.(marketPrices := s.marketPrices) == s;
  }

  lemma PriceResolved(s: State, req: Request)
    ensures var (t, r) := ResolvePrice(s, req);
            && (r == Unpriced(ValidationBreach) <==> !exists p :: PricedAt(s, req, p))
            && (r == Unpriced(PriceBandBreach) <==> exists p :: PricedAt(s, req, p) && !InBand(s, req.symbol, p))
            && (r.Price? <==> exists p :: PricedAt(s, req, p) && InBand(s, req.symbol, p))
            && (forall p | PricedAt(s, req, p) :: t == s.(marketPrices := References(s, req.symbol, p)) && (r.Price? ==> r == Price(p)))
            && ((forall p :: !PricedAt(s, req, p)) ==> t == s)
  {
    hide PriceBand, InBand;
    match req.price
    case Some(Some(price)) =>
      BandResolved(s, req.symbol, price);
      assert PricedAt(s, req, price);
    case Some(None) =>
    case None =>
      if req.orderType != "Limit" && Known(s, req.symbol) {
        BandResolved(s, req.symbol, s.marketPrices[req.symbol]);
        assert PricedAt(s, req, s.marketPrices[req.symbol]);
      }
  }

  /** There is at most one price. */
  lemma OnePrice(s: State, req: Request, p: real, q: real)
    requires PricedAt(s, req, p) && PricedAt(s, req, q)
    ensures p == q
  {
  }

  lemma ExposureFailing(s: State, req: Request, p: real)
    requires PricedAt(s, req, p) && req.quantity.Some?
    ensures var b := ExposureBreach(s, req, req.quantity.value, p);
            && (b == None <==> Meets(s, req, PositionBreach) && Meets(s, req, NotionalBreach) && Meets(s, req, ConcurrencyBreach))
            && (b == Some(PositionBreach) <==> !Meets(s, req, PositionBreach))
            && (b == Some(NotionalBreach) <==> Meets(s, req, PositionBreach) && !Meets(s, req, NotionalBreach))
            && (b == Some(ConcurrencyBreach) <==>
                  Meets(s, req, PositionBreach) && Meets(s, req, NotionalBreach) && !Meets(s, req, ConcurrencyBreach))
            && (b.Some? ==> b.value in {PositionBreach, NotionalBreach, ConcurrencyBreach})
  {
    PositionHeld(s, req.symbol);
    WorthIsNotional(Projected(s, req), p);
    forall q | PricedAt(s, req, q) ensures q == p {
      OnePrice(s, req, p, q);
    }
    hide Notional, Worth, PricedAt;
  }

  /** The requirements in their order. */
  lemma FirstFailingMeans(s: State, req: Request)
    ensures FirstFailing(s, req, OrderTypeBreach) <==> !Meets(s, req, OrderTypeBreach)
    ensures FirstFailing(s, req, ValidationBreach) <==> Meets(s, req, OrderTypeBreach) && !Meets(s, req, ValidationBreach)
    ensures FirstFailing(s, req, PriceBandBreach) <==>
              Meets(s, req, OrderTypeBreach) && Meets(s, req, ValidationBreach) && !Meets(s, req, PriceBandBreach)
    ensures FirstFailing(s, req, PositionBreach) <==>
              Meets(s, req, OrderTypeBreach) && Meets(s, req, ValidationBreach) && Meets(s, req, PriceBandBreach) &&
              !Meets(s, req, PositionBreach)
    ensures FirstFailing(s, req, NotionalBreach) <==>
              Meets(s, req, OrderTypeBreach) && Meets(s, req, ValidationBreach) && Meets(s, req, PriceBandBreach) &&
              Meets(s, req, PositionBreach) && !Meets(s, req, NotionalBreach)
    ensures FirstFailing(s, req, ConcurrencyBreach) <==>
              Meets(s, req, OrderTypeBreach) && Meets(s, req, ValidationBreach) && Meets(s, req, PriceBandBreach) &&
              Meets(s, req, PositionBreach) && Meets(s, req, NotionalBreach) && !Meets(s, req, ConcurrencyBreach)
  {
    hide Meets;
    assert Place(OrderTypeBreach) == 0 && Place(ValidationBreach) == 1 && Place(PriceBandBreach) == 2 &&
           Place(PositionBreach) == 3 && Place(NotionalBreach) == 4 && Place(ConcurrencyBreach) == 5;
  }

  ghost predicate MeetsAll(s: State, req: Request) {
    forall c :: Meets(s, req, c)
  }

  /** Screening before the exposure is looked at: the type, the quantity and the price. */
  lemma ScreenedEarly(s: State, req: Request)
    ensures var b := Screen(s, req).1; var (_, r) := ResolvePrice(s, req);
            && (!Meets(s, req, OrderTypeBreach) ==> b == Some(OrderTypeBreach))
            && (Meets(s, req, OrderTypeBreach) && !Meets(s, req, ValidationBreach) ==> b == Some(ValidationBreach))
            && (Meets(s, req, OrderTypeBreach) && Meets(s, req, ValidationBreach) && !Meets(s, req, PriceBandBreach) ==>
                  b == Some(PriceBandBreach))
            && (Meets(s, req, OrderTypeBreach) && Meets(s, req, ValidationBreach) && Meets(s, req, PriceBandBreach) ==>
                  && req.quantity.Some? && r.Price? && PricedAt(s, req, r.value)
                  && b == ExposureBreach(ResolvePrice(s, req).0, req, req.quantity.value, r.value))
  {
    TypeListed(s, req.orderType);
    PriceResolved(s, req);
    hide TypeAllowed, Listed, ResolvePrice, ExposureBreach, InBand, PricedAt;
    if p :| PricedAt(s, req, p) {
      forall q | PricedAt(s, req, q) ensures q == p {
        OnePrice(s, req, p, q);
      }
    }
  }

  /** The exposure does not depend on the reference prices. */
  lemma SameExposure(s: State, req: Request, quantity: real, price: real)
    ensures ExposureBreach(ResolvePrice(s, req).0, req, quantity, price) == ExposureBreach(s, req, quantity, price)
  {
    hide ResolvePrice, Notional, Abs, Signed;
  }

  lemma ScreenExactly(s: State, req: Request)
    ensures Screen(s, req).1 == None <==> MeetsAll(s, req)
    ensures forall c :: Screen(s, req).1 == Some(c) <==> FirstFailing(s, req, c)
  {
    hide Screen, ResolvePrice, ExposureBreach, Meets, FirstFailing, PricedAt;
    ScreenedEarly(s, req);
    FirstFailingMeans(s, req);
    var (_, r) := ResolvePrice(s, req);
    if Meets(s, req, OrderTypeBreach) && Meets(s, req, ValidationBreach) && Meets(s, req, PriceBandBreach) {
      SameExposure(s, req, req.quantity.value, r.value);
      ExposureFailing(s, req, r.value);
    }
    AllBreaches(s, req);
    forall c ensures Screen(s, req).1 == Some(c) <==> FirstFailing(s, req, c) {
      match c
      case OrderTypeBreach =>
      case ValidationBreach =>
      case PriceBandBreach =>
      case PositionBreach =>
      case NotionalBreach =>
      case ConcurrencyBreach =>
    }
  }

  lemma AllBreaches(s: State, req: Request)
    ensures MeetsAll(s, req) <==>
              Meets(s, req, OrderTypeBreach) && Meets(s, req, ValidationBreach) && Meets(s, req, PriceBandBreach) &&
              Meets(s, req, PositionBreach) && Meets(s, req, NotionalBreach) && Meets(s, req, ConcurrencyBreach)
  {
    hide Meets;
    forall c | Meets(s, req, OrderTypeBreach) && Meets(s, req, ValidationBreach) && Meets(s, req, PriceBandBreach) &&
               Meets(s, req, PositionBreach) && Meets(s, req, NotionalBreach) && Meets(s, req, ConcurrencyBreach)
      ensures Meets(s, req, c)
    {
      match c
      case OrderTypeBreach =>
      case ValidationBreach =>
      case PriceBandBreach =>
      case PositionBreach =>
      case NotionalBreach =>
      case ConcurrencyBreach =>
    }
  }

  /** The requirements do not depend on whether a halt has just been lifted. */
  lemma LiftedMeets(s: State, now: int, req: Request)
    ensures MeetsAll(LiftExpiredHalt(s, now), req) <==> MeetsAll(s, req)
    ensures forall c :: FirstFailing(LiftExpiredHalt(s, now), req, c) <==> FirstFailing(s, req, c)
  {
    var t := LiftExpiredHalt(s, now);
    forall c ensures Meets(t, req, c) <==> Meets(s, req, c) {
      LiftedMeetsOne(s, now, req, c);
    }
  }

  lemma LiftedMeetsOne(s: State, now: int, req: Request, c: Breach)
    ensures Meets(LiftExpiredHalt(s, now), req, c) <==> Meets(s, req, c)
  {
    var t := LiftExpiredHalt(s, now);
    assert forall p :: PricedAt(t, req, p) <==> PricedAt(s, req, p);
    assert forall p :: InBand(t, req.symbol, p) <==> InBand(s, req.symbol, p);
    hide PricedAt, InBand, Listed, Past, TooDear;
  }

  /**
   Every answer to an order. Once past the rate limiters and a halt it is admitted exactly
   if all requirements are met, and otherwise refused for the first one that is not.
   */
  lemma VerdictExactly(s: State, now: int, throttled: bool, req: Request)
    ensures var v := CheckOrder(s, now, throttled, req).1; var heard := !throttled && !StillHalted(s, now);
            && (v == Throttled <==> throttled)
            && (v.Halted? <==> !throttled && StillHalted(s, now))
            && (v.Halted? ==> (v.breakerOpen <==> s.limits.breaker.enabled && s.cooldownUntil.Some? && now < s.cooldownUntil.value))
            && (v == Admitted <==> heard && forall c :: Meets(s, req, c))
            && (forall c :: v == Refused(c) <==> heard && FirstFailing(s, req, c))
  {
    hide Screen, RecordBreach, Meets, FirstFailing;
    ScreenExactly(LiftExpiredHalt(s, now), req);
    LiftedMeets(s, now, req);
  }

  // --- What an order writes -----------------------------------------------------------------

  predicate HasQuantity(req: Request) {
    req.quantity.Some? && req.quantity.value > 0.0
  }

  lemma ScreenWrites(s: State, req: Request)
    ensures var (t, b, p) := Screen(s, req);
            && t == s.(marketPrices := t.marketPrices)
            && (b.None? ==> HasQuantity(req) && PricedAt(s, req, p))
            && (forall q | PricedAt(s, req, q) ::
                  t.marketPrices == if Listed(s.limits, req.orderType) && HasQuantity(req) then References(s, req.symbol, q) else s.marketPrices)
            && ((forall q :: !PricedAt(s, req, q)) ==> t.marketPrices == s.marketPrices)
  {
    hide TypeAllowed, Listed, ResolvePrice, ExposureBreach, PricedAt, InBand, References;
    TypeListed(s, req.orderType);
    PriceResolved(s, req);
  }

  /** A breach recorded: counted, and a halt with its cooldown if the count is spent. */
  lemma BreachWrites(a: Audited, now: int)
    ensures var s := a.state; var t := RecordBreach(a, now).state; var spent := Spent(s.limits, t.failureCount);
            t == s.(failureCount := s.failureCount + 1, killSwitch := s.killSwitch || spent,
                    cooldownUntil := if spent then HaltEnd(s, now) else s.cooldownUntil)
  {
  }

  /** An admitted order: stored under its id at the price resolved, and one more in flight. */
  predicate Stored(s: State, t: State, req: Request, p: real) {
    && req.quantity.Some?
    && t.orders == s.orders[req.clientOrderId := Order(req.symbol, req.side, req.quantity.value, 0.0, p)]
    && t.inflight == s.inflight[req.symbol := 1 + if req.symbol in s.inflight then s.inflight[req.symbol] else 0]
  }

  /** Everything that a check leaves behind. */
  lemma CheckExactly(s: State, now: int, throttled: bool, req: Request)
    ensures var (a, v) := CheckOrder(s, now, throttled, req); var t := a.state;
            var halts := v.Refused? && Spent(s.limits, t.failureCount);
            && t.limits == s.limits && t.positions == s.positions && t.notionals == s.notionals
            && (v == Admitted ==> exists p :: PricedAt(s, req, p) && Stored(s, t, req, p))
            && (v != Admitted ==> t.orders == s.orders && t.inflight == s.inflight)
            && t.failureCount == s.failureCount + (if v.Refused? then 1 else 0)
            && t.killSwitch == (if throttled then s.killSwitch else StillHalted(s, now) || halts)
            && t.cooldownUntil == (if halts then HaltEnd(s, now) else s.cooldownUntil)
  {
    hide Screen, RecordBreach, PricedAt, Spent;
    var active := LiftExpiredHalt(s, now);
    ScreenWrites(active, req);
    LiftedPrices(s, now, req);
    BreachWrites(Audited(Screen(active, req).0, 0, false), now);
    if CheckOrder(s, now, throttled, req).1 == Admitted {
      var p := Screen(active, req).2;
      assert PricedAt(s, req, p) && Stored(s, CheckOrder(s, now, throttled, req).0.state, req, p);
    }
  }

  lemma LiftedPrices(s: State, now: int, req: Request)
    ensures forall p :: PricedAt(LiftExpiredHalt(s, now), req, p) <==> PricedAt(s, req, p)
    ensures forall p :: References(LiftExpiredHalt(s, now), req.symbol, p) == References(s, req.symbol, p)
  {
  }

  /** A check sets a reference price only where there is none, to the first price that gets as far as the band. */
  lemma CheckReferences(s: State, now: int, throttled: bool, req: Request, p: real)
    requires PricedAt(s, req, p)
    ensures CheckOrder(s, now, throttled, req).0.state.marketPrices ==
              if !throttled && !StillHalted(s, now) && Listed(s.limits, req.orderType) && HasQuantity(req)
              then References(s, req.symbol, p) else s.marketPrices
  {
    hide Screen, RecordBreach, PricedAt, Listed, References;
    var active := LiftExpiredHalt(s, now);
    ScreenWrites(active, req);
    LiftedPrices(s, now, req);
    BreachWrites(Audited(Screen(active, req).0, 0, false), now);
  }

  lemma NoReference(s: State, now: int, throttled: bool, req: Request)
    requires forall p :: !PricedAt(s, req, p)
    ensures CheckOrder(s, now, throttled, req).0.state.marketPrices == s.marketPrices
  {
    hide Screen, RecordBreach, PricedAt, Listed, References;
    var active := LiftExpiredHalt(s, now);
    ScreenWrites(active, req);
    LiftedPrices(s, now, req);
    BreachWrites(Audited(Screen(active, req).0, 0, false), now);
  }

  // --- What a report writes -----------------------------------------------------------------

  /** The part of the cumulative fill that has not been booked; negative fills count as none. */
  function NewFill(s: State, report: Report): real
    requires report.clientOrderId in s.orders && report.filledQuantity.Some?
  {
    (if report.filledQuantity.value < 0.0 then 0.0 else report.filledQuantity.value) - s.orders[report.clientOrderId].filled
  }

  function PositionAfter(s: State, symbol: string, report: Report): real
    requires report.clientOrderId in s.orders && report.filledQuantity.Some?
  {
    if report.side.Sell? then Held(s, symbol) - NewFill(s, report) else Held(s, symbol) + NewFill(s, report)
  }

  /** The average price reported if there is a positive one, and the order's otherwise. */
  predicate ValuedAt(s: State, report: Report, p: real)
    requires report.clientOrderId in s.orders
  {
    if report.avgFillPrice.Some? && report.avgFillPrice.value > 0.0 then p == report.avgFillPrice.value
    else p == s.orders[report.clientOrderId].limitPrice
  }

  predicate Ends(report: Report) {
    report.state in {ExecState.Filled, ExecState.Cancelled, ExecState.Rejected, ExecState.Expired}
  }

  /** A limit overrun by a fill: counted, and a halt with its cooldown. */
  lemma HaltWrites(a: Audited, breached: bool, now: int)
    ensures var s := a.state; var halts := breached && s.limits.killSwitchEnabled;
            HaltIf(a, breached, now).state ==
              s.(failureCount := s.failureCount + (if breached then 1 else 0), killSwitch := s.killSwitch || halts,
                 cooldownUntil := if halts then HaltEnd(s, now) else s.cooldownUntil)
  {
  }

  function OverrunBy(l: Limits, x: real, p: real): nat {
    (if Past(x, l.maxPosition) then 1 else 0) + (if TooDear(x, p, l.maxNotional) then 1 else 0)
  }

  lemma FillWrites(s: State, now: int, symbol: string, side: Side, quantity: real, price: real)
    ensures var x := if side.Sell? then Held(s, symbol) - quantity else Held(s, symbol) + quantity;
            var n := OverrunBy(s.limits, x, price); var halts := n > 0 && s.limits.killSwitchEnabled;
            ApplyFill(s, now, symbol, side, quantity, price).state ==
              s.(positions := s.positions[symbol := x], notionals := s.notionals[symbol := Worth(x, price)],
                 failureCount := s.failureCount + n, killSwitch := s.killSwitch || halts,
                 cooldownUntil := if halts then HaltEnd(s, now) else s.cooldownUntil)
  {
    hide HaltIf, Worth, Notional, TooDear, Past;
    var x := if side.Sell? then Held(s, symbol) - quantity else Held(s, symbol) + quantity;
    var filled := Audited(s.(positions := s.positions[symbol := x], notionals := s.notionals[symbol := Worth(x, price)]), 0, false);
    FillChecked(s, now, symbol, side, quantity, price);
    HaltsWrite(filled, Past(x, s.limits.maxPosition), TooDear(x, price, s.limits.maxNotional), now);
  }

  lemma FillChecked(s: State, now: int, symbol: string, side: Side, quantity: real, price: real)
    ensures var x := if side.Sell? then Held(s, symbol) - quantity else Held(s, symbol) + quantity;
            var filled := Audited(s.(positions := s.positions[symbol := x],
                                     notionals := s.notionals[symbol := Worth(x, price)]), 0, false);
            ApplyFill(s, now, symbol, side, quantity, price) ==
              HaltIf(HaltIf(filled, Past(x, s.limits.maxPosition), now), TooDear(x, price, s.limits.maxNotional), now)
  {
    WorthIsNotional(s.Position(symbol) + Signed(side, quantity), price);
    hide HaltIf, Worth, Notional;
  }

  lemma HaltsWrite(a: Audited, over: bool, dear: bool, now: int)
    ensures var s := a.state; var n := (if over then 1 else 0) + (if dear then 1 else 0);
            var halts := n > 0 && s.limits.killSwitchEnabled;
            HaltIf(HaltIf(a, over, now), dear, now).state ==
              s.(failureCount := s.failureCount + n, killSwitch := s.killSwitch || halts,
                 cooldownUntil := if halts then HaltEnd(s, now) else s.cooldownUntil)
  {
    hide HaltIf;
    HaltWrites(a, over, now);
    HaltWrites(HaltIf(a, over, now), dear, now);
  }

  /** The part of the report that concerns the fill, and the part that ends the order. */
  lemma ReportWrites(s: State, now: int, symbol: string, report: Report)
    requires report.clientOrderId in s.orders && report.filledQuantity.Some?
    ensures var id := report.clientOrderId; var o := s.orders[id];
            var c := if report.filledQuantity.value < 0.0 then 0.0 else report.filledQuantity.value;
            var adds := c > o.filled;
            var b := if adds then ApplyFill(s, now, symbol, report.side, c - o.filled, FillPrice(o, report)).state else s;
            var orders := if adds then s.orders[id := o.(filled := c)] else s.orders;
            var closed := b.(orders := if Ends(report) then s.orders - {id} else orders,
                             inflight := if Ends(report) && o.symbol in s.inflight && s.inflight[o.symbol] > 0
                                         then s.inflight[o.symbol := s.inflight[o.symbol] - 1] else s.inflight);
            HandleExecution(s, now, symbol, report).state ==
              if report.state == ExecState.Rejected && s.limits.killSwitchEnabled
              then RecordBreach(Audited(closed, 0, false), now).state else closed
  {
    hide ApplyFill, Count, FillPrice;
    var o := s.orders[report.clientOrderId];
    var c := if report.filledQuantity.value < 0.0 then 0.0 else report.filledQuantity.value;
    assert s.orders[report.clientOrderId := o.(filled := c)] - {report.clientOrderId} == s.orders - {report.clientOrderId};
  }

  /**
   What a report about a live order does to the books, if p is what its fill is valued at:
   a new fill moves and values the position anew, and an end takes the order and its slot.
   */
  lemma ReportBooks(s: State, now: int, symbol: string, report: Report, p: real)
    requires report.clientOrderId in s.orders && report.filledQuantity.Some? && ValuedAt(s, report, p)
    ensures var t := HandleExecution(s, now, symbol, report).state;
            var id := report.clientOrderId; var o := s.orders[id];
            var adds := NewFill(s, report) > 0.0; var x := PositionAfter(s, symbol, report);
            && t.positions == (if adds then s.positions[symbol := x] else s.positions)
            && t.notionals == (if adds then s.notionals[symbol := Worth(x, p)] else s.notionals)
            && t.orders == (if Ends(report) then s.orders - {id}
                            else if adds then s.orders[id := o.(filled := o.filled + NewFill(s, report))] else s.orders)
            && t.inflight == (if Ends(report) && o.symbol in s.inflight && s.inflight[o.symbol] > 0
                              then s.inflight[o.symbol := s.inflight[o.symbol] - 1] else s.inflight)
            && t.limits == s.limits && t.marketPrices == s.marketPrices
  {
    hide ApplyFill, RecordBreach, HandleExecution, Spent, OverrunBy, Worth, Ends, HaltEnd;
    ReportWrites(s, now, symbol, report);
    var o := s.orders[report.clientOrderId];
    var c := if report.filledQuantity.value < 0.0 then 0.0 else report.filledQuantity.value;
    FillWrites(s, now, symbol, report.side, c - o.filled, p);
    assert FillPrice(o, report) == p;
    assert o.filled + NewFill(s, report) == c;
    var b := if c > o.filled then ApplyFill(s, now, symbol, report.side, c - o.filled, p).state else s;
    var t := HandleExecution(s, now, symbol, report).state;
    BreachWrites(Audited(b.(orders := t.orders, inflight := t.inflight), 0, false), now);
  }

  /** The breaches are the limits a new fill overruns, and a rejection while the kill switch is enabled. */
  lemma ReportAlarm(s: State, now: int, symbol: string, report: Report, p: real)
    requires report.clientOrderId in s.orders && report.filledQuantity.Some? && ValuedAt(s, report, p)
    ensures var t := HandleExecution(s, now, symbol, report).state;
            var overruns := if NewFill(s, report) > 0.0 then OverrunBy(s.limits, PositionAfter(s, symbol, report), p) else 0;
            var rejected := report.state == ExecState.Rejected && s.limits.killSwitchEnabled;
            var halts := (overruns > 0 && s.limits.killSwitchEnabled) || (rejected && Spent(s.limits, t.failureCount));
            && t.failureCount == s.failureCount + overruns + (if rejected then 1 else 0)
            && t.killSwitch == (s.killSwitch || halts)
            && t.cooldownUntil == (if halts then HaltEnd(s, now) else s.cooldownUntil)
  {
    hide ApplyFill, RecordBreach, HandleExecution, Spent, OverrunBy, Worth, Ends;
    ReportWrites(s, now, symbol, report);
    var o := s.orders[report.clientOrderId];
    var c := if report.filledQuantity.value < 0.0 then 0.0 else report.filledQuantity.value;
    FillWrites(s, now, symbol, report.side, c - o.filled, p);
    assert FillPrice(o, report) == p;
    var b := if c > o.filled then ApplyFill(s, now, symbol, report.side, c - o.filled, p).state else s;
    var t := HandleExecution(s, now, symbol, report).state;
    BreachWrites(Audited(b.(orders := t.orders, inflight := t.inflight), 0, false), now);
  }

  /** A report about an order that is not live, or whose quantity does not parse, changes nothing. */
  lemma ReportIgnored(s: State, now: int, symbol: string, report: Report)
    requires report.clientOrderId !in s.orders || report.filledQuantity.None?
    ensures HandleExecution(s, now, symbol, report).state == s
  {
  }

  /** Only positive prices are taken down; a reset clears the count, the halt and the cooldown. */
  lemma OthersExactly(s: State, symbol: string, price: real)
    ensures ObserveMarketPrice(s, symbol, price) ==
              s.(marketPrices := if price > 0.0 then s.marketPrices[symbol := price] else s.marketPrices)
    ensures var t := ResetKillSwitch(s);
            && t.failureCount == 0 && !t.killSwitch && t.cooldownUntil == None
            && s == t.(failureCount := s.failureCount, killSwitch := s.killSwitch, cooldownUntil := s.cooldownUntil)
  {
  }
}
