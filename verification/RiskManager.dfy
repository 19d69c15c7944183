/** The risk manager itself: maps and flags updated in place under one lock. */
module RiskManager {
  import opened Common
  import Text
  import opened M = RiskModel
  import O = RiskOutcome

  /** The trimmed order types, first spelling of each kept. */
  function NormalTypes(types: seq<string>): seq<string> {
    if types == [] then []
    else
      var kept, t := NormalTypes(types[..|types| - 1]), Text.Trim(types[|types| - 1]);
      if t == [] || Text.Lower(t) in Lowered(kept) then kept else kept + [t]
  }

  function Lowered(types: seq<string>): set<string> {
    set t | t in types :: Text.Lower(t)
  }

  function Normalized(l: Limits): Limits {
    l.(allowedOrderTypes := NormalTypes(l.allowedOrderTypes))
  }

  /** Normalising the order types does not change which orders they allow. */
  lemma {:induction false} NormalTypesAllowTheSame(l: Limits)
    ensures Normalized(l).AllowedTypes() == l.AllowedTypes() == Lowered(NormalTypes(l.allowedOrderTypes))
    decreases |l.allowedOrderTypes|
  {
    hide Text.Trim, Text.Lower;
    var types := l.allowedOrderTypes;
    var kept := NormalTypes(types);
    if types != [] {
      var shorter, last := l.(allowedOrderTypes := types[..|types| - 1]), types[|types| - 1];
      NormalTypesAllowTheSame(shorter);
      assert types == types[..|types| - 1] + [last];
      assert l.AllowedTypes() == shorter.AllowedTypes() + if Text.Trim(last) != [] then {Text.Lower(Text.Trim(last))} else {};
      var before := NormalTypes(types[..|types| - 1]);
      assert kept != before ==> Lowered(kept) == Lowered(before) + {Text.Lower(Text.Trim(last))};
    }
    NormalTypesTrimmed(types);
    forall t | t in kept ensures Text.Trim(t) == t != [] {
      Text.TrimmedFixed(t);
    }
    assert Normalized(l).AllowedTypes() == Lowered(kept);
  }

  lemma {:induction false} NormalTypesTrimmed(types: seq<string>)
    ensures forall t | t in NormalTypes(types) :: Text.Trimmed(t) && t != []
    decreases |types|
  {
    if types != [] {
      NormalTypesTrimmed(types[..|types| - 1]);
      Text.TrimTrims(types[|types| - 1]);
    }
  }

  /** t is the first spelling among the types of what it says in lower case. */
  ghost predicate FirstSpelling(types: seq<string>, t: string) {
    exists i :: 0 <= i < |types| && Text.Trim(types[i]) == t &&
                forall j | 0 <= j < i :: Text.Lower(Text.Trim(types[j])) != Text.Lower(t)
  }

  /** What is kept: trimmed, not empty, distinct up to letter case, first spellings, and none of the others lost. */
  ghost predicate Distilled(types: seq<string>, kept: seq<string>) {
    && (forall t | t in kept :: t != [] && Text.Trim(t) == t && FirstSpelling(types, t))
    && (forall i, j | 0 <= i < j < |kept| :: Text.Lower(kept[i]) != Text.Lower(kept[j]))
    && (forall i | 0 <= i < |types| && Text.Trim(types[i]) != [] ::
          exists j :: 0 <= j < |kept| && Text.Lower(kept[j]) == Text.Lower(Text.Trim(types[i])))
  }

  lemma DistillOne(types: seq<string>, kept: seq<string>, last: string)
    requires Distilled(types, kept)
    ensures var t := Text.Trim(last);
            Distilled(types + [last], if t == [] || Text.Lower(t) in Lowered(kept) then kept else kept + [t])
  {
    hide Text.Trim, Text.Lower;
    var more, t := types + [last], Text.Trim(last);
    Text.TrimTrims(last);
    forall k | k in kept ensures FirstSpelling(more, k) {
      var i :| 0 <= i < |types| && Text.Trim(types[i]) == k && forall j | 0 <= j < i :: Text.Lower(Text.Trim(types[j])) != Text.Lower(k);
      assert more[i] == types[i] && forall j | 0 <= j < i :: more[j] == types[j];
    }
    assert forall j | 0 <= j < |types| :: more[j] == types[j];
    assert more[|types|] == last;
    if t != [] && Text.Lower(t) !in Lowered(kept) {
      assert forall j | 0 <= j < |kept| :: kept[j] in kept && Text.Lower(kept[j]) in Lowered(kept);
      assert (kept + [t])[|kept|] == t && forall j | 0 <= j < |kept| :: (kept + [t])[j] == kept[j];
      assert FirstSpelling(more, t);
    }
  }

  /** What is kept stands in the order in which it first occurs. */
  ghost predicate KeptInOrder(types: seq<string>, kept: seq<string>, at: seq<nat>) {
    && |at| == |kept| && (forall k, l | 0 <= k < l < |at| :: at[k] < at[l])
    && forall k | 0 <= k < |at| :: at[k] < |types| && Text.Trim(types[at[k]]) == kept[k]
  }

  method NormalizeAllowedOrderTypes(types: seq<string>) returns (normalized: seq<string>)
    ensures normalized == NormalTypes(types)
    ensures Distilled(types, normalized) && exists at :: KeptInOrder(types, normalized, at)
  {
    hide Distilled;
    normalized := [];
    var seen: set<string> := {};
    ghost var at: seq<nat> := [];
    DistilledNone();
    for i := 0 to |types|
      invariant KeptInOrder(types, normalized, at) && forall k | 0 <= k < |at| :: at[k] < i
      invariant normalized == NormalTypes(types[..i]) && seen == Lowered(normalized)
      invariant Distilled(types[..i], normalized)
    {
      assert types[..i + 1] == types[..i] + [types[i]];
      DistillOne(types[..i], normalized, types[i]);
      assert types[..i + 1][..i] == types[..i];
      var trimmed := Text.Trim(types[i]);
      if trimmed != [] && Text.Lower(trimmed) !in seen {
        seen := seen + {Text.Lower(trimmed)};
        normalized := normalized + [trimmed];
        at := at + [i];
      }
    }
    assert types[..|types|] == types;
  }

  lemma DistilledNone()
    ensures Distilled([], [])
  {
  }

  class Manager {
    var limits: Limits
    var allowedTypes: set<string>
    var positions: map<string, real>
    var notionals: map<string, real>
    var marketPrices: map<string, real>
    var orders: map<string, Order>
    var inflight: map<string, int>
    var failureCount: int
    var killSwitch: bool
    var cooldownUntil: Option<int>

    ghost predicate Valid()
      reads this
    {
      allowedTypes == limits.AllowedTypes()
    }

    ghost function Model(): State
      reads this
    {
      State(limits, positions, notionals, marketPrices, orders, inflight, failureCount, killSwitch, cooldownUntil)
    }

    constructor (l: Limits)
      ensures Valid() && Model() == Init(Normalized(l))
    {
      var types := NormalizeAllowedOrderTypes(l.allowedOrderTypes);
      limits := l.(allowedOrderTypes := types);
      positions, notionals, marketPrices, orders, inflight := map[], map[], map[], map[], map[];
      failureCount, killSwitch, cooldownUntil := 0, false, None;
      allowedTypes := {};
      new;
      assert limits == Normalized(l);
      CollectAllowedTypes();
    }

    /** Fills the lookup set from the normalised order types. */
    method CollectAllowedTypes()
      requires exists l :: limits == Normalized(l)
      modifies this`allowedTypes
      ensures Valid()
    {
      allowedTypes := {};
      var types := limits.allowedOrderTypes;
      for i := 0 to |types|
        invariant allowedTypes == Lowered(types[..i])
      {
        allowedTypes := allowedTypes + {Text.Lower(types[i])};
        assert types[..i + 1] == types[..i] + [types[i]];
      }
      assert types[..|types|] == types;
      ghost var l :| limits == Normalized(l);
      NormalTypesAllowTheSame(l);
    }

    method UpdateLimits(l: Limits)
      modifies this
      ensures Valid() && Model() == old(Model()).(limits := Normalized(l))
    {
      var types := NormalizeAllowedOrderTypes(l.allowedOrderTypes);
      limits := l.(allowedOrderTypes := types);
      assert limits == Normalized(l);
      CollectAllowedTypes();
    }

    method CheckOrder(now: int, throttled: bool, req: Request) returns (verdict: Verdict)
      requires Valid()
      modifies this
      ensures Valid()
      ensures Model() == M.CheckOrder(old(Model()), now, throttled, req).0.state
      ensures verdict == M.CheckOrder(old(Model()), now, throttled, req).1
      ensures var heard := !throttled && !O.StillHalted(old(Model()), now);
              && (verdict == Admitted <==> heard && forall c :: O.Meets(old(Model()), req, c))
              && (forall c :: verdict == Refused(c) <==> heard && O.FirstFailing(old(Model()), req, c))
    {
      hide Count, M.Screen, HaltVerdict, LiftExpiredHalt, O.Meets, O.FirstFailing, O.StillHalted;
      O.VerdictExactly(Model(), now, throttled, req);
      if throttled {
        return Throttled;
      }
      var halt := EnsureTradingActive(now);
      if halt.Some? {
        return halt.value;
      }
      var breach, price := Screen(req);
      if breach.Some? {
        RecordRiskBreach(now);
        return Refused(breach.value);
      }
      inflight := inflight[req.symbol := At(inflight, req.symbol, 0) + 1];
      orders := orders[req.clientOrderId := Order(req.symbol, req.side, req.quantity.value, 0.0, price)];
      return Admitted;
    }

    /** The checks between the halt and the admission, in the order they are made. */
    method Screen(req: Request) returns (breach: Option<Breach>, price: real)
      requires Valid()
      modifies this`marketPrices
      ensures Valid() && (Model(), breach, price) == M.Screen(old(Model()), req)
      ensures breach.None? ==> req.quantity.Some?
    {
      hide ResolvePrice, Notional, Signed, Abs;
      price := 0.0;
      if |allowedTypes| != 0 && Text.Lower(req.orderType) !in allowedTypes {
        return Some(OrderTypeBreach), 0.0;
      }
      if req.quantity.None? || req.quantity.value <= 0.0 {
        return Some(ValidationBreach), 0.0;
      }
      var priced := ResolveOrderPrice(req);
      if priced.Unpriced? {
        return Some(priced.breach), 0.0;
      }
      price := priced.value;
      var projected := At(positions, req.symbol, 0.0) + Signed(req.side, req.quantity.value);
      if limits.maxPosition > 0.0 && Abs(projected) > limits.maxPosition {
        return Some(PositionBreach), price;
      }
      if limits.maxNotional > 0.0 && Notional(projected, price) > limits.maxNotional {
        return Some(NotionalBreach), price;
      }
      if limits.maxConcurrent > 0 && At(inflight, req.symbol, 0) >= limits.maxConcurrent {
        return Some(ConcurrencyBreach), price;
      }
      return None, price;
    }

    method ObserveMarketPrice(symbol: string, price: real)
      requires Valid()
      modifies this
      ensures Valid() && Model() == M.ObserveMarketPrice(old(Model()), symbol, price)
    {
      if price <= 0.0 {
        return;
      }
      marketPrices := marketPrices[symbol := price];
    }

    method HandleExecution(now: int, symbol: string, report: Report)
      requires Valid()
      modifies this
      ensures Valid() && Model() == M.HandleExecution(old(Model()), now, symbol, report).state
    {
      hide Count, M.ApplyFill, Signed, FillPrice;
      var id := report.clientOrderId;
      if id !in orders || report.filledQuantity.None? {
        return;
      }
      var order := orders[id];
      var cumulative := report.filledQuantity.value;
      if cumulative < 0.0 {
        cumulative := 0.0;
      }
      var delta := cumulative - order.filled;
      if delta > 0.0 {
        ApplyFill(now, symbol, report.side, delta, FillPrice(order, report));
        orders := orders[id := order.(filled := cumulative)];
      }
      if Terminal(report.state) {
        ReleaseOrder(order.symbol);
        orders := orders - {id};
      }
      if report.state.Rejected? && limits.killSwitchEnabled {
        RecordRiskBreach(now);
      }
    }

    method ResetKillSwitch()
      requires Valid()
      modifies this
      ensures Valid() && Model() == M.ResetKillSwitch(old(Model()))
    {
      killSwitch := false;
      failureCount := 0;
      cooldownUntil := None;
    }

    method EnsureTradingActive(now: int) returns (halt: Option<Verdict>)
      requires Valid()
      modifies this`killSwitch
      ensures Model() == LiftExpiredHalt(old(Model()), now)
      ensures halt == if killSwitch then Some(HaltVerdict(Model(), now)) else None
    {
      if killSwitch {
        if limits.breaker.enabled && cooldownUntil.Some? && now > cooldownUntil.value {
          killSwitch := false;
        }
      }
      if killSwitch {
        return Some(Halted(limits.breaker.enabled && cooldownUntil.Some? && now < cooldownUntil.value));
      }
      return None;
    }

    method ResolveOrderPrice(req: Request) returns (priced: Priced)
      modifies this`marketPrices
      ensures (Model(), priced) == ResolvePrice(old(Model()), req)
    {
      if req.orderType == "Limit" && req.price.None? {
        return Unpriced(ValidationBreach);
      }
      if req.price.Some? {
        if req.price.value.None? {
          return Unpriced(ValidationBreach);
        }
        priced := ValidatePriceBand(req.symbol, req.price.value.value);
        return;
      }
      if req.symbol !in marketPrices || marketPrices[req.symbol] <= 0.0 {
        return Unpriced(ValidationBreach);
      }
      priced := ValidatePriceBand(req.symbol, marketPrices[req.symbol]);
    }

    method ValidatePriceBand(symbol: string, price: real) returns (priced: Priced)
      modifies this`marketPrices
      ensures (Model(), priced) == PriceBand(old(Model()), symbol, price)
    {
      if limits.priceBandPercent <= 0.0 {
        return Price(price);
      }
      if symbol !in marketPrices || marketPrices[symbol] <= 0.0 {
        marketPrices := marketPrices[symbol := price];
        return Price(price);
      }
      var (upper, lower) := BandEdges(limits.priceBandPercent, marketPrices[symbol]);
      if price > upper || price < lower {
        return Unpriced(PriceBandBreach);
      }
      return Price(price);
    }

    method ReleaseOrder(symbol: string)
      modifies this`inflight
      ensures Model() == Release(old(Model()), symbol)
    {
      var current := At(inflight, symbol, 0);
      if current > 0 {
        inflight := inflight[symbol := current - 1];
      }
    }

    method ApplyFill(now: int, symbol: string, side: Side, quantity: real, price: real)
      modifies this`positions, this`notionals, this`failureCount, this`killSwitch, this`cooldownUntil
      ensures quantity <= 0.0 ==> Model() == old(Model())
      ensures quantity > 0.0 ==> Model() == M.ApplyFill(old(Model()), now, symbol, side, quantity, price).state
    {
      hide Count, Halt, Notional, Signed, Abs;
      if quantity <= 0.0 {
        return;
      }
      var position := At(positions, symbol, 0.0) + Signed(side, quantity);
      positions := positions[symbol := position];
      var notional := Notional(position, price);
      notionals := notionals[symbol := notional];
      if limits.maxPosition > 0.0 && Abs(position) > limits.maxPosition {
        RecordRiskBreach(now);
        EngageKillSwitch(now);
      }
      if limits.maxNotional > 0.0 && notional > limits.maxNotional {
        RecordRiskBreach(now);
        EngageKillSwitch(now);
      }
    }

    method RecordRiskBreach(now: int)
      modifies this`failureCount, this`killSwitch, this`cooldownUntil
      ensures Model() == Count(old(Model()), now)
    {
      failureCount := failureCount + 1;
      if limits.killSwitchEnabled && limits.maxBreaches > 0 && failureCount >= limits.maxBreaches {
        EngageKillSwitch(now);
      }
      if limits.breaker.enabled && limits.breaker.threshold > 0 && failureCount >= limits.breaker.threshold {
        EngageKillSwitch(now);
      }
    }

    method EngageKillSwitch(now: int)
      modifies this`killSwitch, this`cooldownUntil
      ensures Model() == Halt(old(Model()), now)
    {
      if !limits.killSwitchEnabled {
        return;
      }
      killSwitch := true;
      if limits.breaker.enabled {
        if limits.breaker.cooldown > 0 {
          cooldownUntil := Some(now + limits.breaker.cooldown);
        }
      }
    }
  }
}
