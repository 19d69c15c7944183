/**
 Runs that take a position as far as it can go: the bound of RiskPosition is
 attained under every limits, and lost under exactly those that reopen trading.
 */
module RiskOvershoot {
  import opened Common
  import Text
  import opened MapSums
  import opened RiskModel
  import opened RiskPosition

  predicate Timed(e: Event) {
    e.Check? || e.Execution?
  }

  /** The clock readings of a run never go back. */
  ghost predicate Clocked(es: seq<Event>) {
    forall i, j | 0 <= i < j < |es| && Timed(es[i]) && Timed(es[j]) :: es[i].now <= es[j].now
  }

  /** Honest, unattended and with an ordered clock. */
  ghost predicate Valid(l: Limits, es: seq<Event>) {
    HonestRun(Init(l), es) && Unattended(es) && Clocked(es)
  }

  // --- A batch of equal orders, admitted together and then filled ------------------

  datatype Batch = Batch(symbol: string, tag: char, side: Side, quantity: real, price: real, orderType: string, now: int)
  {
    function Id(i: nat): string {
      seq(i + 1, _ => tag)
    }

    function Placed(): Order {
      Order(symbol, side, quantity, 0.0, price)
    }

    /** The live orders once n of the batch are in. */
    function Orders(n: nat): map<string, Order> {
      if n == 0 then map[] else Orders(n - 1)[Id(n - 1) := Placed()]
    }

    function CheckOf(i: nat): Event {
      Check(now, false, Request(Id(i), symbol, side, orderType, Some(Some(price)), Some(quantity)))
    }

    function FillOf(i: nat): Event {
      Execution(now, symbol, Report(Id(i), side, Filled, Some(quantity), None))
    }

    function Checks(n: nat): seq<Event> {
      if n == 0 then [] else Checks(n - 1) + [CheckOf(n - 1)]
    }

    function Fills(n: nat): seq<Event> {
      if n == 0 then [] else [FillOf(n - 1)] + Fills(n - 1)
    }
  }

  /** n orders of the batch are live and nothing else is. */
  ghost predicate Holds(s: State, b: Batch, n: nat) {
    && s.orders == b.Orders(n) && s.Inflight(b.symbol) == n
    && (At(s.marketPrices, b.symbol, 0.0) <= 0.0 || At(s.marketPrices, b.symbol, 0.0) == b.price)
  }

  /** One more order of the symbol is within the concurrency limit, if there is one. */
  predicate Room(l: Limits, n: int) {
    l.maxConcurrent > 0 ==> n < l.maxConcurrent
  }

  /** A positive price at which a position within the maximum is within the notional limit. */
  predicate Priced(l: Limits, price: real) {
    price > 0.0 && (l.maxNotional > 0.0 ==> Notional(l.maxPosition, price) <= l.maxNotional)
  }

  function SomePrice(l: Limits): real {
    if l.maxNotional > 0.0 && l.maxPosition > 0.0 then l.maxNotional / l.maxPosition else 1.0
  }

  lemma SomePriceFits(l: Limits)
    requires l.maxPosition > 0.0
    ensures Priced(l, SomePrice(l))
  {
    if l.maxNotional > 0.0 {
      assert l.maxPosition * (l.maxNotional / l.maxPosition) == l.maxNotional;
    }
  }

  lemma NotionalWithin(l: Limits, position: real, price: real)
    requires Priced(l, price) && Abs(position) <= l.maxPosition && l.maxNotional > 0.0
    ensures Notional(position, price) <= l.maxNotional
  {
    assert Abs(position) * price <= l.maxPosition * price;
  }

  lemma BandHolds(percent: real, price: real)
    requires percent > 0.0 && price > 0.0
    ensures BandEdges(percent, price).1 <= price <= BandEdges(percent, price).0
  {
    assert price * (1.0 + percent / 100.0) == price + price * (percent / 100.0);
    assert price * (1.0 - percent / 100.0) == price - price * (percent / 100.0);
    assert price * (percent / 100.0) >= 0.0;
  }

  /** The next check of the batch passes every limit. */
  ghost predicate Fits(s: State, b: Batch) {
    && b.quantity > 0.0 && s.limits.maxPosition > 0.0
    && TypeAllowed(s, b.orderType)
    && Abs(s.Position(b.symbol) + Signed(b.side, b.quantity)) <= s.limits.maxPosition
    && Priced(s.limits, b.price)
  }

  lemma {:induction false} IdFresh(b: Batch, n: nat, i: nat)
    requires i >= n
    ensures b.Id(i) !in b.Orders(n)
  {
    if n > 0 {
      IdFresh(b, n - 1, i);
      assert |b.Id(i)| != |b.Id(n - 1)|;
    }
  }

  /** The price check lets the price of the batch pass, and may make it the reference. */
  lemma PricePasses(s: State, b: Batch)
    requires b.price > 0.0
    requires At(s.marketPrices, b.symbol, 0.0) <= 0.0 || At(s.marketPrices, b.symbol, 0.0) == b.price
    ensures var (t, priced) := PriceBand(s, b.symbol, b.price);
            && priced == Price(b.price)
            && t == s.(marketPrices := t.marketPrices)
            && (At(t.marketPrices, b.symbol, 0.0) <= 0.0 || At(t.marketPrices, b.symbol, 0.0) == b.price)
  {
    hide BandEdges;
    if s.limits.priceBandPercent > 0.0 {
      BandHolds(s.limits.priceBandPercent, b.price);
    }
  }

  lemma ScreenPasses(s: State, b: Batch, n: nat)
    requires Holds(s, b, n) && Fits(s, b) && Room(s.limits, n)
    ensures Screen(s, b.CheckOf(n).req) == (PriceBand(s, b.symbol, b.price).0, None, b.price)
    ensures var t := PriceBand(s, b.symbol, b.price).0;
            && t == s.(marketPrices := t.marketPrices)
            && (At(t.marketPrices, b.symbol, 0.0) <= 0.0 || At(t.marketPrices, b.symbol, 0.0) == b.price)
  {
    hide PriceBand, Notional, Priced, TypeAllowed;
    PositivePrice(s.limits, b.price);
    PricePasses(s, b);
    if s.limits.maxNotional > 0.0 {
      NotionalWithin(s.limits, s.Position(b.symbol) + Signed(b.side, b.quantity), b.price);
    }
  }

  lemma OneCheck(s: State, b: Batch, n: nat)
    requires Holds(s, b, n) && Fits(s, b) && Room(s.limits, n)
    requires !LiftExpiredHalt(s, b.now).killSwitch
    ensures var t := Next(s, b.CheckOf(n));
            && Honest(s, b.CheckOf(n)) && Holds(t, b, n + 1) && t.limits == s.limits
            && t.positions == s.positions && !t.killSwitch && t.cooldownUntil == s.cooldownUntil
  {
    IdFresh(b, n, n);
    var active := LiftExpiredHalt(s, b.now);
    assert TypeAllowed(active, b.orderType);
    hide PriceBand, Notional, Priced, TypeAllowed, RecordBreach, Screen;
    ScreenPasses(active, b, n);
    assert Next(s, b.CheckOf(n)) == Admit(PriceBand(active, b.symbol, b.price).0, b.CheckOf(n).req, b.quantity, b.price);
    assert b.Orders(n + 1) == b.Orders(n)[b.Id(n) := b.Placed()];
  }

  lemma PositivePrice(l: Limits, price: real)
    requires Priced(l, price)
    ensures price > 0.0
  {
  }

  lemma {:induction false} AllChecks(s: State, b: Batch, n: nat)
    requires Holds(s, b, 0) && Fits(s, b) && Room(s.limits, n - 1)
    requires !LiftExpiredHalt(s, b.now).killSwitch
    ensures var t := Run(s, b.Checks(n));
            && HonestRun(s, b.Checks(n)) && Holds(t, b, n) && t.limits == s.limits && t.positions == s.positions
            && t.cooldownUntil == s.cooldownUntil && (n > 0 ==> !t.killSwitch) && (n == 0 ==> t == s)
  {
    hide Step;
    if n > 0 {
      AllChecks(s, b, n - 1);
      var t := Run(s, b.Checks(n - 1));
      OneCheck(t, b, n - 1);
      RunAppend(s, b.Checks(n - 1), [b.CheckOf(n - 1)]);
      HonestAppend(s, b.Checks(n - 1), [b.CheckOf(n - 1)]);
      assert Run(t, [b.CheckOf(n - 1)]) == Next(t, b.CheckOf(n - 1));
    }
  }

  lemma {:induction false} HonestAppend(s: State, es: seq<Event>, fs: seq<Event>)
    requires HonestRun(s, es) && HonestRun(Run(s, es), fs)
    ensures HonestRun(s, es + fs)
    decreases |es|
  {
    if es == [] {
      assert es + fs == fs;
    } else {
      assert (es + fs)[0] == es[0] && (es + fs)[1..] == es[1..] + fs;
      HonestAppend(Next(s, es[0]), es[1..], fs);
    }
  }

  /** Any halt in force was called at this time and lifts after the cooldown. */
  predicate Liftable(s: State, now: int) {
    s.killSwitch ==> s.limits.Reopens() && s.cooldownUntil == Some(now + s.limits.breaker.cooldown)
  }

  lemma OneFill(s: State, b: Batch, n: nat)
    requires Holds(s, b, n + 1) && b.quantity > 0.0
    ensures var t := Next(s, b.FillOf(n));
            && Honest(s, b.FillOf(n)) && Holds(t, b, n) && t.limits == s.limits
            && t.Position(b.symbol) == s.Position(b.symbol) + Signed(b.side, b.quantity)
  {
    hide HandleExecution;
    IdFresh(b, n, n);
    assert b.Orders(n + 1) - {b.Id(n)} == b.Orders(n);
    ExecutionEffect(s, b.FillOf(n));
    FillKeepsPrices(s, b.now, b.symbol, b.FillOf(n).report);
  }

  lemma FillKeepsPrices(s: State, now: int, symbol: string, report: Report)
    ensures HandleExecution(s, now, symbol, report).state.marketPrices == s.marketPrices
  {
  }

  lemma FillWithinLimits(s: State, b: Batch, n: nat)
    requires Holds(s, b, n + 1) && b.quantity > 0.0 && Priced(s.limits, b.price)
    ensures var t := Next(s, b.FillOf(n)); Abs(t.Position(b.symbol)) <= s.limits.maxPosition ==> SameAlarm(s, t)
  {
    hide RecordBreach, Notional, Priced, Halt, Count;
    var position := s.Position(b.symbol) + Signed(b.side, b.quantity);
    if s.limits.maxNotional > 0.0 && Abs(position) <= s.limits.maxPosition {
      NotionalWithin(s.limits, position, b.price);
    }
    IdFresh(b, n, n);
  }

  /** A fill halts only if it goes over a limit, and then liftably if at all. */
  lemma OneFillAlarm(s: State, b: Batch, n: nat)
    requires Holds(s, b, n + 1) && b.quantity > 0.0 && Priced(s.limits, b.price)
    ensures var t := Next(s, b.FillOf(n));
            && (Liftable(s, b.now) && (!s.limits.killSwitchEnabled || s.limits.Reopens()) ==> Liftable(t, b.now))
            && (Abs(t.Position(b.symbol)) <= s.limits.maxPosition ==> SameAlarm(s, t))
  {
    hide HandleExecution, Priced, Holds;
    FillWithinLimits(s, b, n);
    ExecutionRecorded(s, b.now, b.symbol, b.FillOf(n).report);
  }

  lemma {:induction false} AllFills(s: State, b: Batch, n: nat)
    requires Holds(s, b, n) && b.quantity > 0.0 && Priced(s.limits, b.price)
    ensures var t := Run(s, b.Fills(n));
            && HonestRun(s, b.Fills(n)) && Holds(t, b, 0) && t.limits == s.limits
            && t.Position(b.symbol) == s.Position(b.symbol) + Times(n, Signed(b.side, b.quantity))
            && (Liftable(s, b.now) && (!s.limits.killSwitchEnabled || s.limits.Reopens()) ==> Liftable(t, b.now))
            && (n == 1 && Abs(t.Position(b.symbol)) <= s.limits.maxPosition ==> SameAlarm(s, t))
    decreases n
  {
    hide Step;
    if n > 0 {
      OneFill(s, b, n - 1);
      OneFillAlarm(s, b, n - 1);
      var t := Next(s, b.FillOf(n - 1));
      AllFills(t, b, n - 1);
      assert b.Fills(n)[0] == b.FillOf(n - 1) && b.Fills(n)[1..] == b.Fills(n - 1);
    }
  }

  /** A whole batch moves the position by n times its quantity. */
  lemma OneBatch(s: State, b: Batch, n: nat)
    requires Holds(s, b, 0) && Fits(s, b) && n >= 1 && Room(s.limits, n - 1)
    requires !LiftExpiredHalt(s, b.now).killSwitch
    ensures var es := b.Checks(n) + b.Fills(n); var t := Run(s, es);
            && HonestRun(s, es) && Holds(t, b, 0) && t.limits == s.limits
            && t.Position(b.symbol) == s.Position(b.symbol) + Times(n, Signed(b.side, b.quantity))
            && (!s.limits.killSwitchEnabled || s.limits.Reopens() ==> Liftable(t, b.now))
            && (n == 1 ==> !t.killSwitch)
  {
    hide Step;
    AllChecks(s, b, n);
    AllFills(Run(s, b.Checks(n)), b, n);
    RunAppend(s, b.Checks(n), b.Fills(n));
    HonestAppend(s, b.Checks(n), b.Fills(n));
  }

  lemma {:induction false} BatchEvents(b: Batch, n: nat)
    ensures forall e | e in b.Checks(n) + b.Fills(n) :: Timed(e) && e.now == b.now
  {
    if n > 0 {
      BatchEvents(b, n - 1);
    }
  }

  // --- The two extreme runs ------------------------------------------------------------

  /** A name that passes the order type check. */
  ghost function SomeType(l: Limits): (t: string)
    ensures TypeAllowed(Init(l), t)
  {
    if l.AllowedTypes() == {} then "Limit"
    else
      var raw :| raw in l.allowedOrderTypes && Text.Trim(raw) != [];
      Text.Trim(raw)
  }

  ghost function Dip(l: Limits, symbol: string): Batch {
    Batch(symbol, 'd', Sell, l.maxPosition, SomePrice(l), SomeType(l), 0)
  }

  ghost function Climb(l: Limits, symbol: string): Batch {
    Batch(symbol, 'c', Buy, 2.0 * l.maxPosition, SomePrice(l), SomeType(l), 0)
  }

  ghost function Twice(k: int, m: real): real {
    (2 * k) as real * m
  }

  ghost function Drop(l: Limits, symbol: string): Batch {
    Batch(symbol, 's', Sell, Twice(l.maxConcurrent, l.maxPosition), SomePrice(l), SomeType(l),
          if l.breaker.cooldown > 0 then l.breaker.cooldown + 1 else 1)
  }

  /** Sell down to the minimum, then buy twice the maximum with k orders. */
  ghost function UpBy(l: Limits, symbol: string, k: nat): seq<Event> {
    (Dip(l, symbol).Checks(1) + Dip(l, symbol).Fills(1)) + (Climb(l, symbol).Checks(k) + Climb(l, symbol).Fills(k))
  }

  /** With every order slot. */
  ghost function UpRun(l: Limits, symbol: string): seq<Event>
    requires l.maxConcurrent >= 1
  {
    UpBy(l, symbol, l.maxConcurrent)
  }

  /** Then wait out the cooldown and sell through the other side. */
  ghost function DownRun(l: Limits, symbol: string): seq<Event>
    requires l.maxConcurrent >= 1
  {
    UpRun(l, symbol) + (Drop(l, symbol).Checks(l.maxConcurrent) + Drop(l, symbol).Fills(l.maxConcurrent))
  }

  lemma UpByReaches(l: Limits, symbol: string, k: nat)
    requires l.maxPosition > 0.0 && k >= 1 && Room(l, k - 1)
    ensures var t := Run(Init(l), UpBy(l, symbol, k));
            && HonestRun(Init(l), UpBy(l, symbol, k)) && t.limits == l
            && t.Position(symbol) == (2 * k - 1) as real * l.maxPosition
            && (forall b: Batch | b.symbol == symbol && b.price == SomePrice(l) :: Holds(t, b, 0))
            && (!l.killSwitchEnabled || l.Reopens() ==> Liftable(t, 0))
  {
    hide Step;
    var d, c, m := Dip(l, symbol), Climb(l, symbol), l.maxPosition;
    SomePriceFits(l);
    OneBatch(Init(l), d, 1);
    var low := Run(Init(l), d.Checks(1) + d.Fills(1));
    assert low.Position(symbol) == -m;
    OneBatch(low, c, k);
    RunAppend(Init(l), d.Checks(1) + d.Fills(1), c.Checks(k) + c.Fills(k));
    HonestAppend(Init(l), d.Checks(1) + d.Fills(1), c.Checks(k) + c.Fills(k));
    TimesIsProduct(k, 2.0 * m);
    assert -m + k as real * (2.0 * m) == (2 * k - 1) as real * m by {
      assert (2 * k - 1) as real == 2.0 * k as real - 1.0;
    }
  }

  lemma UpByValid(l: Limits, symbol: string, k: nat)
    requires l.maxPosition > 0.0 && k >= 1 && Room(l, k - 1)
    ensures Valid(l, UpBy(l, symbol, k))
  {
    hide Step;
    UpByReaches(l, symbol, k);
    BatchEvents(Dip(l, symbol), 1);
    BatchEvents(Climb(l, symbol), k);
    assert forall e | e in UpBy(l, symbol, k) :: Timed(e) && e.now == 0;
  }

  /** Every limits let a run end exactly at the bound. */
  lemma BoundAttained(l: Limits, symbol: string) returns (es: seq<Event>)
    requires l.maxPosition > 0.0 && l.maxConcurrent >= 1
    ensures Valid(l, es)
    ensures Run(Init(l), es).Position(symbol) == (2 * l.maxConcurrent - 1) as real * l.maxPosition
  {
    es := UpRun(l, symbol);
    UpByReaches(l, symbol, l.maxConcurrent);
    UpByValid(l, symbol, l.maxConcurrent);
  }

  /** Where K sells of 2K times the maximum land, coming from the bound. */
  ghost function Floor(k: nat, m: real): real {
    (2 * k - 1) as real * m + Times(k, Signed(Sell, Twice(k, m)))
  }

  lemma Landing(k: int, m: real)
    requires k >= 1 && m > 0.0
    ensures (2 * k - 1) as real * m - Twice(k, m) == -m && Twice(k, m) > 0.0
  {
    assert (2 * k - 1) as real == (2 * k) as real - 1.0;
  }

  lemma DropFits(l: Limits, symbol: string, high: State)
    requires l.maxPosition > 0.0 && l.maxConcurrent >= 2 && !HaltsForGood(l)
    requires high.limits == l && high.Position(symbol) == (2 * l.maxConcurrent - 1) as real * l.maxPosition
    requires !l.killSwitchEnabled || l.Reopens() ==> Liftable(high, 0)
    ensures Fits(high, Drop(l, symbol)) && !LiftExpiredHalt(high, Drop(l, symbol).now).killSwitch
  {
    Landing(l.maxConcurrent, l.maxPosition);
    SomePriceFits(l);
    assert TypeAllowed(Init(l), SomeType(l));
  }

  lemma DownRunReaches(l: Limits, symbol: string)
    requires l.maxPosition > 0.0 && l.maxConcurrent >= 2 && !HaltsForGood(l)
    ensures HonestRun(Init(l), DownRun(l, symbol))
    ensures Run(Init(l), DownRun(l, symbol)).Position(symbol) == Floor(l.maxConcurrent, l.maxPosition)
  {
    hide Step;
    var b, k := Drop(l, symbol), l.maxConcurrent;
    UpByReaches(l, symbol, l.maxConcurrent);
    var high := Run(Init(l), UpRun(l, symbol));
    DropFits(l, symbol, high);
    OneBatch(high, b, k);
    RunAppend(Init(l), UpRun(l, symbol), b.Checks(k) + b.Fills(k));
    HonestAppend(Init(l), UpRun(l, symbol), b.Checks(k) + b.Fills(k));
  }

  lemma Overflow(k: int, m: real)
    requires k >= 2 && m > 0.0
    ensures Floor(k, m) < -((2 * k - 1) as real * m)
  {
    var y := Twice(k, m);
    Landing(k, m);
    TimesIsProduct(k, -y);
    assert k as real * -y == -2.0 * y - (k - 2) as real * y;
    assert (k - 2) as real * y >= 0.0;
  }

  lemma DownRunValid(l: Limits, symbol: string)
    requires l.maxPosition > 0.0 && l.maxConcurrent >= 2 && !HaltsForGood(l)
    ensures Valid(l, DownRun(l, symbol))
  {
    hide Step;
    DownRunReaches(l, symbol);
    var b, k := Drop(l, symbol), l.maxConcurrent;
    BatchEvents(b, k);
    BatchEvents(Dip(l, symbol), 1);
    BatchEvents(Climb(l, symbol), k);
    var up, down := UpRun(l, symbol), b.Checks(k) + b.Fills(k);
    assert forall e | e in up :: Timed(e) && e.now == 0;
    assert forall i | 0 <= i < |up| + |down| ::
        (up + down)[i] == if i < |up| then up[i] else down[i - |up|];
  }

  /** The bound holds in every valid run. */
  ghost predicate Bounded(l: Limits) {
    forall es: seq<Event>, symbol: string {:trigger Run(Init(l), es).Position(symbol)} |
      Valid(l, es) :: Abs(Run(Init(l), es).Position(symbol)) <= (2 * l.maxConcurrent - 1) as real * l.maxPosition
  }

  /**
   Exactly which limits keep every run within the bound: those with one order
   at a time, and those whose kill switch is on and never reopens by itself.
   */
  lemma BoundExact(l: Limits)
    requires l.maxPosition > 0.0 && l.maxConcurrent >= 1
    ensures Bounded(l) <==> l.maxConcurrent == 1 || HaltsForGood(l)
  {
    hide Step;
    if l.maxConcurrent == 1 || HaltsForGood(l) {
      forall es: seq<Event>, symbol: string | Valid(l, es)
        ensures Abs(Run(Init(l), es).Position(symbol)) <= (2 * l.maxConcurrent - 1) as real * l.maxPosition
      {
        PositionBound(l, es, symbol);
      }
    } else {
      DownRunReaches(l, "");
      DownRunValid(l, "");
      Overflow(l.maxConcurrent, l.maxPosition);
      assert !(Abs(Run(Init(l), DownRun(l, "")).Position("")) <= (2 * l.maxConcurrent - 1) as real * l.maxPosition);
    }
  }

  // --- And where the bound is lost, there is none -------------------------------------------------

  /** A run of n swings, each halt in it called at the last clock reading. */
  ghost predicate Swung(l: Limits, symbol: string, es: seq<Event>, clock: int, n: nat) {
    && HonestRun(Init(l), es) && Clocked(es) && (forall e | e in es :: Timed(e) && e.now <= clock)
    && var t := Run(Init(l), es);
       && t.limits == l && Liftable(t, clock)
       && (forall b: Batch | b.symbol == symbol && b.price == SomePrice(l) :: Holds(t, b, 0))
       && Abs(t.Position(symbol)) >= Times(n, l.maxPosition)
  }

  /** Back from position x to the maximum on the other side, once trading is open again. */
  ghost function Swing(l: Limits, symbol: string, x: real, clock: int): Batch {
    Batch(symbol, 'w', if x >= 0.0 then Sell else Buy, Abs(x) + l.maxPosition, SomePrice(l), SomeType(l),
          clock + 1 + if l.breaker.cooldown > 0 then l.breaker.cooldown else 0)
  }

  /** How many orders a swing is made of. */
  function Orders(l: Limits): nat {
    if l.maxConcurrent > 0 then l.maxConcurrent else 2
  }

  lemma SwingFits(l: Limits, symbol: string, s: State, clock: int)
    requires l.maxPosition > 0.0 && !HaltsForGood(l) && s.limits == l && Liftable(s, clock)
    ensures var b := Swing(l, symbol, s.Position(symbol), clock);
            Fits(s, b) && !LiftExpiredHalt(s, b.now).killSwitch && b.now > clock
  {
    SomePriceFits(l);
    assert TypeAllowed(Init(l), SomeType(l));
  }

  lemma SwingGrows(x: real, m: real, k: nat, n: nat)
    requires m > 0.0 && k >= 2 && Abs(x) >= Times(n, m)
    ensures Abs(x + Times(k, if x >= 0.0 then -(Abs(x) + m) else Abs(x) + m)) >= Times(n + 1, m)
  {
    var y := Abs(x) + m;
    TimesIsProduct(k, y);
    TimesIsProduct(k, -y);
    assert (k - 2) as real * y >= 0.0;
    assert k as real * y == 2.0 * y + (k - 2) as real * y;
    assert k as real * -y == -(k as real * y);
    assert Times(k, y) >= 2.0 * y && Times(k, -y) <= -2.0 * y;
    assert Times(n + 1, m) == m + Times(n, m);
    if x >= 0.0 {
      assert x + Times(k, -y) <= -x - 2.0 * m;
    } else {
      assert x + Times(k, y) >= -x + 2.0 * m;
    }
  }

  lemma OneSwing(l: Limits, symbol: string, es: seq<Event>, clock: int, n: nat) returns (more: seq<Event>, later: int)
    requires l.maxPosition > 0.0 && !HaltsForGood(l) && l.maxConcurrent != 1 && Swung(l, symbol, es, clock, n)
    ensures Swung(l, symbol, more, later, n + 1)
  {
    hide Step, Fits, LiftExpiredHalt, Holds, Clocked, HonestRun, Timed, Run;
    var t, k := Run(Init(l), es), Orders(l);
    var b := Swing(l, symbol, t.Position(symbol), clock);
    SwingFits(l, symbol, t, clock);
    OneBatch(t, b, k);
    var batch := b.Checks(k) + b.Fills(k);
    more, later := es + batch, b.now;
    RunAppend(Init(l), es, batch);
    HonestAppend(Init(l), es, batch);
    BatchEvents(b, k);
    SwingGrows(t.Position(symbol), l.maxPosition, k, n);
    HoldsNothing(Run(t, batch), b);
    LaterClocked(es, batch, clock, b.now);
  }

  lemma HoldsNothing(s: State, b: Batch)
    requires Holds(s, b, 0)
    ensures forall other: Batch | other.symbol == b.symbol && other.price == b.price :: Holds(s, other, 0)
  {
  }

  lemma LaterClocked(es: seq<Event>, batch: seq<Event>, clock: int, now: int)
    requires Clocked(es) && clock <= now && (forall e | e in es :: Timed(e) && e.now <= clock)
    requires forall e | e in batch :: Timed(e) && e.now == now
    ensures Clocked(es + batch) && forall e | e in es + batch :: Timed(e) && e.now <= now
  {
    var all := es + batch;
    forall i, j | 0 <= i < j < |all| ensures Timed(all[i]) && Timed(all[j]) && all[i].now <= all[j].now {
      assert all[i] == if i < |es| then es[i] else batch[i - |es|];
      assert all[j] == if j < |es| then es[j] else batch[j - |es|];
    }
  }

  lemma {:induction false} Swings(l: Limits, symbol: string, n: nat) returns (es: seq<Event>, clock: int)
    requires l.maxPosition > 0.0 && !HaltsForGood(l) && l.maxConcurrent != 1
    ensures Swung(l, symbol, es, clock, n)
  {
    hide Swung;
    if n == 0 {
      es, clock := [], 0;
      NoSwing(l, symbol);
    } else {
      var before, reading := Swings(l, symbol, n - 1);
      es, clock := OneSwing(l, symbol, before, reading, n - 1);
    }
  }

  lemma NoSwing(l: Limits, symbol: string)
    ensures Swung(l, symbol, [], 0, 0)
  {
  }

  lemma MoreTimes(x: real, y: real, m: real)
    requires x > y && m > 0.0
    ensures x * m > y * m
  {
  }

  lemma QuotientTimes(x: real, m: real)
    requires m > 0.0
    ensures (x / m) * m == x
  {
  }

  lemma EnoughTimes(bound: real, m: real) returns (n: nat)
    requires m > 0.0
    ensures n >= 1 && Times(n, m) > bound
  {
    var x := if bound > 0.0 then bound else 0.0;
    var q := x / m;
    QuotientTimes(x, m);
    n := if q.Floor + 1 > 0 then q.Floor + 1 else 1;
    TimesIsProduct(n, m);
    MoreTimes(n as real, q, m);
  }

  /** Some valid run goes past any given bound. */
  lemma GoesPast(l: Limits, bound: real) returns (es: seq<Event>)
    requires l.maxPosition > 0.0 && (l.maxConcurrent <= 0 || (l.maxConcurrent >= 2 && !HaltsForGood(l)))
    ensures Valid(l, es) && Abs(Run(Init(l), es).Position("")) > bound
  {
    var n := EnoughTimes(bound, l.maxPosition);
    if l.maxConcurrent <= 0 {
      es := UpBy(l, "", n);
      UpByReaches(l, "", n);
      UpByValid(l, "", n);
      TimesIsProduct(n, l.maxPosition);
      assert (2 * n - 1) as real * l.maxPosition >= n as real * l.maxPosition;
    } else {
      var clock: int;
      es, clock := Swings(l, "", n);
    }
  }

  /** One bound for all valid runs. */
  ghost predicate WithinSomeBound(l: Limits) {
    exists bound: real :: Within(l, bound)
  }

  ghost predicate Within(l: Limits, bound: real) {
    forall es: seq<Event>, symbol: string {:trigger Run(Init(l), es).Position(symbol)} |
      Valid(l, es) :: Abs(Run(Init(l), es).Position(symbol)) <= bound
  }

  /**
   The limits either keep every position within (2K - 1) times the maximum, or keep
   positions within nothing at all; which of the two can be read off them.
   */
  lemma BoundedExactly(l: Limits)
    requires l.maxPosition > 0.0
    ensures WithinSomeBound(l) <==> l.maxConcurrent >= 1 && (l.maxConcurrent == 1 || HaltsForGood(l))
  {
    hide Step, Run, Valid;
    if l.maxConcurrent >= 1 && (l.maxConcurrent == 1 || HaltsForGood(l)) {
      BoundExact(l);
      assert Within(l, (2 * l.maxConcurrent - 1) as real * l.maxPosition);
    } else if bound: real :| Within(l, bound) {
      var es := GoesPast(l, bound);
    }
  }
}
