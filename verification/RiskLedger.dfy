/**
 The position as a ledger: what each admitted order contributed is the largest
 cumulative fill reported during its life, whatever the order of the reports.
 */
module RiskLedger {
  import opened Common
  import opened MapSums
  import opened RiskModel

  /** Reports name the symbol of the live order they are about, and its way of moving the position. */
  predicate Consistent(s: State, e: Event) {
    Reaches(s, e) ==>
      var o := s.orders[e.report.clientOrderId];
      e.symbol == o.symbol && e.report.side.Sell? == o.side.Sell?
  }

  predicate ConsistentRun(s: State, es: seq<Event>)
    decreases |es|
  {
    es == [] || (Consistent(s, es[0]) && ConsistentRun(Next(s, es[0]), es[1..]))
  }

  /** e is a parsed report about id. */
  predicate Reports(e: Event, id: string) {
    e.Execution? && e.report.clientOrderId == id && e.report.filledQuantity.Some?
  }

  /**
   The largest cumulative fill, at least best, reported for the order live under
   id before a terminal report closes it or a new admission takes its id.
   */
  ghost function LifeMax(s: State, es: seq<Event>, id: string, best: real): real
    decreases |es|
  {
    if es == [] then best
    else
      var e, t, rest := es[0], Next(s, es[0]), es[1..];
      if Reports(e, id) then
        var m := Max(best, Max(e.report.filledQuantity.value, 0.0));
        if Terminal(e.report.state) then m else LifeMax(t, rest, id, m)
      else if Admits(s, e) && e.req.clientOrderId == id then best
      else LifeMax(t, rest, id, best)
  }

  /** What the orders admitted during es contribute to the position of symbol. */
  ghost function Ledger(s: State, es: seq<Event>, symbol: string): real
    decreases |es|
  {
    if es == [] then 0.0
    else
      var e, t, rest := es[0], Next(s, es[0]), es[1..];
      (if Admits(s, e) && e.req.symbol == symbol
       then Signed(e.req.side, LifeMax(t, rest, e.req.clientOrderId, 0.0)) else 0.0)
      + Ledger(t, rest, symbol)
  }

  /** What a live order is still to contribute. */
  ghost function Pending(s: State, es: seq<Event>, symbol: string): (string, Order) -> real {
    (id: string, o: Order) =>
      if o.symbol == symbol then Signed(o.side, LifeMax(s, es, id, o.filled) - o.filled) else 0.0
  }

  /** The order an event is about; other orders' lives go on past it. */
  predicate About(s: State, e: Event, id: string) {
    Reports(e, id) || (Admits(s, e) && e.req.clientOrderId == id)
  }

  lemma OthersPending(s: State, es: seq<Event>, symbol: string, orders: map<string, Order>)
    requires es != [] && forall id | id in orders :: !About(s, es[0], id)
    ensures Sum(orders, Pending(Next(s, es[0]), es[1..], symbol)) == Sum(orders, Pending(s, es, symbol))
  {
    Congruent(orders, Pending(Next(s, es[0]), es[1..], symbol), Pending(s, es, symbol));
  }

  lemma AdmitLedger(s: State, es: seq<Event>, symbol: string)
    requires es != [] && Admits(s, es[0])
    ensures var t, rest := Next(s, es[0]), es[1..];
            Sum(t.orders, Pending(t, rest, symbol)) + Ledger(t, rest, symbol)
              == Sum(s.orders, Pending(s, es, symbol)) + Ledger(s, es, symbol)
  {
    hide Step;
    var e, t, rest := es[0], Next(s, es[0]), es[1..];
    var id := e.req.clientOrderId;
    AdmitEffect(s, e);
    var others, o, later, now := s.orders - {id}, t.orders[id], Pending(t, rest, symbol), Pending(s, es, symbol);
    OthersPending(s, es, symbol, others);
    Write(s.orders, id, o, later);
    assert Sum(t.orders, later) == later(id, o) + Sum(others, now);
    if id in s.orders {
      Split(s.orders, id, now);
      assert LifeMax(s, es, id, s.orders[id].filled) == s.orders[id].filled;
    } else {
      assert others == s.orders;
    }
    assert Sum(s.orders, now) == Sum(others, now);
    assert Ledger(s, es, symbol) == later(id, o) + Ledger(t, rest, symbol);
  }

  /** What a report books is what its order no longer has pending. */
  lemma ReportPending(s: State, es: seq<Event>, symbol: string)
    requires es != [] && Reaches(s, es[0])
    ensures var r := es[0].report; var t, id := Next(s, es[0]), r.clientOrderId; var o := s.orders[id];
            var m := Max(o.filled, Max(r.filledQuantity.value, 0.0));
            Pending(s, es, symbol)(id, o) ==
              (if o.symbol == symbol then Signed(o.side, m - o.filled) else 0.0) +
              (if Terminal(r.state) then 0.0 else Pending(t, es[1..], symbol)(id, o.(filled := m)))
  {
  }

  lemma BookedSum(s: State, t: State, report: Report, w: (string, Order) -> real, symbol: string)
    requires report.clientOrderId in s.orders && report.filledQuantity.Some?
    requires Booking(s, t, symbol, report)
    ensures var id := report.clientOrderId; var o := s.orders[id];
            var m := Max(o.filled, Max(report.filledQuantity.value, 0.0));
            Sum(t.orders, w) == Sum(s.orders - {id}, w) + if Terminal(report.state) then 0.0 else w(id, o.(filled := m))
  {
    var id := report.clientOrderId;
    if !Terminal(report.state) {
      Write(s.orders, id, t.orders[id], w);
    }
  }

  lemma ReportLedger(s: State, es: seq<Event>, symbol: string)
    requires es != [] && Reaches(s, es[0]) && Consistent(s, es[0])
    ensures var t, rest := Next(s, es[0]), es[1..];
            t.Position(symbol) + Sum(t.orders, Pending(t, rest, symbol))
              == s.Position(symbol) + Sum(s.orders, Pending(s, es, symbol))
  {
    var e, t, id := es[0], Next(s, es[0]), es[0].report.clientOrderId;
    ExecutionEffect(s, e);
    Split(s.orders, id, Pending(s, es, symbol));
    OthersPending(s, es, symbol, s.orders - {id});
    ReportPending(s, es, symbol);
    BookedSum(s, t, e.report, Pending(t, es[1..], symbol), e.symbol);
  }

  lemma {:induction false} LedgerFrom(s: State, es: seq<Event>, symbol: string)
    requires ConsistentRun(s, es)
    ensures Run(s, es).Position(symbol)
              == s.Position(symbol) + Sum(s.orders, Pending(s, es, symbol)) + Ledger(s, es, symbol)
    decreases |es|
  {
    hide Step;
    if es == [] {
      Nothing(s, symbol);
    } else {
      var e, t, rest := es[0], Next(s, es[0]), es[1..];
      LedgerFrom(t, rest, symbol);
      if Admits(s, e) {
        AdmitEffect(s, e);
        AdmitLedger(s, es, symbol);
      } else if Reaches(s, e) {
        ReportLedger(s, es, symbol);
      } else {
        OtherEffect(s, e);
        Congruent(s.orders, Pending(t, rest, symbol), Pending(s, es, symbol));
      }
    }
  }

  lemma Nothing(s: State, symbol: string)
    ensures Sum(s.orders, Pending(s, [], symbol)) == 0.0
  {
    var w := Pending(s, [], symbol);
    CountBound(s.orders, w, {}, 0.0);
    NonNegative(s.orders, w);
  }

  /**
   In every run with consistent reports a position is the sum, over the orders
   ever admitted on its symbol, of the largest fill reported while each was live.
   */
  lemma PositionIsLedger(l: Limits, es: seq<Event>, symbol: string)
    requires ConsistentRun(Init(l), es)
    ensures Run(Init(l), es).Position(symbol) == Ledger(Init(l), es, symbol)
  {
    LedgerFrom(Init(l), es, symbol);
    var w := Pending(Init(l), es, symbol);
    assert Sum(Init(l).orders, w) == 0.0;
  }

  // --- Stale, repeated and reordered reports ---------------------------------------------

  /** Reports that leave their orders open. */
  predicate OpenReports(es: seq<Event>) {
    forall e | e in es :: e.Execution? && !Terminal(e.report.state)
  }

  /** f is one of best and the fills reported for id, and none is larger. */
  ghost predicate IsLargest(es: seq<Event>, id: string, best: real, f: real) {
    && best <= f
    && (f == best || exists e :: e in es && Reports(e, id) && f == Max(e.report.filledQuantity.value, 0.0))
    && (forall e | e in es && Reports(e, id) :: e.report.filledQuantity.value <= f)
    && (0.0 <= best || forall e | e in es && Reports(e, id) :: 0.0 <= f)
  }

  /** How much of es the order live under id lives through: to its terminal report, or to the admission that takes its id. */
  ghost function Life(s: State, es: seq<Event>, id: string): (n: nat)
    ensures n <= |es|
    decreases |es|
  {
    if es == [] then 0
    else if Reports(es[0], id) && Terminal(es[0].report.state) then 1
    else if !Reports(es[0], id) && Admits(s, es[0]) && es[0].req.clientOrderId == id then 0
    else 1 + Life(Next(s, es[0]), es[1..], id)
  }

  /** In every run an order is booked at the largest fill reported during its life. */
  lemma {:induction false} LifeMaxIsLargest(s: State, es: seq<Event>, id: string, best: real)
    ensures IsLargest(es[..Life(s, es, id)], id, best, LifeMax(s, es, id, best))
    decreases |es|
  {
    hide Step, IsLargest;
    if es == [] {
      NoneLarger(id, best);
    } else {
      var e, t, rest := es[0], Next(s, es[0]), es[1..];
      var m := if Reports(e, id) then Max(best, Max(e.report.filledQuantity.value, 0.0)) else best;
      NoneLarger(id, m);
      NoneLarger(id, best);
      if Reports(e, id) && Terminal(e.report.state) {
        FirstReport(e, [], id, best, m);
        assert es[..1] == [e] + [];
      } else if !(Admits(s, e) && e.req.clientOrderId == id) || Reports(e, id) {
        LifeMaxIsLargest(t, rest, id, m);
        FirstReport(e, rest[..Life(t, rest, id)], id, best, LifeMax(t, rest, id, m));
        assert es[..1 + Life(t, rest, id)] == [e] + rest[..Life(t, rest, id)];
      }
    }
  }

  lemma NoneLarger(id: string, best: real)
    ensures IsLargest([], id, best, best)
  {
  }

  lemma FirstReport(e: Event, rest: seq<Event>, id: string, best: real, f: real)
    requires IsLargest(rest, id, if Reports(e, id) then Max(best, Max(e.report.filledQuantity.value, 0.0)) else best, f)
    ensures IsLargest([e] + rest, id, best, f)
  {
    var es := [e] + rest;
    assert forall x :: x in es <==> x == e || x in rest;
  }

  lemma {:induction false} OpenLife(s: State, es: seq<Event>, id: string)
    requires OpenReports(es)
    ensures es[..Life(s, es, id)] == es
    decreases |es|
  {
    hide Step;
    if es != [] {
      assert forall x | x in es[1..] :: x in es;
      OpenLife(Next(s, es[0]), es[1..], id);
      assert es[0] in es;
    }
  }

  lemma {:induction false} OpenRun(s: State, es: seq<Event>)
    requires OpenReports(es)
    ensures var t := Run(s, es);
            t.orders == map id | id in s.orders :: s.orders[id].(filled := LifeMax(s, es, id, s.orders[id].filled))
    ensures forall symbol :: Ledger(s, es, symbol) == 0.0
    decreases |es|
  {
    hide Step;
    if es == [] {
      assert s.orders == map id | id in s.orders :: s.orders[id].(filled := s.orders[id].filled);
    } else {
      var e, t, rest := es[0], Next(s, es[0]), es[1..];
      OpenRun(t, rest);
      if Reaches(s, e) {
        ExecutionEffect(s, e);
      } else {
        OtherEffect(s, e);
      }
      forall symbol ensures Ledger(s, es, symbol) == 0.0 {
        assert Ledger(t, rest, symbol) == 0.0;
      }
    }
  }

  /** What is reported in es, without the clock readings that go with it. */
  ghost function Contents(es: seq<Event>): set<(string, Report)> {
    set e | e in es && e.Execution? :: (e.symbol, e.report)
  }

  /** The same report, arriving in the other run, at whatever time. */
  lemma Counterpart(es: seq<Event>, fs: seq<Event>, e: Event) returns (f: Event)
    requires Contents(es) == Contents(fs) && e in es && e.Execution?
    ensures f in fs && f.Execution? && f.symbol == e.symbol && f.report == e.report
  {
    assert (e.symbol, e.report) in Contents(fs);
    f :| f in fs && f.Execution? && (f.symbol, f.report) == (e.symbol, e.report);
  }

  lemma LargestCarriesOver(es: seq<Event>, fs: seq<Event>, id: string, best: real, f: real)
    requires Contents(es) == Contents(fs) && IsLargest(es, id, best, f)
    ensures IsLargest(fs, id, best, f)
  {
    if f != best {
      var e :| e in es && Reports(e, id) && f == Max(e.report.filledQuantity.value, 0.0);
      var g := Counterpart(es, fs, e);
      assert Reports(g, id);
    }
    forall g | g in fs && Reports(g, id) ensures g.report.filledQuantity.value <= f && (0.0 <= best || 0.0 <= f) {
      var e := Counterpart(fs, es, g);
      assert Reports(e, id);
    }
  }

  lemma OneLargest(es: seq<Event>, id: string, best: real, f: real, g: real)
    requires IsLargest(es, id, best, f) && IsLargest(es, id, best, g)
    ensures f == g
  {
  }

  /**
   Two runs of open reports that report the same, in any order, with any repetition
   and at any times, end with the same live orders and the same positions.
   */
  lemma ReportOrderIrrelevant(s: State, es: seq<Event>, fs: seq<Event>)
    requires OpenReports(es) && OpenReports(fs) && ConsistentRun(s, es) && ConsistentRun(s, fs)
    requires Contents(es) == Contents(fs)
    ensures Run(s, es).orders == Run(s, fs).orders
    ensures forall symbol :: Run(s, es).Position(symbol) == Run(s, fs).Position(symbol)
  {
    hide Step, IsLargest, Contents;
    OpenRun(s, es);
    OpenRun(s, fs);
    forall id | id in s.orders
      ensures LifeMax(s, es, id, s.orders[id].filled) == LifeMax(s, fs, id, s.orders[id].filled)
    {
      var best := s.orders[id].filled;
      LifeMaxIsLargest(s, es, id, best);
      LifeMaxIsLargest(s, fs, id, best);
      OpenLife(s, es, id);
      OpenLife(s, fs, id);
      LargestCarriesOver(es, fs, id, best, LifeMax(s, es, id, best));
      OneLargest(fs, id, best, LifeMax(s, es, id, best), LifeMax(s, fs, id, best));
    }
    forall symbol ensures Run(s, es).Position(symbol) == Run(s, fs).Position(symbol) {
      LedgerFrom(s, es, symbol);
      LedgerFrom(s, fs, symbol);
      Congruent(s.orders, Pending(s, es, symbol), Pending(s, fs, symbol));
    }
  }
}
