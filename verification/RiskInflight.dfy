/**
 Order slots. A slot taken by an order whose client id is then reused while it
 is live is never given back.
 */
module RiskInflight {
  import opened RiskModel

  /** e admits an order over one that is live on symbol. */
  predicate Overwrites(s: State, e: Event, symbol: string) {
    Admits(s, e) && e.req.clientOrderId in s.orders && s.orders[e.req.clientOrderId].symbol == symbol
  }

  /** How many orders live on symbol were overwritten during es. */
  ghost function Overwritten(s: State, es: seq<Event>, symbol: string): nat
    decreases |es|
  {
    if es == [] then 0
    else (if Overwrites(s, es[0], symbol) then 1 else 0) + Overwritten(Next(s, es[0]), es[1..], symbol)
  }

  /** Slots in use on a symbol beyond its live orders. */
  ghost function Leaked(s: State, symbol: string): int {
    s.Inflight(symbol) - |s.Live(symbol)|
  }

  lemma AdmitLeak(s: State, t: State, req: Request, symbol: string)
    requires Admission(s, t, req)
    ensures var over := req.clientOrderId in s.orders && s.orders[req.clientOrderId].symbol == symbol;
            Leaked(t, symbol) == Leaked(s, symbol) + if over then 1 else 0
  {
    LiveAfterAdmission(s, t, req, symbol);
    var live, id := s.Live(symbol), req.clientOrderId;
    assert |live - {id}| == |live| - if id in live then 1 else 0;
    assert |live - {id} + {id}| == |live - {id}| + 1;
    assert live - {id} + {} == live - {id};
  }

  lemma CloseLeak(s: State, t: State, id: string, symbol: string)
    requires id in s.orders && t.orders == s.orders - {id}
    requires t.inflight == Release(s, s.orders[id].symbol).inflight
    requires Leaked(s, symbol) >= 0
    ensures Leaked(t, symbol) == Leaked(s, symbol)
  {
    LiveAfterClose(s, t, id, symbol);
    var live, own := s.Live(symbol), s.orders[id].symbol;
    assert |live - {id}| == |live| - if own == symbol then 1 else 0;
    assert t.Inflight(symbol) == if own == symbol then s.Inflight(symbol) - 1 else s.Inflight(symbol);
  }

  lemma StepLeak(s: State, e: Event, symbol: string)
    requires Leaked(s, symbol) >= 0
    ensures Leaked(Next(s, e), symbol) == Leaked(s, symbol) + if Overwrites(s, e, symbol) then 1 else 0
  {
    var t := Next(s, e);
    if Admits(s, e) {
      AdmitEffect(s, e);
      AdmitLeak(s, t, e.req, symbol);
    } else if Reaches(s, e) {
      ExecutionEffect(s, e);
      if Terminal(e.report.state) {
        CloseLeak(s, t, e.report.clientOrderId, symbol);
      } else {
        assert t.Live(symbol) == s.Live(symbol);
      }
    } else {
      OtherEffect(s, e);
      assert t.Live(symbol) == s.Live(symbol);
    }
  }

  lemma {:induction false} RunLeak(s: State, es: seq<Event>, symbol: string)
    requires Leaked(s, symbol) >= 0
    ensures Leaked(Run(s, es), symbol) == Leaked(s, symbol) + Overwritten(s, es, symbol)
    decreases |es|
  {
    if es != [] {
      StepLeak(s, es[0], symbol);
      RunLeak(Next(s, es[0]), es[1..], symbol);
    }
  }

  /**
   In every run whatever, the in-flight count of a symbol is its live orders
   plus the live orders of that symbol overwritten under a reused client id.
   */
  lemma InflightExact(l: Limits, es: seq<Event>, symbol: string)
    ensures var t := Run(Init(l), es);
            t.Inflight(symbol) == |t.Live(symbol)| + Overwritten(Init(l), es, symbol)
  {
    assert Init(l).Live(symbol) == {};
    RunLeak(Init(l), es, symbol);
  }

  /** No admission of the run reuses a live client id. */
  predicate FreshIds(s: State, es: seq<Event>)
    decreases |es|
  {
    es == [] || ((Admits(s, es[0]) ==> es[0].req.clientOrderId !in s.orders) && FreshIds(Next(s, es[0]), es[1..]))
  }

  lemma {:induction false} FreshLeavesNone(s: State, es: seq<Event>, symbol: string)
    requires FreshIds(s, es)
    ensures Overwritten(s, es, symbol) == 0
    decreases |es|
  {
    if es != [] {
      FreshLeavesNone(Next(s, es[0]), es[1..], symbol);
    }
  }

  lemma {:induction false} SlotsCapped(s: State, es: seq<Event>, symbol: string)
    requires s.limits.maxConcurrent > 0 && 0 <= s.Inflight(symbol) <= s.limits.maxConcurrent
    requires forall e | e in es :: !e.SetLimits?
    ensures 0 <= Run(s, es).Inflight(symbol) <= s.limits.maxConcurrent && Run(s, es).limits == s.limits
    decreases |es|
  {
    if es != [] {
      var e, t := es[0], Next(s, es[0]);
      if Admits(s, e) { AdmitEffect(s, e); }
      else if Reaches(s, e) { ExecutionEffect(s, e); }
      else { OtherEffect(s, e); }
      SlotsCapped(t, es[1..], symbol);
    }
  }

  /**
   With fresh ids the count is exact, stays within a fixed positive limit, and
   is back at zero once every order of the symbol is closed.
   */
  lemma InflightWithFreshIds(l: Limits, es: seq<Event>, symbol: string)
    requires FreshIds(Init(l), es)
    ensures var t := Run(Init(l), es);
            && t.Inflight(symbol) == |t.Live(symbol)|
            && (t.Live(symbol) == {} ==> t.Inflight(symbol) == 0)
            && (l.maxConcurrent > 0 && (forall e | e in es :: !e.SetLimits?) ==> |t.Live(symbol)| <= l.maxConcurrent)
  {
    InflightExact(l, es, symbol);
    FreshLeavesNone(Init(l), es, symbol);
    if l.maxConcurrent > 0 && forall e | e in es :: !e.SetLimits? {
      SlotsCapped(Init(l), es, symbol);
    }
  }

  /**
   Leaked slots are gone for good: once as many live orders of a symbol have
   been overwritten as there are slots, no order on that symbol is admitted again.
   */
  lemma LeakedSlotsLockTheSymbol(l: Limits, es: seq<Event>, later: seq<Event>, e: Event)
    requires l.maxConcurrent > 0 && e.Check? && forall x | x in es + later :: !x.SetLimits?
    requires Overwritten(Init(l), es, e.req.symbol) >= l.maxConcurrent
    ensures !Admits(Run(Init(l), es + later), e)
  {
    var symbol, mid := e.req.symbol, Run(Init(l), es);
    RunAppend(Init(l), es, later);
    assert Init(l).Live(symbol) == {};
    RunLeak(Init(l), es, symbol);
    RunLeak(mid, later, symbol);
    SlotsCapped(Init(l), es + later, symbol);
    var t := Run(mid, later);
    if Admits(t, e) {
      AdmitEffect(t, e);
    }
  }
}
