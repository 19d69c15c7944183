/** Driving the table and a fallible router to the desired routes. */
module RoutePass {
  import opened Common
  import Text
  import opened Ordering
  import opened FilterValues
  import opened FilterMerge
  import opened RouteCompare
  import opened RouteTable
  import opened RouteReconcile

  type Routes = map<RouteKey, Route>

  datatype RouterCall = Activate(route: Route) | Deactivate(route: Route)

  /** The router's answers during one pass: true acknowledges, false is an error. */
  type Router = RouterCall -> bool

  /** The call a pass makes for a key, if any. */
  function CallFor(current: Routes, desired: Routes, key: RouteKey): Option<RouterCall> {
    if key !in desired then (if key in current then Some(Deactivate(current[key])) else None)
    else if key in current && EqualRoutes(current[key], desired[key]) then None
    else Some(Activate(desired[key]))
  }

  function Entry(routes: Routes, key: RouteKey): Option<Route> {
    if key in routes then Some(routes[key]) else None
  }

  /** What the table holds under a key after the pass. */
  function Outcome(current: Routes, desired: Routes, router: Router, key: RouteKey): Option<Route> {
    var call := CallFor(current, desired, key);
    if call.None? || !router(call.value) then Entry(current, key)
    else if call.value.Activate? then Some(call.value.route)
    else None
  }

  /** The table once the keys in done have been visited. */
  ghost function After(current: Routes, desired: Routes, router: Router, done: set<RouteKey>): Routes {
    map k | k in current.Keys + desired.Keys &&
            (if k in done then Outcome(current, desired, router, k) else Entry(current, k)).Some? ::
      (if k in done then Outcome(current, desired, router, k) else Entry(current, k)).value
  }

  /** The table after a whole pass. */
  ghost function NextTable(current: Routes, desired: Routes, router: Router): Routes {
    After(current, desired, router, current.Keys + desired.Keys)
  }

  /** All calls a pass makes. */
  ghost function Calls(current: Routes, desired: Routes): set<RouterCall> {
    set k | k in current.Keys + desired.Keys && CallFor(current, desired, k).Some? :: CallFor(current, desired, k).value
  }

  /** Replaying the acknowledged calls of a log on a table. */
  function Replay(routes: Routes, log: seq<RouterCall>, router: Router): Routes {
    if log == [] then routes
    else
      var before, last := Replay(routes, log[..|log| - 1], router), log[|log| - 1];
      if !router(last) then before
      else if last.Activate? then before[RouteKeyOf(last.route) := last.route]
      else before - {RouteKeyOf(last.route)}
  }

  lemma ReplayLast(routes: Routes, log: seq<RouterCall>, router: Router, call: RouterCall)
    ensures var before := Replay(routes, log, router);
            Replay(routes, log + [call], router) ==
              if !router(call) then before
              else if call.Activate? then before[RouteKeyOf(call.route) := call.route]
              else before - {RouteKeyOf(call.route)}
  {
    assert (log + [call])[..|log|] == log;
  }

  /** The desired routes of registered lambdas: each under its key, each fit to store as it is. */
  ghost predicate Proper(desired: Routes) {
    Keyed(desired) && forall k | k in desired :: Storable(desired[k]) && Text.Trim(desired[k].provider) == desired[k].provider
  }

  lemma CanonValid(m: FieldSets)
    requires Clean(m)
    ensures forall i | 0 <= i < |Canon(m)| :: ValidRule(Canon(m)[i])
  {
    hide RuleFor;
    OperatorsNormal();
    var fields := Listing(m.Keys);
    forall i | 0 <= i < |fields| ensures ValidRule(Canon(m)[i]) {
      assert fields[i] in Elements(fields);
      FieldOfRule(fields[i], m[fields[i]]);
      OpOfRule(fields[i], m[fields[i]]);
    }
  }

  lemma OpOfRule(f: string, values: set<string>)
    ensures RuleFor(f, values).op == "eq" || RuleFor(f, values).op == "in"
    ensures Text.Trim("eq") == "eq" && Text.Trim("in") == "in"
  {
    Text.TrimmedFixed("eq");
    Text.TrimmedFixed("in");
  }

  lemma ServingIsStorable(route: Route, state: Snapshot, key: RouteKey)
    requires Serves(route, Demands(state), key) && forall id | id in state :: Registered(state[id])
    ensures Storable(route) && Text.Trim(route.provider) == route.provider && RouteKeyOf(route) == key
  {
    hide Canon, Pooled, ValidRule, ValidKind, Registered;
    var x :| x in Demands(state) && x.Key() == key && x.provider == route.provider && x.kind == route.kind;
    DemandRegistered(state, x);
    PooledClean(FiltersFor(Demands(state), key));
    CanonValid(Pooled(FiltersFor(Demands(state), key)));
  }

  /** So an acknowledged activation always lands in the table. */
  lemma BuiltIsProper(desired: Routes, state: Snapshot)
    requires Built(desired, Demands(state)) && forall id | id in state :: Registered(state[id])
    ensures Proper(desired)
  {
    hide Serves, Storable, Registered, RouteKeyOf;
    forall k | k in desired
      ensures Storable(desired[k]) && Text.Trim(desired[k].provider) == desired[k].provider && RouteKeyOf(desired[k]) == k
    {
      ServingIsStorable(desired[k], state, k);
    }
  }

  lemma DemandRegistered(state: Snapshot, x: Demand)
    requires x in Demands(state) && forall id | id in state :: Registered(state[id])
    ensures x.provider != [] && Text.Trim(x.provider) == x.provider && ValidKind(x.kind)
  {
    var id :| id in state && x in RegistrationDemands(state[id]);
    var p :| p in state[id].providers && x in ProviderDemands(p, state[id].routes);
    var d :| d in state[id].routes && x == Demand(p, d.kind, d.filters);
  }

  // --- Visiting keys one by one ---------------------------------------------------------

  /** The calls made and acknowledged so far, and the flags that sum them up. */
  ghost predicate Logged(current: Routes, desired: Routes, router: Router, done: set<RouteKey>,
                         log: seq<RouterCall>, clean: bool, changed: bool)
  {
    && (forall c :: c in log <==> exists k :: k in done && CallFor(current, desired, k) == Some(c))
    && (forall i, j | 0 <= i < j < |log| :: log[i] != log[j])
    && (clean <==> forall c | c in log :: router(c))
    && (changed <==> exists c :: c in log && router(c))
  }

  /** Where a pass stands after visiting the keys in done. */
  ghost predicate Progress(current: Routes, desired: Routes, router: Router, done: set<RouteKey>,
                           routes: Routes, log: seq<RouterCall>, clean: bool, changed: bool)
  {
    && Keyed(current) && Proper(desired)
    && done <= current.Keys + desired.Keys
    && routes == After(current, desired, router, done) == Replay(current, log, router)
    && Logged(current, desired, router, done, log, clean, changed)
  }

  lemma AfterNone(current: Routes, desired: Routes, router: Router)
    ensures After(current, desired, router, {}) == current
  {
  }

  lemma AfterOne(current: Routes, desired: Routes, router: Router, done: set<RouteKey>, key: RouteKey)
    requires key in current.Keys + desired.Keys && key !in done
    ensures var before := After(current, desired, router, done);
            After(current, desired, router, done + {key}) ==
              match Outcome(current, desired, router, key)
              case Some(route) => before[key := route]
              case None => before - {key}
    ensures Entry(After(current, desired, router, done), key) == Entry(current, key)
  {
    hide Outcome;
  }

  /** Calls of different keys are different. */
  lemma CallNamesKey(current: Routes, desired: Routes, key: RouteKey)
    requires Keyed(current) && Keyed(desired) && CallFor(current, desired, key).Some?
    ensures RouteKeyOf(CallFor(current, desired, key).value.route) == key
  {
  }

  lemma LogOne(current: Routes, desired: Routes, router: Router, done: set<RouteKey>,
               log: seq<RouterCall>, clean: bool, changed: bool, key: RouteKey)
    requires Logged(current, desired, router, done, log, clean, changed)
    requires Keyed(current) && Keyed(desired) && key !in done
    ensures match CallFor(current, desired, key)
            case None => Logged(current, desired, router, done + {key}, log, clean, changed)
            case Some(c) =>
              Logged(current, desired, router, done + {key}, log + [c], clean && router(c), changed || router(c))
  {
    hide CallFor, RouteKeyOf;
    var call := CallFor(current, desired, key);
    if call.Some? {
      CallNamesKey(current, desired, key);
      forall c | c in log ensures c != call.value {
        var k :| k in done && CallFor(current, desired, k) == Some(c);
        CallNamesKey(current, desired, k);
      }
      var more := log + [call.value];
      forall c ensures c in more <==> c in log || c == call.value {
      }
      forall c ensures c in more <==> exists k :: k in done + {key} && CallFor(current, desired, k) == Some(c) {
        if c in log {
          var k :| k in done && CallFor(current, desired, k) == Some(c);
          assert k in done + {key};
        }
        assert key in done + {key};
      }
    } else {
      forall c ensures c in log <==> exists k :: k in done + {key} && CallFor(current, desired, k) == Some(c) {
        if c in log {
          var k :| k in done && CallFor(current, desired, k) == Some(c);
          assert k in done + {key};
        }
      }
    }
  }

  /** Visiting one more key keeps the pass on track. */
  lemma Visit(current: Routes, desired: Routes, router: Router, done: set<RouteKey>,
              routes: Routes, log: seq<RouterCall>, clean: bool, changed: bool, key: RouteKey)
    requires Progress(current, desired, router, done, routes, log, clean, changed)
    requires key in current.Keys + desired.Keys && key !in done
    ensures match CallFor(current, desired, key)
            case None => Progress(current, desired, router, done + {key}, routes, log, clean, changed)
            case Some(c) =>
              var next := if !router(c) then routes else if c.Activate? then routes[key := c.route] else routes - {key};
              Progress(current, desired, router, done + {key}, next, log + [c], clean && router(c), changed || router(c))
  {
    hide EqualRoutes, Storable, RouteKeyOf, Logged, After, Replay;
    LogOne(current, desired, router, done, log, clean, changed, key);
    AfterOne(current, desired, router, done, key);
    var call := CallFor(current, desired, key);
    if call.Some? {
      CallNamesKey(current, desired, key);
      ReplayLast(current, log, router, call.value);
    }
    if key in routes {
      assert routes[key := routes[key]] == routes;
    } else {
      assert routes - {key} == routes;
    }
  }

  lemma ProgressStart(current: Routes, desired: Routes, router: Router)
    requires Keyed(current) && Proper(desired)
    ensures Progress(current, desired, router, {}, current, [], true, false)
  {
    AfterNone(current, desired, router);
  }

  // --- The pass as it is carried out -------------------------------------------------------

  class Registrar {
    const table: Table

    constructor (t: Table)
      ensures table == t
    {
      table := t;
    }

    /**
     One rebuild. cancelled: the worker's context is already done; clean: nothing
     failed; log: the calls made, in order.
     */
    method ApplyRoutes(cancelled: bool, state: Snapshot, router: Router)
      returns (clean: bool, log: seq<RouterCall>, ghost desired: Routes)
      requires table.Valid() && forall id | id in state :: Registered(state[id])
      modifies table
      ensures table.Valid()
      ensures cancelled ==> !clean && log == [] && table.routes == old(table.routes) && table.version == old(table.version)
      ensures !cancelled ==>
        var current := old(table.routes);
        && Built(desired, Demands(state))
        && table.routes == NextTable(current, desired, router) == Replay(current, log, router)
        && (forall c :: c in log <==> c in Calls(current, desired))
        && (forall i, j | 0 <= i < j < |log| :: log[i] != log[j])
        && (clean <==> forall c | c in log :: router(c))
        && table.version == old(table.version) + if exists c :: c in log && router(c) then 1 else 0
    {
      hide Built, EqualRoutes, Registered, Demands, After, Replay, CallFor;
      if cancelled {
        return false, [], map[];
      }
      var wanted, ok := BuildDesired(state);
      BuiltIsProper(wanted, state);
      desired := wanted;
      var current := table.routes;
      ghost var done: set<RouteKey>;
      var changed: bool;
      log, clean, changed, done := RemoveObsolete(current, wanted, router);
      log, clean, changed, done := UpsertDesired(current, wanted, router, log, clean, changed, done);
      if changed {
        var _ := table.NextVersion();
      }
    }

    method RemoveObsolete(current: Routes, desired: Routes, router: Router)
      returns (log: seq<RouterCall>, clean: bool, changed: bool, ghost done: set<RouteKey>)
      requires table.Valid() && table.routes == current && Proper(desired)
      modifies table
      ensures table.Valid() && table.version == old(table.version)
      ensures done == current.Keys - desired.Keys
      ensures Progress(current, desired, router, done, table.routes, log, clean, changed)
    {
      hide Progress, Proper;
      log, clean, changed, done := [], true, false, {};
      ProgressStart(current, desired, router);
      var keys := current.Keys;
      while keys != {}
        invariant keys <= current.Keys && done == (current.Keys - desired.Keys) - keys
        invariant Progress(current, desired, router, done, table.routes, log, clean, changed)
        invariant table.Valid() && table.version == old(table.version)
      {
        var key :| key in keys;
        keys := keys - {key};
        if key !in desired {
          log, clean, changed := RemoveOne(current, desired, router, key, log, clean, changed, done);
          done := done + {key};
        }
      }
    }

    method RemoveOne(current: Routes, desired: Routes, router: Router, key: RouteKey,
                     log0: seq<RouterCall>, clean0: bool, changed0: bool, ghost done: set<RouteKey>)
      returns (log: seq<RouterCall>, clean: bool, changed: bool)
      requires table.Valid() && key in current && key !in desired && key !in done
      requires Progress(current, desired, router, done, table.routes, log0, clean0, changed0)
      modifies table`routes
      ensures table.Valid()
      ensures Progress(current, desired, router, done + {key}, table.routes, log, clean, changed)
    {
      CallNamesKey(current, desired, key);
      Visit(current, desired, router, done, table.routes, log0, clean0, changed0, key);
      hide Progress;
      var call := Deactivate(current[key]);
      log, clean, changed := log0 + [call], clean0, changed0;
      if router(call) {
        table.Remove(current[key].provider, current[key].kind);
        changed := true;
      } else {
        clean := false;
      }
    }

    method UpsertDesired(current: Routes, desired: Routes, router: Router,
                         log0: seq<RouterCall>, clean0: bool, changed0: bool, ghost done0: set<RouteKey>)
      returns (log: seq<RouterCall>, clean: bool, changed: bool, ghost done: set<RouteKey>)
      requires table.Valid() && done0 == current.Keys - desired.Keys
      requires Progress(current, desired, router, done0, table.routes, log0, clean0, changed0)
      modifies table
      ensures table.Valid() && table.version == old(table.version)
      ensures done == current.Keys + desired.Keys
      ensures Progress(current, desired, router, done, table.routes, log, clean, changed)
    {
      hide Progress;
      log, clean, changed, done := log0, clean0, changed0, done0;
      var keys := desired.Keys;
      while keys != {}
        invariant keys <= desired.Keys && done == (current.Keys + desired.Keys) - keys
        invariant Progress(current, desired, router, done, table.routes, log, clean, changed)
        invariant table.Valid() && table.version == old(table.version)
      {
        var key :| key in keys;
        log, clean, changed := UpsertOne(current, desired, router, key, log, clean, changed, done);
        done := done + {key};
        keys := keys - {key};
      }
    }

    method UpsertOne(current: Routes, desired: Routes, router: Router, key: RouteKey,
                     log0: seq<RouterCall>, clean0: bool, changed0: bool, ghost done: set<RouteKey>)
      returns (log: seq<RouterCall>, clean: bool, changed: bool)
      requires table.Valid() && key in desired && key !in done
      requires Progress(current, desired, router, done, table.routes, log0, clean0, changed0)
      modifies table`routes
      ensures table.Valid()
      ensures Progress(current, desired, router, done + {key}, table.routes, log, clean, changed)
    {
      ProperEntry(desired, key);
      Visit(current, desired, router, done, table.routes, log0, clean0, changed0, key);
      hide Progress, EqualRoutes, Storable;
      log, clean, changed := log0, clean0, changed0;
      if key in current {
        var same := CompareRoutes(current[key], desired[key]);
        if same {
          return;
        }
      }
      var call := Activate(desired[key]);
      log := log + [call];
      if !router(call) {
        clean := false;
        return;
      }
      var stored := table.Upsert(desired[key]);
      if !stored {
        clean := false;
        return;
      }
      changed := true;
    }
  }

  lemma ProperEntry(desired: Routes, key: RouteKey)
    requires Proper(desired) && key in desired
    ensures Storable(desired[key]) && RouteKeyOf(desired[key]) == key
    ensures desired[key].(provider := Text.Trim(desired[key].provider)) == desired[key]
  {
  }

  // --- What a pass achieves -----------------------------------------------------------------

  /** The same keys, and under each a route the comparison takes for the same. */
  ghost predicate InSync(routes: Routes, desired: Routes) {
    routes.Keys == desired.Keys && forall k | k in desired :: EqualRoutes(routes[k], desired[k])
  }

  /** From any table, a pass in which no call fails brings the table in sync. */
  lemma CleanPassConverges(current: Routes, desired: Routes, router: Router)
    requires forall c | c in Calls(current, desired) :: router(c)
    ensures InSync(NextTable(current, desired, router), desired)
  {
    hide EqualRoutes;
    var next := NextTable(current, desired, router);
    forall k | k in current.Keys + desired.Keys
      ensures k in next <==> k in desired
      ensures k in desired ==> EqualRoutes(next[k], desired[k])
    {
      if CallFor(current, desired, k).Some? {
        assert CallFor(current, desired, k).value in Calls(current, desired);
      }
      if k in desired {
        EqualRoutesEquivalence(desired[k], desired[k], desired[k]);
      }
    }
  }

  lemma CallListed(routes: Routes, desired: Routes, key: RouteKey)
    requires key in routes.Keys + desired.Keys && CallFor(routes, desired, key).Some?
    ensures Calls(routes, desired) != {}
  {
    assert CallFor(routes, desired, key).value in Calls(routes, desired);
  }

  /** A table in sync needs no call, and is one no pass changes. */
  lemma InSyncIsQuiet(routes: Routes, desired: Routes)
    ensures InSync(routes, desired) <==> Calls(routes, desired) == {}
    ensures InSync(routes, desired) ==> forall router: Router :: NextTable(routes, desired, router) == routes
  {
    hide EqualRoutes;
    if InSync(routes, desired) {
      assert forall k :: CallFor(routes, desired, k).None?;
    }
    if Calls(routes, desired) == {} {
      forall k | k in routes.Keys + desired.Keys ensures CallFor(routes, desired, k).None? {
        if CallFor(routes, desired, k).Some? {
          CallListed(routes, desired, k);
        }
      }
      assert forall k :: k in routes <==> k in desired;
    }
  }

  /**
   A clean pass followed by a pass over the same registrations, walked in any
   other order: the second makes no router call and changes nothing.
   */
  lemma SecondPassIsQuiet(current: Routes, first: Routes, second: Routes, ds: set<Demand>, router: Router, later: Router)
    requires Built(first, ds) && Built(second, ds) && forall x | x in ds :: NormalizeKind(x.kind) == x.kind
    requires forall c | c in Calls(current, first) :: router(c)
    ensures var routes := NextTable(current, first, router);
            Calls(routes, second) == {} && NextTable(routes, second, later) == routes
  {
    hide EqualRoutes, Built, NextTable, Calls;
    var routes := NextTable(current, first, router);
    CleanPassConverges(current, first, router);
    DesiredConfluent(first, second, ds);
    forall k | k in second ensures EqualRoutes(routes[k], second[k]) {
      EqualRoutesEquivalence(routes[k], first[k], second[k]);
    }
    InSyncIsQuiet(routes, second);
  }

  /** What a pass leaves to be done is exactly what failed. */
  lemma FailuresRemain(current: Routes, desired: Routes, router: Router)
    ensures Calls(NextTable(current, desired, router), desired) == set c | c in Calls(current, desired) && !router(c)
  {
    hide EqualRoutes;
    var next := NextTable(current, desired, router);
    forall k
      ensures var call := CallFor(current, desired, k);
              CallFor(next, desired, k) == if call.Some? && router(call.value) then None else call
    {
      FailureRemains(current, desired, router, k);
    }
    var left := set c | c in Calls(current, desired) && !router(c);
    forall c ensures c in Calls(next, desired) <==> c in left {
      if c in Calls(next, desired) {
        var k :| k in next.Keys + desired.Keys && CallFor(next, desired, k) == Some(c);
        assert CallFor(current, desired, k) == Some(c) && k in current.Keys + desired.Keys;
      }
      if c in left {
        var k :| k in current.Keys + desired.Keys && CallFor(current, desired, k) == Some(c);
        assert CallFor(next, desired, k) == Some(c);
      }
    }
  }

  lemma FailureRemains(current: Routes, desired: Routes, router: Router, k: RouteKey)
    ensures var call := CallFor(current, desired, k);
            CallFor(NextTable(current, desired, router), desired, k) ==
              if call.Some? && router(call.value) then None else call
  {
    hide EqualRoutes;
    if k in desired {
      EqualRoutesEquivalence(desired[k], desired[k], desired[k]);
    }
  }

  /** The table after passes over the same desired routes, one router behaviour each. */
  ghost function Passes(current: Routes, desired: Routes, routers: seq<Router>): Routes {
    if routers == [] then current
    else NextTable(Passes(current, desired, routers[..|routers| - 1]), desired, routers[|routers| - 1])
  }

  /** However the failures fall, a call is left to make iff every pass so far has failed it. */
  lemma {:induction false} LeftAfterPasses(current: Routes, desired: Routes, routers: seq<Router>)
    ensures Calls(Passes(current, desired, routers), desired) ==
              set c | c in Calls(current, desired) && forall i | 0 <= i < |routers| :: !routers[i](c)
    decreases |routers|
  {
    hide NextTable, Calls;
    if routers != [] {
      var init, last := routers[..|routers| - 1], routers[|routers| - 1];
      LeftAfterPasses(current, desired, init);
      FailuresRemain(Passes(current, desired, init), desired, last);
      assert routers == init + [last];
    }
  }

  /** So the table is in sync as soon as every call needed has been acknowledged once. */
  lemma EveryCallAcknowledgedConverges(current: Routes, desired: Routes, routers: seq<Router>)
    ensures InSync(Passes(current, desired, routers), desired) <==>
              forall c | c in Calls(current, desired) :: exists i :: 0 <= i < |routers| && routers[i](c)
  {
    hide Calls, InSync;
    LeftAfterPasses(current, desired, routers);
    InSyncIsQuiet(Passes(current, desired, routers), desired);
    var left := set c | c in Calls(current, desired) && forall i | 0 <= i < |routers| :: !routers[i](c);
    if forall c | c in Calls(current, desired) :: exists i :: 0 <= i < |routers| && routers[i](c) {
      assert left == {};
    } else {
      var c :| c in Calls(current, desired) && forall i | 0 <= i < |routers| :: !routers[i](c);
      assert c in left;
    }
  }

  /** The version rises exactly when the pass changed a route. */
  lemma VersionTellsChange(current: Routes, desired: Routes, router: Router)
    ensures (exists c :: c in Calls(current, desired) && router(c)) <==> NextTable(current, desired, router) != current
  {
    hide EqualRoutes;
    var next := NextTable(current, desired, router);
    if c :| c in Calls(current, desired) && router(c) {
      var k :| k in current.Keys + desired.Keys && CallFor(current, desired, k) == Some(c);
      if k in current && k in desired {
        EqualRoutesEquivalence(current[k], current[k], current[k]);
      }
      assert Entry(next, k) != Entry(current, k);
    } else {
      forall k | k in current.Keys + desired.Keys ensures Outcome(current, desired, router, k) == Entry(current, k) {
        if CallFor(current, desired, k).Some? {
          assert CallFor(current, desired, k).value in Calls(current, desired);
        }
      }
    }
  }
}
