/**
 One rebuild: compute the desired routes from a snapshot of registrations, then
 drive the table and a router that may refuse any call towards them.
 */
module RouteReconcile {
  import opened Common
  import Text
  import opened Ordering
  import opened FilterValues
  import opened FilterMerge
  import FilterDeclared
  import opened RouteCompare
  import opened RouteTable

  // --- Desired routes ---------------------------------------------------------------

  /** One lambda asking one provider for one kind of route. */
  datatype Demand = Demand(provider: string, kind: string, filters: Declaration)
  {
    function Key(): RouteKey {
      KeyOf(provider, kind)
    }
  }

  type Snapshot = map<string, Registration>

  ghost function ProviderDemands(provider: string, routes: seq<RouteDeclaration>): set<Demand> {
    set d | d in routes :: Demand(provider, d.kind, d.filters)
  }

  ghost function RegistrationDemands(reg: Registration): set<Demand> {
    set p, x | p in reg.providers && x in ProviderDemands(p, reg.routes) :: x
  }

  ghost function DemandsOf(state: Snapshot, ids: set<string>): set<Demand> {
    set id, x | id in ids && id in state && x in RegistrationDemands(state[id]) :: x
  }

  ghost function Demands(state: Snapshot): set<Demand> {
    DemandsOf(state, state.Keys)
  }

  ghost function FiltersFor(ds: set<Demand>, key: RouteKey): set<Declaration> {
    set x | x in ds && x.Key() == key :: x.filters
  }

  /** The route serves the demands under its key: one of their spellings, all of their filters. */
  ghost predicate Serves(route: Route, ds: set<Demand>, key: RouteKey) {
    && route.wsTopics == [] && route.restFns == []
    && (exists x :: x in ds && x.Key() == key && x.provider == route.provider && x.kind == route.kind)
    && route.filters == Canon(Pooled(FiltersFor(ds, key)))
  }

  /** The desired routes for a set of demands, up to the spelling of the provider. */
  ghost predicate Built(desired: map<RouteKey, Route>, ds: set<Demand>) {
    && (forall k :: k in desired <==> exists x :: x in ds && x.Key() == k)
    && (forall k | k in desired :: Serves(desired[k], ds, k))
  }

  lemma PooledClean(ds: set<Declaration>)
    ensures Clean(Pooled(ds))
  {
    hide Text.Trim, Declared, PooledNames, PooledValues;
    forall f | f in PooledNames(ds)
      ensures f != [] && Text.Trim(f) == f && forall v | v in PooledValues(ds, f) :: Text.Trim(v) == v
    {
      PooledNameClean(ds, f);
      forall v | v in PooledValues(ds, f) ensures Text.Trim(v) == v {
        PooledValueClean(ds, f, v);
      }
    }
  }

  lemma PooledNameClean(ds: set<Declaration>, f: string)
    requires f in PooledNames(ds)
    ensures f != [] && Text.Trim(f) == f
  {
    hide Text.Trim, Declared;
    var d :| d in ds && f in Declared(d);
    DeclaredClean(d);
  }

  lemma PooledValueClean(ds: set<Declaration>, f: string, v: string)
    requires v in PooledValues(ds, f)
    ensures Text.Trim(v) == v
  {
    hide Text.Trim, Declared;
    var e :| e in ds && v in At(Declared(e), f, {});
    DeclaredClean(e);
  }

  lemma FiltersForAdd(ds: set<Demand>, x: Demand, key: RouteKey)
    ensures FiltersFor(ds + {x}, key) == FiltersFor(ds, key) + if x.Key() == key then {x.filters} else {}
  {
  }

  lemma OthersServed(route: Route, ds: set<Demand>, x: Demand, key: RouteKey)
    requires Serves(route, ds, key) && x.Key() != key
    ensures Serves(route, ds + {x}, key)
  {
    hide Canon, Pooled;
    FiltersForAdd(ds, x, key);
    assert FiltersFor(ds, key) + {} == FiltersFor(ds, key);
    var y :| y in ds && y.Key() == key && y.provider == route.provider && y.kind == route.kind;
    assert y in ds + {x};
  }

  lemma MergedServes(route: Route, ds: set<Demand>, x: Demand)
    requires Serves(route, ds, x.Key()) ||
             (route == Route(x.provider, x.kind, [], [], []) && forall y | y in ds :: y.Key() != x.Key())
    ensures Serves(route.(filters := Merge(route.filters, x.filters)), ds + {x}, x.Key())
  {
    hide Merge, Canon, Pooled, Union, KeyOf;
    var before := FiltersFor(ds, x.Key());
    FiltersForAdd(ds, x, x.Key());
    if !Serves(route, ds, x.Key()) {
      assert before == {};
      NothingPooled();
    }
    PooledClean(before);
    MergeCanon(Pooled(before), x.filters);
    PooledAdd(before, x.filters);
    assert x in ds + {x};
    if y :| y in ds && y.Key() == x.Key() && y.provider == route.provider && y.kind == route.kind {
      assert y in ds + {x};
    }
  }

  /** Merging a demand into the desired routes serves it too. */
  lemma AddDemand(desired: map<RouteKey, Route>, ds: set<Demand>, x: Demand, route: Route)
    requires Built(desired, ds)
    requires route == if x.Key() in desired then desired[x.Key()] else Route(x.provider, x.kind, [], [], [])
    ensures Built(desired[x.Key() := route.(filters := Merge(route.filters, x.filters))], ds + {x})
  {
    hide Merge, Serves, KeyOf;
    var key, more := x.Key(), ds + {x};
    var next := desired[key := route.(filters := Merge(route.filters, x.filters))];
    MergedServes(route, ds, x);
    forall k | k in next ensures Serves(next[k], more, k) {
      if k != key {
        OthersServed(desired[k], ds, x, k);
      }
    }
    forall k ensures k in next <==> exists y :: y in more && y.Key() == k {
      if k in desired {
        var y :| y in ds && y.Key() == k;
        assert y in more;
      }
      assert x in more;
    }
  }

  lemma NothingPooled()
    ensures Canon(Pooled({})) == []
  {
    assert Pooled({}) == map[];
    assert Listing({}) == [];
  }

  /** The filters of a desired route answer what its lambdas declare: field by field, value by value. */
  lemma ServedAnswers(route: Route, ds: set<Demand>, key: RouteKey)
    requires Serves(route, ds, key)
    ensures FilterDeclared.Answers(route.filters, FiltersFor(ds, key))
  {
    hide FilterDeclared.Answers, Canon, Pooled, FiltersFor;
    FilterDeclared.PooledAnswers(FiltersFor(ds, key));
  }

  method AddProvider(start: map<RouteKey, Route>, provider: string, routes: seq<RouteDeclaration>, ghost ds: set<Demand>)
    returns (desired: map<RouteKey, Route>, ok: bool)
    requires Built(start, ds)
    ensures ok <==> forall i | 0 <= i < |routes| :: ValidKind(routes[i].kind)
    ensures ok ==> Built(desired, ds + ProviderDemands(provider, routes))
  {
    hide Built, ValidKind, Merge;
    desired, ok := start, true;
    assert ProviderDemands(provider, routes[..0]) == {};
    assert ds + {} == ds;
    for i := 0 to |routes|
      invariant Built(desired, ds + ProviderDemands(provider, routes[..i]))
      invariant ok && forall j | 0 <= j < i :: ValidKind(routes[j].kind)
    {
      if !ValidKind(routes[i].kind) {
        return desired, false;
      }
      ghost var x := Demand(provider, routes[i].kind, routes[i].filters);
      var key := KeyOf(provider, routes[i].kind);
      var route := if key in desired then desired[key] else Route(provider, routes[i].kind, [], [], []);
      var merged := MergeFilters(route.filters, routes[i].filters);
      ghost var done := ds + ProviderDemands(provider, routes[..i]);
      AddDemand(desired, done, x, route);
      assert routes[..i + 1] == routes[..i] + [routes[i]];
      assert ds + ProviderDemands(provider, routes[..i + 1]) == done + {x};
      desired := desired[key := route.(filters := merged)];
    }
    assert routes[..|routes|] == routes;
  }

  method AddRegistration(start: map<RouteKey, Route>, reg: Registration, ghost ds: set<Demand>)
    returns (desired: map<RouteKey, Route>, ok: bool)
    requires Built(start, ds)
    ensures ok <==> reg.providers == [] || forall i | 0 <= i < |reg.routes| :: ValidKind(reg.routes[i].kind)
    ensures ok ==> Built(desired, ds + RegistrationDemands(reg))
  {
    hide Built, ValidKind;
    desired, ok := start, true;
    ghost var done: set<Demand> := {};
    assert ds + {} == ds;
    for i := 0 to |reg.providers|
      invariant done == set p, x | p in reg.providers[..i] && x in ProviderDemands(p, reg.routes) :: x
      invariant Built(desired, ds + done)
      invariant ok && (i > 0 ==> forall j | 0 <= j < |reg.routes| :: ValidKind(reg.routes[j].kind))
    {
      ghost var own := ProviderDemands(reg.providers[i], reg.routes);
      desired, ok := AddProvider(desired, reg.providers[i], reg.routes, ds + done);
      if !ok {
        return;
      }
      assert ds + done + own == ds + (done + own);
      assert reg.providers[..i + 1] == reg.providers[..i] + [reg.providers[i]];
      done := done + own;
    }
    assert reg.providers[..|reg.providers|] == reg.providers;
    assert done == RegistrationDemands(reg);
  }

  /** The registrations are visited in whatever order :| picks. */
  method BuildDesired(state: Snapshot) returns (desired: map<RouteKey, Route>, ok: bool)
    ensures (forall id | id in state :: Registered(state[id])) ==> ok
    ensures ok ==> Built(desired, Demands(state))
  {
    hide Registered, Built;
    desired, ok := map[], true;
    BuiltNone();
    var left := state.Keys;
    assert DemandsOf(state, state.Keys - left) == {};
    while left != {}
      invariant ok && left <= state.Keys
      invariant Built(desired, DemandsOf(state, state.Keys - left))
    {
      var id :| id in left;
      ghost var before := state.Keys - left;
      RegisteredKinds(state[id]);
      desired, ok := AddRegistration(desired, state[id], DemandsOf(state, before));
      if !ok {
        return;
      }
      assert DemandsOf(state, before + {id}) == DemandsOf(state, before) + RegistrationDemands(state[id]);
      left := left - {id};
      assert state.Keys - left == before + {id};
    }
    assert state.Keys - left == state.Keys;
  }

  lemma BuiltNone()
    ensures Built(map[], {})
  {
  }

  lemma RegisteredKinds(reg: Registration)
    ensures Registered(reg) ==> forall i | 0 <= i < |reg.routes| :: ValidKind(reg.routes[i].kind)
  {
  }

  lemma BuiltExists(ds: set<Demand>)
    ensures exists desired: map<RouteKey, Route> :: Built(desired, ds)
  {
    var keys := set x | x in ds :: x.Key();
    var desired := map k | k in keys :: RouteOf(ds, k);
    assert forall x | x in ds :: x.Key() in keys;
    assert Built(desired, ds);
  }

  ghost function RouteOf(ds: set<Demand>, key: RouteKey): (r: Route)
    requires exists x :: x in ds && x.Key() == key
    ensures Serves(r, ds, key)
  {
    var x :| x in ds && x.Key() == key;
    Route(x.provider, x.kind, [], [], Canon(Pooled(FiltersFor(ds, key))))
  }

  /** Two walks over the same registrations want the same routes. */
  lemma DesiredConfluent(a: map<RouteKey, Route>, b: map<RouteKey, Route>, ds: set<Demand>)
    requires Built(a, ds) && Built(b, ds) && forall x | x in ds :: NormalizeKind(x.kind) == x.kind
    ensures a.Keys == b.Keys && forall k | k in a :: EqualRoutes(a[k], b[k]) && a[k].(provider := b[k].provider) == b[k]
  {
    forall k | k in a
      ensures k in b && EqualRoutes(a[k], b[k]) && a[k].(provider := b[k].provider) == b[k]
    {
      var x :| x in ds && x.Key() == k && x.provider == a[k].provider && x.kind == a[k].kind;
      var y :| y in ds && y.Key() == k && y.provider == b[k].provider && y.kind == b[k].kind;
    }
  }
}
