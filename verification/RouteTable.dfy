/** The dispatch table, and what a lambda may register. */
module RouteTable {
  import opened Common
  import Text
  import opened FilterValues
  import opened FilterMerge
  import opened RouteCompare

  datatype RouteKey = RouteKey(provider: string, kind: string)

  function NormalizeKind(kind: string): string {
    Text.Upper(Text.Trim(kind))
  }

  function KeyOf(provider: string, kind: string): RouteKey {
    RouteKey(Text.Trim(Text.Lower(provider)), NormalizeKind(kind))
  }

  function RouteKeyOf(route: Route): RouteKey {
    KeyOf(route.provider, route.kind)
  }

  /** The character test of the route type check, with Go's precedence. */
  predicate BadKindChar(c: char) {
    c < 'A' || (c > 'Z' && (c < '0' || c > '9'))
  }

  predicate ValidKind(kind: string) {
    && NormalizeKind(kind) != [] && NormalizeKind(kind) == kind
    && forall i | 0 <= i < |Split(kind, '.')| ::
         Split(kind, '.')[i] != [] && forall c | c in Split(kind, '.')[i] :: !BadKindChar(c)
  }

  /** Non-empty segments of upper-case letters, with single dots between them. */
  predicate DottedLetters(kind: string) {
    && kind != [] && kind[0] != '.' && kind[|kind| - 1] != '.'
    && (forall i | 0 <= i < |kind| :: 'A' <= kind[i] <= 'Z' || kind[i] == '.')
    && (forall i | 0 < i < |kind| :: !(kind[i - 1] == '.' && kind[i] == '.'))
  }

  predicate Letters(part: string) {
    part != [] && forall i | 0 <= i < |part| :: 'A' <= part[i] <= 'Z'
  }

  predicate AllLetters(parts: seq<string>) {
    forall i | 0 <= i < |parts| :: Letters(parts[i])
  }

  /** The first segment may go on with a letter, or end before a dot and another segment. */
  lemma SplitOff(s: string)
    requires s != []
    ensures AllLetters(Split(s, '.')) <==>
              'A' <= s[0] <= 'Z' &&
              (|s| == 1 || (s[1] != '.' && AllLetters(Split(s[1..], '.'))) || (s[1] == '.' && AllLetters(Split(s[2..], '.'))))
  {
    var rest, all := Split(s[1..], '.'), Split(s, '.');
    if s[0] == '.' {
      assert all[0] == [];
    } else {
      assert all == [[s[0]] + rest[0]] + rest[1..];
      FirstSegment(s[0], rest);
      if |s| > 1 && s[1] == '.' {
        assert s[1..][1..] == s[2..];
        assert rest == [[]] + Split(s[2..], '.');
        assert rest[1..] == Split(s[2..], '.');
      }
      if |s| == 1 {
        assert rest == [[]] && rest[1..] == [];
      }
      if |s| > 1 && s[1] != '.' {
        assert rest[0] != [];
      }
    }
  }

  lemma FirstSegment(c: char, rest: seq<string>)
    requires rest != []
    ensures AllLetters([[c] + rest[0]] + rest[1..]) <==>
              'A' <= c <= 'Z' && (rest[0] == [] || Letters(rest[0])) && AllLetters(rest[1..])
    ensures AllLetters(rest) <==> Letters(rest[0]) && AllLetters(rest[1..])
  {
    var all, part := [[c] + rest[0]] + rest[1..], [c] + rest[0];
    assert forall i | 0 <= i < |rest[0]| :: part[i + 1] == rest[0][i];
    assert part[0] == c;
    assert forall i | 0 <= i < |rest[1..]| :: all[i + 1] == rest[1..][i] == rest[i + 1];
    assert all[0] == part;
    assert Letters(part) <==> 'A' <= c <= 'Z' && (rest[0] == [] || Letters(rest[0])) by {
      if Letters(part) {
        forall i | 0 <= i < |rest[0]| ensures 'A' <= rest[0][i] <= 'Z' {
          assert 'A' <= part[i + 1] <= 'Z';
        }
      }
    }
    if AllLetters(all) {
      forall i | 0 <= i < |rest[1..]| ensures Letters(rest[1..][i]) {
        assert Letters(all[i + 1]);
      }
    }
    if AllLetters(rest) {
      forall i | 0 <= i < |rest[1..]| ensures Letters(rest[1..][i]) {
        assert Letters(rest[i + 1]);
      }
    }
  }

  lemma DottedOff(s: string)
    requires s != []
    ensures DottedLetters(s) <==>
              'A' <= s[0] <= 'Z' &&
              (|s| == 1 || (s[1] != '.' && DottedLetters(s[1..])) || (s[1] == '.' && DottedLetters(s[2..])))
  {
    if |s| > 1 {
      var t, u := s[1..], s[2..];
      assert forall i | 0 <= i < |t| :: t[i] == s[i + 1];
      assert forall i | 0 <= i < |u| :: u[i] == s[i + 2];
      if s[1] != '.' && DottedLetters(t) && 'A' <= s[0] <= 'Z' {
        forall i | 0 <= i < |s| ensures 'A' <= s[i] <= 'Z' || s[i] == '.' {
          assert i > 0 ==> s[i] == t[i - 1];
        }
        forall i | 0 < i < |s| ensures !(s[i - 1] == '.' && s[i] == '.') {
          assert i > 1 ==> s[i] == t[i - 1] && s[i - 1] == t[i - 2];
        }
      }
      if s[1] == '.' && DottedLetters(u) && 'A' <= s[0] <= 'Z' {
        forall i | 0 <= i < |s| ensures 'A' <= s[i] <= 'Z' || s[i] == '.' {
          assert i > 1 ==> s[i] == u[i - 2];
        }
        forall i | 0 < i < |s| ensures !(s[i - 1] == '.' && s[i] == '.') {
          assert i > 2 ==> s[i] == u[i - 2] && s[i - 1] == u[i - 3];
        }
      }
    }
  }

  lemma {:induction false} SegmentsAreDotted(s: string)
    ensures AllLetters(Split(s, '.')) <==> DottedLetters(s)
  {
    if s == [] {
      assert Split(s, '.')[0] == [];
    } else {
      SegmentsAreDotted(s[1..]);
      if |s| > 1 {
        SegmentsAreDotted(s[2..]);
      }
      hide AllLetters, DottedLetters, Split;
      SplitOff(s);
      DottedOff(s);
    }
  }

  lemma GoodChars(part: string)
    ensures Letters(part) <==> part != [] && forall c | c in part :: !BadKindChar(c)
  {
    assert forall c | c in part :: !BadKindChar(c) <==> 'A' <= c <= 'Z';
    assert forall i | 0 <= i < |part| :: part[i] in part;
  }

  /**
   Exactly which route types are valid: dotted upper-case letters. The check is written
   and documented for letters and digits, but its character test lets no digit pass.
   */
  lemma ValidKindsExactly(kind: string)
    ensures ValidKind(kind) <==> DottedLetters(kind)
  {
    SegmentsAreDotted(kind);
    var parts := Split(kind, '.');
    forall i | 0 <= i < |parts|
      ensures Letters(parts[i]) <==> parts[i] != [] && forall c | c in parts[i] :: !BadKindChar(c)
    {
      GoodChars(parts[i]);
    }
    hide Split;
    if DottedLetters(kind) {
      assert !Text.IsSpace(kind[0]) && !Text.IsSpace(kind[|kind| - 1]);
      Text.TrimmedFixed(kind);
      assert Text.Upper(kind) == kind;
    }
  }

  /** So a bar of one minute cannot be asked for. */
  lemma DigitsRejected()
    ensures !ValidKind("KLINE.1M") && ValidKind("KLINE.M")
  {
    hide ValidKind;
    ValidKindsExactly("KLINE.1M");
    ValidKindsExactly("KLINE.M");
    assert "KLINE.1M"[6] == '1';
  }

  predicate ValidRestFn(fn: RestFn) {
    Text.Trim(fn.name) != [] && Text.Trim(fn.endpoint) != [] && fn.interval > 0
  }

  predicate ValidRule(rule: Rule) {
    Text.Trim(rule.field) != [] && Text.Trim(rule.op) != []
  }

  predicate Storable(route: Route) {
    && ValidKind(route.kind) && Text.Trim(route.provider) != []
    && (forall i | 0 <= i < |route.restFns| :: ValidRestFn(route.restFns[i]))
    && (forall i | 0 <= i < |route.filters| :: ValidRule(route.filters[i]))
  }

  class Table {
    var routes: map<RouteKey, Route>
    var version: int

    /** Every route is stored under its own key. */
    ghost predicate Valid()
      reads this
    {
      Keyed(routes)
    }

    constructor ()
      ensures Valid() && routes == map[] && version == 0
    {
      routes := map[];
      version := 0;
    }

    method Upsert(route: Route) returns (ok: bool)
      requires Valid()
      modifies this`routes
      ensures Valid() && ok == Storable(route)
      ensures ok <==>
                && DottedLetters(route.kind) && Text.Trim(route.provider) != ""
                && (forall i | 0 <= i < |route.restFns| ::
                      Text.Trim(route.restFns[i].name) != "" && Text.Trim(route.restFns[i].endpoint) != "" && route.restFns[i].interval > 0)
                && (forall i | 0 <= i < |route.filters| :: Text.Trim(route.filters[i].field) != "" && Text.Trim(route.filters[i].op) != "")
      ensures routes == if ok then old(routes)[RouteKeyOf(route) := route.(provider := Text.Trim(route.provider))] else old(routes)
    {
      ValidKindsExactly(route.kind);
      hide DottedLetters;
      if !ValidKind(route.kind) {
        return false;
      }
      var stored := route.(kind := NormalizeKind(route.kind), provider := Text.Trim(route.provider));
      if stored.provider == [] {
        return false;
      }
      for i := 0 to |stored.restFns|
        invariant forall j | 0 <= j < i :: ValidRestFn(stored.restFns[j])
      {
        if !ValidRestFn(stored.restFns[i]) {
          return false;
        }
      }
      for i := 0 to |stored.filters|
        invariant forall j | 0 <= j < i :: ValidRule(stored.filters[j])
      {
        if !ValidRule(stored.filters[i]) {
          return false;
        }
      }
      TrimLowerCommute(route.provider);
      routes := routes[RouteKeyOf(stored) := stored];
      return true;
    }

    method Remove(provider: string, kind: string)
      requires Valid()
      modifies this`routes
      ensures Valid() && routes == old(routes) - {KeyOf(provider, kind)}
    {
      routes := routes - {KeyOf(provider, kind)};
    }

    method Lookup(provider: string, kind: string) returns (route: Option<Route>)
      ensures route == if KeyOf(provider, kind) in routes then Some(routes[KeyOf(provider, kind)]) else None
    {
      var key := KeyOf(provider, kind);
      if key in routes {
        return Some(routes[key]);
      }
      return None;
    }

    method NextVersion() returns (v: int)
      modifies this`version
      ensures v == version == old(version) + 1
    {
      version := version + 1;
      return version;
    }
  }

  predicate Keyed(routes: map<RouteKey, Route>) {
    forall k | k in routes :: RouteKeyOf(routes[k]) == k
  }

  lemma TrimThenLower(s: string)
    ensures Text.Trim(Text.Lower(s)) == Text.Lower(Text.Trim(s))
  {
    TrimLeftLower(s);
    TrimRightLower(Text.TrimLeft(s));
  }

  /** Two providers and kinds share a key exactly if they agree up to letter case and surrounding space. */
  lemma KeysExactly(p: string, k: string, q: string, j: string)
    ensures KeyOf(p, k) == KeyOf(q, j) <==>
              Text.Lower(Text.Trim(p)) == Text.Lower(Text.Trim(q)) && Text.Upper(Text.Trim(k)) == Text.Upper(Text.Trim(j))
  {
    hide Text.Trim, Text.Lower, Text.Upper;
    TrimThenLower(p);
    TrimThenLower(q);
  }

  /** Trimming before lower-casing gives the same key as trimming after. */
  lemma {:induction false} TrimLowerCommute(s: string)
    ensures Text.Trim(Text.Lower(Text.Trim(s))) == Text.Trim(Text.Lower(s))
  {
    Text.TrimTrims(s);
    Text.LowerLower(Text.Trim(s));
    Text.TrimmedFixed(Text.Lower(Text.Trim(s)));
    TrimLeftLower(s);
    TrimRightLower(Text.TrimLeft(s));
  }

  lemma {:induction false} TrimLeftLower(s: string)
    ensures Text.TrimLeft(Text.Lower(s)) == Text.Lower(Text.TrimLeft(s))
  {
    if s != [] && Text.IsSpace(s[0]) {
      assert Text.Lower(s)[1..] == Text.Lower(s[1..]);
      TrimLeftLower(s[1..]);
    }
  }

  lemma {:induction false} TrimRightLower(s: string)
    ensures Text.TrimRight(Text.Lower(s)) == Text.Lower(Text.TrimRight(s))
  {
    if s != [] && Text.IsSpace(s[|s| - 1]) {
      assert Text.Lower(s)[..|s| - 1] == Text.Lower(s[..|s| - 1]);
      TrimRightLower(s[..|s| - 1]);
    }
  }

  // --- Registrations ----------------------------------------------------------------------

  datatype RouteDeclaration = RouteDeclaration(kind: string, filters: Declaration)

  datatype Registration = Registration(providers: seq<string>, routes: seq<RouteDeclaration>)

  /** What the registrar accepts into its map of lambdas. */
  predicate Registered(reg: Registration) {
    && reg.providers != []
    && (forall i | 0 <= i < |reg.providers| :: reg.providers[i] != [] && Text.Trim(reg.providers[i]) == reg.providers[i])
    && (forall i, j | 0 <= i < j < |reg.providers| :: reg.providers[i] != reg.providers[j])
    && (forall i | 0 <= i < |reg.routes| :: ValidKind(reg.routes[i].kind))
  }

  /** What is kept stands in the order in which it first occurs. */
  ghost predicate FirstSeen(items: seq<string>, out: seq<string>, at: seq<nat>) {
    && |at| == |out| && (forall k, l | 0 <= k < l < |at| :: at[k] < at[l])
    && forall k | 0 <= k < |at| ::
         at[k] < |items| && Text.Trim(items[at[k]]) == out[k] && forall j | 0 <= j < at[k] :: Text.Trim(items[j]) != out[k]
  }

  lemma NoneSeen(items: seq<string>)
    ensures FirstSeen(items, [], [])
  {
  }

  lemma SeenNext(items: seq<string>, out: seq<string>, at: seq<nat>, i: nat)
    requires FirstSeen(items, out, at) && (forall k | 0 <= k < |at| :: at[k] < i) && i < |items|
    requires forall j | 0 <= j < i :: Text.Trim(items[j]) != Text.Trim(items[i])
    ensures FirstSeen(items, out + [Text.Trim(items[i])], at + [i])
  {
    hide Text.Trim;
  }

  method NormalizeProviders(providers: seq<string>) returns (out: seq<string>)
    ensures exists at :: FirstSeen(providers, out, at)
    ensures forall i | 0 <= i < |out| :: out[i] != [] && Text.Trim(out[i]) == out[i]
    ensures forall i, j | 0 <= i < j < |out| :: out[i] != out[j]
    ensures forall p :: p in out <==> exists i :: 0 <= i < |providers| && p == Text.Trim(providers[i]) && p != []
  {
    hide FirstSeen;
    out := [];
    var seen: set<string> := {};
    NoneSeen(providers);
    ghost var at: seq<nat> := [];
    for i := 0 to |providers|
      invariant FirstSeen(providers, out, at) && forall k | 0 <= k < |at| :: at[k] < i
      invariant forall j | 0 <= j < |out| :: out[j] != [] && Text.Trim(out[j]) == out[j]
      invariant forall j, k | 0 <= j < k < |out| :: out[j] != out[k]
      invariant forall p :: p in out <==> p in seen
      invariant forall p :: p in seen <==> exists j :: 0 <= j < i && p == Text.Trim(providers[j]) && p != []
    {
      var candidate := Text.Trim(providers[i]);
      Text.TrimTrims(providers[i]);
      if candidate != [] && candidate !in seen {
        SeenNext(providers, out, at, i);
        seen := seen + {candidate};
        out := out + [candidate];
        at := at + [i];
      }
    }
  }

  /** An error, or the trimmed id with a registration fit for the map. */
  method NormalizeRegistration(id: string, providers: seq<string>, routes: seq<RouteDeclaration>)
    returns (reg: Option<(string, Registration)>)
    ensures reg.Some? <==>
              && Text.Trim(id) != []
              && (exists i :: 0 <= i < |providers| && Text.Trim(providers[i]) != [])
              && (forall i | 0 <= i < |routes| :: ValidKind(routes[i].kind))
    ensures reg.Some? ==>
              && reg.value.0 == Text.Trim(id) && Registered(reg.value.1) && reg.value.1.routes == routes
              && (exists at :: FirstSeen(providers, reg.value.1.providers, at))
              && forall p :: p in reg.value.1.providers <==>
                               exists i :: 0 <= i < |providers| && p == Text.Trim(providers[i]) && p != []
  {
    if Text.Trim(id) == [] {
      return None;
    }
    var normalized := NormalizeProviders(providers);
    if normalized == [] {
      assert forall i | 0 <= i < |providers| :: Text.Trim(providers[i]) != [] ==> Text.Trim(providers[i]) in normalized;
      return None;
    }
    assert normalized[0] in normalized;
    var copied: seq<RouteDeclaration> := [];
    for i := 0 to |routes|
      invariant copied == routes[..i]
      invariant forall j | 0 <= j < i :: ValidKind(routes[j].kind)
    {
      if !ValidKind(routes[i].kind) {
        return None;
      }
      copied := copied + [RouteDeclaration(NormalizeKind(routes[i].kind), routes[i].filters)];
    }
    assert copied == routes;
    return Some((Text.Trim(id), Registration(normalized, copied)));
  }
}
