/**
 When the registrar takes two routes for the same. The comparison prints each
 filter as one line of text; here is how much of the filter that line tells.
 */
module RouteCompare {
  import Text
  import opened Ordering
  import opened FilterValues
  import opened FilterMerge

  datatype RestFn = RestFn(name: string, endpoint: string, interval: int, parser: string)

  datatype Route = Route(
    provider: string, kind: string, wsTopics: seq<string>, restFns: seq<RestFn>, filters: seq<Rule>)

  function Digits(n: nat): string {
    if n < 10 then ["0123456789"[n]] else Digits(n / 10) + ["0123456789"[n % 10]]
  }

  function Decimal(n: int): string {
    if n < 0 then "-" + Digits(-n) else Digits(n)
  }

  function RestSignature(fn: RestFn): string {
    Text.Trim(fn.name) + "|" + Text.Trim(fn.endpoint) + "|" + Decimal(fn.interval) + "|" + Text.Trim(fn.parser)
  }

  function FilterSignature(rule: Rule): string {
    Text.Trim(Text.Lower(rule.field)) + "|" + Text.Trim(Text.Lower(rule.op)) + "|" + Join(Sort(Flatten(rule.value)), ",")
  }

  function RestSignatures(fns: seq<RestFn>): seq<string> {
    seq(|fns|, i requires 0 <= i < |fns| => RestSignature(fns[i]))
  }

  function FilterSignatures(rules: seq<Rule>): seq<string> {
    seq(|rules|, i requires 0 <= i < |rules| => FilterSignature(rules[i]))
  }

  /** The same strings, each as often. */
  predicate SameLines(a: seq<string>, b: seq<string>) {
    Sort(a) == Sort(b)
  }

  predicate EqualFilters(a: seq<Rule>, b: seq<Rule>) {
    SameLines(FilterSignatures(a), FilterSignatures(b))
  }

  predicate EqualRoutes(a: Route, b: Route) {
    && Text.Trim(Text.Lower(a.provider)) == Text.Trim(Text.Lower(b.provider))
    && a.kind == b.kind
    && SameLines(TrimAll(a.wsTopics), TrimAll(b.wsTopics))
    && SameLines(RestSignatures(a.restFns), RestSignatures(b.restFns))
    && EqualFilters(a.filters, b.filters)
  }

  lemma SameLinesAsMultisets(a: seq<string>, b: seq<string>)
    ensures SameLines(a, b) <==> multiset(a) == multiset(b)
    ensures SameLines(a, b) ==> |a| == |b|
  {
    SortSorts(a);
    SortSorts(b);
    if multiset(a) == multiset(b) {
      SortedUnique(Sort(a), Sort(b));
    }
  }

  /** Comparing two routes as the code does, line by line after sorting. */
  method CompareSorted(a: seq<string>, b: seq<string>) returns (same: bool)
    ensures same == SameLines(a, b)
  {
    if |a| != |b| {
      return false;
    }
    var lhs, rhs := Sort(a), Sort(b);
    for i := 0 to |lhs|
      invariant lhs[..i] == rhs[..i]
    {
      if lhs[i] != rhs[i] {
        return false;
      }
      assert lhs[..i + 1] == lhs[..i] + [lhs[i]] && rhs[..i + 1] == rhs[..i] + [rhs[i]];
    }
    assert lhs[..|lhs|] == lhs && rhs[..|lhs|] == rhs;
    return true;
  }

  method CompareRoutes(a: Route, b: Route) returns (same: bool)
    ensures same == EqualRoutes(a, b)
  {
    if Text.Trim(Text.Lower(a.provider)) != Text.Trim(Text.Lower(b.provider)) || a.kind != b.kind {
      return false;
    }
    same := CompareSorted(TrimAll(a.wsTopics), TrimAll(b.wsTopics));
    if !same {
      return;
    }
    same := CompareSorted(RestSignatures(a.restFns), RestSignatures(b.restFns));
    if !same {
      return;
    }
    same := CompareSorted(FilterSignatures(a.filters), FilterSignatures(b.filters));
  }

  /**
   Two routes are the same exactly if they agree on the kind, on the provider up to
   letter case and space, and on how often each topic, call and filter line occurs,
   whatever their order.
   */
  lemma EqualRoutesExactly(a: Route, b: Route)
    ensures EqualRoutes(a, b) <==>
              && Text.Trim(Text.Lower(a.provider)) == Text.Trim(Text.Lower(b.provider))
              && a.kind == b.kind
              && multiset(TrimAll(a.wsTopics)) == multiset(TrimAll(b.wsTopics))
              && multiset(RestSignatures(a.restFns)) == multiset(RestSignatures(b.restFns))
              && multiset(FilterSignatures(a.filters)) == multiset(FilterSignatures(b.filters))
  {
    hide Sort, SameLines, TrimAll, RestSignatures, FilterSignatures, Text.Trim, Text.Lower;
    SameLinesAsMultisets(TrimAll(a.wsTopics), TrimAll(b.wsTopics));
    SameLinesAsMultisets(RestSignatures(a.restFns), RestSignatures(b.restFns));
    SameLinesAsMultisets(FilterSignatures(a.filters), FilterSignatures(b.filters));
  }

  lemma EqualRoutesEquivalence(a: Route, b: Route, c: Route)
    ensures EqualRoutes(a, a)
    ensures EqualRoutes(a, b) ==> EqualRoutes(b, a)
    ensures EqualRoutes(a, b) && EqualRoutes(b, c) ==> EqualRoutes(a, c)
  {
  }

  // --- Reading a line back ----------------------------------------------------------

  /**
   Field sets whose lines can be read back: lower-case fields without the column
   mark, and no comma in a field's values unless it has exactly one.
   */
  ghost predicate Legible(m: FieldSets) {
    && Clean(m)
    && forall f | f in m ::
         && Text.IsLower(f) && '|' !in f
         && (|m[f]| != 1 ==> forall v | v in m[f] :: ',' !in v)
  }

  lemma {:induction false} JoinHead(parts: seq<string>, sep: char)
    requires |parts| >= 2
    ensures Join(parts, [sep]) == parts[0] + [sep] + Join(parts[1..], [sep])
  {
  }

  lemma PrefixUntil(a: string, b: string, x: string, y: string, sep: char)
    requires sep !in a && sep !in b && a + [sep] + x == b + [sep] + y
    ensures a == b && x == y
  {
    var s, t := a + [sep] + x, b + [sep] + y;
    assert s[|a|] == sep && t[|b|] == sep;
    assert forall i | 0 <= i < |a| :: s[i] != sep;
    assert forall i | 0 <= i < |b| :: t[i] != sep;
    assert |a| == |b|;
    assert s[..|a|] == a && t[..|b|] == b;
    assert s[|a| + 1..] == x && t[|b| + 1..] == y;
  }

  lemma {:induction false} DigitsOnly(n: nat)
    ensures Digits(n) != [] && forall c | c in Digits(n) :: '0' <= c <= '9'
    ensures n > 0 ==> Digits(n)[0] != '0'
  {
    if n >= 10 {
      DigitsOnly(n / 10);
    }
  }

  lemma {:induction false} DigitsInjective(m: nat, n: nat)
    requires Digits(m) == Digits(n)
    ensures m == n
  {
    var a, b := Digits(m), Digits(n);
    assert a[|a| - 1] == "0123456789"[m % 10] && b[|b| - 1] == "0123456789"[n % 10];
    assert m % 10 == n % 10;
    if m >= 10 {
      DigitsOnly(m / 10);
    }
    if n >= 10 {
      DigitsOnly(n / 10);
    }
    if m >= 10 && n >= 10 {
      assert a[..|a| - 1] == Digits(m / 10) && b[..|b| - 1] == Digits(n / 10);
      DigitsInjective(m / 10, n / 10);
    }
  }

  lemma DecimalInjective(m: int, n: int)
    ensures Decimal(m) == Decimal(n) <==> m == n
    ensures '|' !in Decimal(m)
  {
    var x: nat, y: nat := if m < 0 then -m else m, if n < 0 then -n else n;
    DigitsOnly(x);
    DigitsOnly(y);
    if Decimal(m) == Decimal(n) {
      assert m < 0 ==> Decimal(m)[0] == '-' && Decimal(m)[1..] == Digits(x);
      assert n < 0 ==> Decimal(n)[0] == '-' && Decimal(n)[1..] == Digits(y);
      assert m >= 0 ==> Decimal(m)[0] in Digits(x);
      assert n >= 0 ==> Decimal(n)[0] in Digits(y);
      DigitsInjective(x, y);
    }
  }

  /** The line of a REST call tells all four of its parts, if there is no column mark in a name or endpoint. */
  lemma RestLineExact(a: RestFn, b: RestFn)
    requires '|' !in Text.Trim(a.name) && '|' !in Text.Trim(b.name)
    requires '|' !in Text.Trim(a.endpoint) && '|' !in Text.Trim(b.endpoint)
    ensures RestSignature(a) == RestSignature(b) <==>
              && Text.Trim(a.name) == Text.Trim(b.name) && Text.Trim(a.endpoint) == Text.Trim(b.endpoint)
              && a.interval == b.interval && Text.Trim(a.parser) == Text.Trim(b.parser)
  {
    hide Text.Trim, Decimal;
    DecimalInjective(a.interval, b.interval);
    DecimalInjective(b.interval, a.interval);
    RestColumns(Text.Trim(a.name), Text.Trim(a.endpoint), Decimal(a.interval), Text.Trim(a.parser),
                Text.Trim(b.name), Text.Trim(b.endpoint), Decimal(b.interval), Text.Trim(b.parser));
  }

  lemma RestColumns(n: string, e: string, d: string, p: string, m: string, f: string, c: string, q: string)
    requires '|' !in n && '|' !in m && '|' !in e && '|' !in f && '|' !in d && '|' !in c
    ensures n + "|" + e + "|" + d + "|" + p == m + "|" + f + "|" + c + "|" + q <==> n == m && e == f && d == c && p == q
  {
    var x, y := d + ['|'] + p, c + ['|'] + q;
    assert n + "|" + e + "|" + d + "|" + p == n + ['|'] + (e + ['|'] + x);
    assert m + "|" + f + "|" + c + "|" + q == m + ['|'] + (f + ['|'] + y);
    if n + "|" + e + "|" + d + "|" + p == m + "|" + f + "|" + c + "|" + q {
      PrefixUntil(n, m, e + ['|'] + x, f + ['|'] + y, '|');
      PrefixUntil(e, f, x, y, '|');
      PrefixUntil(d, c, p, q, '|');
    }
  }

  lemma CommaIn(parts: seq<string>)
    requires |parts| >= 2
    ensures ',' in Join(parts, ",")
  {
    JoinHead(parts, ',');
  }

  lemma {:induction false} JoinInjective(a: seq<string>, b: seq<string>)
    requires a != [] && b != [] && Join(a, ",") == Join(b, ",")
    requires (forall s | s in a :: ',' !in s) && (forall s | s in b :: ',' !in s)
    ensures a == b
  {
    assert a[0] in a && b[0] in b;
    if |a| >= 2 { CommaIn(a); }
    if |b| >= 2 { CommaIn(b); }
    if |a| >= 2 && |b| >= 2 {
      JoinHead(a, ',');
      JoinHead(b, ',');
      PrefixUntil(a[0], b[0], Join(a[1..], ","), Join(b[1..], ","), ',');
      JoinInjective(a[1..], b[1..]);
      assert a == [a[0]] + a[1..] && b == [b[0]] + b[1..];
    }
  }

  /** Lists of other than one comma-free string print differently. */
  lemma JoinInjectivePlural(a: seq<string>, b: seq<string>)
    requires |a| != 1 && |b| != 1 && Join(a, ",") == Join(b, ",")
    requires (forall s | s in a :: ',' !in s) && (forall s | s in b :: ',' !in s)
    ensures a == b
  {
    if a != [] { CommaIn(a); }
    if b != [] { CommaIn(b); }
    if a != [] && b != [] {
      JoinInjective(a, b);
    }
  }

  function OpFor(values: set<string>): string {
    if |values| == 1 then "eq" else "in"
  }

  lemma ValuesOfRule(f: string, values: set<string>)
    requires forall v | v in values :: Text.Trim(v) == v
    ensures RuleFor(f, values).op == OpFor(values)
    ensures Sort(Flatten(RuleFor(f, values).value)) == Listing(values)
  {
    hide Sort, Text.Trim;
    var listed := Listing(values);
    forall i | 0 <= i < |listed| ensures Text.Trim(listed[i]) == listed[i] {
      assert listed[i] in Elements(listed);
    }
    assert Flatten(RuleFor(f, values).value) == listed;
    SortLists(listed, values);
  }

  lemma LineOf(m: FieldSets, f: string)
    requires Legible(m) && f in m
    ensures FilterSignature(RuleFor(f, m[f])) == f + "|" + OpFor(m[f]) + "|" + Join(Listing(m[f]), ",")
  {
    hide Sort, Join, Text.Trim, Text.Lower, Listing, RuleFor, Flatten;
    ValuesOfRule(f, m[f]);
    FieldOfRule(f, m[f]);
    Text.LowerFixed(f);
    OperatorsNormal();
  }

  lemma LegibleField(m: FieldSets, f: string)
    requires Legible(m) && f in m
    ensures '|' !in f && '|' !in OpFor(m[f]) && (OpFor(m[f]) == "eq" <==> |m[f]| == 1)
    ensures |m[f]| != 1 ==> forall v | v in m[f] :: ',' !in v
  {
  }

  lemma LineInjective(a: FieldSets, b: FieldSets, f: string, g: string)
    requires Legible(a) && Legible(b) && f in a && g in b
    requires FilterSignature(RuleFor(f, a[f])) == FilterSignature(RuleFor(g, b[g]))
    ensures f == g && a[f] == b[g]
  {
    hide *;
    LineOf(a, f);
    LineOf(b, g);
    LegibleField(a, f);
    LegibleField(b, g);
    LineParts(f, OpFor(a[f]), Join(Listing(a[f]), ","), g, OpFor(b[g]), Join(Listing(b[g]), ","));
    ListingsFromJoins(a[f], b[g]);
  }

  lemma LineParts(f: string, op: string, values: string, g: string, other: string, others: string)
    requires '|' !in f && '|' !in g && '|' !in op && '|' !in other
    requires f + "|" + op + "|" + values == g + "|" + other + "|" + others
    ensures f == g && op == other && values == others
  {
    var x, y := op + "|" + values, other + "|" + others;
    assert f + "|" + x == f + "|" + op + "|" + values;
    assert g + "|" + y == g + "|" + other + "|" + others;
    PrefixUntil(f, g, x, y, '|');
    PrefixUntil(op, other, values, others, '|');
  }

  lemma ListingsFromJoins(v: set<string>, w: set<string>)
    requires (|v| == 1) == (|w| == 1) && Join(Listing(v), ",") == Join(Listing(w), ",")
    requires |v| != 1 ==> (forall s | s in v :: ',' !in s) && (forall s | s in w :: ',' !in s)
    ensures v == w
  {
    var p, q := Listing(v), Listing(w);
    if |v| != 1 {
      assert forall s | s in p :: s in Elements(p);
      assert forall s | s in q :: s in Elements(q);
      JoinInjectivePlural(p, q);
    } else {
      assert p == [p[0]] && q == [q[0]];
    }
    assert Elements(p) == Elements(q);
  }

  lemma LinesCover(a: FieldSets, b: FieldSets, f: string)
    requires Legible(a) && Legible(b) && EqualFilters(Canon(a), Canon(b)) && f in a
    ensures f in b && a[f] == b[f]
  {
    hide FilterSignature, RuleFor;
    var p, q := FilterSignatures(Canon(a)), FilterSignatures(Canon(b));
    SameLinesAsMultisets(p, q);
    var fs, gs := Listing(a.Keys), Listing(b.Keys);
    assert f in Elements(fs);
    var i :| 0 <= i < |fs| && fs[i] == f;
    assert p[i] == FilterSignature(RuleFor(f, a[f]));
    assert p[i] in multiset(q);
    var j :| 0 <= j < |q| && q[j] == p[i];
    assert gs[j] in Elements(gs);
    assert q[j] == FilterSignature(RuleFor(gs[j], b[gs[j]]));
    LineInjective(a, b, f, gs[j]);
  }

  /** On merged rules that can be read back, the comparison is exact. */
  lemma EqualFiltersExact(a: FieldSets, b: FieldSets)
    requires Legible(a) && Legible(b)
    ensures EqualFilters(Canon(a), Canon(b)) <==> a == b
  {
    hide Legible, Canon, FilterSignatures;
    if EqualFilters(Canon(a), Canon(b)) {
      forall f ensures f in a <==> f in b {
        if f in a { LinesCover(a, b, f); }
        if f in b { LinesCover(b, a, f); }
      }
      forall f | f in a ensures a[f] == b[f] {
        LinesCover(a, b, f);
      }
    }
  }
}
