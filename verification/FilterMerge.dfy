/**
 Merging the filters that lambdas declare for one route. Go walks its maps in
 random order; the merged rules come out the same whatever that order is.
 */
module FilterMerge {
  import opened Common
  import Text
  import opened Ordering
  import opened FilterValues

  /** Trimmed field names with the values each may take. */
  type FieldSets = map<string, set<string>>

  type Declaration = map<string, Value>

  // --- What the rules mean as sets ------------------------------------------------

  function AddField(sets: FieldSets, field: string, value: Value): FieldSets {
    var f := Text.Trim(field);
    if f == [] then sets else sets[f := At(sets, f, {}) + Elements(Flatten(value))]
  }

  function Union(a: FieldSets, b: FieldSets): FieldSets {
    map f | f in a.Keys + b.Keys :: At(a, f, {}) + At(b, f, {})
  }

  function FieldNames(d: Declaration): set<string> {
    (set k | k in d :: Text.Trim(k)) - {[]}
  }

  function ValuesOf(d: Declaration, f: string): set<string> {
    set k, v | k in d && Text.Trim(k) == f && v in Flatten(d[k]) :: v
  }

  /** The field sets of a declaration: keys that trim to the same name pool their values. */
  function Declared(d: Declaration): FieldSets {
    map f | f in FieldNames(d) :: ValuesOf(d, f)
  }

  function RuleSets(rules: seq<Rule>): FieldSets {
    if rules == [] then map[]
    else AddField(RuleSets(rules[..|rules| - 1]), rules[|rules| - 1].field, rules[|rules| - 1].value)
  }

  /** Field names and values as the merge writes them. */
  ghost predicate Clean(m: FieldSets) {
    forall f | f in m :: f != [] && Text.Trim(f) == f && forall v | v in m[f] :: Text.Trim(v) == v
  }

  // --- The canonical rules ----------------------------------------------------------

  function RuleFor(field: string, values: set<string>): Rule {
    var listed := Listing(values);
    if |listed| == 1 then Rule(field, "eq", Str(listed[0])) else Rule(field, "in", Strs(listed))
  }

  function RulesFor(fields: seq<string>, m: FieldSets): seq<Rule> {
    seq(|fields|, i requires 0 <= i < |fields| => RuleFor(fields[i], At(m, fields[i], {})))
  }

  /** One rule per field, fields in order: eq for a single value, in otherwise. */
  function Canon(m: FieldSets): seq<Rule> {
    RulesFor(Listing(m.Keys), m)
  }

  // --- normalizeFilters ---------------------------------------------------------------

  function TrimAll(items: seq<string>): seq<string> {
    seq(|items|, i requires 0 <= i < |items| => Text.Trim(items[i]))
  }

  function NormalizeRule(rule: Rule): Rule {
    var field := Text.Trim(rule.field);
    var named := Text.Trim(Text.Lower(rule.op));
    var op := if named != [] then named else if rule.value.Strs? then "in" else "eq";
    match rule.value
    case Strs(items) => Rule(field, op, Strs(Sort(TrimAll(items))))
    case List(values) =>
      var items := Sort(seq(|values|, i requires 0 <= i < |values| => Text.Trim(Sprint(values[i]))));
      if op == "eq" && |items| == 1 then Rule(field, op, Str(items[0]))
      else Rule(field, if op == "eq" then "in" else op, Strs(items))
    case Str(text) => Rule(field, op, Str(Text.Trim(text)))
    case _ => Rule(field, op, rule.value)
  }

  predicate RuleBefore(a: Rule, b: Rule) {
    if a.field == b.field then Lt(a.op, b.op) else Lt(a.field, b.field)
  }

  function InsertRule(x: Rule, q: seq<Rule>): seq<Rule> {
    if q == [] || !RuleBefore(q[0], x) then [x] + q else [q[0]] + InsertRule(x, q[1..])
  }

  /** sort.Slice by field, then operator. */
  function SortRules(q: seq<Rule>): seq<Rule> {
    if q == [] then [] else InsertRule(q[0], SortRules(q[1..]))
  }

  function NormalizeFilters(rules: seq<Rule>): seq<Rule> {
    SortRules(seq(|rules|, i requires 0 <= i < |rules| => NormalizeRule(rules[i])))
  }

  // --- Sorting rules with distinct fields ------------------------------------------------

  lemma RulesForCons(f: string, fields: seq<string>, m: FieldSets)
    ensures RulesFor([f] + fields, m) == [RuleFor(f, At(m, f, {}))] + RulesFor(fields, m)
    ensures RuleFor(f, At(m, f, {})).field == f
  {
    hide RuleFor;
    assert RulesFor([f] + fields, m)[1..] == RulesFor(fields, m);
    FieldOfRule(f, At(m, f, {}));
  }

  lemma FieldOfRule(f: string, values: set<string>)
    ensures RuleFor(f, values).field == f
  {
  }

  lemma {:induction false} InsertRuleMirrors(fields: seq<string>, m: FieldSets, f: string)
    requires f !in fields
    ensures InsertRule(RuleFor(f, At(m, f, {})), RulesFor(fields, m)) == RulesFor(Insert(f, fields), m)
  {
    hide RuleFor, RulesFor;
    var x := RuleFor(f, At(m, f, {}));
    RulesForCons(f, fields, m);
    if fields == [] {
      assert RulesFor([], m) == [] by { NoRules(m); }
    } else {
      var first, rest := fields[0], fields[1..];
      assert fields == [first] + rest;
      RulesForCons(first, rest, m);
      LeqTotal(f, first);
      if Leq(f, first) && Leq(first, f) { LeqAntisymmetric(f, first); }
      if !Leq(f, first) {
        InsertRuleMirrors(rest, m, f);
        RulesForCons(first, Insert(f, rest), m);
        assert RulesFor(fields, m)[1..] == RulesFor(rest, m);
      }
    }
  }

  lemma RulesForSnoc(fields: seq<string>, f: string, m: FieldSets)
    ensures RulesFor(fields + [f], m) == RulesFor(fields, m) + [RuleFor(f, At(m, f, {}))]
  {
  }

  lemma ElementsSnoc(q: seq<string>, x: string, s: set<string>)
    requires Elements(q) == s && |q| == |s| && x !in s
    ensures Elements(q + [x]) == s + {x} && |q + [x]| == |s + {x}|
  {
  }

  lemma NoRules(m: FieldSets)
    ensures RulesFor([], m) == []
  {
  }

  lemma {:induction false} SortRulesMirrors(fields: seq<string>, m: FieldSets)
    requires |fields| == |Elements(fields)|
    ensures SortRules(RulesFor(fields, m)) == RulesFor(Sort(fields), m)
  {
    if fields != [] {
      var rest := fields[1..];
      assert fields == [fields[0]] + rest;
      SeqSetBound(rest);
      assert Elements(fields) == Elements(rest) + {fields[0]};
      assert fields[0] !in Elements(rest);
      SortRulesMirrors(rest, m);
      SortElements(rest);
      assert fields[0] !in Elements(Sort(rest));
      InsertRuleMirrors(Sort(rest), m, fields[0]);
      assert RulesFor(fields, m)[1..] == RulesFor(rest, m);
    }
  }

  lemma OperatorsNormal()
    ensures Text.Trim(Text.Lower("eq")) == "eq" && Text.Trim(Text.Lower("in")) == "in"
  {
    assert Text.Lower("eq") == "eq" && Text.Lower("in") == "in";
    Text.TrimmedFixed("eq");
    Text.TrimmedFixed("in");
  }

  lemma RuleForNormal(f: string, values: set<string>)
    requires Text.Trim(f) == f && forall v | v in values :: Text.Trim(v) == v
    ensures NormalizeRule(RuleFor(f, values)) == RuleFor(f, values)
  {
    hide Text.Trim, Text.Lower, Sort;
    var listed := Listing(values);
    forall i | 0 <= i < |listed| ensures Text.Trim(listed[i]) == listed[i] {
      assert listed[i] in Elements(listed);
    }
    assert TrimAll(listed) == listed;
    SortLists(listed, values);
    OperatorsNormal();
  }

  /** Normalising the rules of a clean map, listed in any order, gives the canonical list. */
  lemma NormalizeListsAny(fields: seq<string>, m: FieldSets)
    requires Clean(m) && Elements(fields) == m.Keys && |fields| == |m.Keys|
    ensures NormalizeFilters(RulesFor(fields, m)) == Canon(m)
  {
    hide NormalizeRule, RuleFor, SortRules;
    var rules := RulesFor(fields, m);
    forall i | 0 <= i < |rules| ensures NormalizeRule(rules[i]) == rules[i] {
      assert fields[i] in Elements(fields);
      RuleForNormal(fields[i], m[fields[i]]);
    }
    assert seq(|rules|, i requires 0 <= i < |rules| => NormalizeRule(rules[i])) == rules;
    SortRulesMirrors(fields, m);
    SortLists(fields, m.Keys);
  }

  // --- mergeFilters -----------------------------------------------------------------------

  function Merge(existing: seq<Rule>, overrides: Declaration): seq<Rule> {
    if overrides == map[] then NormalizeFilters(existing)
    else Canon(Union(RuleSets(existing), Declared(overrides)))
  }

  lemma FlattenRule(f: string, values: set<string>)
    requires forall v | v in values :: Text.Trim(v) == v
    ensures Elements(Flatten(RuleFor(f, values).value)) == values
  {
    var listed := Listing(values);
    forall i | 0 <= i < |listed| ensures Text.Trim(listed[i]) == listed[i] {
      assert listed[i] in Elements(listed);
    }
    assert seq(|listed|, i requires 0 <= i < |listed| => Text.Trim(listed[i])) == listed;
  }

  lemma RuleSetsLast(fields: seq<string>, m: FieldSets)
    requires Clean(m) && fields != [] && fields[|fields| - 1] in m
    ensures var last := fields[|fields| - 1]; var before := RuleSets(RulesFor(fields[..|fields| - 1], m));
            RuleSets(RulesFor(fields, m)) == before[last := At(before, last, {}) + m[last]]
  {
    hide RuleFor, Flatten, Listing;
    var n := |fields| - 1;
    var last, rules := fields[n], RulesFor(fields, m);
    assert rules[..n] == RulesFor(fields[..n], m);
    assert rules[n] == RuleFor(last, m[last]);
    FieldOfRule(last, m[last]);
    FlattenRule(last, m[last]);
  }

  lemma {:induction false} RuleSetsListed(fields: seq<string>, m: FieldSets)
    requires Clean(m) && |fields| == |Elements(fields)| && Elements(fields) <= m.Keys
    ensures RuleSets(RulesFor(fields, m)) == map f | f in Elements(fields) :: m[f]
  {
    if fields != [] {
      hide RuleSets, RulesFor;
      var n := |fields| - 1;
      var init, last := fields[..n], fields[n];
      assert fields == init + [last];
      assert Elements(fields) == Elements(init) + {last};
      SeqSetBound(init);
      assert last !in Elements(init);
      RuleSetsListed(init, m);
      RuleSetsLast(fields, m);
    }
  }

  /** Reading the canonical rules back gives the field sets. */
  lemma CanonReadsBack(m: FieldSets)
    requires Clean(m)
    ensures RuleSets(Canon(m)) == m
  {
    hide RulesFor, RuleSets;
    RuleSetsListed(Listing(m.Keys), m);
  }

  lemma DeclaredClean(d: Declaration)
    ensures Clean(Declared(d))
  {
    forall f | f in Declared(d)
      ensures f != [] && Text.Trim(f) == f && forall v | v in Declared(d)[f] :: Text.Trim(v) == v
    {
      var k :| k in d && Text.Trim(k) == f;
      Text.TrimTrims(k);
      forall v | v in Declared(d)[f] ensures Text.Trim(v) == v {
        var j :| j in d && Text.Trim(j) == f && v in Flatten(d[j]);
        FlattenTrimmed(d[j]);
      }
    }
  }

  lemma CleanUnion(a: FieldSets, b: FieldSets)
    requires Clean(a) && Clean(b)
    ensures Clean(Union(a, b))
  {
  }

  lemma UnionNone(m: FieldSets)
    ensures Declared(map[]) == map[] && Union(m, map[]) == m
  {
    assert FieldNames(map[]) == {};
    forall f | f in m ensures Union(m, map[])[f] == m[f] {
    }
  }

  /** Merging a declaration into canonical rules adds its field sets to theirs. */
  lemma MergeCanon(m: FieldSets, d: Declaration)
    requires Clean(m)
    ensures Merge(Canon(m), d) == Canon(Union(m, Declared(d)))
    ensures Clean(Union(m, Declared(d)))
  {
    DeclaredClean(d);
    CleanUnion(m, Declared(d));
    if d == map[] {
      UnionNone(m);
      NormalizeListsAny(Listing(m.Keys), m);
    } else {
      CanonReadsBack(m);
    }
  }

  // --- Merging many declarations ---------------------------------------------------------------

  /** The rules of a route after its declarations have been merged in this order. */
  function MergeAll(ds: seq<Declaration>): seq<Rule> {
    if ds == [] then [] else Merge(MergeAll(ds[..|ds| - 1]), ds[|ds| - 1])
  }

  ghost function PooledNames(ds: set<Declaration>): set<string> {
    set d, f | d in ds && f in Declared(d) :: f
  }

  ghost function PooledValues(ds: set<Declaration>, f: string): set<string> {
    set d, v | d in ds && v in At(Declared(d), f, {}) :: v
  }

  /** Every field any of the declarations names, with every value any of them gives it. */
  ghost function Pooled(ds: set<Declaration>): FieldSets {
    map f | f in PooledNames(ds) :: PooledValues(ds, f)
  }

  lemma PooledAdd(ds: set<Declaration>, d: Declaration)
    ensures Pooled(ds + {d}) == Union(Pooled(ds), Declared(d))
  {
    hide Declared;
    var more := ds + {d};
    assert PooledNames(more) == PooledNames(ds) + Declared(d).Keys;
    forall f | f in PooledNames(more)
      ensures PooledValues(more, f) == At(Pooled(ds), f, {}) + At(Declared(d), f, {})
    {
      assert PooledValues(more, f) == PooledValues(ds, f) + At(Declared(d), f, {});
      if f !in PooledNames(ds) {
        assert PooledValues(ds, f) == {};
      }
    }
  }

  function DeclarationSet(ds: seq<Declaration>): set<Declaration> {
    set d | d in ds
  }

  lemma {:induction false} MergeAllPools(ds: seq<Declaration>)
    ensures MergeAll(ds) == Canon(Pooled(DeclarationSet(ds))) && Clean(Pooled(DeclarationSet(ds)))
  {
    hide Merge, Declared;
    if ds == [] {
      assert Pooled(DeclarationSet(ds)) == map[];
      assert Listing({}) == [];
    } else {
      var init, last := ds[..|ds| - 1], ds[|ds| - 1];
      MergeAllPools(init);
      var before := DeclarationSet(init);
      assert ds == init + [last];
      assert DeclarationSet(ds) == before + {last};
      MergeCanon(Pooled(before), last);
      PooledAdd(before, last);
    }
  }

  /**
   The order and the repetition of declarations do not matter: two merges of the
   same declarations yield the same rules.
   */
  lemma MergeConfluent(ds: seq<Declaration>, es: seq<Declaration>)
    requires forall d :: d in ds <==> d in es
    ensures MergeAll(ds) == MergeAll(es)
  {
    MergeAllPools(ds);
    MergeAllPools(es);
    assert DeclarationSet(ds) == DeclarationSet(es);
  }

  // --- The merge as it is carried out ------------------------------------------------------------

  /** The part of a declaration under some of its keys. */
  ghost function Part(d: Declaration, keys: set<string>): Declaration {
    map k | k in d && k in keys :: d[k]
  }

  lemma ValuesAdd(p: Declaration, k: string, v: Value, g: string)
    requires k !in p
    ensures ValuesOf(p[k := v], g) == if g == Text.Trim(k) then ValuesOf(p, g) + Elements(Flatten(v)) else ValuesOf(p, g)
  {
    hide Flatten, Text.Trim;
    var q := p[k := v];
    forall x ensures x in ValuesOf(q, g) <==> x in ValuesOf(p, g) || (g == Text.Trim(k) && x in Flatten(v)) {
      if x in ValuesOf(p, g) {
        var j :| j in p && Text.Trim(j) == g && x in Flatten(p[j]);
        assert j in q && q[j] == p[j];
      }
      if g == Text.Trim(k) && x in Flatten(v) {
        assert k in q && q[k] == v;
      }
    }
  }

  lemma DeclaredAdd(p: Declaration, k: string, v: Value)
    requires k !in p
    ensures Declared(p[k := v]) == AddField(Declared(p), k, v)
  {
    hide Flatten, Text.Trim;
    var q, r := p[k := v], AddField(Declared(p), k, v);
    assert Declared(q).Keys == r.Keys;
    forall g | g in r ensures Declared(q)[g] == r[g] {
      ValuesAdd(p, k, v, g);
      if g !in FieldNames(p) {
        assert ValuesOf(p, g) == {};
      }
    }
  }

  lemma UnionAddField(base: FieldSets, m: FieldSets, k: string, v: Value)
    ensures Union(base, AddField(m, k, v)) == AddField(Union(base, m), k, v)
  {
    hide Flatten, Text.Trim;
    var f, xs := Text.Trim(k), Elements(Flatten(v));
    if f != [] {
      var a, b := Union(base, AddField(m, k, v)), AddField(Union(base, m), k, v);
      assert a.Keys == b.Keys;
      forall g | g in a ensures a[g] == b[g] {
        assert At(base, f, {}) + (At(m, f, {}) + xs) == At(base, f, {}) + At(m, f, {}) + xs;
        if f !in base && f !in m {
          assert {} + {} + xs == xs;
        }
      }
    }
  }

  lemma PartAdd(base: FieldSets, d: Declaration, keys: set<string>, k: string)
    requires k in d && k !in keys
    ensures Union(base, Declared(Part(d, keys + {k}))) == AddField(Union(base, Declared(Part(d, keys))), k, d[k])
  {
    hide Declared, Union, AddField;
    assert Part(d, keys + {k}) == Part(d, keys)[k := d[k]];
    DeclaredAdd(Part(d, keys), k, d[k]);
    UnionAddField(base, Declared(Part(d, keys)), k, d[k]);
  }

  method FlattenRuleSets(existing: seq<Rule>) returns (sets: FieldSets)
    ensures sets == RuleSets(existing)
  {
    sets := map[];
    for i := 0 to |existing|
      invariant sets == RuleSets(existing[..i])
    {
      assert existing[..i + 1][..i] == existing[..i];
      sets := AddField(sets, existing[i].field, existing[i].value);
    }
    assert existing[..|existing|] == existing;
  }

  /** The overrides are walked in whatever order :| picks. */
  method Accumulate(base: FieldSets, overrides: Declaration) returns (sets: FieldSets)
    ensures sets == Union(base, Declared(overrides))
  {
    hide Declared, Union, AddField;
    sets := base;
    var left := overrides.Keys;
    UnionNone(base);
    assert Part(overrides, overrides.Keys - left) == map[];
    while left != {}
      invariant left <= overrides.Keys
      invariant sets == Union(base, Declared(Part(overrides, overrides.Keys - left)))
    {
      var k :| k in left;
      PartAdd(base, overrides, overrides.Keys - left, k);
      assert overrides.Keys - left + {k} == overrides.Keys - (left - {k});
      sets := AddField(sets, k, overrides[k]);
      left := left - {k};
    }
    assert Part(overrides, overrides.Keys - left) == overrides;
  }

  /** So are the field sets, when they are turned into rules. */
  method RulesOfSets(sets: FieldSets) returns (out: seq<Rule>)
    requires Clean(sets)
    ensures out == Canon(sets)
  {
    hide NormalizeFilters, RuleFor, Canon, Clean, RulesFor;
    var fields := sets.Keys;
    ghost var order: seq<string> := [];
    out := [];
    NoRules(sets);
    while fields != {}
      invariant fields <= sets.Keys
      invariant Elements(order) == sets.Keys - fields && |order| == |sets.Keys - fields|
      invariant out == RulesFor(order, sets)
    {
      var f :| f in fields;
      var rule := RuleOfSet(f, sets[f]);
      RulesForSnoc(order, f, sets);
      ElementsSnoc(order, f, sets.Keys - fields);
      assert sets.Keys - (fields - {f}) == sets.Keys - fields + {f};
      out := out + [rule];
      order := order + [f];
      fields := fields - {f};
    }
    assert sets.Keys - fields == sets.Keys;
    NormalizeListsAny(order, sets);
    out := NormalizeFilters(out);
  }

  lemma {:induction false} RuleSetsClean(rules: seq<Rule>)
    ensures Clean(RuleSets(rules))
  {
    if rules != [] {
      var last := rules[|rules| - 1];
      RuleSetsClean(rules[..|rules| - 1]);
      Text.TrimTrims(last.field);
      FlattenTrimmed(last.value);
    }
  }

  method MergeFilters(existing: seq<Rule>, overrides: Declaration) returns (out: seq<Rule>)
    ensures out == Merge(existing, overrides)
  {
    if overrides == map[] {
      return NormalizeFilters(existing);
    }
    var base := FlattenRuleSets(existing);
    RuleSetsClean(existing);
    var sets := Accumulate(base, overrides);
    DeclaredClean(overrides);
    CleanUnion(base, Declared(overrides));
    out := RulesOfSets(sets);
  }

  /** One rule: the values gathered in any order, then sorted. */
  method RuleOfSet(field: string, values: set<string>) returns (rule: Rule)
    ensures rule == RuleFor(field, values)
  {
    var left, gathered: seq<string> := values, [];
    while left != {}
      invariant left <= values
      invariant Elements(gathered) == values - left && |gathered| == |values - left|
    {
      var v :| v in left;
      ElementsSnoc(gathered, v, values - left);
      assert values - (left - {v}) == values - left + {v};
      gathered := gathered + [v];
      left := left - {v};
    }
    assert values - left == values;
    SortLists(gathered, values);
    var sorted := Sort(gathered);
    if |sorted| == 1 {
      return Rule(field, "eq", Str(sorted[0]));
    }
    return Rule(field, "in", Strs(sorted));
  }
}
