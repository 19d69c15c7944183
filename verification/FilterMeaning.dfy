/** What merged rules accept, and what merging does to what each lambda asked for. */
module FilterMeaning {
  import opened Common
  import Text
  import opened Ordering
  import opened FilterValues
  import opened FilterMerge
  import opened RouteCompare

  /** The raw instance has the field, and its printed value is one of those allowed. */
  predicate Allows(field: string, values: set<string>, raw: Value) {
    var value := Resolve(Split(field, '.'), raw);
    value.Some? && Sprint(value.value) in values
  }

  lemma RuleMeaning(f: string, values: set<string>, raw: Value)
    ensures RuleMatches(RuleFor(f, values), raw) <==> Allows(f, values, raw)
  {
    hide Split, Resolve, Sprint;
    assert Text.Lower("eq") == "eq" && Text.Lower("in") == "in";
    var listed, value := Listing(values), Resolve(Split(f, '.'), raw);
    if value.Some? {
      assert Sprint(value.value) in Elements(listed) <==> Sprint(value.value) in values;
      if |listed| == 1 {
        assert listed == [listed[0]];
        PrintedString(listed[0]);
      }
    }
  }

  lemma PrintedString(s: string)
    ensures Sprint(Str(s)) == s
  {
  }

  /** The canonical rules accept exactly the instances allowed by every field. */
  lemma CanonMeaning(m: FieldSets, raw: Value)
    ensures Accepts(Canon(m), raw) <==> forall f | f in m :: Allows(f, m[f], raw)
  {
    hide RuleMatches, RuleFor, Allows;
    var fields := Listing(m.Keys);
    assert forall f :: f in Elements(fields) <==> f in m;
    forall i | 0 <= i < |fields| ensures RuleMatches(Canon(m)[i], raw) <==> Allows(fields[i], m[fields[i]], raw) {
      RuleMeaning(fields[i], m[fields[i]], raw);
    }
    if Accepts(Canon(m), raw) {
      forall f | f in m ensures Allows(f, m[f], raw) {
        assert f in Elements(fields);
        var i :| 0 <= i < |fields| && fields[i] == f;
        assert RuleMatches(Canon(m)[i], raw);
      }
    }
  }

  lemma PooledIs(ds: set<Declaration>)
    ensures Pooled(ds).Keys == PooledNames(ds)
    ensures forall f | f in Pooled(ds) :: Pooled(ds)[f] == PooledValues(ds, f)
  {
    hide PooledNames, PooledValues;
  }

  /**
   A merged route accepts an instance iff every field named by any declaration is
   there with a value that some declaration of the field lists.
   */
  lemma MergedMeaning(ds: seq<Declaration>, raw: Value)
    ensures Accepts(MergeAll(ds), raw) <==>
              forall f | f in PooledNames(DeclarationSet(ds)) :: Allows(f, PooledValues(DeclarationSet(ds), f), raw)
  {
    hide *;
    MergeAllPools(ds);
    CanonMeaning(Pooled(DeclarationSet(ds)), raw);
    PooledIs(DeclarationSet(ds));
  }

  // --- Does a lambda still get what it asked for? -------------------------------------------

  /** Everything a accepts, b accepts. */
  ghost predicate Covers(b: FieldSets, a: FieldSets) {
    forall raw | Accepts(Canon(a), raw) :: Accepts(Canon(b), raw)
  }

  /** b lists at least a's values for each of a's fields. */
  predicate Widens(b: FieldSets, a: FieldSets) {
    forall f | f in a :: f in b && a[f] <= b[f]
  }

  /** The merge adds no field to a, so it can only accept more. */
  lemma NoNewFieldCovers(a: FieldSets, b: FieldSets)
    requires Widens(b, a) && b.Keys <= a.Keys
    ensures Covers(b, a)
  {
    forall raw | Accepts(Canon(a), raw) ensures Accepts(Canon(b), raw) {
      CanonMeaning(a, raw);
      CanonMeaning(b, raw);
    }
  }

  /** The names a field leads through. */
  function Path(field: string): seq<string> {
    Split(field, '.')
  }

  /** No field leads through another one. */
  ghost predicate Independent(fields: set<string>) {
    forall f, g | f in fields && g in fields && f != g :: !(Path(f) <= Path(g))
  }

  ghost predicate Reaches(a: FieldSets, p: seq<string>) {
    exists f :: f in a && Path(f) == p
  }

  ghost function NextNames(a: FieldSets, p: seq<string>): set<string> {
    set f | f in a && p < Path(f) :: Path(f)[|p|]
  }

  /** What lies under p in an instance with a's fields and no others, to depth n. */
  ghost function Branch(a: FieldSets, p: seq<string>, n: nat): Value
    requires forall f | f in a :: a[f] != {}
    decreases n
  {
    if Reaches(a, p) then
      var f :| f in a && Path(f) == p;
      var v :| v in a[f];
      Str(v)
    else if n == 0 then Nil
    else Obj(map k | k in NextNames(a, p) :: Branch(a, p + [k], n - 1))
  }

  ghost function Depth(fields: set<string>): nat {
    if fields == {} then 0
    else
      var f :| f in fields;
      var rest := Depth(fields - {f});
      if |Path(f)| > rest then |Path(f)| else rest
  }

  lemma DepthCovers(fields: set<string>, f: string)
    requires f in fields
    ensures |Path(f)| <= Depth(fields)
  {
    var g :| g in fields && Depth(fields) == if |Path(g)| > Depth(fields - {g}) then |Path(g)| else Depth(fields - {g});
    if f != g {
      DepthCovers(fields - {g}, f);
    }
  }

  /** An instance a accepts that has a's fields and no others. */
  ghost function Sample(a: FieldSets): Value
    requires forall f | f in a :: a[f] != {}
  {
    Branch(a, [], Depth(a.Keys))
  }

  /** One name further along a path. */
  lemma StepAlong(p: seq<string>, q: seq<string>)
    requires p < q
    ensures var k := q[|p|]; var rest := q[|p|..];
            p + [k] <= q && rest != [] && rest[0] == k && rest[1..] == q[|p + [k]|..]
  {
  }

  lemma BranchOpens(a: FieldSets, p: seq<string>, n: nat, k: string)
    requires (forall g | g in a :: a[g] != {}) && !Reaches(a, p) && n > 0
    ensures var b := Branch(a, p, n);
            b.Obj? && (k in b.fields <==> k in NextNames(a, p)) && (k in b.fields ==> b.fields[k] == Branch(a, p + [k], n - 1))
  {
    hide NextNames, Reaches;
  }

  lemma {:induction false} BranchHasField(a: FieldSets, p: seq<string>, n: nat, f: string)
    requires (forall g | g in a :: a[g] != {}) && Independent(a.Keys)
    requires f in a && p <= Path(f) && |Path(f)| <= |p| + n
    ensures var found := Resolve(Path(f)[|p|..], Branch(a, p, n));
            found.Some? && found.value.Str? && found.value.text in a[f]
    decreases n
  {
    hide Path, Branch, Independent;
    if Reaches(a, p) {
      LeafHasField(a, p, n, f);
    } else {
      assert p != Path(f);
      var k := Path(f)[|p|];
      assert k in NextNames(a, p);
      hide NextNames, Reaches;
      StepAlong(p, Path(f));
      BranchOpens(a, p, n, k);
      BranchHasField(a, p + [k], n - 1, f);
    }
  }

  lemma LeafHasField(a: FieldSets, p: seq<string>, n: nat, f: string)
    requires (forall g | g in a :: a[g] != {}) && Independent(a.Keys)
    requires f in a && p <= Path(f) && Reaches(a, p)
    ensures Path(f)[|p|..] == [] && Branch(a, p, n).Str? && Branch(a, p, n).text in a[f]
  {
    hide Path;
    forall g | g in a && Path(g) == p ensures g == f {
    }
  }

  lemma {:induction false} BranchLacksField(a: FieldSets, p: seq<string>, n: nat, g: string)
    requires forall f | f in a :: a[f] != {} && !(Path(f) <= Path(g)) && !(Path(g) <= Path(f))
    requires p < Path(g)
    ensures Resolve(Path(g)[|p|..], Branch(a, p, n)).None?
    decreases n
  {
    hide Path, Branch;
    assert !Reaches(a, p);
    var k := Path(g)[|p|];
    StepAlong(p, Path(g));
    if n == 0 {
      NoBranch(a, p);
    } else {
      BranchOpens(a, p, n, k);
      if k in NextNames(a, p) {
        var f :| f in a && p < Path(f) && Path(f)[|p|] == k;
        hide NextNames, Reaches;
        StepAlong(p, Path(f));
        assert p + [k] != Path(g);
        BranchLacksField(a, p + [k], n - 1, g);
      }
    }
  }

  lemma NoBranch(a: FieldSets, p: seq<string>)
    requires (forall g | g in a :: a[g] != {}) && !Reaches(a, p)
    ensures Branch(a, p, 0) == Nil
  {
  }

  lemma SampleAccepted(a: FieldSets)
    requires (forall f | f in a :: a[f] != {}) && Independent(a.Keys)
    ensures Accepts(Canon(a), Sample(a))
  {
    hide Canon, Accepts, Branch, Resolve, Split;
    forall f | f in a ensures Allows(f, a[f], Sample(a)) {
      DepthCovers(a.Keys, f);
      BranchHasField(a, [], Depth(a.Keys), f);
      assert Path(f)[0..] == Path(f);
    }
    CanonMeaning(a, Sample(a));
  }

  lemma SampleLacks(a: FieldSets, g: string, values: set<string>)
    requires forall f | f in a :: a[f] != {} && !(Path(f) <= Path(g)) && !(Path(g) <= Path(f))
    ensures !Allows(g, values, Sample(a))
  {
    BranchLacksField(a, [], Depth(a.Keys), g);
    assert Path(g)[0..] == Path(g);
  }

  lemma PlainFieldsIndependent(fields: set<string>)
    requires forall f | f in fields :: '.' !in f
    ensures Independent(fields)
  {
    forall f, g | f in fields && g in fields && f != g ensures !(Path(f) <= Path(g)) {
      SplitPlain(f, '.');
      SplitPlain(g, '.');
      assert Path(f) == [f] && Path(g) == [g];
      assert [f][0] != [g][0];
    }
  }

  lemma AcceptsNothing(a: FieldSets, f: string)
    requires f in a && a[f] == {}
    ensures forall raw :: !Accepts(Canon(a), raw)
  {
    forall raw ensures !Accepts(Canon(a), raw) {
      CanonMeaning(a, raw);
      assert !Allows(f, a[f], raw);
    }
  }

  /**
   Exactly when merging keeps a declaration's demand, for fields none of which leads
   through another: when it adds no field, or when the declaration could accept nothing.
   */
  lemma MergeKeepsDemandExactly(a: FieldSets, b: FieldSets)
    requires Widens(b, a) && Independent(b.Keys)
    ensures Covers(b, a) <==> b.Keys <= a.Keys || exists f :: f in a && a[f] == {}
  {
    hide Path, Canon, Accepts, Allows;
    if b.Keys <= a.Keys {
      NoNewFieldCovers(a, b);
    } else if f :| f in a && a[f] == {} {
      AcceptsNothing(a, f);
    } else {
      assert forall f, g | f in a && g in a && f != g :: f in b && g in b && !(Path(f) <= Path(g));
      SampleAccepted(a);
      var g :| g in b && g !in a;
      assert forall f | f in a :: f in b && f != g && !(Path(f) <= Path(g)) && !(Path(g) <= Path(f));
      SampleLacks(a, g, b[g]);
      CanonMeaning(b, Sample(a));
    }
  }

  /**
   Fields that lead through one another are another matter: here the declaration accepts
   nothing, as no object prints as plain "v", and a merge with further fields keeps that.
   */
  lemma OverlappingFieldsAcceptNothing(raw: Value)
    ensures !Accepts(Canon(map["x" := {"v"}, "x.y" := {"w"}]), raw)
  {
    hide Canon, Accepts, Split, Resolve, Sprint;
    var a := map["x" := {"v"}, "x.y" := {"w"}];
    CanonMeaning(a, raw);
    NestedSplit();
    ThroughX(raw);
    if Allows("x", a["x"], raw) && Allows("x.y", a["x.y"], raw) {
      ObjectsPrintAsMaps(raw.fields["x"]);
    }
  }

  lemma NestedSplit()
    ensures Split("x", '.') == ["x"] && Split("x.y", '.') == ["x", "y"]
  {
    SplitPlain("x", '.');
    SplitPlain("y", '.');
    assert "x.y"[1..] == ".y" && ".y"[1..] == "y";
    assert Split(".y", '.') == [[]] + Split("y", '.');
  }

  lemma ThroughX(raw: Value)
    ensures Resolve(["x"], raw).Some? ==> raw.Obj? && "x" in raw.fields && Resolve(["x"], raw).value == raw.fields["x"]
    ensures Resolve(["x", "y"], raw).Some? ==> raw.Obj? && "x" in raw.fields && raw.fields["x"].Obj?
  {
    assert ["x", "y"][1..] == ["y"] && ["x"][1..] == [] && ["y"][1..] == [];
    if Resolve(["x", "y"], raw).Some? {
      assert Resolve(["y"], raw.fields["x"]).Some?;
    }
  }

  lemma ObjectsPrintAsMaps(v: Value)
    requires v.Obj?
    ensures Sprint(v) != "v"
  {
    assert Sprint(v)[1] == 'a';
  }

  lemma PoolWidens(ds: set<Declaration>, d: Declaration)
    requires d in ds
    ensures Widens(Pooled(ds), Declared(d))
  {
    forall f | f in Declared(d) ensures f in Pooled(ds) && Declared(d)[f] <= Pooled(ds)[f] {
      assert f in PooledNames(ds);
      forall v | v in Declared(d)[f] ensures v in PooledValues(ds, f) {
        assert v in At(Declared(d), f, {});
      }
    }
  }

  /** Wherever its fields lead, a declaration that names all fields of the merge loses nothing to it. */
  lemma SameFieldsKeepEverything(ds: seq<Declaration>, d: Declaration, raw: Value)
    requires d in ds && (forall e | e in ds :: Declared(e).Keys <= Declared(d).Keys)
    requires Accepts(MergeAll([d]), raw)
    ensures Accepts(MergeAll(ds), raw)
  {
    hide Canon, Accepts, Declared;
    var pool, one := DeclarationSet(ds), DeclarationSet([d]);
    assert one == {} + {d};
    PooledAdd({}, d);
    assert Pooled({}) == map[];
    UnionEmpty(Declared(d));
    MergeAllPools(ds);
    MergeAllPools([d]);
    PoolWidens(pool, d);
    NoNewFieldCovers(Declared(d), Pooled(pool));
  }

  /**
   What a lambda declared stays accepted after the merge with the others exactly
   when no other declaration names a further field (or it accepted nothing).
   */
  lemma LambdaKeepsItsEvents(ds: seq<Declaration>, d: Declaration)
    requires d in ds && Independent(Pooled(DeclarationSet(ds)).Keys)
    ensures (forall raw | Accepts(MergeAll([d]), raw) :: Accepts(MergeAll(ds), raw)) <==>
              ((forall e | e in ds :: Declared(e).Keys <= Declared(d).Keys) || exists f :: f in Declared(d) && Declared(d)[f] == {})
  {
    hide Canon, Accepts;
    var pool, one := DeclarationSet(ds), DeclarationSet([d]);
    assert one == {} + {d};
    PooledAdd({}, d);
    assert Pooled({}) == map[];
    UnionEmpty(Declared(d));
    MergeAllPools(ds);
    MergeAllPools([d]);
    PoolWidens(pool, d);
    MergeKeepsDemandExactly(Declared(d), Pooled(pool));
    if forall e | e in ds :: Declared(e).Keys <= Declared(d).Keys {
      assert Pooled(pool).Keys <= Declared(d).Keys;
    } else {
      var e :| e in ds && !(Declared(e).Keys <= Declared(d).Keys);
      var g :| g in Declared(e) && g !in Declared(d);
      assert g in PooledNames(pool);
    }
  }

  lemma UnionEmpty(m: FieldSets)
    ensures Union(map[], m) == m
  {
    forall f | f in m ensures Union(map[], m)[f] == m[f] {
    }
  }

  // --- Where the comparison is blind ----------------------------------------------------------

  /** A change of letter case in a field name is not seen, though it changes what is accepted. */
  lemma CaseChangeUnseen(f: string, g: string, values: set<string>)
    requires f != g && Text.Lower(f) == Text.Lower(g) && f != [] && g != [] && Text.Trim(f) == f && Text.Trim(g) == g
    requires '.' !in f && '.' !in g && values != {}
    ensures EqualFilters(Canon(map[f := values]), Canon(map[g := values]))
    ensures !Covers(map[f := values], map[g := values])
  {
    hide FilterSignature, RuleFor, Allows, Text.Lower, Text.Trim;
    var a, b := map[f := values], map[g := values];
    SingleListing(f);
    SingleListing(g);
    CaseLines(f, g, values);
    assert Canon(a) == [RuleFor(f, values)] && Canon(b) == [RuleFor(g, values)];
    assert FilterSignatures(Canon(a)) == FilterSignatures(Canon(b));
    PlainFieldsIndependent({f, g});
    SampleAccepted(b);
    SampleLacks(b, f, a[f]);
    CanonMeaning(a, Sample(b));
  }

  lemma CaseLines(f: string, g: string, values: set<string>)
    requires Text.Lower(f) == Text.Lower(g)
    ensures FilterSignature(RuleFor(f, values)) == FilterSignature(RuleFor(g, values))
  {
    hide Text.Lower, Text.Trim, Sort, Join, Flatten;
  }

  lemma SingleListing(f: string)
    ensures Listing({f}) == [f]
  {
    ListingUnique(Listing({f}), [f]);
  }

  /** Nor is the difference between one value with a comma and two values. */
  lemma CommaUnseen()
    ensures var a, b := map["f" := {"a,b", "c"}], map["f" := {"a", "b", "c"}];
            EqualFilters(Canon(a), Canon(b)) && !Covers(a, b)
  {
    hide FilterSignature, RuleFor, Allows;
    var a, b := map["f" := {"a,b", "c"}], map["f" := {"a", "b", "c"}];
    SingleListing("f");
    CommaLines();
    assert Canon(a) == [RuleFor("f", {"a,b", "c"})] && Canon(b) == [RuleFor("f", {"a", "b", "c"})];
    assert FilterSignatures(Canon(a)) == FilterSignatures(Canon(b));
    var raw := Obj(map["f" := Str("a")]);
    OnlyValue("f", "a");
    CanonMeaning(a, raw);
    CanonMeaning(b, raw);
  }

  /** Nor where the field ends, if it contains the mark between the columns. */
  lemma BarUnseen()
    ensures var a, b := map["a|eq" := {"v"}], map["a" := {"eq|v"}];
            EqualFilters(Canon(a), Canon(b)) && !Covers(a, b)
  {
    hide FilterSignature, RuleFor, Allows;
    var a, b := map["a|eq" := {"v"}], map["a" := {"eq|v"}];
    SingleListing("a|eq");
    SingleListing("a");
    BarLines();
    assert Canon(a) == [RuleFor("a|eq", {"v"})] && Canon(b) == [RuleFor("a", {"eq|v"})];
    assert FilterSignatures(Canon(a)) == FilterSignatures(Canon(b));
    PlainFieldsIndependent({"a|eq", "a"});
    SampleAccepted(b);
    SampleLacks(b, "a|eq", {"v"});
    CanonMeaning(a, Sample(b));
  }

  lemma OnlyValue(f: string, v: string)
    requires '.' !in f
    ensures forall values :: Allows(f, values, Obj(map[f := Str(v)])) <==> v in values
  {
    SplitPlain(f, '.');
    assert [f][1..] == [] && Resolve([f], Obj(map[f := Str(v)])) == Some(Str(v));
  }

  lemma CommaLines()
    ensures FilterSignature(RuleFor("f", {"a,b", "c"})) == FilterSignature(RuleFor("f", {"a", "b", "c"}))
  {
    hide Text.Trim, Text.Lower, Sort, Join, RuleFor, Flatten, Listing;
    forall s: string | s in {"a,b", "a", "b", "c"} ensures Text.Trim(s) == s {
      Text.TrimmedFixed(s);
    }
    ValuesOfRule("f", {"a,b", "c"});
    ValuesOfRule("f", {"a", "b", "c"});
    FieldOfRule("f", {"a,b", "c"});
    FieldOfRule("f", {"a", "b", "c"});
    CommaListings();
    CommaJoins();
    assert OpFor({"a,b", "c"}) == "in" == OpFor({"a", "b", "c"});
  }

  lemma BarLines()
    ensures FilterSignature(RuleFor("a|eq", {"v"})) == FilterSignature(RuleFor("a", {"eq|v"}))
  {
    hide FilterSignature, RuleFor;
    SingleLine("a|eq", "v");
    SingleLine("a", "eq|v");
    assert "a|eq" + "|eq|" + "v" == "a" + "|eq|" + "eq|v";
  }

  lemma SingleLine(f: string, v: string)
    requires Text.IsLower(f) && Text.Trimmed(f) && Text.Trimmed(v)
    ensures FilterSignature(RuleFor(f, {v})) == f + "|eq|" + v
  {
    hide Text.Trim, Text.Lower, Sort, RuleFor, Flatten, Listing;
    Text.TrimmedFixed(v);
    Text.TrimmedFixed(f);
    Text.LowerFixed(f);
    ValuesOfRule(f, {v});
    FieldOfRule(f, {v});
    SingleListing(v);
    OperatorsNormal();
    assert f + "|" + "eq" + "|" + v == f + "|eq|" + v;
  }

  lemma CommaListings()
    ensures Listing({"a,b", "c"}) == ["a,b", "c"] && Listing({"a", "b", "c"}) == ["a", "b", "c"]
    ensures |{"a,b", "c"}| == 2 && |{"a", "b", "c"}| == 3
  {
    hide Listing;
    var p, q := ["a,b", "c"], ["a", "b", "c"];
    assert StrictlySorted(p) && StrictlySorted(q);
    assert Elements(p) == {"a,b", "c"} && Elements(q) == {"a", "b", "c"};
    ListingUnique(Listing({"a,b", "c"}), p);
    ListingUnique(Listing({"a", "b", "c"}), q);
  }

  lemma CommaJoins()
    ensures Join(["a,b", "c"], ",") == Join(["a", "b", "c"], ",")
  {
    JoinHead(["a,b", "c"], ',');
    JoinHead(["a", "b", "c"], ',');
    JoinHead(["b", "c"], ',');
    assert ["a,b", "c"][1..] == ["c"] && ["a", "b", "c"][1..] == ["b", "c"] && ["b", "c"][1..] == ["c"];
  }
}
