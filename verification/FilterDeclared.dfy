/**
 What a lambda's declaration asks for, and what the merged rules say of it, told from the
 declared values themselves.
 */
module FilterDeclared {
  import opened Common
  import Text
  import opened Ordering
  import opened FilterValues
  import opened FilterMerge

  // --- How values print -------------------------------------------------------------------

  /** The parts one after the other, with single spaces between them. */
  ghost predicate Spaced(parts: seq<string>, text: string) {
    if |parts| == 0 then text == ""
    else if |parts| == 1 then text == parts[0]
    else exists before :: Spaced(parts[..|parts| - 1], before) && text == before + " " + parts[|parts| - 1]
  }

  /** The text is what the value prints as. */
  ghost predicate Prints(value: Value, text: string)
    decreases value, 1
  {
    match value
    case Nil => text == "<nil>"
    case Str(t) => text == t
    case Scalar(t) => text == t
    case Strs(items) => exists inner :: Spaced(items, inner) && text == "[" + inner + "]"
    case List(values) =>
      exists parts: seq<string>, inner ::
        && |parts| == |values| && (forall i | 0 <= i < |values| :: Prints(values[i], parts[i]))
        && Spaced(parts, inner) && text == "[" + inner + "]"
    case Obj(fields) =>
      exists keys: seq<string>, parts: seq<string>, inner ::
        EntriesPrint(value, keys, parts) && Spaced(parts, inner) && text == "map[" + inner + "]"
  }

  /** The entries of an object as they print, in the order of their keys. */
  ghost predicate EntriesPrint(value: Value, keys: seq<string>, parts: seq<string>)
    requires value.Obj?
    decreases value, 0
  {
    && StrictlySorted(keys) && Elements(keys) == value.fields.Keys && |parts| == |keys|
    && (forall i | 0 <= i < |keys| :: keys[i] in value.fields && Entry(keys[i], value.fields[keys[i]], parts[i]))
  }

  ghost predicate Entry(key: string, value: Value, part: string)
    decreases value, 2
  {
    exists text :: Prints(value, text) && part == key + ":" + text
  }

  lemma {:induction false} JoinLast(parts: seq<string>, sep: string)
    requires |parts| >= 2
    ensures Join(parts, sep) == Join(parts[..|parts| - 1], sep) + sep + parts[|parts| - 1]
  {
    var n := |parts| - 1;
    if n > 1 {
      assert parts[1..][..n - 1] == parts[..n][1..];
      JoinLast(parts[1..], sep);
    } else {
      assert parts[..1][0] == parts[0] && parts[1..] == [parts[1]];
    }
  }

  lemma {:induction false} SpacedExactly(parts: seq<string>, text: string)
    ensures Spaced(parts, text) <==> text == Join(parts, " ")
  {
    if |parts| >= 2 {
      var init := parts[..|parts| - 1];
      JoinLast(parts, " ");
      SpacedExactly(init, Join(init, " "));
      if before :| Spaced(init, before) && text == before + " " + parts[|parts| - 1] {
        SpacedExactly(init, before);
      }
    }
  }

  lemma {:induction false} PrintsExactly(value: Value, text: string)
    ensures Prints(value, text) <==> text == Sprint(value)
    decreases value, 3
  {
    match value
    case Strs(items) =>
      var inner := Join(items, " ");
      SpacedExactly(items, inner);
      if other :| Spaced(items, other) && text == "[" + other + "]" {
        SpacedExactly(items, other);
      }
    case List(values) => ListPrints(values, text);
    case Obj(_) => FieldsPrint(value, text);
    case _ =>
  }

  lemma {:induction false} ListPrints(values: seq<Value>, text: string)
    ensures Prints(List(values), text) <==> text == Sprint(List(values))
    decreases List(values), 1
  {
    var printed := seq(|values|, i requires 0 <= i < |values| => Sprint(values[i]));
    forall i | 0 <= i < |values| ensures forall t :: Prints(values[i], t) <==> t == printed[i] {
      forall t ensures Prints(values[i], t) <==> t == printed[i] {
        PrintsExactly(values[i], t);
      }
    }
    SpacedExactly(printed, Join(printed, " "));
    assert Sprint(List(values)) == "[" + Join(printed, " ") + "]";
    if Prints(List(values), text) {
      var parts: seq<string>, inner :|
        && |parts| == |values| && (forall i | 0 <= i < |values| :: Prints(values[i], parts[i]))
        && Spaced(parts, inner) && text == "[" + inner + "]";
      assert parts == printed;
      SpacedExactly(parts, inner);
    }
  }

  lemma EntryExactly(key: string, value: Value, part: string)
    ensures Entry(key, value, part) <==> part == key + ":" + Sprint(value)
    decreases value, 4
  {
    hide Prints, Sprint;
    PrintsExactly(value, Sprint(value));
    if t :| Prints(value, t) && part == key + ":" + t {
      PrintsExactly(value, t);
    }
  }

  ghost function PrintedEntries(fields: map<string, Value>): seq<string> {
    var keys := Listing(fields.Keys);
    assert forall k | k in keys :: k in Elements(keys);
    seq(|keys|, i requires 0 <= i < |keys| => keys[i] + ":" + Sprint(fields[keys[i]]))
  }

  lemma SprintObj(fields: map<string, Value>)
    ensures Sprint(Obj(fields)) == "map[" + Join(PrintedEntries(fields), " ") + "]"
  {
  }

  lemma EntriesAt(value: Value, keys: seq<string>, parts: seq<string>, i: nat)
    requires value.Obj? && keys == Listing(value.fields.Keys) && |parts| == |keys| && i < |keys|
    ensures keys[i] in value.fields && PrintedEntries(value.fields)[i] == keys[i] + ":" + Sprint(value.fields[keys[i]])
    ensures Entry(keys[i], value.fields[keys[i]], parts[i]) <==> parts[i] == PrintedEntries(value.fields)[i]
    decreases value, 0
  {
    assert keys[i] in Elements(keys);
    EntryExactly(keys[i], value.fields[keys[i]], parts[i]);
    hide Entry, Sprint, Listing;
  }

  lemma {:induction false} EntriesExactly(value: Value, keys: seq<string>, parts: seq<string>)
    requires value.Obj?
    ensures EntriesPrint(value, keys, parts) <==> keys == Listing(value.fields.Keys) && parts == PrintedEntries(value.fields)
    decreases value, 1
  {
    hide Entry, Sprint, Listing, PrintedEntries;
    assert |PrintedEntries(value.fields)| == |Listing(value.fields.Keys)| by {
      PrintedLength(value.fields);
    }
    if StrictlySorted(keys) && Elements(keys) == value.fields.Keys && |parts| == |keys| {
      ListingUnique(keys, Listing(value.fields.Keys));
      forall i | 0 <= i < |keys|
        ensures keys[i] in value.fields
        ensures Entry(keys[i], value.fields[keys[i]], parts[i]) <==> parts[i] == PrintedEntries(value.fields)[i]
      {
        EntriesAt(value, keys, parts, i);
      }
    }
  }

  lemma PrintedLength(fields: map<string, Value>)
    ensures |PrintedEntries(fields)| == |Listing(fields.Keys)|
  {
  }

  lemma ObjPrints(value: Value, text: string) returns (keys: seq<string>, parts: seq<string>, inner: string)
    requires value.Obj? && Prints(value, text)
    ensures EntriesPrint(value, keys, parts) && Spaced(parts, inner) && text == "map[" + inner + "]"
  {
    hide EntriesPrint, Spaced;
    keys, parts, inner :| EntriesPrint(value, keys, parts) && Spaced(parts, inner) && text == "map[" + inner + "]";
  }

  lemma {:induction false} FieldsPrint(value: Value, text: string)
    requires value.Obj?
    ensures Prints(value, text) <==> text == Sprint(value)
    decreases value, 2
  {
    var keys, printed := Listing(value.fields.Keys), PrintedEntries(value.fields);
    SprintObj(value.fields);
    EntriesExactly(value, keys, printed);
    SpacedExactly(printed, Join(printed, " "));
    if Prints(value, text) {
      var ks, parts, inner := ObjPrints(value, text);
      EntriesExactly(value, ks, parts);
      SpacedExactly(parts, inner);
    }
    hide Sprint, PrintedEntries, Listing, Spaced, Join, Entry, EntriesPrint;
  }

  // --- What a declaration asks for ---------------------------------------------------------

  ghost predicate PrintsTrimmed(value: Value, v: string) {
    exists text :: Prints(value, text) && Text.Trim(text) == v
  }

  /** v is one of the texts the value stands for. */
  ghost predicate Denotes(value: Value, v: string) {
    match value
    case Nil => false
    case Str(text) => Text.Trim(text) == v
    case Strs(items) => exists i :: 0 <= i < |items| && Text.Trim(items[i]) == v
    case List(values) => exists i :: 0 <= i < |values| && PrintsTrimmed(values[i], v)
    case Obj(_) => PrintsTrimmed(value, v)
    case Scalar(_) => PrintsTrimmed(value, v)
  }

  ghost predicate Names(d: Declaration, f: string) {
    f != "" && exists k :: k in d && Text.Trim(k) == f
  }

  ghost predicate Asks(d: Declaration, f: string, v: string) {
    exists k :: k in d && Text.Trim(k) == f && Denotes(d[k], v)
  }

  lemma PrintsTrimmedExactly(value: Value, v: string)
    ensures PrintsTrimmed(value, v) <==> Text.Trim(Sprint(value)) == v
  {
    hide Prints, Sprint;
    PrintsExactly(value, Sprint(value));
    if text :| Prints(value, text) && Text.Trim(text) == v {
      PrintsExactly(value, text);
    }
  }

  lemma DenotesExactly(value: Value, v: string)
    ensures Denotes(value, v) <==> v in Flatten(value)
  {
    hide PrintsTrimmed, Sprint, Text.Trim;
    match value
    case Strs(items) => assert forall i | 0 <= i < |items| :: Flatten(value)[i] == Text.Trim(items[i]);
    case List(values) =>
      assert forall i | 0 <= i < |values| :: Flatten(value)[i] == Text.Trim(Sprint(values[i]));
      forall i | 0 <= i < |values| ensures PrintsTrimmed(values[i], v) <==> Text.Trim(Sprint(values[i])) == v {
        PrintsTrimmedExactly(values[i], v);
      }
    case Obj(_) => PrintsTrimmedExactly(value, v);
    case Scalar(_) => PrintsTrimmedExactly(value, v);
    case Str(_) =>
    case Nil =>
  }

  /** The fields of a declaration are its trimmed keys, and a field's values are what any of its keys stands for. */
  lemma DeclaredExactly(d: Declaration, f: string)
    ensures f in Declared(d) <==> Names(d, f)
    ensures f in Declared(d) ==> forall v :: v in Declared(d)[f] <==> Asks(d, f, v)
  {
    hide Denotes, Flatten, Text.Trim;
    forall k, v | k in d ensures Denotes(d[k], v) <==> v in Flatten(d[k]) {
      DenotesExactly(d[k], v);
    }
    forall v ensures v in ValuesOf(d, f) <==> Asks(d, f, v) {
    }
  }

  // --- What the merged rules say ---------------------------------------------------------

  ghost predicate NamedBy(ds: set<Declaration>, f: string) {
    exists d :: d in ds && Names(d, f)
  }

  ghost predicate AskedBy(ds: set<Declaration>, f: string, v: string) {
    exists d :: d in ds && Asks(d, f, v)
  }

  /** The rule lists exactly the values asked for: one value by eq, any other number by in, sorted. */
  ghost predicate Lists(rule: Rule, ds: set<Declaration>) {
    match rule.value
    case Str(text) => rule.op == "eq" && forall v :: AskedBy(ds, rule.field, v) <==> v == text
    case Strs(items) =>
      && rule.op == "in" && |items| != 1 && StrictlySorted(items)
      && forall v :: AskedBy(ds, rule.field, v) <==> v in items
    case _ => false
  }

  /** One rule for each field named, in order, each listing what is asked for. */
  ghost predicate Answers(rules: seq<Rule>, ds: set<Declaration>) {
    && (forall i, j | 0 <= i < j < |rules| :: Lt(rules[i].field, rules[j].field))
    && (forall f :: NamedBy(ds, f) <==> exists i :: 0 <= i < |rules| && rules[i].field == f)
    && (forall i | 0 <= i < |rules| :: Lists(rules[i], ds))
  }

  lemma PooledExactly(ds: set<Declaration>, f: string)
    ensures f in Pooled(ds) <==> NamedBy(ds, f)
    ensures f in Pooled(ds) ==> forall v :: v in Pooled(ds)[f] <==> AskedBy(ds, f, v)
  {
    hide Declared, Names, Asks;
    forall d ensures f in Declared(d) <==> Names(d, f) {
      DeclaredExactly(d, f);
    }
    if f in PooledNames(ds) {
      NamedFields(ds, f);
      forall v ensures v in PooledValues(ds, f) <==> AskedBy(ds, f, v) {
        forall d ensures v in At(Declared(d), f, {}) <==> Asks(d, f, v) {
          DeclaredValue(d, f, v);
        }
      }
    }
  }

  lemma DeclaredValue(d: Declaration, f: string, v: string)
    requires f != ""
    ensures v in At(Declared(d), f, {}) <==> Asks(d, f, v)
  {
    hide Declared, Names, Asks;
    DeclaredExactly(d, f);
    if Asks(d, f, v) {
      AskingNames(d, f, v);
    }
  }

  lemma AskingNames(d: Declaration, f: string, v: string)
    requires f != "" && Asks(d, f, v)
    ensures Names(d, f)
  {
    hide Denotes;
  }

  lemma NamedFields(ds: set<Declaration>, f: string)
    requires NamedBy(ds, f)
    ensures f != ""
  {
  }

  lemma RuleLists(ds: set<Declaration>, f: string)
    requires f in Pooled(ds)
    ensures RuleFor(f, Pooled(ds)[f]).field == f && Lists(RuleFor(f, Pooled(ds)[f]), ds)
  {
    hide Pooled, AskedBy, NamedBy;
    PooledExactly(ds, f);
    var listed := Listing(Pooled(ds)[f]);
    assert forall v :: v in listed <==> v in Elements(listed);
    FieldOfRule(f, Pooled(ds)[f]);
  }

  lemma CanonAt(m: FieldSets, i: nat)
    requires i < |Canon(m)|
    ensures i < |Listing(m.Keys)| && Listing(m.Keys)[i] in m
    ensures Canon(m)[i] == RuleFor(Listing(m.Keys)[i], m[Listing(m.Keys)[i]])
  {
    hide RuleFor, Listing;
    var fields := Listing(m.Keys);
    assert fields[i] in Elements(fields);
  }

  lemma CanonFields(m: FieldSets)
    ensures |Canon(m)| == |Listing(m.Keys)|
    ensures forall f :: f in m <==> f in Listing(m.Keys)
    ensures forall i, j | 0 <= i < j < |Canon(m)| :: Lt(Listing(m.Keys)[i], Listing(m.Keys)[j])
  {
    hide RuleFor, Listing;
    var fields := Listing(m.Keys);
    assert forall f :: f in fields <==> f in Elements(fields);
  }

  /** The canonical rules of pooled declarations answer them. */
  lemma PooledAnswers(ds: set<Declaration>)
    ensures Answers(Canon(Pooled(ds)), ds)
  {
    hide Pooled, NamedBy, Lists, RuleFor, Canon, Lt, Listing;
    var m := Pooled(ds);
    var rules := Canon(m);
    CanonFields(m);
    forall i | 0 <= i < |rules| ensures rules[i].field == Listing(m.Keys)[i] && Lists(rules[i], ds) {
      CanonAt(m, i);
      RuleLists(ds, Listing(m.Keys)[i]);
    }
    forall f ensures NamedBy(ds, f) <==> exists i :: 0 <= i < |rules| && rules[i].field == f {
      PooledExactly(ds, f);
    }
  }

  /**
   Merging declarations one after the other, in any order and however often, gives one
   rule for each field they name, in order, listing what they ask for.
   */
  lemma MergedAnswers(ds: seq<Declaration>)
    ensures Answers(MergeAll(ds), DeclarationSet(ds))
  {
    hide *;
    MergeAllPools(ds);
    PooledAnswers(DeclarationSet(ds));
  }

  // --- Normalising rules of any kind ---------------------------------------------------------

  /** By field, then by operator. */
  predicate InTurn(a: Rule, b: Rule) {
    if a.field == b.field then Leq(a.op, b.op) else Leq(a.field, b.field)
  }

  ghost predicate AllInTurn(rules: seq<Rule>) {
    forall i, j | 0 <= i < j < |rules| :: InTurn(rules[i], rules[j])
  }

  lemma InTurnTotal(a: Rule, b: Rule)
    ensures RuleBefore(a, b) ==> InTurn(a, b)
    ensures !RuleBefore(a, b) ==> InTurn(b, a)
  {
    LeqTotal(a.field, b.field);
    LeqTotal(a.op, b.op);
  }

  lemma InTurnTransitive(a: Rule, b: Rule, c: Rule)
    requires InTurn(a, b) && InTurn(b, c)
    ensures InTurn(a, c)
  {
    if a.field == b.field == c.field {
      LeqTransitive(a.op, b.op, c.op);
    } else {
      LeqTotal(a.field, b.field);
      LeqTotal(b.field, c.field);
      LeqTransitive(a.field, b.field, c.field);
      if a.field == c.field {
        LeqAntisymmetric(a.field, b.field);
      }
    }
  }

  lemma {:induction false} InsertedInTurn(x: Rule, q: seq<Rule>)
    requires AllInTurn(q)
    ensures AllInTurn(InsertRule(x, q)) && multiset(InsertRule(x, q)) == multiset(q) + multiset{x}
  {
    hide InTurn, RuleBefore;
    if q == [] {
    } else {
      InTurnTotal(q[0], x);
      if !RuleBefore(q[0], x) {
        forall j | 0 <= j < |q| ensures InTurn(x, q[j]) {
          if j > 0 {
            InTurnTransitive(x, q[0], q[j]);
          }
        }
      } else {
        InsertedInTurn(x, q[1..]);
        var r := InsertRule(x, q[1..]);
        assert q == [q[0]] + q[1..];
        forall j | 0 <= j < |r| ensures InTurn(q[0], r[j]) {
          assert r[j] in multiset(r);
          assert r[j] == x || r[j] in q[1..];
        }
      }
    }
  }

  lemma {:induction false} SortedInTurn(q: seq<Rule>)
    ensures AllInTurn(SortRules(q)) && multiset(SortRules(q)) == multiset(q)
  {
    if q != [] {
      SortedInTurn(q[1..]);
      InsertedInTurn(q[0], SortRules(q[1..]));
      assert q == [q[0]] + q[1..];
    }
  }

  lemma SortDenotes(items: seq<string>, v: string)
    requires forall i | 0 <= i < |items| :: Text.Trim(items[i]) == items[i]
    ensures v in items <==> exists i :: 0 <= i < |Sort(items)| && Text.Trim(Sort(items)[i]) == v
  {
    SortSorts(items);
    var sorted := Sort(items);
    forall i | 0 <= i < |sorted| ensures Text.Trim(sorted[i]) == sorted[i] {
      assert sorted[i] in multiset(sorted);
      assert sorted[i] in items;
    }
    assert v in sorted <==> v in multiset(sorted);
    assert v in items <==> v in multiset(items);
  }

  /**
   What normalising does to a rule: the field is trimmed, the values stand for the same
   texts, sorted if there are several, and the operator is lowered and trimmed, or else
   chosen by the kind and number of the values.
   */
  lemma NormalizedRule(rule: Rule)
    ensures var n := NormalizeRule(rule); var named := Text.Trim(Text.Lower(rule.op));
            && n.field == Text.Trim(rule.field)
            && (forall v :: Denotes(n.value, v) <==> Denotes(rule.value, v))
            && (n.value.Strs? ==> Sorted(n.value.items))
            && (named != "" && named != "eq" ==> n.op == named)
            && (named in {"", "eq"} ==>
                  n.op == if rule.value.List? then (if |rule.value.values| == 1 then "eq" else "in")
                          else if rule.value.Strs? && named == "" then "in" else "eq")
  {
    hide Text.Trim, Text.Lower, Sort, PrintsTrimmed, Sprint;
    match rule.value
    case Strs(items) =>
      TrimmedItems(items);
      SortSorts(TrimAll(items));
      forall v ensures Denotes(NormalizeRule(rule).value, v) <==> Denotes(rule.value, v) {
        SortDenotes(TrimAll(items), v);
        assert v in TrimAll(items) <==> exists i :: 0 <= i < |items| && Text.Trim(items[i]) == v by {
          forall i | 0 <= i < |items| ensures TrimAll(items)[i] == Text.Trim(items[i]) {
          }
        }
      }
    case List(values) =>
      var printed := seq(|values|, i requires 0 <= i < |values| => Text.Trim(Sprint(values[i])));
      SortSorts(printed);
      ListNormalized(rule, printed);
    case Str(text) => Text.TrimTrims(text);
    case _ =>
  }

  lemma TrimmedItems(items: seq<string>)
    ensures forall i | 0 <= i < |TrimAll(items)| :: Text.Trim(TrimAll(items)[i]) == TrimAll(items)[i]
  {
    hide Text.Trim;
    forall i | 0 <= i < |items| ensures Text.Trim(Text.Trim(items[i])) == Text.Trim(items[i]) {
      Text.TrimTrims(items[i]);
    }
  }

  lemma ListNormalized(rule: Rule, printed: seq<string>)
    requires rule.value.List? && |printed| == |rule.value.values|
    requires forall i | 0 <= i < |printed| :: printed[i] == Text.Trim(Sprint(rule.value.values[i]))
    ensures forall v :: Denotes(NormalizeRule(rule).value, v) <==> Denotes(rule.value, v)
  {
    hide Text.Trim, Text.Lower, PrintsTrimmed, Sprint;
    var values := rule.value.values;
    assert printed == seq(|values|, i requires 0 <= i < |values| => Text.Trim(Sprint(values[i])));
    forall i | 0 <= i < |printed| ensures Text.Trim(printed[i]) == printed[i] {
      Text.TrimTrims(Sprint(values[i]));
    }
    forall v ensures Denotes(NormalizeRule(rule).value, v) <==> Denotes(rule.value, v) {
      forall i | 0 <= i < |values| ensures PrintsTrimmed(values[i], v) <==> printed[i] == v {
        PrintsTrimmedExactly(values[i], v);
      }
      SortDenotes(printed, v);
      hide Sort;
    }
  }

  /** Normalised rules are the same rules, each normalised, in order of field and operator. */
  lemma NormalizedInTurn(rules: seq<Rule>)
    ensures AllInTurn(NormalizeFilters(rules))
    ensures multiset(NormalizeFilters(rules)) == multiset(seq(|rules|, i requires 0 <= i < |rules| => NormalizeRule(rules[i])))
  {
    hide NormalizeRule;
    SortedInTurn(seq(|rules|, i requires 0 <= i < |rules| => NormalizeRule(rules[i])));
  }
}
