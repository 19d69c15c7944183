/** The untyped values that filters and raw instances hold, and how Go prints them. */
module FilterValues {
  import opened Common
  import Text
  import opened Ordering

  /** Scalar stands for every other Go value by its printed form. */
  datatype Value =
    | Nil
    | Str(text: string)
    | Strs(items: seq<string>)
    | List(values: seq<Value>)
    | Obj(fields: map<string, Value>)
    | Scalar(printed: string)

  function Join(parts: seq<string>, sep: string): string {
    if parts == [] then []
    else if |parts| == 1 then parts[0]
    else parts[0] + sep + Join(parts[1..], sep)
  }

  /** strings.Split with a one-character separator. */
  function Split(s: string, sep: char): (parts: seq<string>)
    ensures parts != []
  {
    if s == [] then [[]]
    else if s[0] == sep then [[]] + Split(s[1..], sep)
    else
      var rest := Split(s[1..], sep);
      [[s[0]] + rest[0]] + rest[1..]
  }

  /** fmt.Sprint: maps print with their keys in order. */
  function Sprint(v: Value): string {
    match v
    case Nil => "<nil>"
    case Str(text) => text
    case Strs(items) => "[" + Join(items, " ") + "]"
    case List(values) => "[" + Join(seq(|values|, i requires 0 <= i < |values| => Sprint(values[i])), " ") + "]"
    case Obj(fields) =>
      var keys := Listing(fields.Keys);
      assert forall k | k in keys :: k in Elements(keys);
      "map[" + Join(seq(|keys|, i requires 0 <= i < |keys| => keys[i] + ":" + Sprint(fields[keys[i]])), " ") + "]"
    case Scalar(printed) => printed
  }

  /** The trimmed texts a declared filter value stands for. */
  function Flatten(v: Value): seq<string> {
    match v
    case Nil => []
    case Str(text) => [Text.Trim(text)]
    case Strs(items) => seq(|items|, i requires 0 <= i < |items| => Text.Trim(items[i]))
    case List(values) => seq(|values|, i requires 0 <= i < |values| => Text.Trim(Sprint(values[i])))
    case Obj(_) => [Text.Trim(Sprint(v))]
    case Scalar(_) => [Text.Trim(Sprint(v))]
  }

  datatype Rule = Rule(field: string, op: string, value: Value)

  /** Walks nested objects by name. */
  function Resolve(path: seq<string>, raw: Value): Option<Value> {
    if path == [] then Some(raw)
    else if raw.Obj? && path[0] in raw.fields then Resolve(path[1..], raw.fields[path[0]])
    else None
  }

  function CompareEqual(a: Value, b: Value): bool {
    Sprint(a) == Sprint(b)
  }

  predicate HasInfix(s: string, infix: string) {
    infix <= s || (s != [] && HasInfix(s[1..], infix))
  }

  /** Membership as the in operator reads it: a plain string matches by substring. */
  predicate Contains(value: Value, among: Value) {
    match among
    case List(values) => exists i | 0 <= i < |values| :: CompareEqual(value, values[i])
    case Strs(items) => Sprint(value) in items
    case Str(text) => HasInfix(Text.Upper(text), Text.Upper(Sprint(value)))
    case Obj(fields) => Sprint(value) in fields
    case Nil => false
    case Scalar(_) => false
  }

  predicate RuleMatches(rule: Rule, raw: Value) {
    var value := Resolve(Split(rule.field, '.'), raw);
    var op := Text.Lower(rule.op);
    value.Some? &&
    if op == "eq" then CompareEqual(value.value, rule.value)
    else if op == "neq" then !CompareEqual(value.value, rule.value)
    else if op == "in" then Contains(value.value, rule.value)
    else if op == "prefix" then
      var needle := Text.Upper(Sprint(rule.value));
      needle <= Text.Upper(Sprint(value.value))
    else false
  }

  /** A route accepts what every one of its filters accepts. */
  predicate Accepts(rules: seq<Rule>, raw: Value) {
    forall i | 0 <= i < |rules| :: RuleMatches(rules[i], raw)
  }

  lemma {:induction false} SplitPlain(s: string, sep: char)
    requires sep !in s
    ensures Split(s, sep) == [s]
  {
    if s != [] {
      SplitPlain(s[1..], sep);
      assert [s[0]] + s[1..] == s;
    }
  }

  lemma {:induction false} InfixExactly(s: string, infix: string)
    ensures HasInfix(s, infix) <==> exists a, b :: s == a + infix + b
  {
    if infix <= s {
      assert s == [] + infix + s[|infix|..];
    } else if s != [] {
      InfixExactly(s[1..], infix);
      if a, b :| s[1..] == a + infix + b {
        assert s == ([s[0]] + a) + infix + b;
      }
      if a, b :| s == a + infix + b {
        assert a != [] by {
          assert a == [] ==> infix <= s;
        }
        assert s[1..] == a[1..] + infix + b;
      }
    } else {
      assert forall a: string, b: string :: [] == a + infix + b ==> infix == [];
    }
  }

  ghost predicate StandsIn(part: string, text: string) {
    exists a, b :: text == a + part + b
  }

  ghost predicate Begins(part: string, text: string) {
    exists b :: text == part + b
  }

  /** The operators that no merge writes: other than a value, among the parts of a text, and the beginning of one. */
  lemma OtherOperators(rule: Rule, raw: Value)
    ensures var value := Resolve(Split(rule.field, '.'), raw); var op := Text.Lower(rule.op);
            && (value.None? ==> !RuleMatches(rule, raw))
            && (value.Some? && op == "neq" ==> RuleMatches(rule, raw) == (Sprint(value.value) != Sprint(rule.value)))
            && (value.Some? && op == "in" && rule.value.Str? ==>
                  RuleMatches(rule, raw) == StandsIn(Text.Upper(Sprint(value.value)), Text.Upper(rule.value.text)))
            && (value.Some? && op == "prefix" ==>
                  RuleMatches(rule, raw) == Begins(Text.Upper(Sprint(rule.value)), Text.Upper(Sprint(value.value))))
  {
    hide Resolve, Split, Sprint, Text.Lower, Text.Upper;
    var value := Resolve(Split(rule.field, '.'), raw);
    if value.Some? {
      if rule.value.Str? {
        InfixExactly(Text.Upper(rule.value.text), Text.Upper(Sprint(value.value)));
      }
      PrefixExactly(Text.Upper(Sprint(value.value)), Text.Upper(Sprint(rule.value)));
    }
  }

  lemma PrefixExactly(whole: string, part: string)
    ensures part <= whole <==> Begins(part, whole)
  {
    if part <= whole {
      assert whole == part + whole[|part|..];
    }
  }

  lemma FlattenTrimmed(v: Value)
    ensures forall t | t in Flatten(v) :: Text.Trim(t) == t
  {
    forall t | t in Flatten(v) ensures Text.Trim(t) == t {
      match v {
        case Nil =>
        case Str(text) => Text.TrimTrims(text);
        case Strs(items) =>
          var i :| 0 <= i < |items| && t == Text.Trim(items[i]);
          Text.TrimTrims(items[i]);
        case List(values) =>
          var i :| 0 <= i < |values| && t == Text.Trim(Sprint(values[i]));
          Text.TrimTrims(Sprint(values[i]));
        case Obj(_) => Text.TrimTrims(Sprint(v));
        case Scalar(_) => Text.TrimTrims(Sprint(v));
      }
    }
  }
}
