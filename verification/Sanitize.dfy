/** Removing credentials from provider configurations of any depth. */
module Sanitize {
  import Text

  /**
   A configuration value. Leaf stands for strings, numbers, booleans and whatever else
   the sanitiser passes through; Strings for a list typed as strings; a missing map is an
   empty one.
   */
  datatype Value = Null | Leaf(text: string) | Strings(texts: seq<string>) | List(items: seq<Value>) | Dict(entries: map<string, Value>)

  const FRAGMENTS := [
    "secret", "passphrase", "apikey", "wsapikey", "wssecret", "privatekey", "privkey", "token",
    "password", "clientsecret", "accesskey", "access_token"]

  predicate Separator(c: char) {
    c == '-' || c == '_' || c == ' '
  }

  function Compact(s: string): string {
    if s == "" then "" else (if Separator(s[0]) then "" else [s[0]]) + Compact(s[1..])
  }

  predicate Contains(s: string, part: string) {
    exists i :: 0 <= i <= |s| && part <= s[i..]
  }

  predicate SensitiveKey(key: string) {
    Text.Trim(key) != "" &&
    exists i :: 0 <= i < |FRAGMENTS| && Contains(Compact(Text.Lower(Text.Trim(key))), Compact(FRAGMENTS[i]))
  }

  method IsSensitiveProviderConfigKey(key: string) returns (sensitive: bool)
    ensures sensitive <==> SensitiveKey(key)
  {
    hide Compact, Contains, Text.Trim, Text.Lower;
    var trimmed := Text.Trim(key);
    if trimmed == "" {
      return false;
    }
    var normalized := Compact(Text.Lower(trimmed));
    for i := 0 to |FRAGMENTS|
      invariant forall j | 0 <= j < i :: !Contains(normalized, Compact(FRAGMENTS[j]))
    {
      if Contains(normalized, Compact(FRAGMENTS[i])) {
        return true;
      }
    }
    return false;
  }

  // --- What sanitising does -----------------------------------------------------------

  function Clean(v: Value): Value
    decreases v, 0
  {
    match v
    case Dict(m) =>
      var clean := map k | k in m && !SensitiveKey(k) && Clean(m[k]) != Null :: Clean(m[k]);
      if clean == map[] then Null else Dict(clean)
    case List(xs) =>
      var clean := CleanItems(xs);
      if clean == [] then Null else List(clean)
    case _ => v
  }

  /** Items that are not containers stay, nil included; containers left empty go. */
  function CleanItems(xs: seq<Value>): seq<Value>
    decreases xs, 0
  {
    if xs == [] then [] else CleanItems(xs[..|xs| - 1]) + CleanItem(xs[|xs| - 1])
  }

  function CleanItem(x: Value): seq<Value>
    decreases x, 1
  {
    if (x.Dict? || x.List?) && Clean(x) == Null then [] else [Clean(x)]
  }

  method SanitizeValue(v: Value) returns (clean: Value)
    ensures clean == Clean(v)
    decreases v, 1
  {
    match v
    case Dict(_) => clean := SanitizeMap(v);
    case List(xs) =>
      var filtered: seq<Value> := [];
      for i := 0 to |xs|
        invariant filtered == CleanItems(xs[..i])
      {
        assert xs[..i + 1][..i] == xs[..i];
        assert CleanItems(xs[..i + 1]) == CleanItems(xs[..i]) + CleanItem(xs[i]);
        match xs[i]
        case Dict(_) =>
          var item := SanitizeMap(xs[i]);
          if item != Null {
            filtered := filtered + [item];
          }
        case List(_) =>
          var nested := SanitizeValue(xs[i]);
          if nested != Null {
            filtered := filtered + [nested];
          }
        case _ => filtered := filtered + [xs[i]];
      }
      assert xs[..|xs|] == xs;
      clean := if filtered == [] then Null else List(filtered);
    case _ => clean := v;
  }

  /** Null: nothing is left. The entries are visited in whatever order :| picks. */
  method SanitizeMap(v: Value) returns (clean: Value)
    requires v.Dict?
    ensures clean == Clean(v)
    decreases v, 0
  {
    var kept: map<string, Value> := map[];
    var left := v.entries.Keys;
    while left != {}
      invariant left <= v.entries.Keys
      invariant kept == map k | k in v.entries && k !in left && !SensitiveKey(k) && Clean(v.entries[k]) != Null :: Clean(v.entries[k])
    {
      var key :| key in left;
      left := left - {key};
      var sensitive := IsSensitiveProviderConfigKey(key);
      if !sensitive {
        var sanitized := SanitizeValue(v.entries[key]);
        if sanitized != Null {
          kept := kept[key := sanitized];
        }
      }
    }
    clean := if kept == map[] then Null else Dict(kept);
  }

  /** The whole configuration; an empty map stands for nil. */
  method SanitizeProviderConfig(cfg: map<string, Value>) returns (clean: map<string, Value>)
    ensures clean == if Clean(Dict(cfg)) == Null then map[] else Clean(Dict(cfg)).entries
  {
    var c := SanitizeMap(Dict(cfg));
    clean := if c == Null then map[] else c.entries;
  }

  // --- What it leaves ---------------------------------------------------------------------

  /** The checks the manager makes before it warns of credentials in a stored configuration. */
  predicate ContainsSensitiveKey(v: Value) {
    match v
    case Dict(m) => exists k :: k in m && (SensitiveKey(k) || ContainsSensitiveKey(m[k]))
    case List(xs) => exists i :: 0 <= i < |xs| && ContainsSensitiveKey(xs[i])
    case _ => false
  }

  method ProviderConfigContainsSensitiveKey(v: Value) returns (found: bool)
    ensures found <==> ContainsSensitiveKey(v)
  {
    hide SensitiveKey;
    match v
    case Dict(m) =>
      var left := m.Keys;
      while left != {}
        invariant left <= m.Keys
        invariant forall k | k in m && k !in left :: !SensitiveKey(k) && !ContainsSensitiveKey(m[k])
      {
        var key :| key in left;
        left := left - {key};
        var sensitive := IsSensitiveProviderConfigKey(key);
        if sensitive {
          return true;
        }
        var inside := ProviderConfigContainsSensitiveKey(m[key]);
        if inside {
          return true;
        }
      }
      found := false;
    case List(xs) =>
      for i := 0 to |xs|
        invariant forall j | 0 <= j < i :: !ContainsSensitiveKey(xs[j])
      {
        var inside := ProviderConfigContainsSensitiveKey(xs[i]);
        if inside {
          return true;
        }
      }
      found := false;
    case _ => found := false;
  }

  /** Under the keys of the path, lists stepped through anywhere, stands this leaf. */
  ghost predicate Holds(v: Value, path: seq<string>, leaf: Value)
    decreases v
  {
    match v
    case Dict(m) => path != [] && path[0] in m && Holds(m[path[0]], path[1..], leaf)
    case List(xs) => exists i :: 0 <= i < |xs| && Holds(xs[i], path, leaf)
    case Null => false
    case _ => path == [] && v == leaf
  }

  predicate Open(path: seq<string>) {
    forall i | 0 <= i < |path| :: !SensitiveKey(path[i])
  }

  lemma OpenTail(path: seq<string>)
    requires path != []
    ensures Open(path) <==> !SensitiveKey(path[0]) && Open(path[1..])
  {
    assert forall i | 0 < i < |path| :: path[i] == path[1..][i - 1];
  }

  lemma CleanEntry(v: Value, key: string)
    requires v.Dict?
    ensures Clean(v).Dict? || Clean(v) == Null
    ensures Clean(v).Dict? && key in Clean(v).entries <==>
              key in v.entries && !SensitiveKey(key) && Clean(v.entries[key]) != Null
    ensures Clean(v).Dict? && key in Clean(v).entries ==> Clean(v).entries[key] == Clean(v.entries[key])
  {
    hide SensitiveKey;
    var clean := map k | k in v.entries && !SensitiveKey(k) && Clean(v.entries[k]) != Null :: Clean(v.entries[k]);
    assert key in clean ==> clean != map[];
  }

  /** Sanitising keeps exactly what does not stand under a sensitive key, at any depth. */
  lemma {:induction false} KeepsExactlyTheRest(v: Value, path: seq<string>, leaf: Value)
    ensures Holds(Clean(v), path, leaf) <==> Holds(v, path, leaf) && Open(path)
    decreases v, 0
  {
    match v
    case Dict(m) =>
      CleanEntry(v, if path == [] then "" else path[0]);
      if path != [] {
        OpenTail(path);
        hide Open, Clean, SensitiveKey;
        if path[0] in m {
          KeepsExactlyTheRest(m[path[0]], path[1..], leaf);
        }
      }
    case List(xs) => ItemsKeepTheRest(xs, path, leaf);
    case _ =>
  }

  ghost predicate ItemHolds(xs: seq<Value>, path: seq<string>, leaf: Value) {
    exists i :: 0 <= i < |xs| && Holds(xs[i], path, leaf)
  }

  lemma ItemHoldsJoin(xs: seq<Value>, ys: seq<Value>, path: seq<string>, leaf: Value)
    ensures ItemHolds(xs + ys, path, leaf) <==> ItemHolds(xs, path, leaf) || ItemHolds(ys, path, leaf)
  {
    assert forall i | 0 <= i < |xs| :: (xs + ys)[i] == xs[i];
    assert forall i | 0 <= i < |ys| :: (xs + ys)[|xs| + i] == ys[i];
  }

  lemma {:induction false} ItemsKeepTheRest(xs: seq<Value>, path: seq<string>, leaf: Value)
    ensures ItemHolds(CleanItems(xs), path, leaf) <==> ItemHolds(xs, path, leaf) && Open(path)
    decreases xs, 1
  {
    if xs != [] {
      var init, last := xs[..|xs| - 1], xs[|xs| - 1];
      ItemsKeepTheRest(init, path, leaf);
      KeepsExactlyTheRest(last, path, leaf);
      ItemHoldsJoin(init, [last], path, leaf);
      ItemHoldsJoin(CleanItems(init), CleanItem(last), path, leaf);
      assert xs == init + [last];
      assert ItemHolds([last], path, leaf) <==> Holds([last][0], path, leaf);
      ItemOne(last, path, leaf);
    }
  }

  lemma ItemOne(x: Value, path: seq<string>, leaf: Value)
    ensures ItemHolds(CleanItem(x), path, leaf) <==> Holds(Clean(x), path, leaf)
  {
    if CleanItem(x) != [] {
      assert CleanItem(x)[0] == Clean(x);
    }
  }

  /** Two configurations alike outside sensitive keys. */
  ghost predicate Alike(a: Value, b: Value)
    decreases a
  {
    match a
    case Dict(m) =>
      b.Dict? && (forall k | !SensitiveKey(k) :: k in m <==> k in b.entries) &&
      forall k | k in m && !SensitiveKey(k) && k in b.entries :: Alike(m[k], b.entries[k])
    case List(xs) =>
      b.List? && |xs| == |b.items| && forall i | 0 <= i < |xs| :: Alike(xs[i], b.items[i])
    case _ => a == b
  }

  /** What stands under sensitive keys never shows. */
  lemma {:induction false} NonInterference(a: Value, b: Value)
    requires Alike(a, b)
    ensures Clean(a) == Clean(b)
    decreases a, 0
  {
    match a
    case Dict(m) =>
      forall k | k in m && !SensitiveKey(k) ensures Clean(m[k]) == Clean(b.entries[k]) {
        NonInterference(m[k], b.entries[k]);
      }
      assert (map k | k in m && !SensitiveKey(k) && Clean(m[k]) != Null :: Clean(m[k])) ==
             (map k | k in b.entries && !SensitiveKey(k) && Clean(b.entries[k]) != Null :: Clean(b.entries[k]));
    case List(xs) => ItemsAlike(xs, b.items);
    case _ =>
  }

  lemma {:induction false} ItemsAlike(xs: seq<Value>, ys: seq<Value>)
    requires |xs| == |ys| && forall i | 0 <= i < |xs| :: Alike(xs[i], ys[i])
    ensures CleanItems(xs) == CleanItems(ys)
    decreases xs, 1
  {
    if xs != [] {
      ItemsAlike(xs[..|xs| - 1], ys[..|ys| - 1]);
      NonInterference(xs[|xs| - 1], ys[|xs| - 1]);
    }
  }

  /** A value sanitising has nothing to do to: no sensitive keys, no nil under a key, no empty container. */
  predicate Settled(v: Value) {
    match v
    case Dict(m) => m != map[] && forall k | k in m :: !SensitiveKey(k) && m[k] != Null && Settled(m[k])
    case List(xs) => xs != [] && forall i | 0 <= i < |xs| :: Settled(xs[i])
    case _ => true
  }

  lemma {:induction false} CleanSettles(v: Value)
    ensures Settled(Clean(v))
    decreases v, 0
  {
    match v
    case Dict(m) =>
      forall k | k in m ensures Settled(Clean(m[k])) {
        CleanSettles(m[k]);
      }
    case List(xs) => ItemsSettle(xs);
    case _ =>
  }

  lemma {:induction false} ItemsSettle(xs: seq<Value>)
    ensures forall i | 0 <= i < |CleanItems(xs)| :: Settled(CleanItems(xs)[i])
    decreases xs, 1
  {
    if xs != [] {
      ItemsSettle(xs[..|xs| - 1]);
      CleanSettles(xs[|xs| - 1]);
    }
  }

  lemma {:induction false} SettledStays(v: Value)
    requires Settled(v)
    ensures Clean(v) == v
    decreases v, 0
  {
    match v
    case Dict(m) =>
      forall k | k in m ensures Clean(m[k]) == m[k] {
        SettledStays(m[k]);
      }
      assert (map k | k in m && !SensitiveKey(k) && Clean(m[k]) != Null :: Clean(m[k])) == m;
    case List(xs) => SettledItemsStay(xs);
    case _ =>
  }

  lemma {:induction false} SettledItemsStay(xs: seq<Value>)
    requires forall i | 0 <= i < |xs| :: Settled(xs[i])
    ensures CleanItems(xs) == xs
    decreases xs, 1
  {
    if xs != [] {
      SettledItemsStay(xs[..|xs| - 1]);
      SettledStays(xs[|xs| - 1]);
      assert xs == xs[..|xs| - 1] + [xs[|xs| - 1]];
    }
  }

  /** Sanitising twice is sanitising once, and it leaves alone exactly what is settled. */
  lemma Idempotent(v: Value)
    ensures Clean(Clean(v)) == Clean(v)
    ensures Clean(v) == v <==> Settled(v)
  {
    CleanSettles(v);
    SettledStays(Clean(v));
    if Settled(v) {
      SettledStays(v);
    }
  }

  lemma {:induction false} SettledIsClean(v: Value)
    requires Settled(v)
    ensures !ContainsSensitiveKey(v)
    decreases v
  {
    match v
    case Dict(m) =>
      forall k | k in m ensures !ContainsSensitiveKey(m[k]) {
        SettledIsClean(m[k]);
      }
    case List(xs) =>
      forall i | 0 <= i < |xs| ensures !ContainsSensitiveKey(xs[i]) {
        SettledIsClean(xs[i]);
      }
    case _ =>
  }

  /** The sanitised configuration passes the check for sensitive keys, at every level. */
  lemma NothingSensitiveLeft(v: Value)
    ensures !ContainsSensitiveKey(Clean(v))
  {
    CleanSettles(v);
    SettledIsClean(Clean(v));
  }
}
