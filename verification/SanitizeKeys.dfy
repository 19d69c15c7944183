/** Which keys the sanitiser takes for credentials, told from their letters. */
module SanitizeKeys {
  import Text
  import opened Sanitize

  predicate Skipped(c: char) {
    c in {'-', '_', ' '}
  }

  /** c, or its capital. */
  predicate Reads(c: char, small: char) {
    c == small || (97 <= small as int <= 122 && c as int == small as int - 32)
  }

  predicate Rising(at: seq<nat>) {
    forall k, l | 0 <= k < l < |at| :: at[k] < at[l]
  }

  /** At these places of the text stands the word, in small letters or capitals, with nothing in between but what is skipped. */
  predicate WordAt(word: string, text: string, at: seq<nat>) {
    && |at| == |word| && Rising(at)
    && (forall k | 0 <= k < |at| :: at[k] < |text| && Reads(text[at[k]], word[k]))
    && (forall k | 0 < k < |at| :: Gap(text, at[k - 1], at[k]))
  }

  predicate Gap(text: string, from: nat, to: nat) {
    forall i | from < i < to && i < |text| :: Skipped(text[i])
  }

  ghost predicate Shows(text: string, word: string) {
    exists at :: WordAt(word, text, at)
  }

  // --- The compact form -------------------------------------------------------------------

  /** The places of the characters that stay. */
  function Places(s: string): (at: seq<nat>)
    ensures forall k | 0 <= k < |at| :: at[k] < |s|
  {
    if s == "" then []
    else
      var init := Places(s[..|s| - 1]);
      if Separator(s[|s| - 1]) then init else init + [|s| - 1]
  }

  lemma {:induction false} CompactJoin(a: string, b: string)
    ensures Compact(a + b) == Compact(a) + Compact(b)
  {
    if a == "" {
      assert a + b == b;
    } else {
      assert (a + b)[1..] == a[1..] + b;
      CompactJoin(a[1..], b);
    }
  }

  lemma CompactOne(c: char)
    ensures Compact([c]) == if Separator(c) then "" else [c]
    ensures Separator(c) <==> Skipped(c)
  {
  }

  /** c is what is kept of s, and at says where it stood. */
  ghost predicate Kept(s: string, c: string, at: seq<nat>) {
    && Rising(at) && |c| == |at|
    && (forall k | 0 <= k < |at| :: at[k] < |s| && c[k] == s[at[k]])
    && (forall i: nat | i < |s| :: i in at <==> !Skipped(s[i]))
  }

  lemma KeptNext(s: string, c: string, at: seq<nat>, x: char)
    requires Kept(s, c, at)
    ensures Kept(s + [x], c + (if Skipped(x) then "" else [x]), at + (if Skipped(x) then [] else [|s|]))
  {
    hide Skipped;
    var more := s + [x];
    assert more[|s|] == x && forall i | 0 <= i < |s| :: more[i] == s[i];
    assert at + [] == at && c + [] == c;
  }

  lemma {:induction false} PlacesExactly(s: string)
    ensures Kept(s, Compact(s), Places(s))
  {
    if s != "" {
      var init, last := s[..|s| - 1], s[|s| - 1];
      PlacesExactly(init);
      CompactJoin(init, [last]);
      CompactOne(last);
      assert s == init + [last];
      assert Places(s) == Places(init) + if Separator(last) then [] else [|init|];
      hide Kept, Places, Compact, Separator, Skipped;
      KeptNext(init, Compact(init), Places(init), last);
    }
  }

  lemma {:induction false} CompactFixed(s: string)
    requires forall i | 0 <= i < |s| :: !Separator(s[i])
    ensures Compact(s) == s
  {
    if s != "" {
      CompactFixed(s[1..]);
      assert s == [s[0]] + s[1..];
    }
  }

  // --- Words in it ---------------------------------------------------------------------------

  predicate Small(word: string) {
    word != "" && forall k | 0 <= k < |word| :: 97 <= word[k] as int <= 122
  }

  lemma LowerReads(text: string, i: nat, small: char)
    requires i < |text| && 97 <= small as int <= 122
    ensures Text.Lower(text)[i] == small <==> Reads(text[i], small)
    ensures Skipped(Text.Lower(text)[i]) <==> Skipped(text[i])
    ensures Reads(text[i], small) ==> !Skipped(text[i]) && !Text.IsSpace(text[i])
  {
    Text.CaseExactly(text, i);
    Text.SpacesExactly(text[i]);
    assert '-' as int == 45 && '_' as int == 95 && ' ' as int == 32;
    hide Text.Lower;
  }

  lemma SmallLetter(word: string, k: nat)
    requires Small(word) && k < |word|
    ensures 97 <= word[k] as int <= 122
  {
  }

  /** The next letter of the word is the next character that stays. */
  lemma NextPlace(text: string, P: seq<nat>, m: nat, from: nat, to: nat)
    requires Rising(P) && m < |P| && P[m] == from < to < |text| && to in P && Gap(text, from, to)
    requires forall i | i in P && i < |text| :: !Skipped(text[i])
    ensures m + 1 < |P| && P[m + 1] == to
  {
    hide Skipped;
    var n :| 0 <= n < |P| && P[n] == to;
    assert n >= m + 1;
    var next := P[m + 1];
    assert next in P && from < next <= to && !Skipped(text[next]);
  }

  lemma PlacesOf(text: string)
    ensures var P := Places(Text.Lower(text));
            && Rising(P) && |Compact(Text.Lower(text))| == |P|
            && (forall k | 0 <= k < |P| :: P[k] < |text| && Compact(Text.Lower(text))[k] == Text.Lower(text)[P[k]])
            && forall i: nat | i < |text| :: i in P <==> !Skipped(text[i])
  {
    PlacesExactly(Text.Lower(text));
    hide Places, Compact;
    forall i: nat | i < |text| ensures Skipped(Text.Lower(text)[i]) <==> Skipped(text[i]) {
      LowerReads(text, i, 'a');
    }
  }

  /** So the letters of the word follow on one another in the compact form. */
  lemma {:induction false} FollowsOn(text: string, word: string, at: seq<nat>, m: nat, k: nat)
    requires Small(word) && WordAt(word, text, at) && k < |at|
    requires var P := Places(Text.Lower(text)); m < |P| && P[m] == at[0]
    ensures var P := Places(Text.Lower(text)); m + k < |P| && P[m + k] == at[k]
  {
    if k > 0 {
      FollowsOn(text, word, at, m, k - 1);
      PlacesOf(text);
      SmallLetter(word, k);
      LowerReads(text, at[k], word[k]);
      hide Places, Compact, Text.Lower, Skipped, Small, Reads;
      NextPlace(text, Places(Text.Lower(text)), m + k - 1, at[k - 1], at[k]);
    }
  }

  lemma ShownIsContained(text: string, word: string, at: seq<nat>)
    requires Small(word) && WordAt(word, text, at)
    ensures Contains(Compact(Text.Lower(text)), word)
  {
    PlacesOf(text);
    SmallLetter(word, 0);
    LowerReads(text, at[0], word[0]);
    hide Places, Compact, Text.Lower, Skipped, Reads;
    var P, c := Places(Text.Lower(text)), Compact(Text.Lower(text));
    assert at[0] in P;
    var m :| 0 <= m < |P| && P[m] == at[0];
    FollowsOn(text, word, at, m, |at| - 1);
    forall k | 0 <= k < |word| ensures c[m + k] == word[k] {
      FollowsOn(text, word, at, m, k);
      LowerReads(text, at[k], word[k]);
    }
    assert c[m..][..|word|] == word;
  }

  lemma ContainedIsShown(text: string, word: string)
    requires Small(word) && Contains(Compact(Text.Lower(text)), word)
    ensures Shows(text, word)
  {
    PlacesOf(text);
    hide Places, Compact, Text.Lower, Skipped, Reads, Small;
    var P, c := Places(Text.Lower(text)), Compact(Text.Lower(text));
    var m :| 0 <= m <= |c| && word <= c[m..];
    forall k | 0 <= k < |word| ensures P[m + k] < |text| && Reads(text[P[m + k]], word[k]) {
      assert c[m..][k] == c[m + k];
      SmallLetter(word, k);
      LowerReads(text, P[m + k], word[k]);
    }
    hide Contains;
    PlacesShow(text, word, P, m);
  }

  lemma PlacesShow(text: string, word: string, P: seq<nat>, m: nat)
    requires Rising(P) && m + |word| <= |P| && forall i: nat | i < |text| :: i in P <==> !Skipped(text[i])
    requires forall k | 0 <= k < |word| :: P[m + k] < |text| && Reads(text[P[m + k]], word[k])
    ensures Shows(text, word)
  {
    hide Skipped, Reads;
    var at := P[m..m + |word|];
    assert forall k | 0 <= k < |at| :: at[k] == P[m + k];
    forall k | 0 < k < |at| ensures Gap(text, at[k - 1], at[k]) {
      NothingBetween(text, P, m + k);
    }
    assert WordAt(word, text, at);
  }

  lemma NothingBetween(text: string, P: seq<nat>, n: nat)
    requires Rising(P) && 0 < n < |P| && forall i: nat | i < |text| :: i in P <==> !Skipped(text[i])
    ensures Gap(text, P[n - 1], P[n])
  {
    hide Skipped;
    assert forall j | 0 <= j < |P| :: P[j] <= P[n - 1] || P[n] <= P[j];
  }

  // --- Space around the key ------------------------------------------------------------------

  function Shifted(at: seq<nat>, n: int): (r: seq<nat>)
    requires forall k | 0 <= k < |at| :: at[k] + n >= 0
    ensures |r| == |at| && forall k | 0 <= k < |at| :: r[k] == at[k] + n
  {
    seq(|at|, k requires 0 <= k < |at| => at[k] + n)
  }

  lemma ShownInside(a: string, text: string, b: string, word: string, at: seq<nat>)
    requires WordAt(word, text, at)
    ensures WordAt(word, a + text + b, Shifted(at, |a|))
  {
    hide Skipped, Reads;
    var all, r := a + text + b, Shifted(at, |a|);
    assert forall i | 0 <= i < |text| :: all[i + |a|] == text[i];
    forall k | 0 < k < |r| ensures Gap(all, r[k - 1], r[k]) {
      assert Gap(text, at[k - 1], at[k]);
      forall i | r[k - 1] < i < r[k] && i < |all| ensures Skipped(all[i]) {
        assert all[i] == text[i - |a|];
      }
    }
  }

  lemma InsideShown(a: string, text: string, b: string, word: string, at: seq<nat>)
    requires WordAt(word, a + text + b, at) && forall k | 0 <= k < |at| :: |a| <= at[k] < |a| + |text|
    ensures WordAt(word, text, Shifted(at, -|a|))
  {
    hide Skipped, Reads;
    var all, r := a + text + b, Shifted(at, -|a|);
    assert forall i | 0 <= i < |text| :: all[i + |a|] == text[i];
    forall k | 0 < k < |r| ensures Gap(text, r[k - 1], r[k]) {
      assert Gap(all, at[k - 1], at[k]);
      forall i | r[k - 1] < i < r[k] && i < |text| ensures Skipped(text[i]) {
        assert all[i + |a|] == text[i];
      }
    }
  }

  lemma NotBlank(a: string, text: string, b: string, word: string, i: nat, small: char)
    requires Text.Blank(a) && Text.Blank(b) && i < |a + text + b| && Reads((a + text + b)[i], small) && 97 <= small as int <= 122
    ensures |a| <= i < |a| + |text|
  {
    var all := a + text + b;
    assert i < |a| ==> all[i] == a[i];
    assert i >= |a| + |text| ==> all[i] == b[i - |a| - |text|];
    LowerReads(all, i, small);
    hide Reads, Skipped, Text.Lower;
  }

  lemma ShownWithin(a: string, text: string, b: string, word: string)
    requires Small(word) && Text.Blank(a) && Text.Blank(b)
    ensures Shows(a + text + b, word) <==> Shows(text, word)
  {
    if at :| WordAt(word, text, at) {
      ShownInside(a, text, b, word, at);
    }
    if at :| WordAt(word, a + text + b, at) {
      forall k | 0 <= k < |at| ensures |a| <= at[k] < |a| + |text| {
        NotBlank(a, text, b, word, at[k], word[k]);
      }
      InsideShown(a, text, b, word, at);
    }
    hide Reads, Gap;
  }

  // --- Sensitive keys ------------------------------------------------------------------------

  /** The words that make a key sensitive. */
  const WORDS := [
    "secret", "passphrase", "apikey", "wsapikey", "wssecret", "privatekey", "privkey", "token",
    "password", "clientsecret", "accesskey", "accesstoken"]

  lemma WordSmall(i: nat)
    requires i < |WORDS|
    ensures Small(WORDS[i])
  {
  }

  lemma SmallCompact(word: string)
    requires Small(word)
    ensures Compact(word) == word
  {
    CompactFixed(word);
  }

  lemma FragmentCompact(i: nat)
    requires i < |FRAGMENTS|
    ensures Compact(FRAGMENTS[i]) == WORDS[i] && Small(WORDS[i])
  {
    hide Compact, Small;
    WordSmall(i);
    if i < 11 {
      SmallCompact(WORDS[i]);
      assert FRAGMENTS[i] == WORDS[i];
    } else {
      AccessToken();
    }
  }

  lemma SeparatorGone(c: char)
    requires Separator(c)
    ensures Compact([c]) == ""
  {
  }

  lemma AccessToken()
    ensures Compact("access_token") == "accesstoken"
  {
    hide Compact;
    SmallCompact("access");
    SmallCompact("token");
    SeparatorGone('_');
    CompactJoin("_", "token");
    CompactJoin("access", "_" + "token");
    assert "access_token" == "access" + ("_" + "token") && "access" + ("" + "token") == "accesstoken";
  }

  /**
   A key is sensitive exactly if one of the words stands in it, in small letters or
   capitals and with hyphens, underscores and spaces between them left out.
   */
  lemma SensitiveExactly(key: string)
    ensures SensitiveKey(key) <==> exists i :: 0 <= i < |WORDS| && Shows(key, WORDS[i])
  {
    hide Compact, Contains, Shows, Small, WordAt, Text.Trim, Text.Lower, Text.Blank;
    var compact := Compact(Text.Lower(Text.Trim(key)));
    forall i: nat | i < |FRAGMENTS| ensures Shows(key, WORDS[i]) <==> Contains(compact, Compact(FRAGMENTS[i])) {
      FragmentCompact(i);
      ShownExactly(key, WORDS[i]);
    }
    if Text.Trim(key) == "" {
      EmptyShowsNothing(key);
    }
  }

  lemma ShownExactly(key: string, word: string)
    requires Small(word)
    ensures Shows(key, word) <==> Contains(Compact(Text.Lower(Text.Trim(key))), word)
  {
    hide Compact, Contains, WordAt, Small, Text.Trim, Text.Lower, Text.Blank;
    var trimmed := Text.Trim(key);
    Text.TrimExactly(key, trimmed);
    var a, b :| Text.Blank(a) && Text.Blank(b) && key == a + trimmed + b;
    ShownWithin(a, trimmed, b, word);
    if at :| WordAt(word, trimmed, at) {
      ShownIsContained(trimmed, word, at);
    }
    if Contains(Compact(Text.Lower(trimmed)), word) {
      ContainedIsShown(trimmed, word);
    }
  }

  lemma EmptyShowsNothing(key: string)
    requires Text.Trim(key) == ""
    ensures forall i: nat | i < |FRAGMENTS| :: !Contains(Compact(Text.Lower(Text.Trim(key))), Compact(FRAGMENTS[i]))
  {
    forall i: nat | i < |FRAGMENTS| ensures !Contains("", Compact(FRAGMENTS[i])) {
      FragmentCompact(i);
      hide Compact;
    }
  }
}
