/** Byte-wise string order, sorting, and the sorted listing of a set of strings. */
module Ordering {
  predicate Leq(a: string, b: string) {
    a == [] || (b != [] && (a[0] < b[0] || (a[0] == b[0] && Leq(a[1..], b[1..]))))
  }

  predicate Lt(a: string, b: string) {
    a != b && Leq(a, b)
  }

  lemma {:induction false} LeqTotal(a: string, b: string)
    ensures Leq(a, a) && (Leq(a, b) || Leq(b, a))
  {
    if a != [] {
      LeqTotal(a[1..], if b == [] then [] else b[1..]);
    }
  }

  lemma {:induction false} LeqAntisymmetric(a: string, b: string)
    requires Leq(a, b) && Leq(b, a)
    ensures a == b
  {
    if a != [] {
      LeqAntisymmetric(a[1..], b[1..]);
      assert a == [a[0]] + a[1..] && b == [b[0]] + b[1..];
    }
  }

  lemma {:induction false} LeqTransitive(a: string, b: string, c: string)
    requires Leq(a, b) && Leq(b, c)
    ensures Leq(a, c)
  {
    if a != [] && a[0] == b[0] == c[0] {
      LeqTransitive(a[1..], b[1..], c[1..]);
    }
  }

  ghost predicate Sorted(q: seq<string>) {
    forall i, j | 0 <= i < j < |q| :: Leq(q[i], q[j])
  }

  ghost predicate StrictlySorted(q: seq<string>) {
    forall i, j | 0 <= i < j < |q| :: Lt(q[i], q[j])
  }

  /** Puts x before the first element that is not smaller. */
  function Insert(x: string, q: seq<string>): seq<string> {
    if q == [] || Leq(x, q[0]) then [x] + q else [q[0]] + Insert(x, q[1..])
  }

  /** sort.Strings. */
  function Sort(q: seq<string>): (r: seq<string>)
    ensures |r| == |q|
  {
    if q == [] then [] else InsertLength(q[0], Sort(q[1..])); Insert(q[0], Sort(q[1..]))
  }

  lemma InsertLength(x: string, q: seq<string>)
    ensures |Insert(x, q)| == |q| + 1
  {
  }

  lemma {:induction false} InsertSorts(x: string, q: seq<string>)
    requires Sorted(q)
    ensures Sorted(Insert(x, q)) && multiset(Insert(x, q)) == multiset(q) + multiset{x}
  {
    hide Leq;
    if q == [] {
    } else if Leq(x, q[0]) {
      forall j | 0 <= j < |q| ensures Leq(x, q[j]) {
        if j > 0 { LeqTransitive(x, q[0], q[j]); }
      }
    } else {
      LeqTotal(x, q[0]);
      InsertSorts(x, q[1..]);
      var r := Insert(x, q[1..]);
      assert q == [q[0]] + q[1..];
      forall j | 0 <= j < |r| ensures Leq(q[0], r[j]) {
        assert r[j] in multiset(r);
        assert r[j] == x || r[j] in q[1..];
      }
    }
  }

  /** Sorting yields the elements, as often as they occurred, in order. */
  lemma {:induction false} SortSorts(q: seq<string>)
    ensures Sorted(Sort(q)) && multiset(Sort(q)) == multiset(q)
  {
    if q != [] {
      SortSorts(q[1..]);
      InsertSorts(q[0], Sort(q[1..]));
      assert q == [q[0]] + q[1..];
    }
  }

  lemma LeastFirst(a: seq<string>, x: string)
    requires Sorted(a) && a != [] && x in multiset(a)
    ensures Leq(a[0], x)
  {
    var i :| 0 <= i < |a| && a[i] == x;
    LeqTotal(x, x);
  }

  lemma TailMultiset(a: seq<string>)
    requires a != []
    ensures multiset(a[1..]) == multiset(a) - multiset{a[0]} && a[0] in multiset(a)
  {
    assert a == [a[0]] + a[1..];
  }

  /** There is only one way to sort. */
  lemma {:induction false} SortedUnique(a: seq<string>, b: seq<string>)
    requires Sorted(a) && Sorted(b) && multiset(a) == multiset(b)
    ensures a == b
  {
    if a == [] {
      assert |multiset(b)| == 0;
    } else {
      assert |multiset(a)| == |multiset(b)|;
      TailMultiset(a);
      TailMultiset(b);
      LeastFirst(a, b[0]);
      LeastFirst(b, a[0]);
      LeqAntisymmetric(a[0], b[0]);
      SortedTail(a);
      SortedTail(b);
      SortedUnique(a[1..], b[1..]);
      assert a == [a[0]] + a[1..] && b == [b[0]] + b[1..];
    }
  }

  lemma SortedTail(a: seq<string>)
    requires Sorted(a) && a != []
    ensures Sorted(a[1..])
  {
  }

  function Elements(q: seq<string>): set<string> {
    set x | x in q
  }

  lemma NoElements(q: seq<string>)
    ensures Elements(q) == {} <==> q == []
  {
    assert q != [] ==> q[0] in Elements(q);
  }

  /** A strictly sorted listing is determined by its elements. */
  lemma {:induction false} ListingUnique(a: seq<string>, b: seq<string>)
    requires StrictlySorted(a) && StrictlySorted(b) && Elements(a) == Elements(b)
    ensures a == b
  {
    NoElements(a);
    NoElements(b);
    if a != [] {
      assert a[0] in Elements(b) && b[0] in Elements(a);
      var i :| 0 <= i < |b| && b[i] == a[0];
      var j :| 0 <= j < |a| && a[j] == b[0];
      if i > 0 && j > 0 { LeqAntisymmetric(a[0], b[0]); }
      forall x ensures x in Elements(a[1..]) <==> x in Elements(a) && x != a[0] {
      }
      forall x ensures x in Elements(b[1..]) <==> x in Elements(b) && x != b[0] {
      }
      ListingUnique(a[1..], b[1..]);
      assert a == [a[0]] + a[1..] && b == [b[0]] + b[1..];
    }
  }

  lemma {:induction false} HasLeast(s: set<string>)
    requires s != {}
    ensures exists x :: x in s && forall y | y in s :: Leq(x, y)
  {
    var x :| x in s;
    LeqTotal(x, x);
    if s != {x} {
      HasLeast(s - {x});
      var z :| z in s - {x} && forall y | y in s - {x} :: Leq(z, y);
      LeqTotal(x, z);
      if Leq(x, z) {
        forall y | y in s ensures Leq(x, y) {
          if y != x { LeqTransitive(x, z, y); }
        }
      } else {
        assert forall y | y in s :: Leq(z, y);
      }
    }
  }

  function Least(s: set<string>): (x: string)
    requires s != {}
    ensures x in s && forall y | y in s :: Leq(x, y)
  {
    HasLeast(s);
    assert forall a, b | Leq(a, b) && Leq(b, a) :: a == b by {
      forall a, b | Leq(a, b) && Leq(b, a) ensures a == b { LeqAntisymmetric(a, b); }
    }
    var x :| x in s && forall y | y in s :: Leq(x, y);
    x
  }

  lemma SortedWithFront(x: string, rest: seq<string>)
    requires StrictlySorted(rest) && forall y | y in Elements(rest) :: Leq(x, y) && x != y
    ensures StrictlySorted([x] + rest)
  {
    forall j | 0 <= j < |rest| ensures Lt(x, rest[j]) {
      assert rest[j] in Elements(rest);
    }
  }

  lemma ElementsWithFront(s: set<string>, x: string, rest: seq<string>)
    requires x in s && Elements(rest) == s - {x}
    ensures Elements([x] + rest) == s
  {
    assert Elements([x] + rest) == {x} + Elements(rest);
  }

  lemma LeastInFront(s: set<string>, x: string, rest: seq<string>)
    requires x in s && forall y | y in s :: Leq(x, y)
    requires StrictlySorted(rest) && Elements(rest) == s - {x} && |rest| == |s - {x}|
    ensures StrictlySorted([x] + rest) && Elements([x] + rest) == s && |[x] + rest| == |s|
  {
    hide *;
    SortedWithFront(x, rest);
    ElementsWithFront(s, x, rest);
  }

  /** The elements of a set, sorted. */
  function Listing(s: set<string>): (q: seq<string>)
    ensures StrictlySorted(q) && Elements(q) == s && |q| == |s|
  {
    if s == {} then []
    else
      var x := Least(s);
      var rest := Listing(s - {x});
      LeastInFront(s, x, rest);
      [x] + rest
  }

  /** Sorting distinct strings lists their set. */
  lemma SortLists(q: seq<string>, s: set<string>)
    requires Elements(q) == s && |q| == |s|
    ensures Sort(q) == Listing(s)
  {
    SortSorts(q);
    var l := Listing(s);
    DistinctMultiset(q, s);
    DistinctMultiset(l, s);
    SortedUnique(Sort(q), l);
  }

  lemma {:induction false} DistinctMultiset(q: seq<string>, s: set<string>)
    requires Elements(q) == s && |q| == |s|
    ensures multiset(q) == multiset(s)
  {
    if q == [] {
    } else {
      var rest := q[1..];
      assert q == [q[0]] + rest;
      SeqSetBound(rest);
      assert q[0] in rest ==> Elements(rest) == s;
      assert Elements(rest) == s - {q[0]};
      DistinctMultiset(rest, s - {q[0]});
      assert multiset(s) == multiset(s - {q[0]}) + multiset{q[0]};
    }
  }

  lemma {:induction false} SeqSetBound(q: seq<string>)
    ensures |Elements(q)| <= |q|
  {
    if q != [] {
      SeqSetBound(q[1..]);
      assert Elements(q) == Elements(q[1..]) + {q[0]};
    }
  }

  lemma {:induction false} SortElements(q: seq<string>)
    ensures Elements(Sort(q)) == Elements(q)
  {
    SortSorts(q);
    forall x ensures x in Sort(q) <==> x in q {
      assert x in Sort(q) <==> x in multiset(Sort(q));
      assert x in q <==> x in multiset(q);
    }
  }

  /** The order: by the first character that differs, a text before what goes on from it. */
  lemma {:induction false} LeqExactly(a: string, b: string)
    ensures Leq(a, b) <==> a <= b || exists i :: 0 <= i < |a| && i < |b| && a[..i] == b[..i] && a[i] < b[i]
  {
    if a != [] && b != [] && a[0] == b[0] {
      LeqExactly(a[1..], b[1..]);
      assert a == [a[0]] + a[1..] && b == [b[0]] + b[1..];
      if i :| 0 <= i < |a| && i < |b| && a[..i] == b[..i] && a[i] < b[i] {
        assert a[1..][..i - 1] == a[..i][1..] && b[1..][..i - 1] == b[..i][1..];
      }
      if i :| 0 <= i < |a[1..]| && i < |b[1..]| && a[1..][..i] == b[1..][..i] && a[1..][i] < b[1..][i] {
        assert a[..i + 1] == [a[0]] + a[1..][..i] && b[..i + 1] == [b[0]] + b[1..][..i];
      }
    } else if a != [] && b != [] {
      assert a[..0] == b[..0];
      forall i | 0 < i < |a| && i < |b| ensures a[..i] != b[..i] {
        assert a[..i][0] != b[..i][0];
      }
    }
  }
}
