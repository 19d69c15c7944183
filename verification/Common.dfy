/** Small vocabulary shared by the models. */
module Common {
  datatype Option<+T> = None | Some(value: T)

  /** A Go map read: a missing key reads as the zero value. */
  function At<K, V>(m: map<K, V>, k: K, zero: V): V {
    if k in m then m[k] else zero
  }

  function Abs(x: real): real {
    if x < 0.0 then -x else x
  }

  function Max(x: real, y: real): real {
    if x < y then y else x
  }
}

/** Finite sums over the entries of a map. */
module MapSums {
  ghost function Sum<K(!new), V(!new)>(m: map<K, V>, w: (K, V) -> real): real
    decreases |m|
  {
    if m == map[] then 0.0
    else
      var k :| k in m;
      assert |m - {k}| < |m| by { CardRemove(m, k); }
      w(k, m[k]) + Sum(m - {k}, w)
  }

  lemma CardRemove<K, V>(m: map<K, V>, k: K)
    requires k in m
    ensures |m - {k}| == |m| - 1
  {
    assert (m - {k}).Keys == m.Keys - {k};
    assert |m.Keys| == |m| && |(m - {k}).Keys| == |m - {k}|;
  }

  /** Any entry can be taken out first. */
  lemma {:induction false} Split<K(!new), V(!new)>(m: map<K, V>, k: K, w: (K, V) -> real)
    requires k in m
    ensures Sum(m, w) == w(k, m[k]) + Sum(m - {k}, w)
    decreases |m|
  {
    var j :| j in m && Sum(m, w) == w(j, m[j]) + Sum(m - {j}, w);
    if j != k {
      CardRemove(m, j);
      CardRemove(m, k);
      Split(m - {j}, k, w);
      Split(m - {k}, j, w);
      assert m - {j} - {k} == m - {k} - {j};
    }
  }

  /** Writing an entry replaces its term. */
  lemma Write<K(!new), V(!new)>(m: map<K, V>, k: K, v: V, w: (K, V) -> real)
    ensures Sum(m[k := v], w) == w(k, v) + Sum(m - {k}, w)
  {
    Split(m[k := v], k, w);
    assert m[k := v] - {k} == m - {k};
  }

  lemma {:induction false} Congruent<K(!new), V(!new)>(m: map<K, V>, w: (K, V) -> real, u: (K, V) -> real)
    requires forall k | k in m :: w(k, m[k]) == u(k, m[k])
    ensures Sum(m, w) == Sum(m, u)
    decreases |m|
  {
    if m != map[] {
      var k :| k in m;
      CardRemove(m, k);
      Split(m, k, w);
      Split(m, k, u);
      Congruent(m - {k}, w, u);
    }
  }

  lemma {:induction false} NonNegative<K(!new), V(!new)>(m: map<K, V>, w: (K, V) -> real)
    requires forall k | k in m :: w(k, m[k]) >= 0.0
    ensures Sum(m, w) >= 0.0
    decreases |m|
  {
    if m != map[] {
      var k :| k in m;
      CardRemove(m, k);
      Split(m, k, w);
      NonNegative(m - {k}, w);
    }
  }

  /** n copies of c added up. */
  ghost function Times(n: nat, c: real): real {
    if n == 0 then 0.0 else c + Times(n - 1, c)
  }

  lemma {:induction false} TimesMonotone(n: nat, m: nat, c: real)
    requires n <= m && 0.0 <= c
    ensures 0.0 <= Times(n, c) <= Times(m, c)
    decreases m
  {
    if n < m {
      TimesMonotone(n, m - 1, c);
    } else if n > 0 {
      TimesMonotone(n - 1, n - 1, c);
    }
  }

  lemma {:induction false} TimesIsProduct(n: nat, c: real)
    ensures Times(n, c) == n as real * c
  {
    if n > 0 {
      TimesIsProduct(n - 1, c);
      assert ((n - 1) as real + 1.0) * c == (n - 1) as real * c + c;
    }
  }

  /** A sum that is at most c on the given keys and at most 0 elsewhere. */
  lemma {:induction false} CountBound<K(!new), V(!new)>(m: map<K, V>, w: (K, V) -> real, keys: set<K>, c: real)
    requires keys <= m.Keys
    requires forall k | k in m :: if k in keys then w(k, m[k]) <= c else w(k, m[k]) <= 0.0
    ensures Sum(m, w) <= Times(|keys|, c)
    decreases |m|
  {
    if m == map[] {
      assert keys == {};
    } else {
      var k :| k in m;
      CardRemove(m, k);
      Split(m, k, w);
      CountBound(m - {k}, w, keys - {k}, c);
      if k !in keys {
        assert keys - {k} == keys;
      }
    }
  }
}
