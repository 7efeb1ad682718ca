/** The lexicographic order of hashes, and sorting units by a hash-valued key. */
module HashOrder {
  import opened Units

  /** `h` is smaller than `k` at the first position where they differ. */
  ghost predicate Less(h: Hash, k: Hash) {
    exists i :: 0 <= i < 32 && h[i] < k[i] && SamePrefix(h, k, i)
  }

  ghost predicate SamePrefix(h: Hash, k: Hash, i: nat)
    requires i <= 32
  {
    forall j :: 0 <= j < i ==> h[j] == k[j]
  }

  method LessThan(h: Hash, k: Hash) returns (r: bool)
    ensures r <==> Less(h, k)
  {
    for i := 0 to 32
      invariant SamePrefix(h, k, i)
    {
      if h[i] < k[i] {
        return true;
      } else if h[i] > k[i] {
        LessIsAsymmetric(k, h, i);
        return false;
      }
    }
    return false;
  }

  ghost function Digit(x: Byte): (d: nat)
    ensures d < 256
  {
    x as nat
  }

  /** The number whose digits, in base 256, are the first `n` bytes. */
  ghost function Number(h: Hash, n: nat): nat
    requires n <= 32
  {
    if n == 0 then 0 else 256 * Number(h, n - 1) + Digit(h[n - 1])
  }

  ghost predicate LessUpTo(h: Hash, k: Hash, n: nat)
    requires n <= 32
  {
    exists i :: 0 <= i < n && h[i] < k[i] && SamePrefix(h, k, i)
  }

  /** Hashes are ordered as numbers, most significant byte first. */
  lemma LessIsNumeric(h: Hash, k: Hash)
    ensures Less(h, k) <==> Number(h, 32) < Number(k, 32)
  {
    NumericUpTo(h, k, 32);
    assert Less(h, k) <==> LessUpTo(h, k, 32);
  }

  lemma {:induction false} NumericUpTo(h: Hash, k: Hash, n: nat)
    requires n <= 32
    ensures LessUpTo(h, k, n) <==> Number(h, n) < Number(k, n)
    ensures SamePrefix(h, k, n) <==> Number(h, n) == Number(k, n)
  {
    hide LessUpTo, SamePrefix, Digit;
    if n == 0 {
      LessNowhere(h, k);
    } else {
      NumericUpTo(h, k, n - 1);
      LastDigit(Number(h, n - 1), Digit(h[n - 1]), Number(k, n - 1), Digit(k[n - 1]));
      LessNext(h, k, n - 1);
    }
  }

  lemma LastDigit(a: nat, x: nat, b: nat, y: nat)
    requires x < 256 && y < 256
    ensures 256 * a + x < 256 * b + y <==> a < b || (a == b && x < y)
    ensures 256 * a + x == 256 * b + y <==> a == b && x == y
  {
  }

  lemma LessNowhere(h: Hash, k: Hash)
    ensures !LessUpTo(h, k, 0) && SamePrefix(h, k, 0)
  {
  }

  lemma ByteOrder(x: Byte, y: Byte)
    ensures x < y <==> Digit(x) < Digit(y)
    ensures x == y <==> Digit(x) == Digit(y)
  {
  }

  lemma LessNext(h: Hash, k: Hash, n: nat)
    requires n < 32
    ensures LessUpTo(h, k, n + 1) <==> LessUpTo(h, k, n) || (SamePrefix(h, k, n) && Digit(h[n]) < Digit(k[n]))
    ensures SamePrefix(h, k, n + 1) <==> SamePrefix(h, k, n) && Digit(h[n]) == Digit(k[n])
  {
    hide Digit;
    ByteOrder(h[n], k[n]);
  }

  lemma LessIsAsymmetric(h: Hash, k: Hash, i: nat)
    requires i < 32 && h[i] < k[i] && SamePrefix(h, k, i)
    ensures Less(h, k) && !Less(k, h)
  {
  }

  lemma LessIsTotal(h: Hash, k: Hash)
    ensures h == k <==> !Less(h, k) && !Less(k, h)
  {
    if h != k {
      var i := FirstDifference(h, k, 32);
    }
  }

  lemma {:induction false} FirstDifference(h: Hash, k: Hash, n: nat) returns (i: nat)
    requires n <= 32 && exists j :: 0 <= j < n && h[j] != k[j]
    ensures i < n && h[i] != k[i] && SamePrefix(h, k, i)
  {
    if SamePrefix(h, k, n - 1) {
      i := n - 1;
    } else {
      i := FirstDifference(h, k, n - 1);
    }
  }

  lemma LessIsTransitive(a: Hash, b: Hash, c: Hash)
    requires Less(a, b) && Less(b, c)
    ensures Less(a, c)
  {
    var i :| 0 <= i < 32 && a[i] < b[i] && SamePrefix(a, b, i);
    var j :| 0 <= j < 32 && b[j] < c[j] && SamePrefix(b, c, j);
    SamePrefixes(a, b, c, i, j);
    if i < j {
      assert b[i] == c[i];
    } else if j < i {
      assert a[j] == b[j];
    }
  }

  lemma SamePrefixes(a: Hash, b: Hash, c: Hash, i: nat, j: nat)
    requires i < 32 && j < 32 && SamePrefix(a, b, i) && SamePrefix(b, c, j)
    ensures SamePrefix(a, c, if i < j then i else j)
  {
  }

  lemma NotBothWays(h: Hash, k: Hash)
    ensures !(Less(h, k) && Less(k, h))
  {
    if Less(h, k) && Less(k, h) {
      LessIsTransitive(h, k, h);
    }
  }

  /** No later unit has a smaller key than an earlier one. */
  ghost predicate SortedBy(s: seq<Unit>, key: Unit -> Hash) {
    forall i, j :: 0 <= i < j < |s| ==> !Less(key(s[j]), key(s[i]))
  }

  /** Puts `u` before the first unit of `s` with a larger key. */
  method InsertSorted(s: seq<Unit>, u: Unit, key: Unit -> Hash) returns (r: seq<Unit>)
    requires SortedBy(s, key)
    ensures SortedBy(r, key) && multiset(r) == multiset(s) + multiset{u}
  {
    hide Less, SortedBy;
    var i := 0;
    var stop := false;
    while i < |s| && !stop
      invariant 0 <= i <= |s|
      invariant forall j :: 0 <= j < i ==> !Less(key(u), key(s[j]))
      invariant stop ==> i < |s| && Less(key(u), key(s[i]))
      decreases |s| - i, !stop
    {
      stop := LessThan(key(u), key(s[i]));
      if !stop {
        i := i + 1;
      }
    }
    InsertKeepsOrder(s, u, key, i);
    r := s[..i] + [u] + s[i..];
    assert s == s[..i] + s[i..];
  }

  lemma InsertKeepsOrder(s: seq<Unit>, u: Unit, key: Unit -> Hash, i: nat)
    requires SortedBy(s, key) && i <= |s|
    requires forall j :: 0 <= j < i ==> !Less(key(u), key(s[j]))
    requires i < |s| ==> Less(key(u), key(s[i]))
    ensures SortedBy(s[..i] + [u] + s[i..], key)
  {
    hide Less;
    forall j | i <= j < |s| ensures !Less(key(s[j]), key(u)) {
      if Less(key(s[j]), key(u)) {
        LessIsTransitive(key(s[j]), key(u), key(s[i]));
        NotBothWays(key(s[i]), key(u));
      }
    }
  }

  /** Sorts units by key. */
  method Sort(s: seq<Unit>, key: Unit -> Hash) returns (r: seq<Unit>)
    ensures SortedBy(r, key) && multiset(r) == multiset(s)
  {
    r := [];
    for i := 0 to |s|
      invariant SortedBy(r, key) && multiset(r) == multiset(s[..i])
    {
      assert s[..i + 1] == s[..i] + [s[i]];
      r := InsertSorted(r, s[i], key);
    }
    assert s[..|s|] == s;
  }

  /** Two places hold the same key. */
  ghost predicate Tie(s: seq<Unit>, key: Unit -> Hash) {
    exists i, j :: 0 <= i < j < |s| && key(s[i]) == key(s[j])
  }

  /** Every earlier unit has a smaller key. */
  ghost predicate StrictBy(s: seq<Unit>, key: Unit -> Hash) {
    forall i, j :: 0 <= i < j < |s| ==> Less(key(s[i]), key(s[j]))
  }

  lemma StrictIsSorted(s: seq<Unit>, key: Unit -> Hash)
    requires StrictBy(s, key)
    ensures SortedBy(s, key)
  {
    hide Less;
    forall i, j | 0 <= i < j < |s| ensures !Less(key(s[j]), key(s[i])) {
      NotBothWays(key(s[i]), key(s[j]));
    }
  }

  lemma InsertKeepsStrict(s: seq<Unit>, u: Unit, key: Unit -> Hash, i: nat)
    requires StrictBy(s, key) && i <= |s|
    requires forall j :: 0 <= j < i ==> !Less(key(u), key(s[j])) && key(s[j]) != key(u)
    requires i < |s| ==> Less(key(u), key(s[i]))
    ensures StrictBy(s[..i] + [u] + s[i..], key)
  {
    hide Less;
    forall j | 0 <= j < |s| ensures if j < i then Less(key(s[j]), key(u)) else Less(key(u), key(s[j])) {
      LessIsTotal(key(s[j]), key(u));
      if j > i {
        LessIsTransitive(key(u), key(s[i]), key(s[j]));
      }
    }
  }

  /** Inserts `u`, or gives up on meeting an equal key. */
  method InsertDistinct(s: seq<Unit>, u: Unit, key: Unit -> Hash) returns (r: Option<seq<Unit>>)
    requires StrictBy(s, key)
    ensures r.None? <==> exists k :: 0 <= k < |s| && key(s[k]) == key(u)
    ensures r.Some? ==> StrictBy(r.value, key) && multiset(r.value) == multiset(s) + multiset{u}
  {
    hide Less, StrictBy;
    var i := 0;
    var stop := false;
    while i < |s| && !stop
      invariant 0 <= i <= |s|
      invariant forall j :: 0 <= j < i ==> !Less(key(u), key(s[j])) && key(s[j]) != key(u)
      invariant stop ==> i < |s| && Less(key(u), key(s[i]))
      decreases |s| - i, !stop
    {
      if key(u) == key(s[i]) {
        return None;
      }
      stop := LessThan(key(u), key(s[i]));
      if !stop {
        i := i + 1;
      }
    }
    NoEqualBeyond(s, u, key, i);
    InsertKeepsStrict(s, u, key, i);
    assert s == s[..i] + s[i..];
    return Some(s[..i] + [u] + s[i..]);
  }

  lemma NoEqualBeyond(s: seq<Unit>, u: Unit, key: Unit -> Hash, i: nat)
    requires StrictBy(s, key) && i <= |s| && (i < |s| ==> Less(key(u), key(s[i])))
    ensures forall k :: i <= k < |s| ==> key(s[k]) != key(u)
  {
    hide Less;
    forall k | i <= k < |s| ensures key(s[k]) != key(u) {
      if k > i {
        LessIsTransitive(key(u), key(s[i]), key(s[k]));
      }
      LessIsTotal(key(u), key(u));
    }
  }

  /**
   * Sorts units by key, or gives up on comparing equal keys. Any sort compares those that end up next to each other,
   * so it gives up exactly if there is a tie.
   */
  method SortDistinct(s: seq<Unit>, key: Unit -> Hash) returns (r: Option<seq<Unit>>)
    ensures r.None? <==> Tie(s, key)
    ensures r.Some? ==> StrictBy(r.value, key) && multiset(r.value) == multiset(s)
  {
    hide StrictBy;
    var sorted: seq<Unit> := [];
    NothingToSort(key);
    for i := 0 to |s|
      invariant StrictBy(sorted, key) && multiset(sorted) == multiset(s[..i])
      invariant !Tie(s[..i], key)
    {
      var next := InsertDistinct(sorted, s[i], key);
      TieNext(s, key, i, sorted);
      assert s[..i + 1] == s[..i] + [s[i]];
      if next.None? {
        return None;
      }
      sorted := next.value;
    }
    assert s[..|s|] == s;
    return Some(sorted);
  }

  lemma NothingToSort(key: Unit -> Hash)
    ensures StrictBy([], key)
  {
  }

  lemma TieNext(s: seq<Unit>, key: Unit -> Hash, i: nat, sorted: seq<Unit>)
    requires i < |s| && !Tie(s[..i], key) && multiset(sorted) == multiset(s[..i])
    ensures (exists k :: 0 <= k < |sorted| && key(sorted[k]) == key(s[i])) <==> Tie(s[..i + 1], key)
    ensures Tie(s[..i + 1], key) ==> Tie(s, key)
  {
    var more := s[..i + 1];
    if k :| 0 <= k < |sorted| && key(sorted[k]) == key(s[i]) {
      assert sorted[k] in multiset(s[..i]);
      var j :| 0 <= j < i && s[..i][j] == sorted[k];
      assert key(more[j]) == key(more[i]);
    }
    if a, b :| 0 <= a < b < |more| && key(more[a]) == key(more[b]) {
      assert key(s[a]) == key(s[b]);
      if b == i {
        assert s[a] == s[..i][a] && s[a] in multiset(sorted);
        var k :| 0 <= k < |sorted| && sorted[k] == s[a];
      }
    }
  }

  /** Different units of `units` have different keys. */
  ghost predicate DistinctKeys(units: set<Unit>, key: Unit -> Hash) {
    forall u, v :: u in units && v in units && key(u) == key(v) ==> u == v
  }

  /** With distinct keys the sorted arrangement is unique, however it was computed. */
  lemma {:induction false} SortIsUnique(s: seq<Unit>, t: seq<Unit>, key: Unit -> Hash)
    requires SortedBy(s, key) && SortedBy(t, key) && multiset(s) == multiset(t)
    requires forall u, v :: u in s && v in s && key(u) == key(v) ==> u == v
    ensures s == t
    decreases |s|
  {
    hide Less, SortedBy;
    assert |multiset(s)| == |s| && |multiset(t)| == |t|;
    if s != [] {
      SameHead(s, t, key);
      Tail(s, key);
      Tail(t, key);
      SortIsUnique(s[1..], t[1..], key);
      assert s == [s[0]] + s[1..] && t == [t[0]] + t[1..];
    }
  }

  lemma Tail(s: seq<Unit>, key: Unit -> Hash)
    requires s != [] && SortedBy(s, key)
    ensures SortedBy(s[1..], key) && multiset(s[1..]) == multiset(s) - multiset{s[0]} && forall u :: u in s[1..] ==>
      u in s
  {
    hide Less;
    assert s == [s[0]] + s[1..];
  }

  lemma SameHead(s: seq<Unit>, t: seq<Unit>, key: Unit -> Hash)
    requires SortedBy(s, key) && SortedBy(t, key) && multiset(s) == multiset(t) && s != [] && t != []
    requires forall u, v :: u in s && v in s && key(u) == key(v) ==> u == v
    ensures s[0] == t[0]
  {
    assert s[0] in multiset(t) && t[0] in multiset(s);
    var i :| 0 <= i < |t| && t[i] == s[0];
    var j :| 0 <= j < |s| && s[j] == t[0];
    LessIsTotal(key(s[0]), key(t[0]));
  }
}
