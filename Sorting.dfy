/** Orderings the database applies: ORDER BY on one column in either direction, and the
    ascending order in which integer keys are listed. Text compares by code point, as under
    PostgreSQL's "C" collation. */
module Sorting {

  /** The value a row is sorted by. */
  datatype Key = IntKey(n: int) | TextKey(s: string)

  /** Lexicographic order on strings by code point. */
  predicate TextLeq(a: string, b: string)
    decreases |a|
  {
    |a| == 0 || (|b| > 0 && (a[0] < b[0] || (a[0] == b[0] && TextLeq(a[1..], b[1..]))))
  }

  predicate KeyLeq(a: Key, b: Key) {
    match (a, b)
    case (IntKey(x), IntKey(y)) => x <= y
    case (TextKey(x), TextKey(y)) => TextLeq(x, y)
    case (IntKey(_), TextKey(_)) => true
    case (TextKey(_), IntKey(_)) => false
  }

  /** `a` may come before `b` in an ASC (or, when `desc`, a DESC) ordering. */
  predicate InOrder(a: Key, b: Key, desc: bool) {
    if desc then KeyLeq(b, a) else KeyLeq(a, b)
  }

  lemma {:induction false} TextLeqTotal(a: string, b: string)
    ensures TextLeq(a, b) || TextLeq(b, a)
    decreases |a|
  {
    if |a| > 0 && |b| > 0 && a[0] == b[0] {
      TextLeqTotal(a[1..], b[1..]);
    }
  }

  lemma {:induction false} TextLeqTransitive(a: string, b: string, c: string)
    requires TextLeq(a, b) && TextLeq(b, c)
    ensures TextLeq(a, c)
    decreases |a|
  {
    if |a| > 0 && a[0] == b[0] && b[0] == c[0] {
      TextLeqTransitive(a[1..], b[1..], c[1..]);
    }
  }

  lemma InOrderTotal(a: Key, b: Key, desc: bool)
    ensures InOrder(a, b, desc) || InOrder(b, a, desc)
  {
    if a.TextKey? && b.TextKey? {
      TextLeqTotal(a.s, b.s);
    }
  }

  lemma InOrderTransitive(a: Key, b: Key, c: Key, desc: bool)
    requires InOrder(a, b, desc) && InOrder(b, c, desc)
    ensures InOrder(a, c, desc)
  {
    if a.TextKey? && b.TextKey? && c.TextKey? {
      if desc {
        TextLeqTransitive(c.s, b.s, a.s);
      } else {
        TextLeqTransitive(a.s, b.s, c.s);
      }
    }
  }

  ghost predicate SortedBy<T>(s: seq<T>, key: T -> Key, desc: bool) {
    forall i, j :: 0 <= i < j < |s| ==> InOrder(key(s[i]), key(s[j]), desc)
  }

  /** Inserts `x` before the first element it may precede, so equal keys keep their order. */
  function Insert<T>(x: T, s: seq<T>, key: T -> Key, desc: bool): (r: seq<T>)
    ensures multiset(r) == multiset(s) + multiset{x}
  {
    if s == [] then [x]
    else if InOrder(key(x), key(s[0]), desc) then [x] + s
    else
      assert s == [s[0]] + s[1..];
      [s[0]] + Insert(x, s[1..], key, desc)
  }

  /** Inserting into a sorted sequence keeps it sorted. */
  lemma {:induction false} InsertSorted<T>(x: T, s: seq<T>, key: T -> Key, desc: bool)
    requires SortedBy(s, key, desc)
    ensures SortedBy(Insert(x, s, key, desc), key, desc)
  {
    if s == [] {
    } else if InOrder(key(x), key(s[0]), desc) {
      ConsSorted(x, s, key, desc);
    } else {
      var rest := Insert(x, s[1..], key, desc);
      InsertSorted(x, s[1..], key, desc);
      assert s == [s[0]] + s[1..];
      InOrderTotal(key(x), key(s[0]), desc);
      forall y | y in rest ensures InOrder(key(s[0]), key(y), desc) {
        assert y in multiset(rest);
        if y != x {
          HeadPrecedes(s, key, desc, y);
        }
      }
      ConsSorted(s[0], rest, key, desc);
    }
  }

  /** An element that may precede the head of a sorted sequence may precede all of it. */
  lemma ConsSorted<T>(x: T, s: seq<T>, key: T -> Key, desc: bool)
    requires SortedBy(s, key, desc)
    requires s == [] || InOrder(key(x), key(s[0]), desc) || forall y :: y in s ==> InOrder(key(x), key(y), desc)
    ensures SortedBy([x] + s, key, desc)
  {
    var r := [x] + s;
    forall i, j | 0 <= i < j < |r| ensures InOrder(key(r[i]), key(r[j]), desc) {
      if i == 0 {
        assert r[j] == s[j - 1] && s[j - 1] in s;
        if j > 1 && InOrder(key(x), key(s[0]), desc) {
          InOrderTransitive(key(x), key(s[0]), key(s[j - 1]), desc);
        }
      } else {
        assert r[i] == s[i - 1] && r[j] == s[j - 1];
      }
    }
  }

  lemma HeadPrecedes<T>(s: seq<T>, key: T -> Key, desc: bool, y: T)
    requires SortedBy(s, key, desc) && |s| > 0 && y in multiset(s[1..])
    ensures InOrder(key(s[0]), key(y), desc)
  {
    var k :| 0 <= k < |s[1..]| && s[1..][k] == y;
    assert s[k + 1] == y;
  }

  /** ORDER BY `key` ASC (or DESC): a stable insertion sort. */
  function SortBy<T>(s: seq<T>, key: T -> Key, desc: bool): (r: seq<T>)
    ensures multiset(r) == multiset(s)
    ensures SortedBy(r, key, desc)
  {
    if s == [] then []
    else
      assert s == [s[0]] + s[1..];
      var rest := SortBy(s[1..], key, desc);
      InsertSorted(s[0], rest, key, desc);
      Insert(s[0], rest, key, desc)
  }

  /** Sorting keeps the length and the elements. */
  lemma SortByMembers<T>(s: seq<T>, key: T -> Key, desc: bool)
    ensures |SortBy(s, key, desc)| == |s|
    ensures forall x :: x in SortBy(s, key, desc) <==> x in s
  {
    var r := SortBy(s, key, desc);
    assert |r| == |multiset(r)| == |multiset(s)| == |s|;
    forall x ensures x in r <==> x in s {
      assert x in r <==> x in multiset(r);
      assert x in s <==> x in multiset(s);
    }
  }

  ghost predicate StrictlyIncreasing(s: seq<int>) {
    forall i, j :: 0 <= i < j < |s| ==> s[i] < s[j]
  }

  lemma {:induction false} MinExists(s: set<int>)
    requires s != {}
    ensures exists m :: m in s && forall y :: y in s ==> m <= y
    decreases |s|
  {
    if forall y :: y !in s {
      assert false;
    }
    var x :| x in s;
    var rest := s - {x};
    assert forall y :: y in s ==> y == x || y in rest;
    if rest != {} {
      MinExists(rest);
      var m :| m in rest && forall y :: y in rest ==> m <= y;
      if x < m {
        assert forall y :: y in s ==> x <= y;
      } else {
        assert forall y :: y in s ==> m <= y;
      }
    } else {
      assert forall y :: y in s ==> x <= y;
    }
  }

  function Minimum(s: set<int>): (m: int)
    requires s != {}
    ensures m in s && forall y :: y in s ==> m <= y
  {
    MinExists(s);
    var m :| m in s && forall y :: y in s ==> m <= y;
    m
  }

  /** The keys of a set in ascending order (how JavaScript lists integer property keys). */
  function AscendingKeys(s: set<int>): (r: seq<int>)
    ensures StrictlyIncreasing(r)
    ensures forall x :: x in r <==> x in s
    ensures |r| == |s|
    decreases |s|
  {
    if s == {} then []
    else
      var m := Minimum(s);
      var rest := AscendingKeys(s - {m});
      assert forall x :: x in rest ==> m < x;
      [m] + rest
  }

  /** The values of a map with integer keys, by ascending key: a scan of a table in primary
      key order. */
  function ValuesByKey<V(==,!new)>(m: map<int, V>): (r: seq<V>)
    ensures |r| == |m|
    ensures forall v :: v in r <==> v in m.Values
  {
    var ks := AscendingKeys(m.Keys);
    var r := seq(|ks|, j requires 0 <= j < |ks| => m[ks[j]]);
    forall v | v in m.Values ensures v in r {
      var k :| k in m && m[k] == v;
      var j :| 0 <= j < |ks| && ks[j] == k;
      assert r[j] == v;
    }
    r
  }

  /** A map that holds no value under two keys yields no value twice. */
  lemma ValuesByKeyNoRepeats<V(!new)>(m: map<int, V>)
    requires forall k1, k2 :: k1 in m && k2 in m && k1 != k2 ==> m[k1] != m[k2]
    ensures NoRepeats(ValuesByKey(m))
  {
    var ks := AscendingKeys(m.Keys);
    var r := ValuesByKey(m);
    assert r == seq(|ks|, j requires 0 <= j < |ks| => m[ks[j]]);
    forall i, j | 0 <= i < j < |r| ensures r[i] != r[j] {
      assert ks[i] < ks[j] && r[i] == m[ks[i]] && r[j] == m[ks[j]];
    }
  }

  /** No element occurs twice. */
  ghost predicate NoRepeats<T>(s: seq<T>) {
    forall i, j :: 0 <= i < j < |s| ==> s[i] != s[j]
  }

  /** Appending an element not yet present keeps a sequence free of repeats. */
  lemma NoRepeatsSnoc<T>(s: seq<T>, x: T)
    ensures NoRepeats(s) && x !in s ==> NoRepeats(s + [x])
  {
  }

  /** A sequence without repeats holds each value at most once. */
  lemma {:induction false} NoRepeatsCountsOnce<T>(s: seq<T>, x: T)
    requires NoRepeats(s)
    ensures multiset(s)[x] <= 1
  {
    if s != [] {
      var n := |s| - 1;
      assert s == s[..n] + [s[n]];
      assert multiset(s) == multiset(s[..n]) + multiset{s[n]};
      NoRepeatsCountsOnce(s[..n], x);
      if s[n] == x {
        assert x !in s[..n];
      }
    }
  }

  /** Two positions holding the same value count it twice. */
  lemma RepeatCountsTwice<T>(s: seq<T>, i: nat, j: nat)
    requires i < j < |s|
    ensures s[i] == s[j] ==> multiset(s)[s[i]] >= 2
  {
    assert s == s[..j] + s[j..];
    assert multiset(s) == multiset(s[..j]) + multiset(s[j..]);
    assert s[..j][i] == s[i] && s[j..][0] == s[j];
  }

  /** A permutation of a sequence without repeats has none either. */
  lemma NoRepeatsPermutation<T>(s: seq<T>, t: seq<T>)
    requires multiset(s) == multiset(t) && NoRepeats(s)
    ensures NoRepeats(t)
  {
    forall i, j | 0 <= i < j < |t| ensures t[i] != t[j] {
      NoRepeatsCountsOnce(s, t[i]);
      RepeatCountsTwice(t, i, j);
    }
  }
}
