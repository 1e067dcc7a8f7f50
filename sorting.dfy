/**
 * The stable sort that every `Array.prototype.sort` call of the core performs
 * (the ECMAScript sort is stable). A comparator `(a, b) => key(a) - key(b)` is
 * modelled by its key; `Infinity` is the key JavaScript's `Infinity` plays for a
 * missing date (the comparator's `Infinity - Infinity` is NaN, which the sort
 * treats as "equal", exactly as two `Infinity` keys compare here).
 */
module Sorting {
  datatype Key = Finite(v: real) | Infinity

  predicate KeyLe(a: Key, b: Key) {
    match a
    case Infinity => b.Infinity?
    case Finite(x) => b.Infinity? || x <= b.v
  }

  lemma KeyLeTotal(a: Key, b: Key)
    ensures KeyLe(a, b) || KeyLe(b, a)
    ensures KeyLe(a, b) && KeyLe(b, a) ==> a == b
  {
  }

  predicate SortedBy<T>(s: seq<T>, key: T -> Key) {
    forall i, j :: 0 <= i < j < |s| ==> KeyLe(key(s[i]), key(s[j]))
  }

  /** Inserts `x` in front of the first element whose key is not smaller. */
  function Insert<T>(x: T, s: seq<T>, key: T -> Key): (r: seq<T>)
    requires SortedBy(s, key)
    ensures SortedBy(r, key)
    ensures multiset(r) == multiset(s) + multiset{x}
    ensures |r| == |s| + 1
  {
    if s == [] || KeyLe(key(x), key(s[0])) then
      InsertHere(x, s, key);
      [x] + s
    else
      var rest := Insert(x, s[1..], key);
      InsertLater(x, s, rest, key);
      [s[0]] + rest
  }

  lemma InsertHere<T>(x: T, s: seq<T>, key: T -> Key)
    requires SortedBy(s, key) && (s == [] || KeyLe(key(x), key(s[0])))
    ensures SortedBy([x] + s, key)
  {
    assert forall j :: 0 <= j < |s| ==> KeyLe(key(x), key(s[j]));
  }

  lemma InsertLater<T>(x: T, s: seq<T>, rest: seq<T>, key: T -> Key)
    requires SortedBy(s, key) && s != [] && !KeyLe(key(x), key(s[0]))
    requires SortedBy(rest, key) && multiset(rest) == multiset(s[1..]) + multiset{x}
    ensures SortedBy([s[0]] + rest, key)
    ensures multiset([s[0]] + rest) == multiset(s) + multiset{x}
  {
    assert multiset(s) == multiset{s[0]} + multiset(s[1..]) by {
      assert s == [s[0]] + s[1..];
    }
    forall y | y in rest ensures KeyLe(key(s[0]), key(y)) {
      assert y in multiset(rest);
    }
  }

  /** The sorted copy of `s`. */
  function SortBy<T>(s: seq<T>, key: T -> Key): (r: seq<T>)
    ensures SortedBy(r, key)
    ensures multiset(r) == multiset(s)
    ensures |r| == |s|
  {
    if s == [] then []
    else
      assert s == [s[0]] + s[1..];
      Insert(s[0], SortBy(s[1..], key), key)
  }

  /** The elements of `s` whose key is `k`, in their order in `s`. */
  function WithKey<T>(s: seq<T>, key: T -> Key, k: Key): (r: seq<T>)
    ensures |r| <= |s|
  {
    if s == [] then []
    else (if key(s[0]) == k then [s[0]] else []) + WithKey(s[1..], key, k)
  }

  lemma {:induction false} WithKeyCons<T>(x: T, s: seq<T>, key: T -> Key, k: Key)
    ensures WithKey([x] + s, key, k) == (if key(x) == k then [x] else []) + WithKey(s, key, k)
  {
    assert ([x] + s)[1..] == s;
  }

  lemma {:induction false} InsertWithKey<T>(x: T, s: seq<T>, key: T -> Key, k: Key)
    requires SortedBy(s, key)
    ensures WithKey(Insert(x, s, key), key, k) == (if key(x) == k then [x] else []) + WithKey(s, key, k)
  {
    if s == [] || KeyLe(key(x), key(s[0])) {
      WithKeyCons(x, s, key, k);
    } else {
      var rest := Insert(x, s[1..], key);
      WithKeyCons(s[0], rest, key, k);
      InsertWithKey(x, s[1..], key, k);
      WithKeyCons(s[0], s[1..], key, k);
      assert [s[0]] + s[1..] == s;
      KeyLeTotal(key(x), key(s[0]));
    }
  }

  /** Stability: for every key, the elements carrying it keep their relative order. */
  lemma {:induction false} SortByStable<T>(s: seq<T>, key: T -> Key, k: Key)
    ensures WithKey(SortBy(s, key), key, k) == WithKey(s, key, k)
  {
    if s != [] {
      SortByStable(s[1..], key, k);
      InsertWithKey(s[0], SortBy(s[1..], key), key, k);
    }
  }

  /** Sorting a sequence that is already in order changes nothing. */
  lemma {:induction false} SortBySorted<T>(s: seq<T>, key: T -> Key)
    requires SortedBy(s, key)
    ensures SortBy(s, key) == s
  {
    if s != [] {
      SortBySorted(s[1..], key);
      assert [s[0]] + s[1..] == s;
    }
  }

  /**
   * The head of the sorted copy is the first element of `s` whose key is minimal:
   * every element before it in `s` has a strictly greater key.
   */
  lemma HeadIsFirstMinimum<T>(s: seq<T>, key: T -> Key) returns (i: nat)
    requires s != []
    ensures i < |s| && SortBy(s, key)[0] == s[i]
    ensures forall j :: 0 <= j < |s| ==> KeyLe(key(s[i]), key(s[j]))
    ensures forall j :: 0 <= j < i ==> key(s[j]) != key(s[i])
  {
    var r := SortBy(s, key);
    var k := key(r[0]);
    SortByStable(s, key, k);
    assert WithKey(r, key, k) == [r[0]] + WithKey(r[1..], key, k) by {
      assert r == [r[0]] + r[1..];
      WithKeyCons(r[0], r[1..], key, k);
    }
    i := FirstWithKey(s, key, k);
    forall j | 0 <= j < |s| ensures KeyLe(k, key(s[j])) {
      assert s[j] in multiset(r);
      var m :| 0 <= m < |r| && r[m] == s[j];
      if m > 0 {
        assert KeyLe(key(r[0]), key(r[m]));
      }
    }
  }

  /** The first element of `WithKey(s, key, k)` stands at the first index of `s` with key `k`. */
  lemma {:induction false} FirstWithKey<T>(s: seq<T>, key: T -> Key, k: Key) returns (i: nat)
    requires WithKey(s, key, k) != []
    ensures i < |s| && s[i] == WithKey(s, key, k)[0] && key(s[i]) == k
    ensures forall j :: 0 <= j < i ==> key(s[j]) != k
  {
    if key(s[0]) == k {
      i := 0;
    } else {
      var i' := FirstWithKey(s[1..], key, k);
      i := i' + 1;
    }
  }
}
