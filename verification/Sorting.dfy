/**
 Python's `sorted(items, key=...)` over tuple keys.

 A key is a tuple of integers and strings, compared lexicographically; strings are compared
 by code point. The sort is stable. What callers rely on is that, when equal keys mean equal items,
 the result depends only on the multiset of items.
 */
module Sorting {
  import opened Sequences

  datatype Atom = Int(n: int) | Str(s: string)

  type Key = seq<Atom>

  predicate StrLe(a: string, b: string)
    decreases |a|
  {
    || a == []
    || (b != [] && (a[0] < b[0] || (a[0] == b[0] && StrLe(a[1..], b[1..]))))
  }

  predicate AtomLe(a: Atom, b: Atom) {
    match (a, b)
    case (Int(m), Int(n)) => m <= n
    case (Int(_), Str(_)) => true
    case (Str(_), Int(_)) => false
    case (Str(s), Str(t)) => StrLe(s, t)
  }

  predicate KeyLe(a: Key, b: Key)
    decreases |a|
  {
    || a == []
    || (b != [] && AtomLe(a[0], b[0]) && (a[0] == b[0] ==> KeyLe(a[1..], b[1..])))
  }

  // ----- the key order is a total order

  lemma {:induction false} StrTotal(a: string, b: string)
    ensures StrLe(a, b) || StrLe(b, a)
    decreases |a|
  {
    if a != [] && b != [] && a[0] == b[0] {
      StrTotal(a[1..], b[1..]);
    }
  }

  lemma {:induction false} StrAntisymmetric(a: string, b: string)
    requires StrLe(a, b) && StrLe(b, a)
    ensures a == b
    decreases |a|
  {
    if a != [] && b != [] {
      StrAntisymmetric(a[1..], b[1..]);
      assert a == [a[0]] + a[1..] && b == [b[0]] + b[1..];
    }
  }

  lemma {:induction false} StrTransitive(a: string, b: string, c: string)
    requires StrLe(a, b) && StrLe(b, c)
    ensures StrLe(a, c)
    decreases |a|
  {
    if a != [] && a[0] == b[0] == c[0] {
      StrTransitive(a[1..], b[1..], c[1..]);
    }
  }

  lemma {:induction false} AtomTotal(a: Atom, b: Atom)
    ensures AtomLe(a, b) || AtomLe(b, a)
    ensures AtomLe(a, b) && AtomLe(b, a) ==> a == b
  {
    if a.Str? && b.Str? {
      StrTotal(a.s, b.s);
      if AtomLe(a, b) && AtomLe(b, a) {
        StrAntisymmetric(a.s, b.s);
      }
    }
  }

  lemma {:induction false} AtomTransitive(a: Atom, b: Atom, c: Atom)
    requires AtomLe(a, b) && AtomLe(b, c)
    ensures AtomLe(a, c)
  {
    if a.Str? && b.Str? && c.Str? {
      StrTransitive(a.s, b.s, c.s);
    }
  }

  lemma {:induction false} KeyTotal(a: Key, b: Key)
    ensures KeyLe(a, b) || KeyLe(b, a)
    decreases |a|
  {
    if a != [] && b != [] {
      AtomTotal(a[0], b[0]);
      KeyTotal(a[1..], b[1..]);
    }
  }

  lemma {:induction false} KeyAntisymmetric(a: Key, b: Key)
    requires KeyLe(a, b) && KeyLe(b, a)
    ensures a == b
    decreases |a|
  {
    if a != [] && b != [] {
      AtomTotal(a[0], b[0]);
      KeyAntisymmetric(a[1..], b[1..]);
      assert a == [a[0]] + a[1..] && b == [b[0]] + b[1..];
    }
  }

  lemma {:induction false} KeyTransitive(a: Key, b: Key, c: Key)
    requires KeyLe(a, b) && KeyLe(b, c)
    ensures KeyLe(a, c)
    decreases |a|
  {
    if a != [] {
      AtomTransitive(a[0], b[0], c[0]);
      if a[0] == c[0] {
        AtomTotal(a[0], b[0]);
        KeyTransitive(a[1..], b[1..], c[1..]);
      }
    }
  }

  // ----- stable sort

  function Insert<T>(key: T -> Key, x: T, s: seq<T>): seq<T> {
    if s == [] || KeyLe(key(x), key(s[0])) then [x] + s
    else [s[0]] + Insert(key, x, s[1..])
  }

  function Sorted<T>(key: T -> Key, s: seq<T>): seq<T> {
    if s == [] then [] else Insert(key, s[0], Sorted(key, s[1..]))
  }

  ghost predicate Ascending<T>(key: T -> Key, s: seq<T>) {
    forall i, j :: 0 <= i < j < |s| ==> KeyLe(key(s[i]), key(s[j]))
  }

  ghost predicate Distinguishes<T>(key: T -> Key, x: T, y: T) {
    key(x) == key(y) ==> x == y
  }

  /** Items of `s` that agree on the key are equal. */
  ghost predicate KeyDetermines<T>(key: T -> Key, s: seq<T>) {
    forall x, y {:trigger Distinguishes(key, x, y)} :: x in s && y in s ==> Distinguishes(key, x, y)
  }

  lemma {:induction false} InsertPermutes<T>(key: T -> Key, x: T, s: seq<T>)
    ensures multiset(Insert(key, x, s)) == multiset([x]) + multiset(s)
  {
    if s != [] && !KeyLe(key(x), key(s[0])) {
      InsertPermutes(key, x, s[1..]);
      assert s == [s[0]] + s[1..];
    }
  }

  lemma {:induction false} InsertAscends<T>(key: T -> Key, x: T, s: seq<T>)
    requires Ascending(key, s)
    ensures Ascending(key, Insert(key, x, s))
  {
    var r := Insert(key, x, s);
    if s == [] {
    } else if KeyLe(key(x), key(s[0])) {
      forall j | 0 <= j < |s|
        ensures KeyLe(key(x), key(s[j]))
      {
        if j > 0 {
          KeyTransitive(key(x), key(s[0]), key(s[j]));
        }
      }
    } else {
      KeyTotal(key(x), key(s[0]));
      InsertAscends(key, x, s[1..]);
      var t := Insert(key, x, s[1..]);
      InsertPermutes(key, x, s[1..]);
      forall j | 0 <= j < |t|
        ensures KeyLe(key(s[0]), key(t[j]))
      {
        assert t[j] in multiset(t);
        if t[j] != x {
          assert t[j] in s[1..];
        }
      }
    }
  }

  /** `sorted` returns an ascending permutation. */
  lemma {:induction false} SortedSorts<T>(key: T -> Key, s: seq<T>)
    ensures multiset(Sorted(key, s)) == multiset(s)
    ensures Ascending(key, Sorted(key, s))
    ensures |Sorted(key, s)| == |s|
    ensures forall x :: x in Sorted(key, s) <==> x in s
  {
    if s != [] {
      SortedSorts(key, s[1..]);
      InsertPermutes(key, s[0], Sorted(key, s[1..]));
      InsertAscends(key, s[0], Sorted(key, s[1..]));
      assert s == [s[0]] + s[1..];
    }
    assert forall x :: x in Sorted(key, s) <==> x in multiset(Sorted(key, s));
    assert |Sorted(key, s)| == |multiset(Sorted(key, s))|;
  }

  lemma {:induction false} HeadIsLeast<T>(key: T -> Key, s: seq<T>, x: T)
    requires s != [] && x in s && Ascending(key, s)
    ensures KeyLe(key(s[0]), key(x))
  {
    var i :| 0 <= i < |s| && s[i] == x;
    KeyTotal(key(x), key(x));
  }

  lemma {:induction false} SameHead<T>(key: T -> Key, s: seq<T>, t: seq<T>)
    requires s != [] && t != []
    requires Ascending(key, s) && Ascending(key, t)
    requires multiset(s) == multiset(t)
    requires KeyDetermines(key, s)
    ensures s[0] == t[0]
  {
    assert s[0] in multiset(t) && t[0] in multiset(s);
    HeadIsLeast(key, s, t[0]);
    HeadIsLeast(key, t, s[0]);
    KeyAntisymmetric(key(s[0]), key(t[0]));
    assert Distinguishes(key, s[0], t[0]);
  }

  lemma {:induction false} TailMultiset<T>(s: seq<T>)
    requires s != []
    ensures multiset(s[1..]) == multiset(s) - multiset{s[0]}
  {
    assert s == [s[0]] + s[1..];
  }

  lemma {:induction false} KeyDeterminesTail<T>(key: T -> Key, s: seq<T>)
    requires s != [] && KeyDetermines(key, s)
    ensures KeyDetermines(key, s[1..])
  {
  }

  /** Two ascending arrangements of the same items are the same when keys determine items. */
  lemma {:induction false} AscendingUnique<T>(key: T -> Key, s: seq<T>, t: seq<T>)
    requires Ascending(key, s) && Ascending(key, t)
    requires multiset(s) == multiset(t)
    requires KeyDetermines(key, s)
    ensures s == t
  {
    assert |s| == |multiset(s)| == |t|;
    if s != [] {
      SameHead(key, s, t);
      TailMultiset(s);
      TailMultiset(t);
      KeyDeterminesTail(key, s);
      AscendingUnique(key, s[1..], t[1..]);
      assert s == [s[0]] + s[1..] && t == [t[0]] + t[1..];
    }
  }

  lemma {:induction false} KeyDeterminesPermutation<T>(key: T -> Key, s: seq<T>, t: seq<T>)
    requires KeyDetermines(key, s)
    requires multiset(t) == multiset(s)
    ensures KeyDetermines(key, t)
  {
    assert forall x :: x in t ==> x in multiset(t);
  }

  /** The sort forgets the order in which its input arrived. */
  lemma {:induction false} SortedOfPermutation<T>(key: T -> Key, s: seq<T>, t: seq<T>)
    requires multiset(s) == multiset(t)
    requires KeyDetermines(key, s)
    ensures Sorted(key, s) == Sorted(key, t)
  {
    SortedSorts(key, s);
    SortedSorts(key, t);
    KeyDeterminesPermutation(key, s, Sorted(key, s));
    AscendingUnique(key, Sorted(key, s), Sorted(key, t));
  }

  /** An input that is already ascending is left alone. */
  lemma {:induction false} SortedOfAscending<T>(key: T -> Key, s: seq<T>)
    requires Ascending(key, s)
    ensures Sorted(key, s) == s
  {
    if s != [] {
      SortedOfAscending(key, s[1..]);
      assert Sorted(key, s) == Insert(key, s[0], s[1..]);
      assert s == [s[0]] + s[1..];
    }
  }

  // ----- up to the first shared key

  /** No other item of `s` has the key of `x`. */
  ghost predicate Alone<T>(key: T -> Key, s: seq<T>, x: T) {
    forall y {:trigger Distinguishes(key, x, y)} :: y in s ==> Distinguishes(key, x, y)
  }

  /** The first place of `s` whose key belongs to two different items. */
  ghost predicate FirstShared<T>(key: T -> Key, s: seq<T>, n: nat) {
    && n < |s| && !Alone(key, s, s[n])
    && forall i :: 0 <= i < n ==> Alone(key, s, s[i])
  }

  lemma {:induction false} SharedSomewhere<T>(key: T -> Key, s: seq<T>, from: nat) returns (n: nat)
    requires from <= |s| && forall i :: 0 <= i < from ==> Alone(key, s, s[i])
    requires !KeyDetermines(key, s)
    ensures FirstShared(key, s, n)
    decreases |s| - from
  {
    if from == |s| {
      assert false;
    } else if Alone(key, s, s[from]) {
      n := SharedSomewhere(key, s, from + 1);
    } else {
      n := from;
    }
  }

  lemma {:induction false} HeadKeysAgree<T>(key: T -> Key, s: seq<T>, t: seq<T>)
    requires s != [] && t != []
    requires Ascending(key, s) && Ascending(key, t)
    requires multiset(s) == multiset(t)
    ensures key(s[0]) == key(t[0]) && t[0] in s
  {
    assert s[0] in multiset(t) && t[0] in multiset(s);
    HeadIsLeast(key, s, t[0]);
    HeadIsLeast(key, t, s[0]);
    KeyAntisymmetric(key(s[0]), key(t[0]));
  }

  /** Two ascending arrangements of the same items agree up to the first key that different items share, and on that key. */
  lemma {:induction false} PrefixAgrees<T>(key: T -> Key, s: seq<T>, t: seq<T>, n: nat)
    requires Ascending(key, s) && Ascending(key, t) && multiset(s) == multiset(t)
    requires n <= |s| && forall i :: 0 <= i < n ==> Alone(key, s, s[i])
    ensures |s| == |t| && s[..n] == t[..n]
    ensures n < |s| ==> key(s[n]) == key(t[n])
  {
    assert |s| == |multiset(s)| == |t|;
    if s != [] {
      HeadKeysAgree(key, s, t);
      if n > 0 {
        assert Alone(key, s, s[0]) && Distinguishes(key, s[0], t[0]);
        TailMultiset(s);
        TailMultiset(t);
        forall i | 0 <= i < n - 1
          ensures Alone(key, s[1..], s[1..][i])
        {
          assert Alone(key, s, s[i + 1]);
          assert forall y :: y in s[1..] ==> y in s;
        }
        PrefixAgrees(key, s[1..], t[1..], n - 1);
        assert s[..n] == [s[0]] + s[1..][..n - 1] && t[..n] == [t[0]] + t[1..][..n - 1];
      }
    }
  }

  function MovedUp<T>(s: seq<T>, n: nat, j: nat): (t: seq<T>)
    requires n <= j < |s|
    ensures |t| == |s|
    ensures forall i :: 0 <= i < |t| ==> t[i] == if i < n || j < i then s[i] else if i == n then s[j] else s[i - 1]
  {
    s[..n] + [s[j]] + s[n..j] + s[j + 1..]
  }

  lemma {:induction false} MovedUpPermutes<T>(s: seq<T>, n: nat, j: nat)
    requires n <= j < |s|
    ensures multiset(MovedUp(s, n, j)) == multiset(s)
  {
    assert s == s[..n] + s[n..j] + [s[j]] + s[j + 1..];
  }

  lemma {:induction false} MovedUpAscends<T>(key: T -> Key, s: seq<T>, n: nat, j: nat)
    requires Ascending(key, s) && n <= j < |s| && key(s[j]) == key(s[n])
    ensures Ascending(key, MovedUp(s, n, j))
  {
    hide KeyLe;
    var t := MovedUp(s, n, j);
    KeyTotal(key(s[n]), key(s[n]));
    forall i, k | 0 <= i < k < |t|
      ensures KeyLe(key(t[i]), key(t[k]))
    {
      hide MovedUp;
      var a, c := if i <= n || j < i then i else i - 1, if k <= n || j < k then k else k - 1;
      assert key(t[i]) == key(s[a]) && key(t[k]) == key(s[c]) && a <= c;
      if a == c {
        assert a == n;
      }
    }
  }

  lemma {:induction false} SharedComesLater<T>(key: T -> Key, s: seq<T>, n: nat, j: nat)
    requires FirstShared(key, s, n) && j < |s| && key(s[j]) == key(s[n])
    ensures n <= j
  {
    assert s[j] != s[n] ==> !Distinguishes(key, s[j], s[n]);
  }

  /** Every item with the first shared key can come first among those that share it. */
  lemma {:induction false} AnyCanComeFirst<T>(key: T -> Key, s: seq<T>, n: nat, x: T) returns (t: seq<T>)
    requires Ascending(key, s) && FirstShared(key, s, n)
    requires x in s && key(x) == key(s[n])
    ensures multiset(t) == multiset(s) && Sorted(key, t) == t
    ensures |t| == |s| && t[..n] == s[..n] && t[n] == x
  {
    hide Sorted, Ascending;
    var j :| 0 <= j < |s| && s[j] == x;
    SharedComesLater(key, s, n, j);
    t := MovedUp(s, n, j);
    MovedUpPermutes(s, n, j);
    MovedUpAscends(key, s, n, j);
    SortedOfAscending(key, t);
  }

  // ----- sorting images

  ghost predicate SameKey<T, U>(f: T -> U, key: T -> Key, other: U -> Key, x: T) {
    key(x) == other(f(x))
  }

  lemma {:induction false} InsertMaps<T, U>(f: T -> U, key: T -> Key, other: U -> Key, x: T, s: seq<T>)
    requires SameKey(f, key, other, x) && forall i :: 0 <= i < |s| ==> SameKey(f, key, other, s[i])
    ensures Map(f, Insert(key, x, s)) == Insert(other, f(x), Map(f, s))
  {
    if s != [] && !KeyLe(key(x), key(s[0])) {
      InsertMaps(f, key, other, x, s[1..]);
      assert Map(f, s)[1..] == Map(f, s[1..]);
    }
  }

  /** The sort commutes with a function that keeps the keys. */
  lemma {:induction false} SortedMaps<T, U>(f: T -> U, key: T -> Key, other: U -> Key, s: seq<T>)
    requires forall i :: 0 <= i < |s| ==> SameKey(f, key, other, s[i])
    ensures Map(f, Sorted(key, s)) == Sorted(other, Map(f, s))
  {
    if s != [] {
      SortedMaps(f, key, other, s[1..]);
      var rest := Sorted(key, s[1..]);
      SortedSorts(key, s[1..]);
      forall i | 0 <= i < |rest|
        ensures SameKey(f, key, other, rest[i])
      {
        assert rest[i] in multiset(rest) && rest[i] in multiset(s[1..]);
        var j :| 0 <= j < |s[1..]| && s[1..][j] == rest[i];
        assert s[j + 1] == rest[i];
      }
      InsertMaps(f, key, other, s[0], rest);
      assert Map(f, s)[1..] == Map(f, s[1..]);
    }
  }

  // ----- when the order of arrival matters

  /** The sort is stable: of two different items with one key, the one that came first stays first. */
  lemma {:induction false} StableInsertsDiffer<T>(key: T -> Key, x: T, y: T, s: seq<T>)
    requires key(x) == key(y) && x != y
    ensures Insert(key, x, Insert(key, y, s)) != Insert(key, y, Insert(key, x, s))
  {
    KeyTotal(key(x), key(y));
    if s == [] || KeyLe(key(y), key(s[0])) {
      assert Insert(key, x, [y] + s)[0] == x;
      assert Insert(key, y, [x] + s)[0] == y;
    } else {
      StableInsertsDiffer(key, x, y, s[1..]);
      var u, v := Insert(key, y, s[1..]), Insert(key, x, s[1..]);
      assert ([s[0]] + u)[1..] == u && ([s[0]] + v)[1..] == v;
      assert ([s[0]] + Insert(key, x, u))[1..] == Insert(key, x, u);
      assert ([s[0]] + Insert(key, y, v))[1..] == Insert(key, y, v);
    }
  }

  lemma {:induction false} WithoutMember<T>(s: seq<T>, x: T) returns (rest: seq<T>)
    requires x in s
    ensures multiset(s) == multiset{x} + multiset(rest)
  {
    var i :| 0 <= i < |s| && s[i] == x;
    rest := s[..i] + s[i + 1..];
    assert s == s[..i] + [x] + s[i + 1..];
  }

  lemma {:induction false} SortedOfTwo<T>(key: T -> Key, x: T, y: T, rest: seq<T>)
    ensures Sorted(key, [x] + ([y] + rest)) == Insert(key, x, Insert(key, y, Sorted(key, rest)))
  {
    assert ([x] + ([y] + rest))[1..] == [y] + rest;
    assert ([y] + rest)[1..] == rest;
  }

  lemma {:induction false} MembersKept<T>(s: seq<T>, m: multiset<T>, y: T)
    requires multiset(s) == m && y in m
    ensures y in s
  {
  }

  /** Two different items that share a key can be loaded in two orders that sort differently. */
  lemma {:induction false} SharedKeyExposesOrder<T>(key: T -> Key, s: seq<T>, x: T, y: T) returns (t: seq<T>)
    requires x in s && y in s && x != y && key(x) == key(y)
    ensures multiset(t) == multiset(s) && Sorted(key, t) != Sorted(key, s)
  {
    var a := WithoutMember(s, x);
    assert y in multiset(s) && y in multiset(a);
    MembersKept(a, multiset(a), y);
    var rest := WithoutMember(a, y);
    var u, v := [x] + ([y] + rest), [y] + ([x] + rest);
    assert multiset(u) == multiset{x} + multiset{y} + multiset(rest) == multiset(s);
    assert multiset(v) == multiset{y} + multiset{x} + multiset(rest) == multiset(s);
    SortedOfTwo(key, x, y, rest);
    SortedOfTwo(key, y, x, rest);
    StableInsertsDiffer(key, x, y, Sorted(key, rest));
    t := if Sorted(key, u) != Sorted(key, s) then u else v;
  }
}
