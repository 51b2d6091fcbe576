/** Images of sequences, sequences without repeated members, and sequences inside sequences. */
module Sequences {
  function Map<T, U>(f: T -> U, s: seq<T>): (r: seq<U>)
    ensures |r| == |s| && forall i :: 0 <= i < |r| ==> r[i] == f(s[i])
  {
    seq(|s|, i requires 0 <= i < |s| => f(s[i]))
  }

  predicate NoRepeats<T(==)>(s: seq<T>) {
    forall i, j :: 0 <= i < j < |s| ==> s[i] != s[j]
  }

  function RemoveAt<T>(s: seq<T>, i: nat): seq<T>
    requires i < |s|
  {
    s[..i] + s[i + 1..]
  }

  lemma {:induction false} RemoveAtFacts<T>(s: seq<T>, i: nat)
    requires i < |s| && NoRepeats(s)
    ensures NoRepeats(RemoveAt(s, i))
    ensures |RemoveAt(s, i)| == |s| - 1
    ensures forall x :: x in RemoveAt(s, i) <==> x in s && x != s[i]
  {
    var r := RemoveAt(s, i);
    forall x | x in s && x != s[i]
      ensures x in r
    {
      var j :| 0 <= j < |s| && s[j] == x;
      assert if j < i then r[j] == x else r[j - 1] == x;
    }
  }

  lemma {:induction false} OnlyOnce<T>(s: seq<T>, i: nat)
    requires i < |s| && NoRepeats(s)
    ensures forall j :: 0 <= j < |s| && j != i ==> s[j] != s[i]
  {
  }

  lemma {:induction false} AppendNoRepeats<T>(s: seq<T>, x: T)
    requires NoRepeats(s) && x !in s
    ensures NoRepeats(s + [x])
  {
  }

  lemma EmptyOrHeaded<T>(s: seq<T>)
    ensures s == [] || exists x :: x in s
  {
    if s != [] {
      assert s[0] in s;
    }
  }

  lemma {:induction false} OnceEach<T>(s: seq<T>, x: T)
    requires NoRepeats(s)
    ensures multiset(s)[x] <= 1
  {
    if s != [] {
      OnceEach(s[1..], x);
      assert s == [s[0]] + s[1..];
      assert s[0] !in s[1..];
      assert s[0] !in multiset(s[1..]);
    }
  }

  lemma {:induction false} PermutationNoRepeats<T>(s: seq<T>, t: seq<T>)
    requires NoRepeats(s) && multiset(s) == multiset(t)
    ensures NoRepeats(t)
  {
    forall i, j | 0 <= i < j < |t|
      ensures t[i] != t[j]
    {
      OnceEach(s, t[i]);
      assert t == t[..j] + [t[j]] + t[j + 1..];
      assert t[i] == t[..j][i] && t[i] in multiset(t[..j]);
      assert multiset(t)[t[i]] >= multiset(t[..j])[t[i]] + multiset([t[j]])[t[i]];
    }
  }

  /** `u` can be read off `v` by leaving some of its members out. */
  predicate Embeds<T(==)>(u: seq<T>, v: seq<T>)
    decreases |v|
  {
    || u == []
    || (v != [] && (Embeds(u, v[1..]) || (u[0] == v[0] && Embeds(u[1..], v[1..]))))
  }

  lemma {:induction false} EmbedsBehind<T>(u: seq<T>, w: seq<T>, v: seq<T>)
    requires Embeds(u, v)
    ensures Embeds(u, w + v)
    decreases |w|
  {
    if w == [] {
      assert w + v == v;
    } else {
      EmbedsBehind(u, w[1..], v);
      assert (w + v)[1..] == w[1..] + v;
    }
  }

  lemma {:induction false} EmbedsHead<T>(x: T, u: seq<T>, v: seq<T>)
    requires Embeds(u, v)
    ensures Embeds([x] + u, [x] + v)
  {
    assert ([x] + u)[1..] == u && ([x] + v)[1..] == v;
  }
}
