/** Comparing tuple keys component by component. */
module Keys {
  import opened Sorting

  /** Keys that start with one component each compare by it first, and by the rest when it is shared. */
  lemma {:induction false} KeyLeOfCons(x: Atom, a: Key, y: Atom, b: Key)
    ensures KeyLe([x] + a, [y] + b) <==> AtomLe(x, y) && (x == y ==> KeyLe(a, b))
  {
    assert ([x] + a)[1..] == a && ([y] + b)[1..] == b;
  }

  /** Keys of three components. */
  lemma {:induction false} ThreeParts(a: Key, b: Key)
    requires |a| == |b| == 3
    ensures KeyLe(a, b) <==>
              AtomLe(a[0], b[0]) && (a[0] != b[0] ||
              (AtomLe(a[1], b[1]) && (a[1] != b[1] || AtomLe(a[2], b[2]))))
  {
    assert a == [a[0]] + ([a[1]] + ([a[2]] + []));
    assert b == [b[0]] + ([b[1]] + ([b[2]] + []));
    KeyLeOfCons(a[0], [a[1]] + ([a[2]] + []), b[0], [b[1]] + ([b[2]] + []));
    KeyLeOfCons(a[1], [a[2]] + [], b[1], [b[2]] + []);
    KeyLeOfCons(a[2], [], b[2], []);
    assert KeyLe([], []);
    hide KeyLe;
  }

  /** Keys of six components. */
  lemma {:induction false} SixParts(a: Key, b: Key)
    requires |a| == |b| == 6
    ensures KeyLe(a, b) <==>
              AtomLe(a[0], b[0]) && (a[0] != b[0] ||
              (AtomLe(a[1], b[1]) && (a[1] != b[1] ||
              (AtomLe(a[2], b[2]) && (a[2] != b[2] || KeyLe(a[3..], b[3..]))))))
    ensures KeyLe(a[3..], b[3..]) <==>
              AtomLe(a[3], b[3]) && (a[3] != b[3] ||
              (AtomLe(a[4], b[4]) && (a[4] != b[4] || AtomLe(a[5], b[5]))))
  {
    assert a == [a[0]] + ([a[1]] + ([a[2]] + a[3..]));
    assert b == [b[0]] + ([b[1]] + ([b[2]] + b[3..]));
    KeyLeOfCons(a[0], [a[1]] + ([a[2]] + a[3..]), b[0], [b[1]] + ([b[2]] + b[3..]));
    KeyLeOfCons(a[1], [a[2]] + a[3..], b[1], [b[2]] + b[3..]);
    KeyLeOfCons(a[2], a[3..], b[2], b[3..]);
    hide KeyLe;
    ThreeParts(a[3..], b[3..]);
  }
}
