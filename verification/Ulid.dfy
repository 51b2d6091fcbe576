/** The 26-character Crockford base32 suffix of event identifiers (ULID specification, sections "Encoding" and "Sorting"). */
module Ulid {
  import opened Common
  import opened Sorting
  import opened Integers

  const ALPHABET := "0123456789abcdefghjkmnpqrstvwxyz"
  const SUFFIX_LENGTH: nat := 26
  const TIMESTAMP_LIMIT: nat := 0x1_0000_0000_0000
  const RANDOM_LIMIT: nat := 0x1_0000_0000_0000_0000_0000

  function Symbol(d: nat): char
    requires d < 32
  {
    ALPHABET[d]
  }

  function Pow32(n: nat): (p: nat)
    ensures p >= 1
  {
    if n == 0 then 1 else 32 * Pow32(n - 1)
  }

  /** The digit that `(value >> 5 * place) & 0b11111` reads. */
  function Digit(value: nat, place: nat): (d: nat)
    ensures d < 32
  {
    (value / Pow32(place)) % 32
  }

  /** `_encode_crockford_base32`: the most significant digit first. */
  function Encode(value: nat, length: nat): (s: string)
    ensures |s| == length
  {
    seq(length, i requires 0 <= i < length => Symbol(Digit(value, length - 1 - i)))
  }

  datatype UlidError = TimestampOutOfRange

  /** `_ulid_suffix`: the time in the high 48 bits, 80 random bits below it. */
  function Suffix(timestampMs: int, random: nat): Result<string, UlidError>
    requires random < RANDOM_LIMIT
  {
    if timestampMs < 0 || timestampMs >= TIMESTAMP_LIMIT then Err(TimestampOutOfRange)
    else Ok(Encode(timestampMs * RANDOM_LIMIT + random, SUFFIX_LENGTH))
  }

  // ----- decoding

  /** The place of a symbol in the alphabet. */
  function SymbolValue(c: char): nat {
    if '0' <= c <= '9' then c as int - '0' as int
    else if 'a' <= c <= 'h' then c as int - 'a' as int + 10
    else if 'j' <= c <= 'k' then c as int - 'j' as int + 18
    else if 'm' <= c <= 'n' then c as int - 'm' as int + 20
    else if 'p' <= c <= 't' then c as int - 'p' as int + 22
    else if 'v' <= c <= 'z' then c as int - 'v' as int + 27
    else 0
  }

  function Decode(s: string): nat {
    if s == [] then 0 else 32 * Decode(s[..|s| - 1]) + SymbolValue(s[|s| - 1])
  }

  /** `SymbolValue` inverts the alphabet. */
  lemma SymbolDecodes(d: nat)
    requires d < 32
    ensures SymbolValue(Symbol(d)) == d
  {
  }

  lemma AlphabetAscends(d: nat)
    requires d + 1 < 32
    ensures Symbol(d) < Symbol(d + 1)
  {
  }

  lemma {:induction false} AlphabetOrder(d: nat, e: nat)
    requires d < 32 && e < 32
    ensures Symbol(d) < Symbol(e) <==> d < e
    ensures Symbol(d) == Symbol(e) <==> d == e
    decreases if d < e then e - d else d - e
  {
    hide Symbol;
    if d < e {
      AlphabetRises(d, e);
    } else if e < d {
      AlphabetRises(e, d);
    }
  }

  lemma {:induction false} AlphabetRises(d: nat, e: nat)
    requires d < e < 32
    ensures Symbol(d) < Symbol(e)
    decreases e - d
  {
    hide Symbol;
    AlphabetAscends(d);
    if d + 1 < e {
      AlphabetRises(d + 1, e);
    }
  }

  // ----- the last digit

  lemma {:induction false} DigitShift(value: nat, place: nat)
    ensures Digit(value, place + 1) == Digit(value / 32, place)
  {
    DivideTwice(value, 32, Pow32(place));
    assert Pow32(place + 1) == Times(32, Pow32(place));
  }

  lemma {:induction false} EncodeLast(value: nat, length: nat)
    ensures Encode(value, length + 1) == Encode(value / 32, length) + [Symbol(value % 32)]
  {
    hide Symbol, Digit;
    var whole, front := Encode(value, length + 1), Encode(value / 32, length);
    forall i | 0 <= i < length
      ensures whole[i] == front[i]
    {
      DigitShift(value, length - 1 - i);
    }
    LowestDigit(value);
  }

  lemma {:induction false} LowestDigit(value: nat)
    ensures Digit(value, 0) == value % 32
  {
    assert Pow32(0) == 1 && value / 1 == value;
  }

  /** Decoding an encoded value gives it back, up to the width of the code. */
  lemma {:induction false} DecodeEncode(value: nat, length: nat)
    requires value < Pow32(length)
    ensures Decode(Encode(value, length)) == value
  {
    hide Symbol, Encode;
    if length > 0 {
      EncodeLast(value, length - 1);
      SymbolDecodes(value % 32);
      DecodeEncode(value / 32, length - 1);
      var front, last := Encode(value / 32, length - 1), Symbol(value % 32);
      assert (front + [last])[..|front|] == front;
    } else {
      assert Encode(value, 0) == [];
    }
  }

  // ----- the first digit

  lemma {:induction false} TopDigit(value: nat, length: nat)
    requires value < Pow32(length + 1)
    ensures var top, rest := value / Pow32(length), value % Pow32(length);
            && top < 32 && rest < Pow32(length)
            && value == Times(Pow32(length), top) + rest
            && Digit(value, length) == top
  {
    var n := Pow32(length);
    DivMod(value, n);
    assert Pow32(length + 1) == Times(n, 32);
    TopBelow(n, value / n, value % n, 32);
  }

  lemma {:induction false} DigitOfRest(value: nat, length: nat, place: nat)
    requires place < length
    ensures Digit(value, place) == Digit(value % Pow32(length), place)
    decreases length
  {
    hide Pow32;
    Pow32Grows(length, place);
    var n, p, k := Pow32(length), Pow32(place), Pow32(length - place - 1);
    var top, rest := value / n, value % n;
    DivMod(value, n);
    ModularDigit(value, n, p, k, top, rest);
  }

  lemma {:induction false} Pow32Grows(length: nat, place: nat)
    requires place < length
    ensures Pow32(length) == Times(Pow32(place), Times(32, Pow32(length - place - 1)))
  {
    if place == 0 {
    } else {
      Pow32Grows(length - 1, place - 1);
      TimesLaws(32, Pow32(place - 1), Times(32, Pow32(length - place - 1)));
    }
  }

  lemma ModularDigit(value: nat, n: nat, p: nat, k: nat, top: nat, rest: nat)
    requires p > 0 && n == Times(p, Times(32, k)) && value == Times(n, top) + rest
    ensures (value / p) % 32 == (rest / p) % 32
  {
    hide Times;
    var a, b, m := rest / p, rest % p, Times(k, top);
    DivMod(rest, p);
    TimesLaws(p, Times(32, k), top);
    TimesLaws(32, k, top);
    TimesLaws(p, Times(32, m), a);
    Quotient(value, p, Times(32, m) + a, b);
    LowDigit(m, a);
  }

  lemma LowDigit(m: nat, a: nat)
    ensures (Times(32, m) + a) % 32 == a % 32
  {
    assert (32 * m + a) % 32 == a % 32;
  }

  lemma {:induction false} EncodeFirst(value: nat, length: nat)
    requires value < Pow32(length + 1)
    ensures var top, rest := value / Pow32(length), value % Pow32(length);
            top < 32 && Encode(value, length + 1) == [Symbol(top)] + Encode(rest, length)
  {
    hide Symbol, Digit, Pow32;
    var top, rest := value / Pow32(length), value % Pow32(length);
    TopDigit(value, length);
    var whole, tail := Encode(value, length + 1), Encode(rest, length);
    forall i | 0 < i < length + 1
      ensures whole[i] == tail[i - 1]
    {
      DigitOfRest(value, length, length - i);
    }
  }

  /** String order is numeric order. */
  lemma {:induction false} EncodingPreservesOrder(x: nat, y: nat, length: nat)
    requires x < Pow32(length) && y < Pow32(length)
    ensures StrLe(Encode(x, length), Encode(y, length)) <==> x <= y
    decreases length
  {
    hide Symbol, Encode, Pow32, Times, StrLe;
    if length == 0 {
      PowZero();
      assert Encode(x, 0) == [];
      EmptyIsLeast();
    } else {
      var n := Pow32(length - 1);
      EncodeFirst(x, length - 1);
      EncodeFirst(y, length - 1);
      TopDigit(x, length - 1);
      TopDigit(y, length - 1);
      EncodingPreservesOrder(x % n, y % n, length - 1);
      AlphabetOrder(x / n, y / n);
      LexicographicParts(n, x / n, y / n, x, y, x % n, y % n);
      FirstDecides(Symbol(x / n), Encode(x % n, length - 1), Symbol(y / n), Encode(y % n, length - 1));
    }
  }

  lemma EmptyIsLeast()
    ensures StrLe("", "")
  {
  }

  lemma PowZero()
    ensures Pow32(0) == 1
  {
  }

  lemma FirstDecides(c: char, s: string, d: char, t: string)
    ensures StrLe([c] + s, [d] + t) <==> c < d || (c == d && StrLe(s, t))
  {
    assert ([c] + s)[1..] == s && ([d] + t)[1..] == t;
  }

  // ----- identifiers

  lemma SuffixIsWideEnough()
    ensures TIMESTAMP_LIMIT * RANDOM_LIMIT <= Pow32(SUFFIX_LENGTH)
  {
    assert Pow32(5) == 0x200_0000;
    PowSplit(5, 5);
    PowSplit(10, 10);
    PowSplit(20, 5);
    PowSplit(25, 1);
  }

  lemma {:induction false} PowSplit(a: nat, b: nat)
    ensures Pow32(a + b) == Times(Pow32(a), Pow32(b))
  {
    if a > 0 {
      PowSplit(a - 1, b);
      TimesLaws(32, Pow32(a - 1), Pow32(b));
    }
  }

  lemma ValueInRange(t: nat, random: nat)
    requires t < TIMESTAMP_LIMIT && random < RANDOM_LIMIT
    ensures t * RANDOM_LIMIT + random < Pow32(SUFFIX_LENGTH)
  {
    SuffixIsWideEnough();
  }

  /** Every suffix has 26 symbols and decodes to its timestamp and its random part. */
  lemma SuffixDecodes(t: int, random: nat)
    requires random < RANDOM_LIMIT
    ensures Suffix(t, random).Ok? <==> 0 <= t < TIMESTAMP_LIMIT
    ensures Suffix(t, random).Ok? ==>
              var s := Suffix(t, random).value;
              |s| == 26 && Decode(s) / RANDOM_LIMIT == t && Decode(s) % RANDOM_LIMIT == random
  {
    hide Encode, Decode, Pow32;
    if 0 <= t < TIMESTAMP_LIMIT {
      ValueInRange(t, random);
      DecodeEncode(t * RANDOM_LIMIT + random, SUFFIX_LENGTH);
      Quotient(t * RANDOM_LIMIT + random, RANDOM_LIMIT, t, random);
    }
  }

  /** Suffixes sort as strings by timestamp first and random part second. */
  lemma SuffixesSort(t: int, random: nat, t': int, random': nat)
    requires random < RANDOM_LIMIT && random' < RANDOM_LIMIT
    requires Suffix(t, random).Ok? && Suffix(t', random').Ok?
    ensures StrLe(Suffix(t, random).value, Suffix(t', random').value) <==> t < t' || (t == t' && random <= random')
  {
    hide Encode, Pow32, StrLe;
    ValueInRange(t, random);
    ValueInRange(t', random');
    EncodingPreservesOrder(t * RANDOM_LIMIT + random, t' * RANDOM_LIMIT + random', SUFFIX_LENGTH);
  }
}
