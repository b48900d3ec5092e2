/**
 FNV-1a over 64 bits, on naturals below 2^64 so that wrapping is explicit.

 The bit-level facts are proved on the binary digits of a natural; the wrapping
 multiplication is undone by the inverse of the FNV prime modulo 2^64.
 */
module Fnv {
  import opened Arith

  type Byte = b: nat | b < 256 witness 0
  type U32 = u: nat | u < 0x1_0000_0000 witness 0
  type U64 = u: nat | u < TWO_64 witness 0

  const TWO_64: nat := 0x1_0000_0000_0000_0000
  const OFFSET_BASIS: U64 := 0xcbf2_9ce4_8422_2325
  const PRIME: nat := 0x0000_0100_0000_01B3

  // -------------------------------------------------------------- exclusive or

  /** Bitwise exclusive or, digit by digit. */
  function Xor(a: nat, b: nat): nat
    decreases a + b
  {
    if a == 0 && b == 0 then 0 else Digit(a, b) + 2 * Xor(a / 2, b / 2)
  }

  /** The lowest binary digit: set where the operands differ. */
  function Digit(a: nat, b: nat): nat {
    if a % 2 == b % 2 then 0 else 1
  }

  lemma XorDigits(a: nat, b: nat)
    ensures Xor(a, b) % 2 == Digit(a, b)
    ensures Xor(a, b) / 2 == Xor(a / 2, b / 2)
  {
    if a != 0 || b != 0 {
      JoinDigit(Digit(a, b), Xor(a / 2, b / 2), Xor(a, b));
    }
  }

  lemma JoinDigit(digit: nat, rest: nat, whole: nat)
    requires digit < 2 && whole == digit + 2 * rest
    ensures whole % 2 == digit && whole / 2 == rest
  {
  }

  lemma SameDigits(x: nat, y: nat)
    requires x % 2 == y % 2 && x / 2 == y / 2
    ensures x == y
  {
  }

  lemma {:induction false} XorUndoesItself(a: nat, b: nat)
    ensures Xor(Xor(a, b), b) == a
    decreases a + b
  {
    if a != 0 || b != 0 {
      XorUndoesItself(a / 2, b / 2);
      var x := Xor(a, b);
      XorDigits(a, b);
      XorDigits(x, b);
      SameDigits(Xor(x, b), a);
    }
  }

  lemma {:induction false} XorCommutes(a: nat, b: nat)
    ensures Xor(a, b) == Xor(b, a)
    decreases a + b
  {
    if a != 0 || b != 0 {
      XorCommutes(a / 2, b / 2);
    }
  }

  lemma {:induction false} XorWithZero(a: nat)
    ensures Xor(a, 0) == a
  {
    if a > 0 {
      XorWithZero(a / 2);
    }
  }

  /** Exclusive or with one byte leaves every higher bit alone. */
  lemma {:induction false} XorKeepsHighBits(h: nat, b: nat, bits: nat)
    requires Shift(b, bits) == 0
    ensures Shift(Xor(h, b), bits) == Shift(h, bits)
    decreases bits
  {
    if bits == 0 {
      XorWithZero(h);
    } else {
      XorDigits(h, b);
      XorKeepsHighBits(h / 2, b / 2, bits - 1);
    }
  }

  /** A right shift, one bit at a time. */
  function Shift(a: nat, bits: nat): nat {
    if bits == 0 then a else Shift(a / 2, bits - 1)
  }

  lemma ShiftByEight(a: nat)
    ensures Shift(a, 8) == a / 256
  {
    ShiftByTwo(a, 8);
    ShiftByTwo(a / 4, 6);
    ShiftByTwo(a / 4 / 4, 4);
    ShiftByTwo(a / 4 / 4 / 4, 2);
    assert a / 4 / 4 == a / 16;
    assert a / 16 / 4 == a / 64;
    assert a / 64 / 4 == a / 256;
  }

  lemma ShiftByTwo(a: nat, bits: nat)
    requires bits >= 2
    ensures Shift(a, bits) == Shift(a / 4, bits - 2)
  {
    assert a / 2 / 2 == a / 4;
    assert Shift(a, bits) == Shift(a / 2, bits - 1);
  }

  /** `h ^= b as u64`, which stays a 64-bit value. */
  function XorByte(h: U64, b: Byte): (r: U64) {
    ShiftByEight(b);
    XorKeepsHighBits(h, b, 8);
    ShiftByEight(h);
    ShiftByEight(Xor(h, b));
    Xor(h, b)
  }

  lemma XorByteIsInjective(h1: U64, b1: Byte, h2: U64, b2: Byte)
    requires XorByte(h1, b1) == XorByte(h2, b2)
    ensures h1 == h2 <==> b1 == b2
  {
    XorUndoesItself(h1, b1);
    XorUndoesItself(h2, b2);
    XorCommutes(h1, b1);
    XorCommutes(h2, b2);
    XorUndoesItself(b1, h1);
    XorUndoesItself(b2, h2);
  }

  // --------------------------------------------- wrapping addition, multiplication

  function WrappingAdd(a: U64, b: U64): U64 {
    (a + b) % TWO_64
  }

  function MulPrime(h: U64): U64 {
    (h * PRIME) % TWO_64
  }

  /** The inverse of the prime modulo 2^64: their product is one more than INVERSE_TURNS turns of it. */
  const PRIME_INVERSE: nat := 14886173955864302971
  const INVERSE_TURNS: nat := 887285111055

  /** An odd multiplier permutes the residues modulo 2^64: no two hashes meet. */
  lemma MulPrimeIsInjective(h1: U64, h2: U64)
    requires MulPrime(h1) == MulPrime(h2)
    ensures h1 == h2
  {
    var q1, q2 := h1 * PRIME / TWO_64, h2 * PRIME / TWO_64;
    DivMod(h1 * PRIME, TWO_64);
    DivMod(h2 * PRIME, TWO_64);
    SplitDifference(h1, h2, PRIME);
    SplitDifference(q1, q2, TWO_64);
    InverseCancels(h1 - h2, q1 - q2, PRIME, PRIME_INVERSE, INVERSE_TURNS, TWO_64);
  }

  lemma DivMod(n: nat, d: nat)
    requires d > 0
    ensures n == (n / d) * d + n % d
  {
  }

  lemma SplitDifference(a: int, b: int, c: int)
    ensures (a - b) * c == a * c - b * c
  {
  }

  /** A multiple of the modulus, times a unit, is a difference too small to be anything but zero. */
  lemma InverseCancels(d: int, q: int, p: nat, inverse: nat, turns: nat, m: int)
    requires m > 0
    requires p * inverse == 1 + turns * m
    requires d * p == q * m
    requires -m < d < m
    ensures d == 0
  {
    var t := q * inverse - d * turns;
    calc {
      d * p * inverse;
      d * (p * inverse);
      d * (1 + turns * m);
      d + d * turns * m;
    }
    calc {
      d * p * inverse;
      q * m * inverse;
      q * inverse * m;
    }
    assert d == t * m by {
      SplitDifference(q * inverse, d * turns, m);
    }
    SmallMultipleIsZero(t, m);
  }

  lemma SmallMultipleIsZero(t: int, m: int)
    requires -m < t * m < m
    ensures t == 0
  {
    if t >= 1 {
      MulMonotone(1, t, m);
    } else if t <= -1 {
      MulMonotone(t, -1, m);
    }
  }

  // -------------------------------------------------------------------- feeding

  function FeedByte(h: U64, b: Byte): U64 {
    MulPrime(XorByte(h, b))
  }

  /** The hash after `bytes`, folded from the last byte inwards. */
  function Feed(h: U64, bytes: seq<Byte>): U64 {
    if bytes == [] then h else FeedByte(Feed(h, bytes[..|bytes| - 1]), bytes[|bytes| - 1])
  }

  /** Feeding in a loop, one byte after another. */
  method FeedLoop(seed: U64, bytes: seq<Byte>) returns (h: U64)
    ensures h == Feed(seed, bytes)
  {
    h := seed;
    for i := 0 to |bytes|
      invariant h == Feed(seed, bytes[..i])
    {
      assert bytes[..i + 1][..i] == bytes[..i];
      h := FeedByte(h, bytes[i]);
    }
    assert bytes[..|bytes|] == bytes;
  }

  lemma {:induction false} FeedConcat(h: U64, a: seq<Byte>, b: seq<Byte>)
    ensures Feed(h, a + b) == Feed(Feed(h, a), b)
    decreases |b|
  {
    if b == [] {
      assert a + b == a;
    } else {
      var front := b[..|b| - 1];
      FeedConcat(h, a, front);
      assert (a + b)[..|a + b| - 1] == a + front;
    }
  }

  /** Different states never merge, whatever is fed to both. */
  lemma {:induction false} FeedIsInjective(h1: U64, h2: U64, bytes: seq<Byte>)
    requires h1 != h2
    ensures Feed(h1, bytes) != Feed(h2, bytes)
    decreases |bytes|
  {
    if bytes != [] {
      var front, b := bytes[..|bytes| - 1], bytes[|bytes| - 1];
      FeedIsInjective(h1, h2, front);
      FeedByteSeparates(Feed(h1, front), b, Feed(h2, front), b);
    }
  }

  /** States or bytes that differ, but not both, are still apart one step later. */
  lemma FeedByteSeparates(h1: U64, b1: Byte, h2: U64, b2: Byte)
    requires (h1 == h2) != (b1 == b2)
    ensures FeedByte(h1, b1) != FeedByte(h2, b2)
  {
    if FeedByte(h1, b1) == FeedByte(h2, b2) {
      MulPrimeIsInjective(XorByte(h1, b1), XorByte(h2, b2));
      XorByteIsInjective(h1, b1, h2, b2);
      assert false;
    }
  }

  /** `a` and `b` differ in the byte at `i` and nowhere else. */
  ghost predicate DifferOnlyAt(a: seq<Byte>, b: seq<Byte>, i: nat) {
    && |a| == |b| && i < |a|
    && a[i] != b[i]
    && a[..i] == b[..i] && a[i + 1..] == b[i + 1..]
  }

  /** Inputs of one length that differ in exactly one byte never share a hash. */
  lemma OneByteNeverCollides(h: U64, a: seq<Byte>, b: seq<Byte>, i: nat)
    requires DifferOnlyAt(a, b, i)
    ensures Feed(h, a) != Feed(h, b)
  {
    var before := Feed(h, a[..i]);
    assert a == a[..i] + ([a[i]] + a[i + 1..]) && b == b[..i] + ([b[i]] + b[i + 1..]);
    FeedConcat(h, a[..i], [a[i]] + a[i + 1..]);
    FeedConcat(h, b[..i], [b[i]] + b[i + 1..]);
    FeedConcat(before, [a[i]], a[i + 1..]);
    FeedConcat(before, [b[i]], b[i + 1..]);
    FeedOne(before, a[i]);
    FeedOne(before, b[i]);
    FeedByteSeparates(before, a[i], before, b[i]);
    FeedIsInjective(FeedByte(before, a[i]), FeedByte(before, b[i]), a[i + 1..]);
  }

  lemma FeedOne(h: U64, b: Byte)
    ensures Feed(h, [b]) == FeedByte(h, b)
  {
    assert Feed(h, [b][..0]) == h;
  }

  /** The `width` little-endian bytes of a value. */
  function LittleEndian(value: nat, width: nat): (bytes: seq<Byte>)
    ensures |bytes| == width
  {
    if width == 0 then [] else [value % 256] + LittleEndian(value / 256, width - 1)
  }

  // -------------------------------------------------------- little-endian bytes

  function Pow256(i: nat): (p: nat)
    ensures p > 0
  {
    if i == 0 then 1 else 256 * Pow256(i - 1)
  }

  lemma DivideTwice(v: nat, p: nat)
    requires p > 0
    ensures v / 256 / p == v / (256 * p)
  {
    var q, r := v / 256, v % 256;
    var t, u := q / p, q % p;
    assert q == t * p + u;
    assert v == 256 * (t * p + u) + r == t * (256 * p) + (256 * u + r);
    QuotientIsUnique(v, 256 * p, t, 256 * u + r);
  }

  /** Byte `i` is the `i`th digit of the value in base 256, lowest first. */
  lemma {:induction false} LittleEndianDigits(value: nat, width: nat, i: nat)
    requires i < width
    ensures LittleEndian(value, width)[i] == value / Pow256(i) % 256
    decreases i
  {
    if i > 0 {
      LittleEndianDigits(value / 256, width - 1, i - 1);
      DivideTwice(value, Pow256(i - 1));
    }
  }

  /** Values that fit are told apart by their bytes. */
  lemma {:induction false} LittleEndianIsInjective(a: nat, b: nat, width: nat)
    requires a < Pow256(width) && b < Pow256(width)
    requires LittleEndian(a, width) == LittleEndian(b, width)
    ensures a == b
    decreases width
  {
    if width > 0 {
      var x, y := LittleEndian(a, width), LittleEndian(b, width);
      assert x[0] == y[0] && x[1..] == y[1..];
      LittleEndianIsInjective(a / 256, b / 256, width - 1);
    }
  }

  lemma EightBytesHoldAWord()
    ensures Pow256(8) == TWO_64
  {
    assert Pow256(2) == 0x1_0000;
    assert Pow256(4) == 0x1_0000_0000;
    assert Pow256(6) == 0x1_0000_0000_0000;
  }

  /** `a` and `b` differ in the digit at `i` in base 256 and, below `width`, nowhere else. */
  ghost predicate DifferInDigit(a: nat, b: nat, width: nat, i: nat) {
    && i < width && a / Pow256(i) % 256 != b / Pow256(i) % 256
    && forall j: nat | j < width && j != i :: a / Pow256(j) % 256 == b / Pow256(j) % 256
  }

  /** Such values have bytes that differ in that place alone. */
  lemma OneDigitIsOneByte(a: nat, b: nat, width: nat, i: nat)
    requires DifferInDigit(a, b, width, i)
    ensures DifferOnlyAt(LittleEndian(a, width), LittleEndian(b, width), i)
  {
    var x, y := LittleEndian(a, width), LittleEndian(b, width);
    forall j: nat | j < width
      ensures x[j] == a / Pow256(j) % 256 && y[j] == b / Pow256(j) % 256
    {
      LittleEndianDigits(a, width, j);
      LittleEndianDigits(b, width, j);
    }
    hide LittleEndian, Pow256;
  }

  /** What surrounds two inputs does not change where they differ. */
  lemma DifferInside(before: seq<Byte>, a: seq<Byte>, b: seq<Byte>, after: seq<Byte>, i: nat)
    requires DifferOnlyAt(a, b, i)
    ensures DifferOnlyAt(before + a + after, before + b + after, |before| + i)
  {
    var x, y, k := before + a + after, before + b + after, |before| + i;
    assert x[..k] == before + a[..i] && y[..k] == before + b[..i];
    assert x[k + 1..] == a[i + 1..] + after && y[k + 1..] == b[i + 1..] + after;
  }

  // ---------------------------------------------------------------- test vectors

  lemma XorOneDigit(half: nat, r: nat, b: nat)
    requires Xor(half + r / 2, b / 2) == half + Xor(r / 2, b / 2)
    ensures Xor(2 * half + r, b) == 2 * half + Xor(r, b)
  {
    var a := 2 * half + r;
    assert a % 2 == r % 2 && a / 2 == half + r / 2;
    XorDigits(a, b);
    XorDigits(r, b);
    SameDigits(Xor(a, b), 2 * half + Xor(r, b));
  }

  /** A byte changes only the low byte of the state before the multiplication. */
  lemma XorLowByte(h: U64, b: Byte)
    ensures Xor(h, b) == h / 256 * 256 + Xor(h % 256, b)
  {
    var q, r := h / 256, h % 256;
    XorWithZero(q);
    XorWithZero(0);
    assert r / 16 / 16 == 0 && b / 16 / 16 == 0;
    XorFourDigitsUp(q, r / 16, b / 16) by {
      hide Xor;
    }
    hide Xor;
    XorFourDigitsUp(16 * q, r, b);
    assert h == 16 * (16 * q) + r;
  }

  lemma XorFourDigitsUp(q: nat, r: nat, b: nat)
    requires Xor(q + r / 16, b / 16) == q + Xor(r / 16, b / 16)
    ensures Xor(16 * q + r, b) == 16 * q + Xor(r, b)
  {
    hide Xor;
    assert r / 4 / 4 == r / 16 && b / 4 / 4 == b / 16;
    XorTwoDigits(q, r / 4, b / 4);
    XorTwoDigits(4 * q, r, b);
    assert 4 * (4 * q) + r == 16 * q + r;
  }

  lemma XorTwoDigits(quarter: nat, r: nat, b: nat)
    requires Xor(quarter + r / 4, b / 4) == quarter + Xor(r / 4, b / 4)
    ensures Xor(4 * quarter + r, b) == 4 * quarter + Xor(r, b)
  {
    hide Xor;
    assert r / 2 / 2 == r / 4 && b / 2 / 2 == b / 4;
    XorOneDigit(quarter, r / 2, b / 2);
    XorOneDigit(2 * quarter, r, b);
  }

  /** Exclusive or of two bytes, from their binary digits. */
  lemma XorOfBytes(r: Byte, b: Byte)
    ensures Xor(r, b) == Digit(r, b) + 2 * Digit(r / 2, b / 2) + 4 * Digit(r / 4, b / 4) + 8 * Digit(r / 8, b / 8)
                         + 16 * Xor(r / 16, b / 16)
    ensures Xor(r / 16, b / 16) == Digit(r / 16, b / 16) + 2 * Digit(r / 32, b / 32) + 4 * Digit(r / 64, b / 64)
                                   + 8 * Digit(r / 128, b / 128)
  {
    XorFourDigits(r, b);
    XorFourDigits(r / 16, b / 16);
    assert r / 16 / 2 == r / 32 && r / 16 / 4 == r / 64 && r / 16 / 8 == r / 128 && r / 16 / 16 == 0;
    assert b / 16 / 2 == b / 32 && b / 16 / 4 == b / 64 && b / 16 / 8 == b / 128 && b / 16 / 16 == 0;
  }

  lemma XorFourDigits(r: nat, b: nat)
    ensures Xor(r, b) == Digit(r, b) + 2 * Digit(r / 2, b / 2) + 4 * Digit(r / 4, b / 4) + 8 * Digit(r / 8, b / 8)
                         + 16 * Xor(r / 16, b / 16)
  {
    XorStep(r, b);
    XorStep(r / 2, b / 2);
    XorStep(r / 4, b / 4);
    XorStep(r / 8, b / 8);
    assert r / 2 / 2 == r / 4 && r / 4 / 2 == r / 8 && r / 8 / 2 == r / 16;
    assert b / 2 / 2 == b / 4 && b / 4 / 2 == b / 8 && b / 8 / 2 == b / 16;
  }

  lemma XorStep(r: nat, b: nat)
    ensures Xor(r, b) == Digit(r, b) + 2 * Xor(r / 2, b / 2)
  {
  }

  /** One step, worked out: the product is `turns` turns of 2^64 and the state after. */
  lemma FeedStep(h: U64, b: Byte, low: Byte, turns: nat, after: U64)
    requires Xor(h % 256, b) == low && (h / 256 * 256 + low) * PRIME == turns * TWO_64 + after
    ensures FeedByte(h, b) == after
  {
    XorLowByte(h, b);
    QuotientIsUnique((h / 256 * 256 + low) * PRIME, TWO_64, turns, after);
  }

  lemma FeedNothing(h: U64)
    ensures Feed(h, []) == h
  {
  }

  /** The published hashes of the empty string and of "a". */
  lemma PublishedVectors(basis: U64, a: Byte)
    requires basis == 0xcbf29ce484222325 && a == 0x61
    ensures OFFSET_BASIS == basis && Feed(basis, []) == 0xcbf29ce484222325
    ensures Feed(basis, [a]) == 0xaf63dc4c8601ec8c
  {
    FeedOne(basis, a);
    FeedNothing(basis);
    hide Xor, XorByte, FeedByte, MulPrime, Feed;
    XorOfBytes(basis % 256, a);
    FeedStep(basis, a, 0x44, 875948729822, 0xaf63dc4c8601ec8c);
  }
}
