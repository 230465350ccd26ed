/**
 * The toy hash `hash_generator`: a multiply/XOR fold of the character codes into a
 * 32-bit accumulator, a 13-bit left rotation, and 8 lowercase hex digits.
 *
 * Python integers are unbounded, so the fold is written with unbounded naturals and the
 * explicit reduction modulo 2^32 of the source; `Xor`, `Or` and `And` are Python's bitwise
 * operators on non-negative integers, defined bit by bit.
 */
module Hash {

  /** `d1`: the initial accumulator and the multiplier. */
  const Seed: nat := 828930167
  /** 2^32, the modulus of line 14 and one more than the mask of line 17. */
  const Modulus: nat := 0x1_0000_0000
  const Mask: nat := 0xFFFF_FFFF
  const HexAlphabet: string := "0123456789abcdef"

  function Pow2(k: nat): (r: nat)
    ensures r >= 1
  {
    if k == 0 then 1 else 2 * Pow2(k - 1)
  }

  lemma Pow2Values()
    ensures Pow2(13) == 8192 && Pow2(19) == 524288 && Pow2(32) == Modulus
  {
    assert Pow2(4) == 16;
    assert Pow2(8) == 256;
    assert Pow2(13) == 8192;
    assert Pow2(16) == 65536;
    assert Pow2(19) == 524288;
    assert Pow2(24) == 16777216;
  }

  /** Python's `a ^ b` for non-negative integers. */
  function Xor(a: nat, b: nat): nat
    decreases a + b
  {
    if a == 0 && b == 0 then 0
    else 2 * Xor(a / 2, b / 2) + (if a % 2 == b % 2 then 0 else 1)
  }

  /** Python's `a | b` for non-negative integers. */
  function Or(a: nat, b: nat): nat
    decreases a + b
  {
    if a == 0 && b == 0 then 0
    else 2 * Or(a / 2, b / 2) + (if a % 2 == 1 || b % 2 == 1 then 1 else 0)
  }

  /** Python's `a & b` for non-negative integers. */
  function And(a: nat, b: nat): nat
    decreases a + b
  {
    if a == 0 || b == 0 then 0
    else 2 * And(a / 2, b / 2) + (if a % 2 == 1 && b % 2 == 1 then 1 else 0)
  }

  /** One pass of the loop body: line 13 on unbounded integers, then the reduction of line 14. */
  function Step(acc: nat, c: char): (r: nat)
    ensures r < Modulus
  {
    (Xor(acc, (c as nat) * Seed) * Seed) % Modulus
  }

  /**
   * The same pass in 32-bit wrap-around arithmetic, every intermediate value reduced modulo
   * 2^32 (what a `uint32_t` implementation would compute).
   */
  function Step32(acc: nat, c: char): (r: nat)
    requires acc < Modulus
    ensures r < Modulus
  {
    (Xor(acc, ((c as nat) * Seed) % Modulus) * Seed) % Modulus
  }

  /** The accumulator after folding every character of `s`, starting from `Seed`. */
  function Fold(s: string): (r: nat)
    ensures r < Modulus
  {
    if s == [] then Seed else Step(Fold(s[..|s| - 1]), s[|s| - 1])
  }

  /**
   * Line 17: the 32-bit left rotation by 13 bits, the value shifted left by 13 OR-ed with the
   * value shifted right by 19, then masked to 32 bits; 8192 is 2^13, 524288 is 2^19, and the
   * mask is written as the reduction modulo 2^32 that it is (MaskIsModulo).
   */
  function Rotl13(v: nat): nat
  {
    Or(v * 8192, v / 524288) % Modulus
  }

  /** The rotation back, right by 13 bits; the partner that shows `Rotl13` is a bijection. */
  function Rotr13(w: nat): nat
  {
    (w % 8192) * 524288 + w / 8192
  }

  /** Line 19: v as exactly `width` lowercase hex digits, zero-padded, for a value that fits. */
  function ToHex(v: nat, width: nat): (r: string)
    ensures |r| == width
    ensures forall i :: 0 <= i < |r| ==> r[i] in HexAlphabet
  {
    if width == 0 then "" else ToHex(v / 16, width - 1) + [HexAlphabet[v % 16]]
  }

  function Pow16(n: nat): (r: nat)
    ensures r >= 1
  {
    if n == 0 then 1 else 16 * Pow16(n - 1)
  }

  function HexDigitValue(c: char): nat
  {
    if '0' <= c <= '9' then c as nat - '0' as nat
    else if 'a' <= c <= 'f' then c as nat - 'a' as nat + 10
    else 0
  }

  /** Reads a string of lowercase hex digits back as a number; the inverse of `ToHex`. */
  function HexValue(s: string): nat
  {
    if s == [] then 0 else 16 * HexValue(s[..|s| - 1]) + HexDigitValue(s[|s| - 1])
  }

  /** `hash_generator(text)`. */
  function Digest(text: string): (r: string)
    ensures |r| == 8
    ensures forall i :: 0 <= i < |r| ==> r[i] in HexAlphabet
  {
    ToHex(Rotl13(Fold(text)), 8)
  }

  /** `hash_generator`, loop for loop: the accumulator `suma` folded over the character codes. */
  method HashGenerator(text: string) returns (hash: string)
    ensures hash == Digest(text)
    ensures |hash| == 8 && forall i :: 0 <= i < 8 ==> hash[i] in HexAlphabet
  {
    var suma: nat := Seed;
    var i := 0;
    while i < |text|
      invariant 0 <= i <= |text|
      invariant suma == Fold(text[..i])
    {
      suma := Xor(suma, (text[i] as nat) * Seed);
      suma := (suma * Seed) % Modulus;
      assert text[..i + 1][..i] == text[..i];
      i := i + 1;
    }
    assert text[..i] == text;
    suma := Rotl13(suma);
    hash := ToHex(suma, 8);
  }

  // ---------------------------------------------------------------------------------------
  // Arithmetic facts about the bitwise operators.

  lemma MulAtLeast(e: int, d: int)
    requires e >= 1 && d > 0
    ensures e * d >= d
  {
    assert e * d == (e - 1) * d + d;
  }

  lemma DivModUnique(n: int, d: int, q: int, r: int)
    requires d > 0 && 0 <= r < d && n == q * d + r
    ensures n / d == q && n % d == r
  {
    var q', r' := n / d, n % d;
    assert q' * d + r' == q * d + r;
    if q' > q {
      assert (q' - q) * d == q' * d - q * d;
      MulAtLeast(q' - q, d);
    } else if q' < q {
      assert (q - q') * d == q * d - q' * d;
      MulAtLeast(q - q', d);
    }
  }

  lemma XorUnfold(a: nat, b: nat)
    ensures Xor(a, b) == 2 * Xor(a / 2, b / 2) + (if a % 2 == b % 2 then 0 else 1)
  {
  }

  /** `(2x + t) mod 2p` is twice `x mod p`, plus the low bit `t`. */
  lemma ModDouble(x: nat, t: nat, p: nat)
    requires t < 2 && p >= 1
    ensures (2 * x + t) % (2 * p) == 2 * (x % p) + t
  {
    DivModUnique(2 * x + t, 2 * p, x / p, 2 * (x % p) + t);
  }

  /** Dropping the low bit of `a mod 2p` gives `(a / 2) mod p`. */
  lemma ModHalf(a: nat, p: nat)
    requires p >= 1
    ensures (a % (2 * p)) / 2 == (a / 2) % p && (a % (2 * p)) % 2 == a % 2
  {
    ModDouble(a / 2, a % 2, p);
    assert a == 2 * (a / 2) + a % 2;
  }

  /** Bits above position k do not influence the low k bits of an XOR. */
  lemma {:induction false} XorLowBits(a: nat, b: nat, k: nat)
    ensures Xor(a, b) % Pow2(k) == Xor(a % Pow2(k), b % Pow2(k))
  {
    if k > 0 {
      var p := Pow2(k - 1);
      XorLowBits(a / 2, b / 2, k - 1);
      XorUnfold(a, b);
      XorUnfold(a % (2 * p), b % (2 * p));
      ModHalf(a, p);
      ModHalf(b, p);
      ModDouble(Xor(a / 2, b / 2), if a % 2 == b % 2 then 0 else 1, p);
    }
  }

  lemma MulLowBits(x: nat, y: nat)
    ensures (x * y) % Modulus == ((x % Modulus) * y) % Modulus
  {
    var q, r := x / Modulus, x % Modulus;
    assert x * y == (q * y) * Modulus + r * y;
    DivModUnique(r * y, Modulus, (r * y) / Modulus, (r * y) % Modulus);
    DivModUnique(x * y, Modulus, q * y + (r * y) / Modulus, (r * y) % Modulus);
  }

  /**
   * Computing with unbounded integers and reducing only at line 14 gives the same accumulator
   * as 32-bit wrap-around arithmetic.
   */
  lemma StepWideIsNarrow(acc: nat, c: char)
    requires acc < Modulus
    ensures Step(acc, c) == Step32(acc, c)
  {
    XorThenMultiply(acc, (c as nat) * Seed);
  }

  lemma XorThenMultiply(acc: nat, x: nat)
    requires acc < Modulus
    ensures (Xor(acc, x) * Seed) % Modulus == (Xor(acc, x % Modulus) * Seed) % Modulus
  {
    Pow2Values();
    XorLowBits(acc, x, 32);
    DivModUnique(acc, Modulus, 0, acc);
    var wide, narrow := Xor(acc, x), Xor(acc, x % Modulus);
    assert wide % Modulus == narrow;
    MulLowBits(wide, Seed);
  }

  lemma {:induction false} OrZero(a: nat)
    ensures Or(a, 0) == a
  {
    if a > 0 {
      OrZero(a / 2);
    }
  }

  /** OR-ing in a value below 2^k after a shift by k is addition. */
  lemma {:induction false} OrShifted(x: nat, y: nat, k: nat)
    requires y < Pow2(k)
    ensures Or(x * Pow2(k), y) == x * Pow2(k) + y
  {
    if k == 0 {
      OrZero(x);
    } else {
      var z := x * Pow2(k - 1);
      assert x * Pow2(k) == 2 * z;
      OrShifted(x, y / 2, k - 1);
      if !(2 * z == 0 && y == 0) {
        assert Or(2 * z, y) == 2 * Or(z, y / 2) + y % 2;
      }
    }
  }

  /** AND with 2^k - 1 keeps the low k bits. */
  lemma {:induction false} AndLowMask(a: nat, k: nat)
    ensures And(a, Pow2(k) - 1) == a % Pow2(k)
  {
    if k > 0 && a > 0 {
      var p := Pow2(k - 1);
      assert Pow2(k) == 2 * p;
      AndLowMask(a / 2, k - 1);
      AndUnfoldMask(a, p);
      ModDouble(a / 2, a % 2, p);
      calc {
        And(a, Pow2(k) - 1);
        And(a, 2 * p - 1);
        2 * And(a / 2, p - 1) + a % 2;
        2 * ((a / 2) % p) + a % 2;
        (2 * (a / 2) + a % 2) % (2 * p);
        a % Pow2(k);
      }
    } else if k == 0 {
      assert Pow2(k) - 1 == 0;
      assert And(a, 0) == 0;
    } else {
      assert And(0, Pow2(k) - 1) == 0;
      assert 0 % Pow2(k) == 0;
    }
  }

  lemma AndUnfoldMask(a: nat, p: nat)
    requires a > 0 && p >= 1
    ensures And(a, 2 * p - 1) == 2 * And(a / 2, p - 1) + a % 2
    ensures 2 * (a / 2) + a % 2 == a
  {
    var m := 2 * p - 1;
    assert m / 2 == p - 1 && m % 2 == 1;
  }

  /** `x & 0xFFFFFFFF` keeps the low 32 bits: it is `x % 2^32`. */
  lemma MaskIsModulo(x: nat)
    ensures And(x, Mask) == x % Modulus
  {
    Pow2Values();
    AndLowMask(x, 32);
  }

  /** For a 32-bit value, the rotation is "low 19 bits to the top, high 13 bits to the bottom". */
  lemma Rotl13Split(v: nat)
    requires v < Modulus
    ensures Rotl13(v) == (v % 524288) * 8192 + v / 524288
    ensures Rotl13(v) < Modulus
  {
    Pow2Values();
    var hi, lo := v / 524288, v % 524288;
    assert v == hi * 524288 + lo;
    assert hi < 8192;
    OrShifted(v, hi, 13);
    assert v * 8192 + hi == hi * Modulus + (lo * 8192 + hi);
    DivModUnique(v * 8192 + hi, Modulus, hi, lo * 8192 + hi);
  }

  /** Line 17 loses nothing: rotating back recovers the accumulator. */
  lemma RotateRoundTrip(v: nat)
    requires v < Modulus
    ensures Rotr13(Rotl13(v)) == v
  {
    Rotl13Split(v);
    var hi, lo := v / 524288, v % 524288;
    var w := lo * 8192 + hi;
    DivModUnique(w, 8192, lo, hi);
  }

  lemma HexDigitRoundTrip(d: nat)
    requires d < 16
    ensures HexDigitValue(HexAlphabet[d]) == d
  {
  }

  lemma {:induction false} HexRoundTrip(v: nat, width: nat)
    requires v < Pow16(width)
    ensures HexValue(ToHex(v, width)) == v
  {
    if width > 0 {
      var s := ToHex(v, width);
      HexRoundTrip(v / 16, width - 1);
      assert s[..|s| - 1] == ToHex(v / 16, width - 1);
      HexDigitRoundTrip(v % 16);
    }
  }

  /**
   * The rotation and the hex formatting are both injective, so two texts whose final
   * accumulators differ get different digests.
   */
  lemma DigestSeparatesAccumulators(s: string, t: string)
    requires Fold(s) != Fold(t)
    ensures Digest(s) != Digest(t)
  {
    Rotl13Split(Fold(s));
    Rotl13Split(Fold(t));
    assert Pow16(8) == Modulus;
    HexRoundTrip(Rotl13(Fold(s)), 8);
    HexRoundTrip(Rotl13(Fold(t)), 8);
    RotateRoundTrip(Fold(s));
    RotateRoundTrip(Fold(t));
  }

  /** With no characters the loop does not run: the digest is the rotated seed, 0x0f0ee62d. */
  lemma EmptyDigest()
    ensures Digest("") == ToHex(Rotl13(Seed), 8)
    ensures Digest("") == "0f0ee62d"
  {
    RotatedSeed();
    RotatedSeedHex();
  }

  lemma RotatedSeed()
    ensures Rotl13(Seed) == 0x0f0ee62d
  {
    RotatedValue(Seed);
  }

  lemma RotatedValue(v: nat)
    requires v == 828930167
    ensures Rotl13(v) == 0x0f0ee62d
  {
    Rotl13Split(v);
    DivModUnique(v, 524288, 1581, 30839);
  }

  lemma RotatedSeedHex()
    ensures ToHex(0x0f0ee62d, 8) == "0f0ee62d"
  {
    HexOf(0x0f0ee62d);
  }

  lemma HexOf(v: nat)
    requires v == 0x0f0ee62d
    ensures ToHex(v, 8) == "0f0ee62d"
  {
    assert v % 16 == 0xd && v / 16 == 0xf0ee62;
    var w := v / 16;
    assert w % 16 == 2 && w / 16 == 0xf0ee6;
    w := w / 16;
    assert w % 16 == 6 && w / 16 == 0xf0ee;
    w := w / 16;
    assert w % 16 == 0xe && w / 16 == 0xf0e;
    w := w / 16;
    assert w % 16 == 0xe && w / 16 == 0xf0;
    w := w / 16;
    assert w % 16 == 0 && w / 16 == 0xf;
    w := w / 16;
    assert w % 16 == 0xf && w / 16 == 0;
  }
}
