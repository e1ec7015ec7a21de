/** Numeric helpers of the trading bot: the little-endian uint64 buffer, the range-scaled random
    decimal, decimal rounding, and the random integer and shuffle helpers the dispatcher imports.
    Amounts are exact reals; randomness is an injected draw. */
module Utils {

  newtype byte = x: int | 0 <= x < 256

  /** A JavaScript number as far as this model needs one: a finite value or NaN. */
  datatype Num = Finite(value: real) | NaN

  /** 2^64: BigInt values at or above it make writeBigUInt64LE throw. */
  const UINT64_LIMIT: nat := 0x1_0000_0000_0000_0000

  function Pow256(n: nat): (p: nat)
    ensures p > 0
  {
    if n == 0 then 1 else 256 * Pow256(n - 1)
  }

  function Pow10(d: nat): (p: real)
    ensures p >= 1.0
  {
    if d == 0 then 1.0 else 10.0 * Pow10(d - 1)
  }

  // ---------------------------------------------------------------------------------------
  // bufferFromUInt64

  /** The n low-order bytes of v, least significant first. */
  function LittleEndian(v: nat, n: nat): (bytes: seq<byte>)
    ensures |bytes| == n
  {
    if n == 0 then [] else [(v % 256) as byte] + LittleEndian(v / 256, n - 1)
  }

  /** The number a little-endian byte string denotes (what readBigUInt64LE reads back). */
  function FromLittleEndian(bytes: seq<byte>): nat
  {
    if bytes == [] then 0 else bytes[0] as nat + 256 * FromLittleEndian(bytes[1..])
  }

  lemma {:induction false} LittleEndianRoundTrip(v: nat, n: nat)
    requires v < Pow256(n)
    ensures FromLittleEndian(LittleEndian(v, n)) == v
  {
    if n > 0 {
      LittleEndianRoundTrip(v / 256, n - 1);
      assert LittleEndian(v, n)[1..] == LittleEndian(v / 256, n - 1);
    }
  }

  lemma MulAtLeast(d: int, k: int)
    requires d > 0 && k >= 1
    ensures d * k >= d
    decreases k
  {
    if k > 1 {
      MulAtLeast(d, k - 1);
      assert d * k == d * (k - 1) + d;
    }
  }

  lemma DivUnique(a: int, d: int, q: int, r: int)
    requires d > 0 && 0 <= r < d && a == d * q + r
    ensures a / d == q
  {
    var q', r' := a / d, a % d;
    assert d * q' + r' == d * q + r;
    if q > q' {
      MulAtLeast(d, q - q');
      assert false;
    } else if q < q' {
      MulAtLeast(d, q' - q);
      assert false;
    }
  }

  lemma MulBelow(b: int, r2: int, c: int)
    requires b > 0 && 0 <= r2 < c
    ensures b * r2 <= b * c - b
  {
    MulAtLeast(b, c - r2);
    assert b * (c - r2) == b * c - b * r2;
  }

  lemma DivDiv(a: nat, b: nat, c: nat)
    requires b > 0 && c > 0
    ensures a / b / c == a / (b * c)
  {
    var q, r := a / b, a % b;
    var q2, r2 := q / c, q % c;
    assert q == c * q2 + r2;
    assert a == b * q + r;
    assert b * q == b * (c * q2) + b * r2;
    assert b * (c * q2) == (b * c) * q2;
    MulBelow(b, r2, c);
    DivUnique(a, b * c, q2, b * r2 + r);
  }

  /** Byte i of the encoding is floor(v / 256^i) mod 256. */
  lemma {:induction false} LittleEndianByte(v: nat, n: nat, i: nat)
    requires i < n
    ensures LittleEndian(v, n)[i] as int == (v / Pow256(i)) % 256
  {
    if i > 0 {
      LittleEndianByte(v / 256, n - 1, i - 1);
      DivDiv(v, 256, Pow256(i - 1));
    }
  }

  /** The 8-byte encoding of a uint64: byte i is floor(v / 256^i) mod 256, and decoding gives v. */
  lemma EightByteEncoding(v: nat)
    requires v < UINT64_LIMIT
    ensures forall i :: 0 <= i < 8 ==> LittleEndian(v, 8)[i] as int == (v / Pow256(i)) % 256
    ensures FromLittleEndian(LittleEndian(v, 8)) == v
  {
    forall i | 0 <= i < 8
      ensures LittleEndian(v, 8)[i] as int == (v / Pow256(i)) % 256
    {
      LittleEndianByte(v, 8, i);
    }
    assert Pow256(8) == UINT64_LIMIT;
    LittleEndianRoundTrip(v, 8);
  }

  lemma LittleEndianUnfold(v: nat, n: nat)
    requires n > 0
    ensures LittleEndian(v, n)[0] == (v % 256) as byte
    ensures LittleEndian(v, n)[1..] == LittleEndian(v / 256, n - 1)
  {
  }

  /** Buffer.alloc(8) followed by writeBigUInt64LE(BigInt(value)). */
  method BufferFromUInt64(value: int) returns (buffer: array<byte>)
    requires 0 <= value < UINT64_LIMIT
    ensures fresh(buffer) && buffer.Length == 8
    ensures buffer[..] == LittleEndian(value, 8)
    ensures forall i :: 0 <= i < 8 ==> buffer[i] as int == (value / Pow256(i)) % 256
    ensures FromLittleEndian(buffer[..]) == value
  {
    buffer := new byte[8](_ => 0);
    ghost var expected := LittleEndian(value, 8);
    var rest := value;
    var i := 0;
    while i < 8
      invariant 0 <= i <= 8 && rest >= 0
      invariant forall k :: 0 <= k < i ==> buffer[k] == expected[k]
      invariant expected[i..] == LittleEndian(rest, 8 - i)
    {
      LittleEndianUnfold(rest, 8 - i);
      assert expected[i] == expected[i..][0];
      assert expected[i + 1..] == expected[i..][1..];
      buffer[i] := (rest % 256) as byte;
      rest := rest / 256;
      i := i + 1;
    }
    assert buffer[..] == expected;
    EightByteEncoding(value);
  }

  // ---------------------------------------------------------------------------------------
  // getRandomDecimalInRange and getRandomIntInRange, with Math.random() injected as r in [0, 1)

  lemma MulPos(a: real, b: real)
    requires a > 0.0 && b > 0.0
    ensures a * b > 0.0
  {
  }

  lemma MulNonneg(a: real, b: real)
    requires a >= 0.0 && b >= 0.0
    ensures a * b >= 0.0
  {
  }

  lemma DivSign(n: real, d: real)
    requires d > 0.0
    ensures n >= 0.0 ==> n / d >= 0.0
    ensures n > 0.0 ==> n / d > 0.0
  {
  }

  /** The sign of x follows from the sign of x * d for a positive d. */
  lemma FactorSign(x: real, d: real)
    requires d > 0.0
    ensures x * d >= 0.0 ==> x >= 0.0
    ensures x * d > 0.0 ==> x > 0.0
  {
    DivSign(x * d, d);
    assert (x * d) / d == x;
  }

  /** A product kept as one term, so that the solver reuses facts proved about it. */
  function Mul(a: real, b: real): real
  {
    a * b
  }

  /** Scaling by a factor of [0, 1) moves w toward zero, never onto its far end. */
  lemma ScaleFacts(r: real, w: real)
    requires 0.0 <= r < 1.0
    ensures w > 0.0 ==> 0.0 <= Mul(r, w) < w
    ensures w < 0.0 ==> w < Mul(r, w) <= 0.0
    ensures w == 0.0 ==> Mul(r, w) == 0.0
  {
    if w > 0.0 {
      MulPos(1.0 - r, w);
      MulNonneg(r, w);
      assert (1.0 - r) * w == w - r * w;
    } else if w < 0.0 {
      MulPos(1.0 - r, -w);
      MulNonneg(r, -w);
      assert (1.0 - r) * (-w) == r * w - w;
      assert r * (-w) == -(r * w);
    }
  }

  /** min + r * (max - min): a point of [min, max) when min < max, of (max, min] when max < min. */
  function GetRandomDecimalInRange(min: real, max: real, r: real): (x: real)
    requires 0.0 <= r < 1.0
    ensures min < max ==> min <= x < max
    ensures min == max ==> x == min
    ensures max < min ==> max < x <= min
  {
    ScaleFacts(r, max - min);
    min + Mul(r, max - min)
  }

  /** An integer of [min, max], both ends included. */
  function GetRandomIntInRange(min: int, max: int, r: real): (x: int)
    requires 0.0 <= r < 1.0
    ensures min <= max ==> min <= x <= max
  {
    ScaleFacts(r, (max - min + 1) as real);
    min + Mul(r, (max - min + 1) as real).Floor
  }

  // ---------------------------------------------------------------------------------------
  // round(num, decimals), over exact reals (the Number.EPSILON nudge is zero here)

  /** y is an integer multiple of 1 / p. */
  predicate IsMultipleOf(y: real, p: real)
  {
    (y * p).Floor as real == y * p
  }

  /** y is an integer multiple of 10^-d. */
  predicate IsMultipleOfUnit(y: real, d: nat)
  {
    IsMultipleOf(y, Pow10(d))
  }

  lemma RoundToFacts(x: real, p: real, n: int)
    requires p >= 1.0 && n == (x * p + 0.5).Floor
    ensures IsMultipleOf(n as real / p, p)
    ensures -0.5 < (n as real / p - x) * p <= 0.5
  {
    assert (n as real / p) * p == n as real;
    assert (n as real / p - x) * p == n as real - x * p;
  }

  /** floor(x * p + 1/2) / p: the multiple of 1 / p nearest to x, halves going up. */
  function RoundTo(x: real, p: real): (r: real)
    requires p >= 1.0
    ensures IsMultipleOf(r, p)
    ensures -0.5 < (r - x) * p <= 0.5
  {
    RoundToFacts(x, p, (x * p + 0.5).Floor);
    (x * p + 0.5).Floor as real / p
  }

  /** Math.round(x * 10^d) / 10^d: the multiple of 10^-d nearest to x, halves going up. */
  function Round(x: real, d: nat): (r: real)
    ensures IsMultipleOfUnit(r, d)
    ensures -0.5 < (r - x) * Pow10(d) <= 0.5
  {
    RoundTo(x, Pow10(d))
  }

  lemma NearestMultiple(x: real, y: real, p: real, m: int)
    requires p >= 1.0 && y * p == m as real
    requires -0.5 < (y - x) * p <= 0.5
    ensures (x * p + 0.5).Floor == m
    ensures m as real / p == y
  {
    assert (y - x) * p == y * p - x * p;
  }

  /** y is within half a unit of p of x. */
  predicate Near(x: real, y: real, p: real)
  {
    -0.5 < (y - x) * p <= 0.5
  }

  lemma RoundToUnique(x: real, p: real, y: real)
    requires p >= 1.0 && IsMultipleOf(y, p) && Near(x, y, p)
    ensures y == RoundTo(x, p)
  {
    NearestMultiple(x, y, p, (y * p).Floor);
  }

  /** The two properties of Round's contract determine its result. */
  lemma RoundUnique(x: real, d: nat, y: real)
    requires IsMultipleOfUnit(y, d) && Near(x, y, Pow10(d))
    ensures y == Round(x, d)
  {
    RoundToUnique(x, Pow10(d), y);
  }

  lemma RoundIdempotent(x: real, d: nat)
    ensures Round(Round(x, d), d) == Round(x, d)
  {
    RoundUnique(Round(x, d), d, Round(x, d));
  }

  /** A positive number rounded to whole units is at least one. */
  lemma RoundWholeAtLeastOne(x: real)
    requires Round(x, 0) > 0.0
    ensures Round(x, 0) >= 1.0
  {
    assert Pow10(0) == 1.0;
    assert IsMultipleOf(Round(x, 0), 1.0);
  }

  /** Halves round toward +infinity. */
  lemma RoundHalves()
    ensures Round(2.5, 0) == 3.0
    ensures Round(-2.5, 0) == -2.0
    ensures Round(0.0005, 3) == 0.001
  {
  }

  // ---------------------------------------------------------------------------------------
  // shuffle, with the random index draws injected

  /** Fisher-Yates in place: the k-th swap exchanges position i with draw(i) mod (i + 1). */
  method Shuffle<T>(s: seq<T>, draw: nat -> nat) returns (r: seq<T>)
    ensures |r| == |s| && multiset(r) == multiset(s)
  {
    r := s;
    var i := |r|;
    while i > 1
      invariant 0 <= i <= |r| == |s|
      invariant multiset(r) == multiset(s)
    {
      i := i - 1;
      var j := draw(i) % (i + 1);
      r := r[i := r[j]][j := r[i]];
    }
  }
}
