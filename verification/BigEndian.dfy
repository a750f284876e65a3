/** Big-endian integers of `n` bytes, unsigned and in two's complement. */
module BigEndian {

  type byte = b: int | 0 <= b < 256

  function Pow256(n: nat): (p: nat)
    ensures p >= 1
  {
    if n == 0 then 1 else 256 * Pow256(n - 1)
  }

  function Unsigned(b: seq<byte>): nat {
    if b == [] then 0 else 256 * Unsigned(b[..|b| - 1]) + b[|b| - 1]
  }

  /** Conversion of an n-byte unsigned pattern to the signed type of n bytes. */
  function ToSigned(u: nat, n: nat): int
    requires n > 0
  {
    if u < 128 * Pow256(n - 1) then u else u - Pow256(n)
  }

  function Signed(b: seq<byte>): int
    requires b != []
  {
    ToSigned(Unsigned(b), |b|)
  }

  predicate FitsSigned(v: int, n: nat)
    requires n > 0
  {
    -128 * Pow256(n - 1) <= v < 128 * Pow256(n - 1)
  }

  predicate FitsUnsigned(v: int, n: nat) {
    0 <= v < Pow256(n)
  }

  /** The low n bytes of an integer, most significant first. */
  function ToBytes(v: int, n: nat): (b: seq<byte>)
    ensures |b| == n
    decreases n
  {
    if n == 0 then [] else ToBytes(v / 256, n - 1) + [v % 256]
  }

  lemma {:induction false} UnsignedBound(b: seq<byte>)
    ensures Unsigned(b) < Pow256(|b|)
  {
    if b != [] { UnsignedBound(b[..|b| - 1]); }
  }

  lemma {:induction false} UnsignedOfBytes(v: nat, n: nat)
    requires v < Pow256(n)
    ensures Unsigned(ToBytes(v, n)) == v
  {
    if n > 0 {
      UnsignedOfBytes(v / 256, n - 1);
      assert ToBytes(v, n)[..n - 1] == ToBytes(v / 256, n - 1);
    }
  }

  lemma {:induction false} BytesOfUnsigned(b: seq<byte>)
    ensures ToBytes(Unsigned(b), |b|) == b
  {
    if b != [] { BytesOfUnsigned(b[..|b| - 1]); }
  }

  /** Only the value modulo 256^n matters. */
  lemma {:induction false} BytesModulo(v: int, k: int, n: nat)
    ensures ToBytes(v + k * Pow256(n), n) == ToBytes(v, n)
    decreases n
  {
    if n > 0 {
      TimesByte(k, Pow256(n - 1));
      LowByte(v, k * Pow256(n - 1));
      BytesModulo(v / 256, k, n - 1);
    }
  }

  lemma TimesByte(k: int, p: nat)
    ensures k * (256 * p) == 256 * (k * p)
  {}

  lemma LowByte(v: int, m: int)
    ensures (v + 256 * m) / 256 == v / 256 + m && (v + 256 * m) % 256 == v % 256
  {}

  lemma SignedOfBytes(v: int, n: nat)
    requires n > 0 && FitsSigned(v, n)
    ensures Signed(ToBytes(v, n)) == v
  {
    if v >= 0 {
      UnsignedOfBytes(v, n);
    } else {
      assert v + Pow256(n) == v + 1 * Pow256(n);
      BytesModulo(v, 1, n);
      UnsignedOfBytes(v + Pow256(n), n);
    }
  }

  lemma BytesOfSigned(b: seq<byte>)
    requires b != []
    ensures ToBytes(Signed(b), |b|) == b && FitsSigned(Signed(b), |b|)
  {
    var n, u := |b|, Unsigned(b);
    UnsignedBound(b);
    BytesOfUnsigned(b);
    hide Unsigned, ToBytes, Pow256, ToSigned, FitsSigned;
    SignedFits(u, n);
    if ToSigned(u, n) != u { BytesModulo(u, -1, n); }
  }

  lemma SignedFits(u: nat, n: nat)
    requires n > 0 && u < Pow256(n)
    ensures FitsSigned(ToSigned(u, n), n)
    ensures ToSigned(u, n) == u || ToSigned(u, n) == u + -1 * Pow256(n)
  {}

  /** The first byte tells the sign. */
  lemma SignByte(b: seq<byte>)
    requires b != []
    ensures Signed(b) < 0 <==> b[0] >= 128
  {
    UnsignedBound(b);
    LeadingByte(b);
    UnsignedBound(b[1..]);
    Scale(b[0], 128, Pow256(|b| - 1));
  }

  lemma Distribute(a: nat, d: nat, m: nat)
    ensures (a + d) * m == a * m + d * m && d * m >= 0
  {}

  lemma Scale(a: nat, b: nat, m: nat)
    ensures a >= b ==> a * m >= b * m
    ensures a < b ==> a * m + m <= b * m
  {
    if a >= b {
      Distribute(b, a - b, m);
    } else {
      Distribute(a + 1, b - a - 1, m);
      Distribute(a, 1, m);
    }
  }

  lemma {:induction false} LeadingByte(b: seq<byte>)
    requires b != []
    ensures Unsigned(b) == b[0] * Pow256(|b| - 1) + Unsigned(b[1..])
  {
    if |b| > 1 {
      LeadingByte(b[..|b| - 1]);
      assert b[..|b| - 1][1..] == b[1..][..|b| - 2];
    }
  }

  /** One step of the reading loops: shift left by eight, or in the next byte, convert to the n-byte type. */
  lemma SignedStep(b: seq<byte>, next: byte, n: nat)
    requires |b| < n
    ensures Unsigned(b + [next]) == Unsigned(b) * 256 + next < Pow256(n)
    ensures ToSigned(Unsigned(b), n) == Unsigned(b)
  {
    UnsignedAppend(b, next);
    UnsignedBound(b);
    UnsignedBound(b + [next]);
    Pow256Monotone(|b|, n - 1);
    Pow256Monotone(|b| + 1, n);
  }

  lemma UnsignedAppend(b: seq<byte>, next: byte)
    ensures Unsigned(b + [next]) == Unsigned(b) * 256 + next
  {
    assert (b + [next])[..|b|] == b;
  }

  lemma {:induction false} Pow256Monotone(a: nat, b: nat)
    requires a <= b
    ensures Pow256(a) <= Pow256(b)
    decreases b
  {
    if a < b { Pow256Monotone(a, b - 1); }
  }

  lemma ModUnique(a: int, q: int, r: int, m: nat)
    requires m > 0 && a == q * m + r && 0 <= r < m
    ensures a % m == r
  {
    var q', r' := a / m, a % m;
    assert (q - q') * m == r' - r;
    AtLeastOnce(q - q', m);
    AtLeastOnce(q' - q, m);
  }

  lemma AtLeastOnce(k: int, m: nat)
    ensures k >= 1 ==> k * m >= m
  {}

  /** The byte written by the printing loops: (v >> 8 * (n - 1 - i)) & 0xFF. */
  lemma {:induction false} ByteOfShift(v: int, n: nat, i: nat)
    requires i < n
    ensures ToBytes(v, n)[i] == (v / Pow256(n - 1 - i)) % 256
    decreases n
  {
    if i < n - 1 {
      ByteOfShift(v / 256, n - 1, i);
      DivTwice(v, Pow256(n - 2 - i));
    }
  }

  lemma DivTwice(v: int, d: nat)
    requires d > 0
    ensures (v / 256) / d == v / (256 * d)
  {
    var a, r := v / 256, v % 256;
    var q, s := a / d, a % d;
    assert v == (256 * d) * q + (256 * s + r) by { assert a == d * q + s; }
    assert 256 * s + r < 256 * d;
    ModUnique(v, q, 256 * s + r, 256 * d);
    var m := 256 * d;
    assert v == m * (v / m) + v % m;
    assert m * (v / m - q) == 0;
  }
}
