/** Fixed-width machine words: the bits of an unsigned integer, least significant first, with the
    bitwise operators of C++ defined bit by bit. The length of the sequence is the word's width. */
module Words {

  type Word = seq<bool>

  function Pow2(n: nat): (p: nat)
    ensures p >= 1
  {
    if n == 0 then 1 else 2 * Pow2(n - 1)
  }

  /** Conversion of an integer to an unsigned type of `width` bits: the high bits are dropped. */
  function Cast(v: nat, width: nat): (w: Word)
    ensures |w| == width
  {
    if width == 0 then [] else [v % 2 == 1] + Cast(v / 2, width - 1)
  }

  function Value(w: Word): nat {
    if w == [] then 0 else (if w[0] then 1 else 0) + 2 * Value(w[1..])
  }

  function And(a: Word, b: Word): (w: Word)
    requires |a| == |b|
  {
    seq(|a|, i requires 0 <= i < |a| => a[i] && b[i])
  }

  function Or(a: Word, b: Word): (w: Word)
    requires |a| == |b|
  {
    seq(|a|, i requires 0 <= i < |a| => a[i] || b[i])
  }

  function Not(a: Word): (w: Word) {
    seq(|a|, i requires 0 <= i < |a| => !a[i])
  }

  function ShiftLeft(a: Word, k: nat): (w: Word) {
    seq(|a|, i requires 0 <= i < |a| => i >= k && a[i - k])
  }

  function ShiftRight(a: Word, k: nat): (w: Word) {
    seq(|a|, i requires 0 <= i < |a| => i + k < |a| && a[i + k])
  }

  lemma {:induction false} ValueBound(w: Word)
    ensures Value(w) < Pow2(|w|)
  {
    if w != [] { ValueBound(w[1..]); }
  }

  lemma {:induction false} ValueOfCast(v: nat, width: nat)
    requires v < Pow2(width)
    ensures Value(Cast(v, width)) == v
  {
    if width > 0 {
      ValueOfCast(v / 2, width - 1);
      assert Cast(v, width)[1..] == Cast(v / 2, width - 1);
    }
  }

  /** Zero bits at the top do not change the value. */
  lemma {:induction false} ValueOfPadded(w: Word, n: nat)
    requires n <= |w|
    requires forall i :: n <= i < |w| ==> !w[i]
    ensures Value(w) == Value(w[..n])
  {
    if w != [] {
      if n == 0 {
        ValueOfPadded(w[1..], 0);
      } else {
        ValueOfPadded(w[1..], n - 1);
        assert w[..n][1..] == w[1..][..n - 1];
      }
    }
  }

  lemma {:induction false} ValueZero(w: Word)
    ensures Value(w) == 0 <==> forall i :: 0 <= i < |w| ==> !w[i]
  {
    if w != [] {
      ValueZero(w[1..]);
      assert forall i :: 0 <= i < |w| ==> w[i] == if i == 0 then w[0] else w[1..][i - 1];
    }
  }

  /** A value below 2^size has no bit at or above position `size`. */
  lemma {:induction false} CastHighBits(v: nat, size: nat, width: nat)
    requires v < Pow2(size)
    ensures forall i :: size <= i < width ==> !Cast(v, width)[i]
  {
    if width > 0 {
      if size > 0 {
        CastHighBits(v / 2, size - 1, width - 1);
      } else {
        CastHighBits(0, 0, width - 1);
      }
    }
  }

  /** The mask (1 << size) - 1. */
  function Mask(size: nat, width: nat): (w: Word)
    ensures |w| == width
  {
    Cast(Pow2(size) - 1, width)
  }

  lemma {:induction false} MaskBits(size: nat, width: nat)
    requires size <= width
    ensures Mask(size, width) == seq(width, i => i < size)
  {
    if size == 0 {
      CastHighBits(0, 0, width);
    } else {
      MaskBits(size - 1, width - 1);
      assert Mask(size, width) == [true] + Mask(size - 1, width - 1);
    }
  }

  lemma {:induction false} Pow2Monotone(a: nat, b: nat)
    requires a <= b
    ensures Pow2(a) <= Pow2(b)
    decreases b
  {
    if a < b { Pow2Monotone(a, b - 1); }
  }
}
