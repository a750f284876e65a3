/** Facts about products that the storage and the parsers share. */
module Arithmetic {
  lemma MulOrder(a: nat, b: nat, c: nat)
    ensures a <= b ==> a * c <= b * c
  {}

  /** One more factor. */
  lemma MulNext(a: nat, b: nat, c: nat)
    ensures (a + 1) * c == a * c + c && (a < b ==> a * c + c <= b * c)
  {
    MulOrder(a + 1, b, c);
  }

  lemma MulStep(w: nat, v: nat, n: nat)
    ensures v < n ==> w * v + w <= w * n
  {
    if v < n {
      MulAdd(w, v, 1 + (n - v - 1));
      MulAdd(w, 1, n - v - 1);
    }
  }

  lemma MulAdd(w: nat, a: nat, b: nat)
    ensures w * (a + b) == w * a + w * b && w * b >= 0
  {}

  lemma DivOf(w: nat, v: nat, m: nat)
    requires w > 0 && m < w
    ensures (w * v + m) / w == v && (w * v + m) % w == m
  {
    var q, r := (w * v + m) / w, (w * v + m) % w;
    assert w * q + r == w * v + m;
    MulStep(w, q, v);
    MulStep(w, v, q);
  }
}
