/** Facts about integer division by a positive divisor. */
module Division {

  /** A product below w has a factor below 1. */
  lemma SmallFactor(a: int, w: int)
    requires w > 0
    ensures a * w < w <==> a <= 0
  {
  }

  lemma DivAtLeast(x: int, w: int, q: int)
    requires w > 0 && q * w <= x
    ensures q <= x / w
  {
    var d := x / w;
    assert x == d * w + x % w;
    assert (q - d) * w == q * w - d * w;
    SmallFactor(q - d, w);
  }

  lemma DivLess(x: int, w: int, q: int)
    requires w > 0 && x < q * w
    ensures x / w < q
  {
  }

  lemma FloorsAddUp(x: int, y: int, w: int)
    requires w > 0
    ensures x / w + y / w <= (x + y) / w
  {
    assert (x / w + y / w) * w == x / w * w + y / w * w;
    DivAtLeast(x + y, w, x / w + y / w);
  }

  lemma DivMonotone(x: int, y: int, w: int)
    requires w > 0 && x <= y
    ensures x / w <= y / w
  {
    DivAtLeast(y, w, x / w);
  }
}
