/** Integer division facts, kept apart so that no other proof has to unfold `/`. */
module Division {

  /** Rounded-up quotient. */
  function CeilDiv(a: nat, d: nat): nat
    requires d > 0
  {
    (a + d - 1) / d
  }

  lemma DivBounds(a: nat, d: nat)
    requires d > 0
    ensures d * (a / d) <= a < d * (a / d) + d
  {
  }

  lemma DivIs(a: nat, d: nat, q: int)
    requires d > 0 && d * q <= a < d * q + d
    ensures a / d == q
  {
    DivBounds(a, d);
    var p := a / d;
    if p < q {
      MulLe(d, p + 1, q);
    } else if p > q {
      MulLe(d, q + 1, p);
    }
  }

  lemma MulLe(c: nat, a: int, b: int)
    requires a <= b
    ensures c * a <= c * b
  {
  }

  lemma MulAdd(c: int, a: int, b: int)
    ensures c * (a + b) == c * a + c * b
  {
  }

  lemma Commute(a: int, b: int)
    ensures a * b == b * a
  {
  }

  lemma MulSub(c: int, a: int, b: int)
    ensures c * (a - b) == c * a - c * b
  {
  }

  /** Cancelling a positive factor. */
  lemma MulCancelLe(c: nat, a: int, b: int)
    requires c > 0 && c * a <= c * b
    ensures a <= b
  {
    if b < a {
      MulLe(c, b + 1, a);
    }
  }

  lemma DivLe(a: nat, d: nat, b: nat)
    requires d > 0 && a <= d * b
    ensures a / d <= b
  {
    DivBounds(a, d);
    MulCancelLe(d, a / d, b);
  }

  lemma DivMonotone(a: nat, b: nat, d: nat)
    requires d > 0 && a <= b
    ensures a / d <= b / d
  {
    DivBounds(b, d);
    DivBounds(a, d);
    if b / d < a / d {
      MulLe(d, b / d + 1, a / d);
    }
  }

  lemma CeilIs(a: nat, d: nat, q: nat)
    requires d > 0 && a <= d * q && d * q < a + d
    ensures CeilDiv(a, d) == q
  {
    DivIs(a + d - 1, d, q);
  }
}
