/** Go's 64-bit signed integers. */
module Int64 {

  const TWO_63: int := 0x8000_0000_0000_0000
  const TWO_64: int := 0x1_0000_0000_0000_0000

  predicate InRange(x: int) {
    -TWO_63 <= x < TWO_63
  }

  lemma Bounds(x: int)
    ensures InRange(x) <==> -9_223_372_036_854_775_808 <= x <= 9_223_372_036_854_775_807
  {
  }

  /** The two's complement value of x in 64 bits. */
  function Wrap(x: int): (r: int)
    ensures InRange(r)
    ensures (r - x) % TWO_64 == 0
  {
    (x + TWO_63) % TWO_64 - TWO_63
  }

  lemma WrapFits(x: int)
    requires InRange(x)
    ensures Wrap(x) == x
  {
  }

  /** Wrapping a summand first does not change a wrapped sum. */
  lemma WrapSum(x: int, y: int)
    ensures Wrap(Wrap(x) + y) == Wrap(x + y)
  {
    var k := (Wrap(x) - x) / TWO_64;
    assert Wrap(x) == x + k * TWO_64;
    WrapShift(x + y, k);
  }

  lemma WrapOnce(x: int)
    ensures Wrap(x + TWO_64) == Wrap(x)
  {
  }

  lemma {:induction false} WrapShift(x: int, k: int)
    ensures Wrap(x + k * TWO_64) == Wrap(x)
    decreases if k < 0 then -k else k
  {
    hide Wrap;
    if k > 0 {
      WrapShift(x, k - 1);
      WrapOnce(x + (k - 1) * TWO_64);
    } else if k < 0 {
      WrapShift(x, k + 1);
      WrapOnce(x + k * TWO_64);
    }
  }
}
