/**
 The delay between two attempts at the same command, in the 64-bit arithmetic
 of the consumer: `Duration(min(60, 5*(1<<max(0, readCount-1)))) * Second`.
 */
module Backoff {

  import opened Int64

  const NANOSECONDS_PER_SECOND: int := 1_000_000_000
  const DELAY_CAP: int := 60

  function Pow2(n: nat): (r: nat)
    ensures r >= 1
  {
    if n == 0 then 1 else 2 * Pow2(n - 1)
  }

  /** Go's `1 << n` on a 64-bit signed operand: shifts of 64 or more give 0. */
  function ShiftLeftOne(n: nat): int {
    if n >= 64 then 0 else Wrap(Pow2(n))
  }

  function Max(a: int, b: int): int {
    if a < b then b else a
  }

  function Min(a: int, b: int): int {
    if a < b then a else b
  }

  /** The delay handed to the queue, in nanoseconds. */
  function DelayNanoseconds(readCount: int): int {
    Wrap(Min(DELAY_CAP, Wrap(5 * ShiftLeftOne(Max(0, readCount - 1)))) * NANOSECONDS_PER_SECOND)
  }

  /** The delay in the whole seconds that the queue's visibility update takes. */
  function Delay(readCount: int): int {
    DelayNanoseconds(readCount) / NANOSECONDS_PER_SECOND
  }

  /** What the schedule is meant to be: doubling from five seconds, capped at a minute. */
  function Intended(readCount: nat): int
    requires readCount >= 1
  {
    Min(60, 5 * Pow2(readCount - 1))
  }

  lemma {:induction false} PowGrows(m: nat, n: nat)
    requires m <= n
    ensures Pow2(m) <= Pow2(n)
  {
    if m < n {
      PowGrows(m, n - 1);
    }
  }

  lemma PowTable()
    ensures Pow2(0) == 1 && Pow2(1) == 2 && Pow2(2) == 4 && Pow2(3) == 8
    ensures Pow2(4) == 16
    ensures Pow2(60) == 0x1000_0000_0000_0000
    ensures Pow2(61) == 0x2000_0000_0000_0000
    ensures Pow2(62) == 0x4000_0000_0000_0000
    ensures Pow2(63) == TWO_63
  {
    assert Pow2(8) == 0x100;
    assert Pow2(16) == 0x1_0000;
    assert Pow2(24) == 0x100_0000;
    assert Pow2(32) == 0x1_0000_0000;
    assert Pow2(40) == 0x100_0000_0000;
    assert Pow2(48) == 0x1_0000_0000_0000;
    assert Pow2(56) == 0x100_0000_0000_0000;
  }

  lemma SecondsFit(seconds: int)
    requires 0 <= seconds <= DELAY_CAP
    ensures Wrap(seconds * NANOSECONDS_PER_SECOND) / NANOSECONDS_PER_SECOND == seconds
  {
    WrapFits(seconds * NANOSECONDS_PER_SECOND);
  }

  lemma DelayUpTo61(readCount: nat)
    requires 1 <= readCount <= 61
    ensures Delay(readCount) == Intended(readCount)
  {
    PowTable();
    PowGrows(readCount - 1, 60);
    PowGrows(0, readCount - 1);
    WrapFits(Pow2(readCount - 1));
    WrapFits(5 * Pow2(readCount - 1));
    SecondsFit(Intended(readCount));
  }

  lemma DelayAt62()
    ensures Delay(62) == 0
  {
    PowTable();
    assert ShiftLeftOne(61) == 0x2000_0000_0000_0000;
    assert Wrap(5 * 0x2000_0000_0000_0000) == -0x6000_0000_0000_0000;
    assert Wrap(-0x6000_0000_0000_0000 * NANOSECONDS_PER_SECOND) == 0;
  }

  lemma DelayAt63()
    ensures Delay(63) == 60
  {
    PowTable();
    assert ShiftLeftOne(62) == 0x4000_0000_0000_0000;
    assert Wrap(5 * 0x4000_0000_0000_0000) == 0x4000_0000_0000_0000;
    SecondsFit(60);
  }

  lemma DelayAt64()
    ensures Delay(64) == 0
  {
    PowTable();
    assert ShiftLeftOne(63) == -TWO_63;
    assert Wrap(5 * -TWO_63) == -TWO_63;
    assert Wrap(-TWO_63 * NANOSECONDS_PER_SECOND) == 0;
  }

  lemma DelayFrom65(readCount: nat)
    requires readCount >= 65
    ensures Delay(readCount) == 0
  {
    assert ShiftLeftOne(readCount - 1) == 0;
  }

  lemma DelayBeyond61(readCount: nat)
    requires readCount >= 62
    ensures Delay(readCount) == if readCount == 63 then 60 else 0
  {
    hide Delay;
    DelayAt62();
    DelayAt63();
    DelayAt64();
    if readCount >= 65 {
      DelayFrom65(readCount);
    }
  }

  /**
   The code meets the intended schedule for exactly the read counts below 62,
   and for 63. From 62 on the product leaves 64 bits; every other count then
   yields a delay of zero.
   */
  lemma DelayIsIntended(readCount: nat)
    requires 1 <= readCount
    ensures Delay(readCount) == Intended(readCount) <==> readCount <= 61 || readCount == 63
    ensures readCount > 61 && readCount != 63 ==> Delay(readCount) == 0
  {
    if readCount <= 61 {
      DelayUpTo61(readCount);
    } else {
      DelayBeyond61(readCount);
      PowTable();
      PowGrows(61, readCount - 1);
    }
  }

  lemma DelayRange(readCount: nat)
    requires 1 <= readCount
    ensures 0 <= Delay(readCount) <= 60
    ensures readCount <= 61 ==> 5 <= Delay(readCount)
  {
    DelayIsIntended(readCount);
    PowGrows(0, readCount - 1);
  }

  lemma DelayNeverShrinks(earlier: nat, later: nat)
    requires 1 <= earlier <= later <= 61
    ensures Delay(earlier) <= Delay(later)
  {
    DelayUpTo61(earlier);
    DelayUpTo61(later);
    PowGrows(earlier - 1, later - 1);
  }

  /** All the delays up to a read count, added up. */
  function TotalDelay(readCount: nat): int {
    if readCount == 0 then 0 else TotalDelay(readCount - 1) + Delay(readCount)
  }

  /** No retry limit lets one command wait longer than a minute per retry; the default limit of 3 gives 35 s. */
  lemma {:induction false} TotalDelayBound(retryLimit: nat)
    ensures 0 <= TotalDelay(retryLimit) <= 60 * retryLimit
    ensures retryLimit == 3 ==> TotalDelay(retryLimit) == 35
  {
    if retryLimit > 0 {
      TotalDelayBound(retryLimit - 1);
      DelayRange(retryLimit);
    }
    if retryLimit == 3 {
      PowTable();
      DelayUpTo61(1);
      DelayUpTo61(2);
      DelayUpTo61(3);
    }
  }
}
