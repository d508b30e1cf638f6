/** internal/controller/automation_controller.go:166-198: how long to wait before trying a target again. */
module Retry {
  import opened Text

  const RETRY_BACKOFF_BASE := 2_000_000_000
  const RETRY_BACKOFF_CAP := 60_000_000_000

  /** The values of a Go int64, which is what a duration in nanoseconds is. */
  type int64 = x: int | -0x8000_0000_0000_0000 <= x < 0x8000_0000_0000_0000

  function Wrap64(x: int): int64 {
    (x + 0x8000_0000_0000_0000) % 0x1_0000_0000_0000_0000 - 0x8000_0000_0000_0000
  }

  /** A left shift is that many doublings, each keeping the low 64 bits. */
  function ShiftLeft(x: int64, places: nat): int64 {
    if places == 0 then x else Wrap64(2 * ShiftLeft(x, places - 1))
  }

  function RetryBackoff(attempts: int32): int64
    requires attempts >= 1
  {
    var backoff := ShiftLeft(RETRY_BACKOFF_BASE, attempts - 1);
    if backoff > RETRY_BACKOFF_CAP || backoff <= 0 then RETRY_BACKOFF_CAP else backoff
  }

  function Doubled(base: nat, times: nat): nat {
    if times == 0 then base else 2 * Doubled(base, times - 1)
  }

  lemma {:induction false} DoubledGrows(base: nat, m: nat, n: nat)
    requires m <= n
    ensures Doubled(base, m) <= Doubled(base, n)
  {
    if m < n { DoubledGrows(base, m, n - 1); }
  }

  lemma {:induction false} DoubledAgain(base: nat, m: nat, n: nat)
    ensures Doubled(Doubled(base, m), n) == Doubled(base, m + n)
  {
    if n > 0 { DoubledAgain(base, m, n - 1); }
  }

  lemma FourDoublings(base: nat)
    ensures Doubled(base, 1) == 2 * base && Doubled(base, 2) == 4 * base && Doubled(base, 4) == 16 * base
  {
    assert Doubled(base, 0) == base && Doubled(base, 1) == 2 * base;
    assert Doubled(base, 2) == 4 * base && Doubled(base, 3) == 8 * base;
  }

  lemma FiveAndTwentySix()
    ensures Doubled(RETRY_BACKOFF_BASE, 4) == 32_000_000_000 && Doubled(RETRY_BACKOFF_BASE, 5) == 64_000_000_000
    ensures Doubled(RETRY_BACKOFF_BASE, 26) == 1_953_125 * 0x10_0000_0000
  {
    var b := RETRY_BACKOFF_BASE;
    forall x: nat ensures Doubled(x, 1) == 2 * x && Doubled(x, 2) == 4 * x && Doubled(x, 4) == 16 * x {
      FourDoublings(x);
    }
    DoubledAgain(b, 4, 1);
    DoubledAgain(b, 4, 4);
    DoubledAgain(b, 8, 4);
    DoubledAgain(b, 12, 4);
    DoubledAgain(b, 16, 4);
    DoubledAgain(b, 20, 4);
    DoubledAgain(b, 24, 2);
  }

  /** Up to 26 places nothing is lost. */
  lemma {:induction false} ShiftIsExact(places: nat)
    requires places <= 26
    ensures ShiftLeft(RETRY_BACKOFF_BASE, places) == Doubled(RETRY_BACKOFF_BASE, places)
  {
    if places > 0 {
      ShiftIsExact(places - 1);
      DoubledGrows(RETRY_BACKOFF_BASE, places, 26);
      FiveAndTwentySix();
    }
  }

  lemma WrapKeepsLowBits(half: int) returns (m: int)
    ensures Wrap64(2 * (half * 0x10_0000_0000)) == m * 0x10_0000_0000
  {
    var x := 2 * (half * 0x10_0000_0000);
    var q := (x + 0x8000_0000_0000_0000) / 0x1_0000_0000_0000_0000;
    assert Wrap64(x) == x - q * 0x1_0000_0000_0000_0000;
    m := 2 * half - q * 0x1000_0000;
  }

  /** From 26 places on, whatever has been lost at the top, the low 36 bits are clear. */
  lemma {:induction false} LowBitsAreClear(places: nat) returns (m: int)
    requires places >= 26
    ensures ShiftLeft(RETRY_BACKOFF_BASE, places) == m * 0x10_0000_0000
  {
    if places == 26 {
      ShiftIsExact(26);
      FiveAndTwentySix();
      m := 1_953_125;
    } else {
      var half := LowBitsAreClear(places - 1);
      m := WrapKeepsLowBits(half);
    }
  }

  /**
   * With every doubling wrapping at 64 bits and no bound on the attempt number, the delay is still the
   * mathematical one: overflow only ever lands on a value the cap replaces.
   */
  lemma BackoffIsExact(attempts: int32)
    requires attempts >= 1
    ensures RetryBackoff(attempts) == Min(Doubled(2_000_000_000, attempts - 1), 60_000_000_000)
  {
    var places := attempts - 1;
    if places < 5 {
      ShiftIsExact(places);
      DoubledGrows(RETRY_BACKOFF_BASE, places, 4);
      FiveAndTwentySix();
      DoubledGrows(RETRY_BACKOFF_BASE, 0, places);
    } else {
      DoubledGrows(RETRY_BACKOFF_BASE, 5, places);
      FiveAndTwentySix();
      if places <= 26 { ShiftIsExact(places); } else { var m := LowBitsAreClear(places); }
    }
  }

  /** So it never shrinks as attempts fail, and stays between the base and the cap. */
  lemma BackoffIsMonotone(attempts: int32, later: int32)
    requires 1 <= attempts <= later
    ensures RETRY_BACKOFF_BASE <= RetryBackoff(attempts) <= RetryBackoff(later) <= RETRY_BACKOFF_CAP
  {
    BackoffIsExact(attempts);
    BackoffIsExact(later);
    DoubledGrows(RETRY_BACKOFF_BASE, 0, attempts - 1);
    DoubledGrows(RETRY_BACKOFF_BASE, attempts - 1, later - 1);
  }
}
