/** The wait before the next delivery attempt (internal/dispatcher/retry.go).

  Durations are nanoseconds held in a signed 64-bit integer, so doubling is
  written with its wrap-around. */
module Backoff {

  const SECOND: int := 1_000_000_000
  const HOUR: int := 3600 * SECOND
  const TWO_63: int := 0x8000_0000_0000_0000
  const TWO_62: int := 0x4000_0000_0000_0000

  function Min(a: int, b: int): int {
    if a < b then a else b
  }

  function Pow2(n: nat): nat {
    if n == 0 then 1 else 2 * Pow2(n - 1)
  }

  /** d doubled n times. */
  function Doubled(d: int, n: nat): int {
    if n == 0 then d else 2 * Doubled(d, n - 1)
  }

  lemma {:induction false} DoubledIsPower(d: int, n: nat)
    ensures Doubled(d, n) == d * Pow2(n)
  {
    if n > 0 {
      DoubledIsPower(d, n - 1);
      assert d * (2 * Pow2(n - 1)) == 2 * (d * Pow2(n - 1));
    }
  }

  lemma {:induction false} DoubledGrows(d: int, m: nat, n: nat)
    requires 0 <= d && m <= n
    ensures 0 <= Doubled(d, m) <= Doubled(d, n)
    decreases n
  {
    if m < n {
      DoubledGrows(d, m, n - 1);
    } else if m > 0 {
      DoubledGrows(d, m - 1, m - 1);
    }
  }

  /** The documented wait: base x 2^(attempts-1), capped at one hour. */
  function Capped(attempts: int, base: int): int
    requires attempts >= 1
  {
    Min(base * Pow2(attempts - 1), 3_600_000_000_000)
  }

  /** The wait that the code applies: the first one is never capped. */
  function Delay(attempts: int, base: int): int {
    if attempts <= 1 then base else Min(Doubled(base, attempts - 1), HOUR)
  }

  /** Two's complement truncation to 64 bits. */
  function Wrap64(x: int): (r: int)
    ensures -TWO_63 <= r < TWO_63
    ensures -TWO_63 <= x < TWO_63 ==> r == x
  {
    (x + TWO_63) % (2 * TWO_63) - TWO_63
  }

  /** The doubling loop. It never wraps around for a base under 2^62 ns (146 years). */
  method Backoff(attempts: int, base: int) returns (d: int)
    requires -TWO_63 <= base < TWO_63
    ensures attempts <= 1 ==> d == base
    ensures 0 <= base < TWO_62 ==> d == Delay(attempts, base)
    ensures -TWO_63 <= d < TWO_63
  {
    if attempts <= 1 {
      return base;
    }
    d := base;
    var i := 1;
    while i < attempts
      invariant 1 <= i <= attempts
      invariant -TWO_63 <= d < TWO_63
      invariant 0 <= base < TWO_62 ==> d == Doubled(base, i - 1) && 0 <= d < TWO_62 && (i == 1 || d < HOUR)
    {
      d := Wrap64(d * 2);
      if d >= HOUR {
        if 0 <= base < TWO_62 {
          DoubledGrows(base, i, attempts - 1);
        }
        return HOUR;
      }
      i := i + 1;
    }
  }

  /** The documented formula holds exactly when the first wait needs no cap. */
  lemma DelayIsCapped(attempts: int, base: int)
    requires attempts >= 1
    ensures Delay(attempts, base) == Capped(attempts, base) <==> (attempts >= 2 || base <= HOUR)
  {
    DoubledIsPower(base, attempts - 1);
  }

  /** A later attempt never waits less, except when the base exceeds the cap. */
  lemma DelayGrows(attempts: int, base: int)
    requires attempts >= 1 && base >= 0
    ensures Delay(attempts, base) <= Delay(attempts + 1, base) <==> (attempts >= 2 || base <= HOUR)
  {
    DoubledGrows(base, attempts - 1, attempts);
    assert attempts == 1 ==> Doubled(base, 0) == base;
  }
}
