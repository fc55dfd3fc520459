/** The retry delay: a doubling, capped, jittered duration in int64 nanoseconds. */
module Backoff {

  function Power2(n: nat): int { if n == 0 then 1 else 2 * Power2(n - 1) }

  /** Two's complement wrap-around of a 64-bit product. */
  function Wrap64(x: int): int { (x + 0x8000_0000_0000_0000) % 0x1_0000_0000_0000_0000 - 0x8000_0000_0000_0000 }

  function Clamp(attempt: int): nat {
    if attempt < 0 then 0 else if attempt > 20 then 20 else attempt
  }

  function Nominal(base: int, attempt: int): int { Wrap64(base * Power2(Clamp(attempt))) }

  const HALF := 0x20_0000_0000_0000

  /** A jitter factor of (2^53 + draw) / 2^54: from one half to one, where rounding the sum of
      one half and half the random fraction can reach one itself. */
  predicate Jitter(draw: int) { 0 <= draw <= HALF }

  /** Division that drops the fraction, as the conversion to an integer duration does. */
  function Truncated(x: int): int { if x >= 0 then x / (2 * HALF) else -(-x / (2 * HALF)) }

  function Delay(base: int, attempt: int, draw: int): int { Truncated(Nominal(base, attempt) * (HALF + draw)) }

  /** The delay in whole milliseconds for a base in milliseconds. */
  function DelayMs(baseMs: int, attempt: int, draw: int): int {
    var d := Delay(baseMs * 1_000_000, attempt, draw);
    if d >= 0 then d / 1_000_000 else -(-d / 1_000_000)
  }

  lemma {:induction false} Power2Grows(m: nat, n: nat)
    requires m <= n
    ensures 1 <= Power2(m) <= Power2(n)
  {
    if m < n { Power2Grows(m, n - 1); } else if n > 0 { Power2Grows(n - 1, n - 1); }
  }

  lemma Power2Twenty()
    ensures Power2(20) == 0x10_0000
  {
    assert Power2(5) == 32;
    assert Power2(10) == 1024;
    assert Power2(15) == 32768;
  }

  lemma WrapIdentity(x: int)
    ensures Wrap64(x) == x <==> -0x8000_0000_0000_0000 <= x < 0x8000_0000_0000_0000
  {
  }

  predicate Exact(base: int, attempt: int) { Nominal(base, attempt) == base * Power2(Clamp(attempt)) }

  lemma ProductBound(base: int, p: int, q: int)
    requires 0 <= base && 1 <= p <= q
    ensures base <= base * p <= base * q
  {
  }

  /** For a base that is not negative the multiplication is free of overflow at every attempt
      number exactly when base < 2^43 nanoseconds, about 2.4 hours. */
  lemma OverflowFreeIff(base: int)
    requires base >= 0
    ensures (forall attempt :: Exact(base, attempt)) <==> base < 0x800_0000_0000
  {
    Power2Twenty();
    if base < 0x800_0000_0000 {
      forall attempt ensures Exact(base, attempt) {
        Power2Grows(0, Clamp(attempt));
        Power2Grows(Clamp(attempt), 20);
        ProductBound(base, Power2(Clamp(attempt)), 0x10_0000);
        WrapIdentity(base * Power2(Clamp(attempt)));
      }
    } else {
      WrapIdentity(base * 0x10_0000);
      assert !Exact(base, 20);
    }
  }

  lemma ProductBetween(n: int, lo: int, m: int, hi: int)
    requires n >= 0 && lo <= m <= hi
    ensures n * lo <= n * m <= n * hi
  {
  }

  lemma JitterBounds(n: int, draw: int)
    requires n >= 0 && Jitter(draw)
    ensures n / 2 <= Truncated(n * (HALF + draw)) <= n
  {
    ProductBetween(n, HALF, HALF + draw, 2 * HALF);
    TruncatedBetween(n, n * (HALF + draw));
  }

  lemma TruncatedBetween(n: int, x: int)
    requires 0 <= n * HALF <= x <= n * (2 * HALF)
    ensures n / 2 <= Truncated(x) <= n
  {
  }

  /** The delay lies between half the nominal delay and all of it. */
  lemma DelayBounds(base: int, attempt: int, draw: int)
    requires 0 <= base < 0x800_0000_0000 && Jitter(draw)
    ensures var nominal := base * Power2(Clamp(attempt));
            nominal / 2 <= Delay(base, attempt, draw) <= nominal
  {
    ExactNominal(base, attempt);
    JitterBounds(Nominal(base, attempt), draw);
  }

  lemma ExactNominal(base: int, attempt: int)
    requires 0 <= base < 0x800_0000_0000
    ensures Nominal(base, attempt) == base * Power2(Clamp(attempt)) >= base
  {
    OverflowFreeIff(base);
    assert Exact(base, attempt);
    Power2Grows(0, Clamp(attempt));
    ProductBound(base, 1, Power2(Clamp(attempt)));
  }

  /** A later attempt waits at least as long, whatever the two jitters drawn, if the earlier
      one is not negative and below the cap. */
  lemma DelayNeverShrinks(base: int, a: int, b: int, j: int, k: int)
    requires 0 <= base < 0x800_0000_0000 && Jitter(j) && Jitter(k)
    requires 0 <= a < 20 && a < b
    ensures Delay(base, a, j) <= Delay(base, b, k)
  {
    DelayBounds(base, a, j);
    DelayBounds(base, b, k);
    var p := Power2(a);
    Power2Grows(0, a);
    Power2Grows(a + 1, Clamp(b));
    ProductBound(base, 2 * p, Power2(Clamp(b)));
    Doubles(base, p);
  }

  /** The delay in whole milliseconds lies between half of base * 2^a and all of it, a the
      attempt number, but 0 below 0 and 20 above 20. */
  lemma DelayMsBounds(baseMs: int, attempt: int, draw: int)
    requires 0 <= baseMs * 1_000_000 < 0x800_0000_0000 && Jitter(draw)
    ensures var a := if attempt < 0 then 0 else if attempt > 20 then 20 else attempt;
            baseMs * Power2(a) / 2 <= DelayMs(baseMs, attempt, draw) <= baseMs * Power2(a)
  {
    var a := if attempt < 0 then 0 else if attempt > 20 then 20 else attempt;
    var p := Power2(a);
    DelayBounds(baseMs * 1_000_000, attempt, draw);
    Power2Grows(0, a);
    ProductBound(baseMs, 1, p);
    Scaled(baseMs, p, Delay(baseMs * 1_000_000, attempt, draw));
  }

  lemma Scaled(baseMs: int, p: int, d: int)
    requires 0 <= baseMs * p && baseMs * 1_000_000 * p / 2 <= d <= baseMs * 1_000_000 * p
    ensures baseMs * p / 2 <= d / 1_000_000 <= baseMs * p && d >= 0
  {
    assert baseMs * 1_000_000 * p == baseMs * p * 1_000_000;
  }

  lemma DelayMsNeverShrinks(baseMs: int, a: int, b: int, j: int, k: int)
    requires 0 <= baseMs * 1_000_000 < 0x800_0000_0000 && Jitter(j) && Jitter(k)
    requires 0 <= a < 20 && a < b
    ensures 0 <= DelayMs(baseMs, a, j) <= DelayMs(baseMs, b, k)
  {
    DelayNeverShrinks(baseMs * 1_000_000, a, b, j, k);
    DelayBounds(baseMs * 1_000_000, a, j);
    ExactNominal(baseMs * 1_000_000, a);
  }

  lemma Doubles(base: int, p: int)
    ensures base * (2 * p) / 2 == base * p
  {
    assert base * (2 * p) == 2 * (base * p);
  }

  ghost predicate NeverShrinks(base: int, a: int) {
    forall j, k | Jitter(j) && Jitter(k) :: Delay(base, a, j) <= Delay(base, a + 1, k)
  }

  /** At the cap and for negative attempts two draws of the same nominal delay can shrink: so
      the next delay is always at least the last one exactly for attempts 0 to 19. */
  lemma NeverShrinksIff(base: int, a: int)
    requires 1 <= base < 0x800_0000_0000
    ensures NeverShrinks(base, a) <==> 0 <= a < 20
  {
    if 0 <= a < 20 {
      forall j, k | Jitter(j) && Jitter(k) ensures Delay(base, a, j) <= Delay(base, a + 1, k) {
        DelayNeverShrinks(base, a, a + 1, j, k);
      }
    } else {
      ExactNominal(base, a);
      ExactNominal(base, a + 1);
      Shrinks(Nominal(base, a));
      assert Jitter(HALF) && Jitter(0) && Delay(base, a, HALF) > Delay(base, a + 1, 0);
    }
  }

  lemma Shrinks(n: int)
    requires n >= 1
    ensures Truncated(n * (HALF + HALF)) > Truncated(n * (HALF + 0))
  {
  }
}
