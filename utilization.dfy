/**
 * The utilization formula of `UpdateData` and the refresh rule of the timer handler in `main`.
 */
module Utilization {

  /** Octets to bits. */
  const BitsPerOctet: int := 8
  /** Megabits per second to bits per second. */
  const BitsPerMegabit: int := 1_000_000

  /**
   * The share of the link, in percent, that `deltaOctets` octets take over `t` seconds on a link
   * of `speedMbps` megabits per second: `delta*8*100 / (speed*t*1_000_000)`, over the reals.
   */
  function Rate(deltaOctets: int, speedMbps: int, t: int): (r: real)
    requires speedMbps > 0 && t > 0
    ensures r >= 0.0 <==> deltaOctets >= 0
    ensures r == 0.0 <==> deltaOctets == 0
  {
    (deltaOctets * BitsPerOctet * 100) as real / (speedMbps * t * BitsPerMegabit) as real
  }

  /** The rate scaled back by the link's capacity over the interval is the delta in bits, times 100. */
  lemma RateTimesCapacity(deltaOctets: int, speedMbps: int, t: int)
    requires speedMbps > 0 && t > 0
    ensures Rate(deltaOctets, speedMbps, t) * CapacityBits(speedMbps, t) as real
              == (deltaOctets * BitsPerOctet) as real * 100.0
  {
  }

  /** The capacity of the link over the interval, in bits. */
  function CapacityBits(speedMbps: int, t: int): int {
    speedMbps * t * BitsPerMegabit
  }

  /**
   * The rate is 100 exactly when the octets carried fill the link for the whole interval,
   * at most 100 exactly when they do not exceed it, and no clamp is applied above.
   */
  lemma RateAgainstCapacity(deltaOctets: int, speedMbps: int, t: int)
    requires speedMbps > 0 && t > 0
    ensures Rate(deltaOctets, speedMbps, t) == 100.0 <==> deltaOctets * BitsPerOctet == CapacityBits(speedMbps, t)
    ensures Rate(deltaOctets, speedMbps, t) <= 100.0 <==> deltaOctets * BitsPerOctet <= CapacityBits(speedMbps, t)
  {
    var c := CapacityBits(speedMbps, t);
    PositiveProduct(speedMbps, t);
    var x := (deltaOctets * BitsPerOctet * 100) as real;
    QuotientBounds(x, c as real, 100.0);
    assert x == (deltaOctets * BitsPerOctet) as real * 100.0;
  }

  /** Comparing a quotient by a positive number is comparing the dividend with the scaled bound. */
  lemma QuotientBounds(x: real, c: real, k: real)
    requires c > 0.0
    ensures x / c == k <==> x == k * c
    ensures x / c <= k <==> x <= k * c
  {
  }

  /** More octets over the same interval and link never give a lower rate. */
  lemma RateMonotonic(d1: int, d2: int, speedMbps: int, t: int)
    requires speedMbps > 0 && t > 0 && d1 <= d2
    ensures Rate(d1, speedMbps, t) <= Rate(d2, speedMbps, t)
  {
  }

  /** 12,500,000 octets in one second on a 1000 Mbps link is 100,000,000 bits of 1,000,000,000: ten percent. */
  lemma RateExample()
    ensures Rate(12_500_000, 1000, 1) == 10.0
  {
  }

  lemma PositiveProduct(speedMbps: int, t: int)
    requires speedMbps > 0 && t > 0
    ensures CapacityBits(speedMbps, t) > 0
  {
  }

  /**
   * The timer handler refreshes the data on tick `c` exactly when `c % interval == 0`.
   * Tick counts are never negative, and for a non-negative `c` and a positive interval
   * Go's truncating `%` and Dafny's agree.
   */
  predicate ShouldRefresh(c: int, interval: int)
    requires c >= 0 && interval > 0
    ensures c < interval ==> (ShouldRefresh(c, interval) <==> c == 0)
    ensures c >= interval ==> (ShouldRefresh(c, interval) <==> ShouldRefresh(c - interval, interval))
  {
    assert c >= interval ==> c % interval == (c - interval) % interval by {
      if c >= interval {
        DivModUnique(c, interval, (c - interval) / interval + 1, (c - interval) % interval);
      }
    }
    c % interval == 0
  }

  /** The number of ticks among 1..n on which the data is refreshed. */
  function RefreshTicks(n: nat, interval: int): nat
    requires interval > 0
  {
    if n == 0 then 0 else RefreshTicks(n - 1, interval) + (if ShouldRefresh(n, interval) then 1 else 0)
  }

  /** Over the first n ticks the data is refreshed `n / interval` times: once every `interval` ticks. */
  lemma {:induction false} RefreshTicksCount(n: nat, interval: int)
    requires interval > 0
    ensures RefreshTicks(n, interval) == n / interval
  {
    if n > 0 {
      RefreshTicksCount(n - 1, interval);
      QuotientStep(n, interval);
    }
  }

  /** Going from tick n-1 to tick n, the quotient by the interval grows by one exactly at a multiple. */
  lemma QuotientStep(n: int, interval: int)
    requires n > 0 && interval > 0
    ensures n / interval == (n - 1) / interval + (if n % interval == 0 then 1 else 0)
  {
    var q, r := (n - 1) / interval, (n - 1) % interval;
    if r + 1 == interval {
      DivModUnique(n, interval, q + 1, 0);
    } else {
      DivModUnique(n, interval, q, r + 1);
    }
  }

  /** The quotient and remainder of a division by a positive number are the only such pair. */
  lemma DivModUnique(n: int, d: int, q: int, r: int)
    requires d > 0 && n == q * d + r && 0 <= r < d
    ensures n / d == q && n % d == r
  {
    var q', r' := n / d, n % d;
    assert n == q' * d + r' && 0 <= r' < d;
    if q' < q {
      MulAtLeast(q - q', d);
    } else if q' > q {
      MulAtLeast(q' - q, d);
    }
  }

  lemma MulAtLeast(k: int, d: int)
    requires k >= 1 && d > 0
    ensures k * d >= d
    ensures forall a, b :: a - b == k ==> a * d - b * d >= d
  {
  }
}
