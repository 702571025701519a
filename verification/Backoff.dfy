/**
 The two exponential backoffs of the source. The distributor keeps an interval and multiplies,
 truncates and caps it after every wait; the receiver library raises the multiplier to the attempt
 number, caps the product and draws a jitter. Durations are whole nanoseconds, multipliers are reals.
 */
module Backoff {

  /** One past the largest 64-bit duration. */
  const MAX_DURATION: real := 9223372036854775808.0

  /** Go's conversion of a float to an integer: truncation toward zero. */
  function Truncate(x: real): int {
    if x >= 0.0 then x.Floor else -((-x).Floor)
  }

  function Power(m: real, k: nat): real {
    if k == 0 then 1.0 else m * Power(m, k - 1)
  }

  function MinReal(a: real, b: real): real {
    if a > b then b else a
  }

  function Scaled(interval: int, m: real): real {
    interval as real * m
  }

  /** The interval after one wait of the distributor's loop. */
  function NextInterval(interval: int, max: int, m: real): int {
    var next := Truncate(Scaled(interval, m));
    if next > max then max else next
  }

  /** The distributor's wait after `k` earlier waits. */
  function Interval(initial: int, max: int, m: real, k: nat): int {
    if k == 0 then initial else NextInterval(Interval(initial, max, m, k - 1), max, m)
  }

  /** The initial backoff times the `k`-th power of the multiplier. */
  function Grown(initial: int, m: real, k: nat): real {
    initial as real * Power(m, k)
  }

  /** The receiver library's backoff before jitter, after `k` earlier ones. */
  function Ceiling(initial: int, max: int, m: real, k: nat): real {
    MinReal(Grown(initial, m, k), max as real)
  }

  /** Jitter: between 80% and 100% of `b`, by the draw `u`. */
  function WithJitter(b: real, u: real): real {
    b * (0.8 + 0.2 * u)
  }

  /** The delay for the jitter draw `u`, before and after conversion to a duration. */
  function RawDelay(initial: int, max: int, m: real, k: nat, u: real): real {
    WithJitter(Ceiling(initial, max, m, k), u)
  }

  function Delay(initial: int, max: int, m: real, k: nat, u: real): int {
    Truncate(RawDelay(initial, max, m, k, u))
  }

  /** The draws of `rand.Float64`. */
  predicate IsDraw(u: real) {
    0.0 <= u < 1.0
  }

  lemma MulMono(a: real, b: real, c: real)
    requires a <= b && c >= 0.0
    ensures a * c <= b * c && c * a <= c * b
  {
  }

  /** The power, multiplied up one step at a time. */
  function Unbounded(initial: int, m: real, k: nat): real {
    if k == 0 then initial as real else Unbounded(initial, m, k - 1) * m
  }

  lemma {:induction false} UnboundedIsPower(initial: int, m: real, k: nat)
    ensures Unbounded(initial, m, k) == Grown(initial, m, k)
  {
    if k == 0 {
    } else {
      UnboundedIsPower(initial, m, k - 1);
      Regroup(initial as real, m, Power(m, k - 1));
    }
  }

  lemma Regroup(x: real, m: real, p: real)
    ensures x * p * m == x * (m * p) == x * (p * m)
  {
  }

  /** The capped power, capped at every step. */
  function Capped(initial: int, max: int, m: real, k: nat): real {
    if k == 0 then MinReal(initial as real, max as real)
    else NextCapped(Capped(initial, max, m, k - 1), max, m)
  }

  function NextCapped(c: real, max: int, m: real): real {
    MinReal(c * m, max as real)
  }

  lemma NextCappedGrows(c: real, max: int, m: real)
    requires 0.0 <= c <= max as real && m >= 1.0
    ensures c <= NextCapped(c, max, m) <= max as real
  {
    MulMono(1.0, m, c);
  }

  lemma CapStep(p: real, q: real, m: real, max: int)
    requires p >= 0.0 && m >= 1.0 && max >= 0 && q == p * m
    ensures MinReal(q, max as real) == NextCapped(MinReal(p, max as real), max, m)
    ensures q >= 0.0
  {
    MulMono(1.0, m, p);
    MulMono(1.0, m, max as real);
    if p > max as real {
      MulMono(max as real, p, m);
    }
  }

  lemma {:induction false} UnboundedCapped(initial: int, max: int, m: real, k: nat)
    requires m >= 1.0 && 0 <= initial <= max
    ensures Unbounded(initial, m, k) >= 0.0
    ensures MinReal(Unbounded(initial, m, k), max as real) == Capped(initial, max, m, k)
  {
    if k == 0 {
    } else {
      UnboundedCapped(initial, max, m, k - 1);
      CapStep(Unbounded(initial, m, k - 1), Unbounded(initial, m, k), m, max);
    }
  }

  lemma CeilingIsMin(initial: int, max: int, m: real, k: nat)
    ensures Ceiling(initial, max, m, k) == MinReal(Unbounded(initial, m, k), max as real)
  {
    UnboundedIsPower(initial, m, k);
  }

  /** Capping every step is capping once at the end. */
  lemma CeilingIsCapped(initial: int, max: int, m: real, k: nat)
    requires m >= 1.0 && 0 <= initial <= max
    ensures Ceiling(initial, max, m, k) == Capped(initial, max, m, k)
  {
    CeilingIsMin(initial, max, m, k);
    UnboundedCapped(initial, max, m, k);
  }

  lemma {:induction false} CappedGrows(initial: int, max: int, m: real, k: nat)
    requires m >= 1.0 && 0 <= initial <= max
    ensures 0.0 <= Capped(initial, max, m, k) <= Capped(initial, max, m, k + 1) <= max as real
  {
    if k == 0 {
    } else {
      CappedGrows(initial, max, m, k - 1);
    }
    NextCappedGrows(Capped(initial, max, m, k), max, m);
  }

  /** The backoff of the receiver library grows with the attempt number, up to its cap. */
  lemma CeilingGrows(initial: int, max: int, m: real, k: nat)
    requires m >= 1.0 && 0 <= initial <= max
    ensures 0.0 <= Ceiling(initial, max, m, k) <= Ceiling(initial, max, m, k + 1) <= max as real
  {
    CappedGrows(initial, max, m, k);
    CeilingIsCapped(initial, max, m, k);
    CeilingIsCapped(initial, max, m, k + 1);
  }

  lemma TruncateMono(x: real, y: real)
    requires 0.0 <= x <= y
    ensures 0 <= Truncate(x) <= Truncate(y)
    ensures Truncate(x) as real <= x < Truncate(x) as real + 1.0
  {
  }

  /** One step of the loop, against any bound `c` on the interval before it. */
  lemma NextIntervalBounds(interval: int, c: real, max: int, m: real)
    requires m >= 1.0 && 0 <= interval <= max && interval as real <= c
    ensures interval <= NextInterval(interval, max, m) <= max
    ensures NextInterval(interval, max, m) as real <= NextCapped(c, max, m)
  {
    MulMono(1.0, m, interval as real);
    MulMono(interval as real, c, m);
    ClampBounds(interval, Scaled(interval, m), c * m, max);
  }

  lemma ClampBounds(low: int, p: real, q: real, max: int)
    requires 0 <= low <= max && low as real <= p <= q
    ensures var n := if Truncate(p) > max then max else Truncate(p);
            low <= n <= max && n as real <= MinReal(q, max as real)
  {
    TruncateAbove(low, p);
    TruncateMono(p, q);
  }

  lemma TruncateInt(n: int)
    ensures Truncate(n as real) == n
  {
  }

  lemma TruncateAbove(n: int, x: real)
    requires 0 <= n && n as real <= x
    ensures n <= Truncate(x)
  {
  }

  lemma {:induction false} IntervalWithin(initial: int, max: int, m: real, k: nat)
    requires m >= 1.0 && 0 <= initial <= max
    ensures initial <= Interval(initial, max, m, k) <= max
  {
    if k == 0 {
    } else {
      IntervalWithin(initial, max, m, k - 1);
      NextIntervalBounds(Interval(initial, max, m, k - 1), max as real, max, m);
    }
  }

  lemma {:induction false} IntervalBelowCapped(initial: int, max: int, m: real, k: nat)
    requires m >= 1.0 && 0 <= initial <= max
    ensures Interval(initial, max, m, k) as real <= Capped(initial, max, m, k)
  {
    if k == 0 {
    } else {
      IntervalBelowCapped(initial, max, m, k - 1);
      IntervalWithin(initial, max, m, k - 1);
      NextIntervalBounds(Interval(initial, max, m, k - 1), Capped(initial, max, m, k - 1), max, m);
    }
  }

  /** The iterated interval stays within its bounds and never exceeds the capped power. */
  lemma IntervalBelowCeiling(initial: int, max: int, m: real, k: nat)
    requires m >= 1.0 && 0 <= initial <= max
    ensures initial <= Interval(initial, max, m, k) <= max
    ensures Interval(initial, max, m, k) <= Truncate(Ceiling(initial, max, m, k))
  {
    IntervalWithin(initial, max, m, k);
    IntervalBelowCapped(initial, max, m, k);
    CeilingIsCapped(initial, max, m, k);
    TruncateAbove(Interval(initial, max, m, k), Capped(initial, max, m, k));
  }

  lemma NextIntervalExact(interval: int, max: int, m: nat)
    requires m >= 1 && 0 <= interval <= max
    ensures NextInterval(interval, max, m as real) as real == NextCapped(interval as real, max, m as real)
  {
    assert interval as real * m as real == (interval * m) as real;
    TruncateInt(interval * m);
  }

  lemma {:induction false} IntervalIsCapped(initial: int, max: int, m: nat, k: nat)
    requires m >= 1 && 0 <= initial <= max
    ensures Interval(initial, max, m as real, k) as real == Capped(initial, max, m as real, k)
  {
    if k == 0 {
    } else {
      IntervalIsCapped(initial, max, m, k - 1);
      IntervalWithin(initial, max, m as real, k - 1);
      NextIntervalExact(Interval(initial, max, m as real, k - 1), max, m);
    }
  }

  /** For a whole multiplier nothing is lost to truncation: the two backoffs agree without jitter. */
  lemma IntervalIsCeiling(initial: int, max: int, m: nat, k: nat)
    requires m >= 1 && 0 <= initial <= max
    ensures Interval(initial, max, m as real, k) as real == Ceiling(initial, max, m as real, k)
    ensures Interval(initial, max, m as real, k) == Truncate(Ceiling(initial, max, m as real, k))
  {
    IntervalIsCapped(initial, max, m, k);
    CeilingIsCapped(initial, max, m as real, k);
    TruncateInt(Interval(initial, max, m as real, k));
  }

  /** The product that is truncated never passes Max*m, so below 2^63 it fits a duration. */
  lemma NoOverflow(initial: int, max: int, m: real, k: nat)
    requires m >= 1.0 && 0 <= initial <= max
    requires Scaled(max, m) < MAX_DURATION
    ensures 0.0 <= Scaled(Interval(initial, max, m, k), m) < MAX_DURATION
  {
    var interval := Interval(initial, max, m, k);
    IntervalWithin(initial, max, m, k);
    ProductBelow(interval, max, m, MAX_DURATION);
  }

  lemma ProductBelow(x: int, max: int, m: real, limit: real)
    requires 0 <= x <= max && m >= 1.0 && Scaled(max, m) < limit
    ensures 0.0 <= Scaled(x, m) < limit
  {
    MulMono(x as real, max as real, m);
    MulMono(0.0, x as real, m);
  }

  /** Where a product lies, by the sign of the interval. */
  lemma ScaledLies(x: int, m: real)
    ensures x > 0 && m >= 1.0 ==> Scaled(x, m) >= x as real
    ensures x > 0 && m < 1.0 ==> Scaled(x, m) < x as real
    ensures x > 0 && m < 0.0 ==> Scaled(x, m) < 0.0
    ensures x == 0 ==> Scaled(x, m) == 0.0
    ensures x < 0 && m >= 1.0 ==> Scaled(x, m) <= x as real
    ensures x < 0 && 0.0 <= m < 1.0 ==> x as real <= Scaled(x, m) <= 0.0
    ensures x < 0 && m < 0.0 ==> Scaled(x, m) > 0.0
  {
    var y, d := x as real, 1.0 - m;
    assert Scaled(x, m) == y - y * d;
    if x > 0 {
      Signs(y, m);
      Signs(y, d);
    } else if x < 0 {
      assert y * m == -(-y * m) && y * d == -(-y * d);
      Signs(-y, m);
      Signs(-y, d);
    }
  }

  lemma Signs(x: real, y: real)
    requires x > 0.0
    ensures y > 0.0 ==> x * y > 0.0
    ensures y < 0.0 ==> x * y < 0.0
    ensures y == 0.0 ==> x * y == 0.0
  {
  }

  lemma TruncateLies(p: real, n: int)
    ensures n <= 0 ==> (n <= Truncate(p) <==> (n - 1) as real < p)
    ensures n >= 0 ==> (n <= Truncate(p) <==> (n == 0 && p > -1.0) || n as real <= p)
    ensures n < 0 ==> (Truncate(p) <= n <==> p <= n as real)
    ensures 0.0 <= p < 1.0 ==> Truncate(p) == 0
    ensures p >= 1.0 ==> Truncate(p) >= 1
    ensures p < 0.0 ==> p <= Truncate(p) as real <= 0.0
  {
  }

  /**
   The policies under which a wait is never shorter than the one before. For a positive interval these are
   the sane ones; from zero the waits stay zero, and negative ones, which do not wait at all, stay or rise.
   */
  predicate Rises(initial: int, max: int, m: real) {
    && initial <= max
    && if initial > 0 then m >= 1.0
       else if initial == 0 then true
       else if m >= 1.0 then Scaled(initial, m) > (initial - 1) as real
       else m >= 0.0 || max <= 0 || Scaled(initial, m) < 1.0
  }

  lemma RisingStep(x: int, max: int, m: real)
    requires Rises(x, max, m)
    ensures x <= NextInterval(x, max, m) && Rises(NextInterval(x, max, m), max, m)
  {
    ScaledLies(x, m);
    if x > 0 {
      TruncateLies(Scaled(x, m), x);
    } else if x == 0 {
      assert NextInterval(x, max, m) == 0;
    } else if m >= 1.0 {
      TruncateLies(Scaled(x, m), x);
      assert NextInterval(x, max, m) == x;
    } else {
      TruncateLies(Scaled(x, m), x);
      TruncateLies(Scaled(x, m), 0);
    }
  }

  lemma FallingStep(x: int, max: int, m: real)
    requires !Rises(x, max, m)
    ensures var y := NextInterval(x, max, m);
            y < x || NextInterval(y, max, m) < y
  {
    var y := NextInterval(x, max, m);
    ScaledLies(x, m);
    ScaledLies(y, m);
    if x > max {
    } else if x > 0 {
      TruncateLies(Scaled(x, m), x);
    } else if m >= 1.0 {
      TruncateLies(Scaled(x, m), x);
    } else {
      TruncateLies(Scaled(x, m), 0);
      assert y > 0;
      TruncateLies(Scaled(y, m), y);
    }
  }

  lemma {:induction false} RisingStays(initial: int, max: int, m: real, k: nat)
    requires Rises(initial, max, m)
    ensures Rises(Interval(initial, max, m, k), max, m)
    ensures Interval(initial, max, m, k) <= Interval(initial, max, m, k + 1)
  {
    if k == 0 {
      RisingStep(initial, max, m);
    } else {
      RisingStays(initial, max, m, k - 1);
      RisingStep(Interval(initial, max, m, k - 1), max, m);
      RisingStep(Interval(initial, max, m, k), max, m);
    }
  }

  /**
   The distributor does not check its policy. For every one, its waits never decrease exactly when `Rises`
   holds; from a positive interval, exactly when the multiplier is at least one and the interval within the cap.
   */
  lemma IntervalsNeverDecrease(initial: int, max: int, m: real)
    ensures (forall k: nat :: Interval(initial, max, m, k) <= Interval(initial, max, m, k + 1)) <==>
            Rises(initial, max, m)
    ensures initial > 0 ==> (Rises(initial, max, m) <==> m >= 1.0 && initial <= max)
  {
    if Rises(initial, max, m) {
      forall k: nat
        ensures Interval(initial, max, m, k) <= Interval(initial, max, m, k + 1)
      {
        RisingStays(initial, max, m, k);
      }
    } else {
      FallingStep(initial, max, m);
      assert Interval(initial, max, m, 0) == initial;
      assert Interval(initial, max, m, 1) == NextInterval(initial, max, m);
      assert Interval(initial, max, m, 2) == NextInterval(Interval(initial, max, m, 1), max, m);
      var k: nat := if Interval(initial, max, m, 1) < initial then 0 else 1;
      assert Interval(initial, max, m, k) > Interval(initial, max, m, k + 1);
    }
  }

  lemma ScaleBounds(b: real, u: real)
    requires b >= 0.0 && IsDraw(u)
    ensures 0.0 <= 0.8 * b <= WithJitter(b, u) <= b
  {
    MulMono(0.8, 0.8 + 0.2 * u, b);
    MulMono(0.8 + 0.2 * u, 1.0, b);
  }

  lemma TruncateChain(low: real, x: real, high: real, max: int)
    requires 0.0 <= low <= x <= high <= max as real
    ensures 0 <= Truncate(low) <= Truncate(x) <= Truncate(high) <= max
  {
    TruncateMono(low, x);
    TruncateMono(x, high);
    TruncateMono(high, max as real);
    TruncateInt(max);
  }

  /** A delay lies between 80% and 100% of the capped power, up to truncation, and so within the cap. */
  lemma DelayBounds(initial: int, max: int, m: real, k: nat, u: real)
    requires m >= 1.0 && 0 <= initial <= max && IsDraw(u)
    ensures var b := Ceiling(initial, max, m, k);
            0 <= Truncate(0.8 * b) <= Delay(initial, max, m, k, u) <= Truncate(b) <= max
  {
    CeilingGrows(initial, max, m, k);
    var b := Ceiling(initial, max, m, k);
    ScaleBounds(b, u);
    TruncateChain(0.8 * b, RawDelay(initial, max, m, k, u), b, max);
  }

  lemma OrderKept(b: real, c: real, m: real, u: real, v: real)
    requires b >= 0.0 && m >= 1.25 && c == b * m && IsDraw(u) && IsDraw(v)
    ensures WithJitter(b, u) <= WithJitter(c, v)
  {
    MulMono(1.25, m, b);
    ScaleBounds(b, u);
    ScaleBounds(c, v);
  }

  lemma OrderBroken(b: real, c: real, m: real) returns (u: real)
    requires b > 0.0 && 1.0 <= m < 1.25 && c == b * m
    ensures IsDraw(u) && WithJitter(b, u) > WithJitter(c, 0.0)
  {
    u := (4.0 * m - 3.0) / 2.0;
    var low, high := 0.8 * m, 0.8 + 0.2 * u;
    ProductLess(b, low, high);
    assert WithJitter(b, u) == b * high;
    assert WithJitter(c, 0.0) == c * 0.8 == b * low;
  }

  lemma ProductLess(b: real, x: real, y: real)
    requires b > 0.0 && x < y
    ensures b * x < b * y
  {
  }

  /**
   While the cap is not reached, the next delay is never shorter, whatever the draws, exactly when the
   multiplier is at least 1.25: that is what outweighs a jitter from 100% down to 80%.
   */
  lemma JitterKeepsOrder(initial: int, max: int, m: real, k: nat)
    requires m >= 1.0 && 0 < initial <= max && Ceiling(initial, max, m, k + 1) < max as real
    ensures (forall u, v | IsDraw(u) && IsDraw(v) ::
               RawDelay(initial, max, m, k, u) <= RawDelay(initial, max, m, k + 1, v)) <==>
            m >= 1.25
  {
    UncappedStep(initial, max, m, k);
    var b, c := Ceiling(initial, max, m, k), Ceiling(initial, max, m, k + 1);
    if m >= 1.25 {
      forall u, v | IsDraw(u) && IsDraw(v)
        ensures RawDelay(initial, max, m, k, u) <= RawDelay(initial, max, m, k + 1, v)
      {
        OrderKept(b, c, m, u, v);
      }
    } else {
      var u := OrderBroken(b, c, m);
      assert IsDraw(u) && IsDraw(0.0);
      assert RawDelay(initial, max, m, k, u) > RawDelay(initial, max, m, k + 1, 0.0);
    }
  }

  /** The largest whole number below `b`. */
  function Below(b: real): int {
    if b.Floor as real == b then b.Floor - 1 else b.Floor
  }

  lemma BelowBounds(b: real, x: real)
    requires 0.0 <= x < b
    ensures Truncate(x) <= Below(b)
  {
  }

  /** Some draw brings the delay as near to `b` as whole nanoseconds allow. */
  lemma BelowIsDrawn(b: real) returns (u: real)
    requires b > 0.0
    ensures IsDraw(u) && Truncate(WithJitter(b, u)) >= Below(b)
  {
    var x := if Below(b) as real > 0.8 * b then Below(b) as real else 0.8 * b;
    assert 0.8 * b <= x < b && x >= Below(b) as real;
    u := DrawOf(b, x);
    TruncateAbove(Below(b), x);
  }

  lemma DrawOf(b: real, x: real) returns (u: real)
    requires b > 0.0 && 0.8 * b <= x < b
    ensures IsDraw(u) && WithJitter(b, u) == x
  {
    var q := x / b;
    assert b * q == x;
    QuotientBounds(b, x, q);
    u := (q - 0.8) * 5.0;
    assert 0.8 + 0.2 * u == q;
  }

  lemma QuotientBounds(b: real, x: real, q: real)
    requires b > 0.0 && 0.8 * b <= x < b && b * q == x
    ensures 0.8 <= q < 1.0
  {
    QuotientAtLeast(b, 0.8, x, q);
    if q >= 1.0 {
      MulMono(1.0, q, b);
    }
  }

  lemma QuotientAtLeast(b: real, low: real, x: real, q: real)
    requires b > 0.0 && low * b <= x && x == b * q
    ensures low <= q
  {
    if q < low {
      ProductLess(b, q, low);
    }
  }

  lemma JitterStaysBelow(b: real, u: real)
    requires b > 0.0 && IsDraw(u)
    ensures 0.0 <= WithJitter(b, u) < b
  {
    ScaleBounds(b, u);
    ProductLess(b, 0.8 + 0.2 * u, 1.0);
  }

  /**
   The durations themselves, after truncation: the next one is never shorter, whatever the draws, exactly
   when the longest possible of this attempt is within the shortest possible of the next. Below the cap a
   multiplier of at least 1.25 is enough.
   */
  lemma DelaysKeepOrder(initial: int, max: int, m: real, k: nat)
    requires m >= 1.0 && 0 < initial <= max
    ensures (forall u, v | IsDraw(u) && IsDraw(v) ::
               Delay(initial, max, m, k, u) <= Delay(initial, max, m, k + 1, v)) <==>
            Below(Ceiling(initial, max, m, k)) <= Truncate(0.8 * Ceiling(initial, max, m, k + 1))
    ensures m >= 1.25 && Ceiling(initial, max, m, k + 1) < max as real ==>
              forall u, v | IsDraw(u) && IsDraw(v) ::
                Delay(initial, max, m, k, u) <= Delay(initial, max, m, k + 1, v)
  {
    CeilingPositive(initial, max, m, k);
    CeilingPositive(initial, max, m, k + 1);
    var b, c := Ceiling(initial, max, m, k), Ceiling(initial, max, m, k + 1);
    if Below(b) <= Truncate(0.8 * c) {
      forall u, v | IsDraw(u) && IsDraw(v)
        ensures Delay(initial, max, m, k, u) <= Delay(initial, max, m, k + 1, v)
      {
        JitterStaysBelow(b, u);
        BelowBounds(b, WithJitter(b, u));
        ScaleBounds(c, v);
        TruncateMono(0.8 * c, WithJitter(c, v));
      }
    } else {
      var u := BelowIsDrawn(b);
      assert IsDraw(u) && IsDraw(0.0);
      assert WithJitter(c, 0.0) == 0.8 * c;
      assert Delay(initial, max, m, k, u) > Delay(initial, max, m, k + 1, 0.0);
    }
    if m >= 1.25 && c < max as real {
      JitterKeepsOrder(initial, max, m, k);
      forall u, v | IsDraw(u) && IsDraw(v)
        ensures Delay(initial, max, m, k, u) <= Delay(initial, max, m, k + 1, v)
      {
        assert RawDelay(initial, max, m, k, u) <= RawDelay(initial, max, m, k + 1, v);
        ScaleBounds(b, u);
        TruncateMono(RawDelay(initial, max, m, k, u), RawDelay(initial, max, m, k + 1, v));
      }
    }
  }

  lemma CeilingPositive(initial: int, max: int, m: real, k: nat)
    requires m >= 1.0 && 0 < initial <= max
    ensures Ceiling(initial, max, m, k) > 0.0
  {
    CeilingIsMin(initial, max, m, k);
    UnboundedGrows(initial, m, k);
  }

  lemma UncappedStep(initial: int, max: int, m: real, k: nat)
    requires m >= 1.0 && 0 < initial <= max && Ceiling(initial, max, m, k + 1) < max as real
    ensures Ceiling(initial, max, m, k) > 0.0
    ensures Ceiling(initial, max, m, k + 1) == Ceiling(initial, max, m, k) * m
  {
    CeilingIsMin(initial, max, m, k);
    CeilingIsMin(initial, max, m, k + 1);
    UnboundedGrows(initial, m, k);
    BelowTheCap(Unbounded(initial, m, k), Unbounded(initial, m, k + 1), m, max as real);
  }

  lemma BelowTheCap(p: real, q: real, m: real, max: real)
    requires p > 0.0 && m >= 1.0 && q == p * m && MinReal(q, max) < max
    ensures MinReal(p, max) == p && MinReal(q, max) == q
  {
    MulMono(1.0, m, p);
  }

  lemma {:induction false} UnboundedGrows(initial: int, m: real, k: nat)
    requires m >= 1.0 && 0 <= initial
    ensures Unbounded(initial, m, k) >= initial as real
  {
    if k == 0 {
    } else {
      UnboundedGrows(initial, m, k - 1);
      MulMono(1.0, m, Unbounded(initial, m, k - 1));
    }
  }
}
