/** Reconnection: the delays of the two backoff loops, with 64-bit durations, and
    the flag that keeps a single reconnect loop alive. */
module Reconnect {
  const MAX_DURATION := 0x7fff_ffff_ffff_ffff

  type Duration = d: int | -MAX_DURATION - 1 <= d <= MAX_DURATION

  /** Signed 64-bit wrap-around, which Go's duration arithmetic has. */
  function Wrap(n: int): int {
    (n + 0x8000_0000_0000_0000) % 0x1_0000_0000_0000_0000 - 0x8000_0000_0000_0000
  }

  /** `base` doubled `k` times, without bound. */
  function Doubled(base: int, k: nat): int {
    if k == 0 then base else 2 * Doubled(base, k - 1)
  }

  lemma {:induction false} DoubledGrows(base: int, i: nat, j: nat)
    requires 0 < base && i <= j
    ensures Doubled(base, i) + (j - i) <= Doubled(base, j)
    ensures 0 < Doubled(base, i)
    decreases j
  {
    if i < j {
      DoubledGrows(base, i, j - 1);
    } else if i > 0 {
      DoubledGrows(base, i - 1, i - 1);
    }
  }

  /** One, doubled `k` times, is the factor `1 << k`. */
  lemma {:induction false} DoubledIsProduct(base: int, k: nat)
    ensures Doubled(base, k) == base * Doubled(1, k)
  {
    if k > 0 {
      DoubledIsProduct(base, k - 1);
      assert base * (2 * Doubled(1, k - 1)) == 2 * (base * Doubled(1, k - 1));
    }
  }

  function Min(a: int, b: int): int {
    if a <= b then a else b
  }

  // ----- The reconnect delay -----

  /** One failed attempt: `delay *= 2`, then the cap. */
  function NextDelay(delay: int, cap: int): int {
    var doubled := Wrap(2 * delay);
    if doubled > cap then cap else doubled
  }

  /** The delay in force after `k` failed attempts. */
  function Delay(base: int, cap: int, k: nat): int {
    if k == 0 then base else NextDelay(Delay(base, cap, k - 1), cap)
  }

  lemma {:induction false} DelayIsCappedDoubling(base: int, cap: int, k: nat)
    requires 0 < base < 0x4000_0000_0000_0000 && 0 < cap < 0x4000_0000_0000_0000
    ensures k >= 1 ==> Delay(base, cap, k) == Min(Doubled(base, k), cap)
    ensures 0 < Delay(base, cap, k) < 0x4000_0000_0000_0000
  {
    if k >= 1 {
      DelayIsCappedDoubling(base, cap, k - 1);
    }
  }

  /** The first attempt whose doubling leaves the 64-bit range makes the delay negative. */
  lemma {:induction false} DelayOverflows(base: int, cap: int, k: nat)
    requires 0 < base && 0 < cap
    requires k >= 1 ==> Delay(base, cap, k) == Min(Doubled(base, k), cap)
    requires 0x4000_0000_0000_0000 <= Delay(base, cap, k) <= MAX_DURATION
    ensures Delay(base, cap, k + 1) < 0 < Min(Doubled(base, k + 1), cap)
  {
    DoubledGrows(base, k + 1, k + 1);
  }

  ghost predicate CappedDoubling(base: int, cap: int) {
    forall k: nat :: k >= 1 ==> Delay(base, cap, k) == Min(Doubled(base, k), cap)
  }

  /** From the second attempt on, every delay is the capped doubling of the base,
      exactly when neither duration reaches 2^62 nanoseconds (146 years). */
  lemma DelaysExactlyWhenNoOverflow(base: int, cap: int)
    requires 0 < base <= MAX_DURATION && 0 < cap <= MAX_DURATION
    ensures CappedDoubling(base, cap) <==> base < 0x4000_0000_0000_0000 && cap < 0x4000_0000_0000_0000
  {
    if base < 0x4000_0000_0000_0000 && cap < 0x4000_0000_0000_0000 {
      forall k: nat | k >= 1
        ensures Delay(base, cap, k) == Min(Doubled(base, k), cap)
      {
        DelayIsCappedDoubling(base, cap, k);
      }
    } else if base >= 0x4000_0000_0000_0000 {
      DelayOverflows(base, cap, 0);
      assert Delay(base, cap, 1) != Min(Doubled(base, 1), cap);
    } else if CappedDoubling(base, cap) {
      // The doublings reach 2^62 without jumping over the range below 2^63.
      var k := 0;
      while Doubled(base, k) < 0x4000_0000_0000_0000
        invariant Doubled(base, k) < 0x8000_0000_0000_0000
        decreases 0x4000_0000_0000_0000 - Doubled(base, k)
      {
        DoubledGrows(base, k, k + 1);
        k := k + 1;
      }
      assert k >= 1;
      assert Delay(base, cap, k) == Min(Doubled(base, k), cap);
      DelayOverflows(base, cap, k);
      assert false;
    }
  }

  /** The jitter is a random fraction, below one, of a quarter of the delay; the
      conversion to a duration cuts toward zero. */
  function Jitter(delay: int, random: real): int {
    if delay >= 0 then (random * 0.25 * delay as real).Floor else -(random * 0.25 * (-delay) as real).Floor
  }

  function WaitFor(delay: int, random: real): int {
    Wrap(delay + Jitter(delay, random))
  }

  lemma WaitIsBounded(delay: int, random: real)
    requires 0 < delay && 0.0 <= random < 1.0
    ensures 0 <= Jitter(delay, random) && 4 * Jitter(delay, random) <= delay
    ensures 4.0 * Jitter(delay, random) as real <= random * delay as real < 4.0 * (Jitter(delay, random) + 1) as real
    ensures delay < 0x4000_0000_0000_0000 ==> WaitFor(delay, random) == delay + Jitter(delay, random)
  {
    var d := delay as real;
    assert 0.0 <= random * d <= d by {
      MulBound(random, d);
    }
    var x := random * 0.25 * d;
    assert x == 0.25 * (random * d) && 4.0 * x <= d;
    assert x.Floor as real <= x;
    assert (4 * x.Floor) as real <= d;
  }

  lemma MulBound(random: real, d: real)
    requires 0.0 <= random < 1.0 && 0.0 < d
    ensures 0.0 <= random * d <= d
  {
  }

  /** What one connection attempt reports. */
  datatype Attempt = Connected | AuthRejected | Failed

  datatype Exit = Reconnected | ReRegister | Cancelled

  /** The wait of an attempt lies between its delay and that plus a quarter; from
      the second attempt on the delay is the capped doubling. */
  ghost predicate WaitOk(base: int, cap: int, k: nat, wait: int) {
    && Delay(base, cap, k) <= wait && 4 * (wait - Delay(base, cap, k)) <= Delay(base, cap, k)
    && (k >= 1 ==> Delay(base, cap, k) == Min(Doubled(base, k), cap))
  }

  /** The configured durations, or the defaults of half a second and a minute. */
  function Base(configured: Duration): int {
    if configured <= 0 then 500_000_000 else configured
  }

  function Cap(configured: Duration): int {
    if configured <= 0 then 60_000_000_000 else configured
  }

  /** A positive setting is used as it is; otherwise half a second, and a minute at most. */
  lemma Settings(configured: Duration)
    ensures configured > 0 ==> Base(configured) == configured == Cap(configured)
    ensures configured <= 0 ==> Base(configured) == 500 * 1_000_000 && Cap(configured) == 60 * 1000 * 1_000_000
  {
  }

  /** The waits before the first `n` attempts. */
  function Waits(base: int, cap: int, random: nat -> real, n: nat): (waits: seq<int>)
    ensures |waits| == n
  {
    if n == 0 then []
    else Waits(base, cap, random, n - 1) + [WaitFor(Delay(base, cap, n - 1), random(n - 1))]
  }

  /** Neither duration reaches 2^62. */
  predicate Moderate(configured: Duration, configuredMax: Duration) {
    configured < 0x4000_0000_0000_0000 && configuredMax < 0x4000_0000_0000_0000
  }

  /** With moderate durations every wait is bounded by the capped doubling. */
  lemma {:induction false} ModerateWaits(configured: Duration, configuredMax: Duration, random: nat -> real, n: nat)
    requires Moderate(configured, configuredMax) && forall k :: 0.0 <= random(k) < 1.0
    ensures forall k | 0 <= k < n ::
              WaitOk(Base(configured), Cap(configuredMax), k, Waits(Base(configured), Cap(configuredMax), random, n)[k])
  {
    if n > 0 {
      ModerateWaits(configured, configuredMax, random, n - 1);
      ModerateWait(configured, configuredMax, n - 1, random(n - 1));
    }
  }

  lemma ModerateWait(configured: Duration, configuredMax: Duration, k: nat, random: real)
    requires Moderate(configured, configuredMax) && 0.0 <= random < 1.0
    ensures WaitOk(Base(configured), Cap(configuredMax), k,
                   WaitFor(Delay(Base(configured), Cap(configuredMax), k), random))
  {
    DelayIsCappedDoubling(Base(configured), Cap(configuredMax), k);
    WaitIsBounded(Delay(Base(configured), Cap(configuredMax), k), random);
  }

  /** The reconnect loop, for any configuration: `attempts` are the outcomes it meets
      in order, and the context is cancelled when they run out.  Only a failure that
      can be retried continues the loop. */
  method ReconnectLoop(configured: Duration, configuredMax: Duration, attempts: seq<Attempt>, random: nat -> real)
    returns (waits: seq<int>, exit: Exit)
    ensures waits == Waits(Base(configured), Cap(configuredMax), random, |waits|)
    ensures |waits| <= |attempts| + 1
    ensures forall k | 0 <= k < |waits| - 1 :: attempts[k] == Failed
    ensures match exit
            case Reconnected => 0 < |waits| <= |attempts| && attempts[|waits| - 1] == Connected
            case ReRegister => 0 < |waits| <= |attempts| && attempts[|waits| - 1] == AuthRejected
            case Cancelled => |waits| == |attempts| + 1
  {
    var delay, maxDelay := Base(configured), Cap(configuredMax);
    waits := [];
    for attempt := 0 to |attempts|
      invariant |waits| == attempt && waits == Waits(Base(configured), maxDelay, random, attempt)
      invariant delay == Delay(Base(configured), maxDelay, attempt)
      invariant forall k | 0 <= k < attempt :: attempts[k] == Failed
    {
      waits := waits + [WaitFor(delay, random(attempt))];
      match attempts[attempt] {
        case Connected => return waits, Reconnected;
        case AuthRejected => return waits, ReRegister;
        case Failed =>
      }
      delay := Wrap(2 * delay);
      if delay > maxDelay {
        delay := maxDelay;
      }
    }
    waits := waits + [WaitFor(delay, random(|attempts|))];
    return waits, Cancelled;
  }

  // ----- The heartbeat backoff -----

  const HEARTBEAT_CAP := 30_000_000_000

  /** `interval * Duration(1 << uint(attempt-1))`, capped: the shift and the product
      both wrap. */
  function HeartbeatBackoff(base: int, attempt: nat): int
    requires attempt >= 1
  {
    var backoff := Wrap(base * Wrap(Doubled(1, attempt - 1)));
    if backoff > HEARTBEAT_CAP then HEARTBEAT_CAP else backoff
  }

  ghost predicate HeartbeatAgrees(base: int, attempt: nat)
    requires attempt >= 1
  {
    HeartbeatBackoff(base, attempt) == Min(Doubled(base, attempt - 1), 30 * 1000 * 1_000_000)
  }

  /** Wrapping a factor first does not change the wrapped product. */
  lemma WrapProduct(a: int, b: int)
    ensures Wrap(a * Wrap(b)) == Wrap(a * b)
  {
    var m := 0x1_0000_0000_0000_0000;
    var q := (b + 0x8000_0000_0000_0000) / m;
    assert Wrap(b) == b - q * m;
    assert a * Wrap(b) == a * b - (a * q) * m by {
      assert a * (b - q * m) == a * b - a * (q * m);
    }
    WrapShift(a * b, -(a * q));
  }

  lemma WrapShift(n: int, q: int)
    ensures Wrap(n + q * 0x1_0000_0000_0000_0000) == Wrap(n)
  {
  }

  predicate InRange(n: int) {
    -MAX_DURATION - 1 <= n <= MAX_DURATION
  }

  /** Doubling moves away from zero, so what is still in range at the end was in range
      all the way. */
  lemma {:induction false} DoubledStaysInRange(base: int, i: nat, j: nat)
    requires i <= j && InRange(Doubled(base, j))
    ensures InRange(Doubled(base, i))
    decreases j
  {
    if i < j {
      DoubledStaysInRange(base, i, j - 1);
    }
  }

  lemma InRangeAgrees(base: int, attempt: nat)
    requires attempt >= 1 && InRange(Doubled(base, attempt - 1))
    ensures HeartbeatAgrees(base, attempt)
  {
    WrapProduct(base, Doubled(1, attempt - 1));
    DoubledIsProduct(base, attempt - 1);
  }

  /** The doubling that first leaves the range lands on the other side of zero. */
  lemma FirstOverflowDisagrees(base: int, attempt: nat)
    requires attempt >= 2 && InRange(Doubled(base, attempt - 2)) && !InRange(Doubled(base, attempt - 1))
    ensures !HeartbeatAgrees(base, attempt)
  {
    WrapProduct(base, Doubled(1, attempt - 1));
    DoubledIsProduct(base, attempt - 1);
  }

  lemma {:induction false} FirstOverflow(base: int, m: nat) returns (k: nat)
    requires InRange(base) && !InRange(Doubled(base, m))
    ensures 1 <= k <= m && InRange(Doubled(base, k - 1)) && !InRange(Doubled(base, k))
  {
    if InRange(Doubled(base, m - 1)) {
      k := m;
    } else {
      k := FirstOverflow(base, m - 1);
    }
  }

  /** A loop of `n` attempts waits after all but the last.  For any interval, its waits
      are the capped doublings of it exactly when the last of them does not overflow. */
  lemma HeartbeatLoopExactly(interval: Duration, n: nat)
    requires n >= 2
    ensures (forall attempt | 1 <= attempt < n :: HeartbeatAgrees(interval, attempt)) <==>
            InRange(Doubled(interval, n - 2))
  {
    if InRange(Doubled(interval, n - 2)) {
      forall attempt | 1 <= attempt < n
        ensures HeartbeatAgrees(interval, attempt)
      {
        DoubledStaysInRange(interval, attempt - 1, n - 2);
        InRangeAgrees(interval, attempt);
      }
    } else {
      var k := FirstOverflow(interval, n - 2);
      FirstOverflowDisagrees(interval, k + 1);
    }
  }

  /** What one heartbeat attempt reports. */
  datatype Beat = Delivered | ReRegistering | Undelivered

  /** The heartbeat loop with at most `configuredAttempts` attempts, three when none
      are configured: `beats(k)` is the outcome of attempt `k + 1`.  It waits after
      every failed attempt but the last, and stops at the first other outcome. */
  method SendHeartbeatWithRetry(configuredAttempts: int, configuredInterval: int, beats: nat -> Beat)
    returns (waits: seq<int>, delivered: bool)
    ensures var n := if configuredAttempts <= 0 then 3 else configuredAttempts;
            var interval := if configuredInterval == 0 then 5_000_000_000 else configuredInterval;
            && |waits| < n
            && (forall k | 0 <= k < |waits| ::
                  beats(k) == Undelivered && waits[k] == HeartbeatBackoff(interval, k + 1))
            && delivered == (beats(|waits|) != Undelivered)
            && (!delivered ==> |waits| == n - 1)
  {
    var maxAttempts := if configuredAttempts <= 0 then 3 else configuredAttempts;
    var interval := if configuredInterval == 0 then 5_000_000_000 else configuredInterval;
    waits := [];
    for attempt := 1 to maxAttempts + 1
      invariant |waits| == (if attempt <= maxAttempts then attempt - 1 else maxAttempts - 1)
      invariant forall k | 0 <= k < |waits| ::
                  beats(k) == Undelivered && waits[k] == HeartbeatBackoff(interval, k + 1)
      invariant attempt > maxAttempts ==> beats(maxAttempts - 1) == Undelivered
    {
      if beats(attempt - 1) != Undelivered {
        return waits, true;
      }
      if attempt < maxAttempts {
        waits := waits + [HeartbeatBackoff(interval, attempt)];
      }
    }
    return waits, false;
  }
}
