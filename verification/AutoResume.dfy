/** The auto-resume back-off of the gadget driver (simplegadget/one.c): each
    suspend schedules a remote wake-up somewhat later than the one before. */
module AutoResume {
  import opened Wdf

  const WORD: nat := 0x1_0000_0000

  /** The settings in milliseconds, each below WORD: the first delay, the largest
      one unless limit is None, and the increment. */
  datatype Settings = Settings(first: nat, limit: Option<nat>, interval: nat)

  /** The delay scheduled when autoresume_step_ms is step. */
  function Scheduled(c: Settings, step: nat): nat {
    if c.limit.Some? && step > c.limit.value then c.first else step
  }

  /** autoresume_step_ms before suspend number n, counted from 0. */
  function StepMs(c: Settings, n: nat): nat {
    if n == 0 then c.first else (Scheduled(c, StepMs(c, n - 1)) + c.interval) % WORD
  }

  function Delay(c: Settings, n: nat): nat {
    Scheduled(c, StepMs(c, n))
  }

  ghost predicate Bounded(c: Settings) {
    c.interval > 0 && c.limit.Some? && c.first <= c.limit.value < WORD && c.interval < WORD
  }

  /** The number of different delays before the sequence starts again. */
  function Period(c: Settings): nat
    requires c.interval > 0 && c.limit.Some? && c.first <= c.limit.value
  {
    (c.limit.value - c.first) / c.interval + 1
  }

  // ----- first + k * interval, kept away from the other arithmetic

  function Ramp(c: Settings, k: nat): nat {
    if k == 0 then c.first else Ramp(c, k - 1) + c.interval
  }

  lemma {:induction false} RampIs(c: Settings, k: nat)
    ensures Ramp(c, k) == c.first + k * c.interval
  {
    if k > 0 {
      RampIs(c, k - 1);
      assert k * c.interval == (k - 1) * c.interval + c.interval;
    }
  }

  lemma {:induction false} RampMonotone(c: Settings, j: nat, k: nat)
    requires j <= k
    ensures c.first <= Ramp(c, j) <= Ramp(c, k)
  {
    if j < k {
      RampMonotone(c, j, k - 1);
    } else if k > 0 {
      RampMonotone(c, k - 1, k - 1);
    }
  }

  /** The ramp passes the limit after exactly one period. */
  lemma PeriodBounds(c: Settings)
    requires Bounded(c)
    ensures Ramp(c, Period(c) - 1) <= c.limit.value < Ramp(c, Period(c))
  {
    var d, i := c.limit.value - c.first, c.interval;
    RampIs(c, Period(c) - 1);
    RampIs(c, Period(c));
    assert d == d / i * i + d % i;
    assert Period(c) * i == d / i * i + i;
  }

  /** n mod period, by counting. */
  function Phase(n: nat, period: nat): nat {
    if n == 0 then 0
    else var r := Phase(n - 1, period); if r + 1 < period then r + 1 else 0
  }

  lemma {:induction false} PhaseQuotient(n: nat, period: nat) returns (q: nat)
    requires period > 0
    ensures n == q * period + Phase(n, period) && Phase(n, period) < period
  {
    if n == 0 {
      q := 0;
    } else {
      q := PhaseQuotient(n - 1, period);
      if Phase(n - 1, period) + 1 == period {
        NextMultiple(q, period);
        q := q + 1;
      }
    }
  }

  lemma NextMultiple(q: nat, d: nat)
    ensures (q + 1) * d == q * d + d
  {
  }

  lemma PhaseIs(n: nat, period: nat)
    requires period > 0
    ensures Phase(n, period) == n % period
  {
    var q := PhaseQuotient(n, period);
    RemainderIs(n, period, q, Phase(n, period));
  }

  lemma {:induction false} SmallerQuotient(a: nat, b: nat, d: nat)
    requires a < b
    ensures a * d + d <= b * d
  {
    if a + 1 < b {
      SmallerQuotient(a, b - 1, d);
    }
    assert b * d == (b - 1) * d + d;
  }

  lemma RemainderIs(n: nat, d: nat, q: nat, r: nat)
    requires d > 0 && r < d && n == q * d + r
    ensures n % d == r
  {
    var q' := n / d;
    assert n == q' * d + n % d;
    if q' < q {
      SmallerQuotient(q', q, d);
    } else if q < q' {
      SmallerQuotient(q, q', d);
    }
  }

  // ----- The closed form, and exactly when it holds

  /** The step past the last delay either fits in the word, or wraps to exactly the
      first delay again. */
  predicate NoHarmfulWrap(c: Settings)
    requires c.interval > 0 && c.limit.Some? && c.first <= c.limit.value
  {
    c.first + Period(c) * c.interval < WORD || Period(c) * c.interval == WORD
  }

  /** The n-th wake-up delay is first + (n mod Period) * interval. */
  lemma ClosedForm(c: Settings, n: nat)
    requires Bounded(c) && NoHarmfulWrap(c)
    ensures Delay(c, n) == c.first + n % Period(c) * c.interval
  {
    PhaseIs(n, Period(c));
    RampIs(c, n % Period(c));
    DelayOnRamp(c, n);
  }

  /** The delay after delay d. */
  function Following(c: Settings, d: nat): nat {
    Scheduled(c, (d + c.interval) % WORD)
  }

  lemma DelayFollows(c: Settings, n: nat)
    requires n > 0
    ensures Delay(c, n) == Following(c, Delay(c, n - 1))
  {
  }

  lemma {:induction false} DelayOnRamp(c: Settings, n: nat)
    requires Bounded(c) && NoHarmfulWrap(c)
    ensures Phase(n, Period(c)) < Period(c) && Delay(c, n) == Ramp(c, Phase(n, Period(c)))
  {
    if n > 0 {
      var r := Phase(n - 1, Period(c));
      DelayOnRamp(c, n - 1);
      DelayFollows(c, n);
      if r + 1 < Period(c) {
        RampUp(c, r);
      } else {
        RampTop(c);
      }
    }
  }

  /** Below the top the ramp goes up by one interval, and nothing can wrap. */
  lemma RampUp(c: Settings, r: nat)
    requires Bounded(c) && r + 1 < Period(c)
    ensures Following(c, Ramp(c, r)) == Ramp(c, r + 1)
  {
    PeriodBounds(c);
    RampMonotone(c, r + 1, Period(c) - 1);
    WrapOnce(Ramp(c, r + 1));
  }

  /** From the top it goes back to the first delay, unless a harmful wrap occurs. */
  lemma RampTop(c: Settings)
    requires Bounded(c)
    ensures Following(c, Ramp(c, Period(c) - 1)) == c.first <==> NoHarmfulWrap(c)
  {
    PeriodBounds(c);
    RampIs(c, Period(c));
    WrapOnce(Ramp(c, Period(c)));
  }

  /** A harmful wrap lands below the first delay if it cannot land above. */
  lemma RampTopLow(c: Settings)
    requires Bounded(c) && !NoHarmfulWrap(c) && c.limit.value + c.interval < WORD + c.first
    ensures Following(c, Ramp(c, Period(c) - 1)) < c.first
  {
    PeriodBounds(c);
    RampIs(c, Period(c));
    WrapOnce(Ramp(c, Period(c)));
  }

  lemma WrapOnce(x: nat)
    requires x < 2 * WORD
    ensures x % WORD == if x < WORD then x else x - WORD
  {
  }

  /** No delay exceeds the configured limit, whatever wraps. */
  lemma DelayWithinLimit(c: Settings, n: nat)
    requires c.limit.Some? && c.first <= c.limit.value
    ensures Delay(c, n) <= c.limit.value
  {
  }

  /** And none falls below the configured first one if no harmful wrap occurs. */
  lemma DelayAtLeastFirst(c: Settings, n: nat)
    requires Bounded(c) && NoHarmfulWrap(c)
    ensures c.first <= Delay(c, n)
  {
    DelayOnRamp(c, n);
    RampMonotone(c, 0, Phase(n, Period(c)));
  }

  /** Up to the end of the first period nothing can wrap. */
  lemma {:induction false} Climb(c: Settings, n: nat)
    requires Bounded(c) && n < Period(c)
    ensures Delay(c, n) == Ramp(c, n)
  {
    PeriodBounds(c);
    if n > 0 {
      Climb(c, n - 1);
      DelayFollows(c, n);
      RampUp(c, n - 1);
    }
  }

  /** A harmful wrap makes the delay after the first period wrong. */
  lemma WrapSurfaces(c: Settings)
    requires Bounded(c) && !NoHarmfulWrap(c)
    ensures Delay(c, Period(c)) != c.first
  {
    hide Following, Ramp, NoHarmfulWrap, Delay;
    PeriodBounds(c);
    Climb(c, Period(c) - 1);
    DelayFollows(c, Period(c));
    RampTop(c);
  }

  /** Unless the interval is so long that a wrap could land above the first delay,
      the lower bound holds exactly when no harmful wrap can occur. */
  lemma LowerBoundExactly(c: Settings)
    requires Bounded(c) && c.limit.value + c.interval < WORD + c.first
    ensures (forall n: nat :: c.first <= Delay(c, n)) <==> NoHarmfulWrap(c)
  {
    hide Following, Ramp, NoHarmfulWrap, Delay;
    if NoHarmfulWrap(c) {
      forall n: nat
        ensures c.first <= Delay(c, n)
      {
        DelayAtLeastFirst(c, n);
      }
    } else {
      Climb(c, Period(c) - 1);
      DelayFollows(c, Period(c));
      RampTopLow(c);
    }
  }

  /** The closed form holds for every suspend exactly when no harmful wrap can
      occur. */
  lemma ClosedFormExactly(c: Settings)
    requires Bounded(c)
    ensures (forall n: nat :: Delay(c, n) == c.first + n % Period(c) * c.interval) <==> NoHarmfulWrap(c)
  {
    if NoHarmfulWrap(c) {
      forall n: nat
        ensures Delay(c, n) == c.first + n % Period(c) * c.interval
      {
        ClosedForm(c, n);
      }
    } else {
      var n := Period(c);
      WrapSurfaces(c);
      RemainderIs(n, n, 1, 0);
      assert n % n * c.interval == 0;
      assert Delay(c, n) != c.first + n % Period(c) * c.interval;
    }
  }

  /** A harmful wrap at settings the driver can be given: 1 s, 4294967 s and 2^32 - 1
      ms.  The second delay already lies below the first. */
  lemma HarmfulWrapHappens()
    ensures var c := Settings(1000, Some(4_294_967_000), 4_294_967_295);
            Bounded(c) && !NoHarmfulWrap(c) && Delay(c, 1) == 999 < c.first
  {
    var c := Settings(1000, Some(4_294_967_000), 4_294_967_295);
    assert StepMs(c, 1) == 999;
    if NoHarmfulWrap(c) {
      DelayAtLeastFirst(c, 1);
    }
  }

  /** A first delay above the limit is scheduled every time exactly when the step
      after it, in 32-bit arithmetic, is above the limit as well or that delay again. */
  lemma StartAboveLimit(c: Settings)
    requires c.limit.Some? && c.limit.value < c.first
    ensures (forall n: nat :: Delay(c, n) == c.first) <==>
            var step := (c.first + c.interval) % WORD; step > c.limit.value || step == c.first
  {
    if Following(c, c.first) == c.first {
      forall n: nat
        ensures Delay(c, n) == c.first
      {
        KeptForEver(c, n);
      }
    } else {
      DelayFollows(c, 1);
      assert Delay(c, 1) != c.first;
    }
  }

  lemma {:induction false} KeptForEver(c: Settings, n: nat)
    requires c.limit.Some? && c.limit.value < c.first && Following(c, c.first) == c.first
    ensures Delay(c, n) == c.first
  {
    if n > 0 {
      KeptForEver(c, n - 1);
      DelayFollows(c, n);
    }
  }

  /** Settings for which it is not: 4000000 s, 1 s and 294967500 ms. */
  lemma StartAboveLimitWraps()
    ensures var c := Settings(4_000_000_000, Some(1000), 294_967_500);
            Delay(c, 0) == c.first && Delay(c, 1) == 204
  {
    var c := Settings(4_000_000_000, Some(1000), 294_967_500);
    DelayFollows(c, 1);
  }

  /** Without an interval it is kept as well. */
  lemma {:induction false} NoInterval(c: Settings, n: nat)
    requires c.interval == 0 && c.first < WORD
    ensures Delay(c, n) == c.first
  {
    if n > 0 {
      NoInterval(c, n - 1);
    }
  }

  /** Without a limit the delay grows for ever, modulo the word size. */
  lemma {:induction false} NoLimit(c: Settings, n: nat)
    requires c.limit == None && c.first < WORD
    ensures Delay(c, n) == (c.first + n * c.interval) % WORD
  {
    RampIs(c, n);
    NoLimitRamp(c, n);
  }

  lemma {:induction false} NoLimitRamp(c: Settings, n: nat)
    requires c.limit == None && c.first < WORD
    ensures Delay(c, n) == Ramp(c, n) % WORD
  {
    if n > 0 {
      NoLimitRamp(c, n - 1);
      NoLimitStep(c, n);
      WrapSum(Ramp(c, n - 1), c.interval);
    }
  }

  lemma NoLimitStep(c: Settings, n: nat)
    requires c.limit == None && n > 0
    ensures Delay(c, n) == (Delay(c, n - 1) + c.interval) % WORD
  {
  }

  lemma RampFrom(a: nat, m: nat, i: nat, n: nat)
    requires a <= m && m * 1000 < 0x1_0000_0000 && 0 < i < 0x1_0000_0000
    ensures a * 1000 + ((m - a) * 1000 / i + 1) * i < 0x1_0000_0000
            || ((m - a) * 1000 / i + 1) * i == 0x1_0000_0000 ==>
              Delay(Settings(a * 1000, Some(m * 1000), i), n) == a * 1000 + n % ((m - a) * 1000 / i + 1) * i
  {
    hide Delay;
    var c := Settings(a * 1000, Some(m * 1000), i);
    assert c.limit.value - c.first == (m - a) * 1000;
    if NoHarmfulWrap(c) {
      ClosedForm(c, n);
    }
  }

  lemma NoLimitFrom(a: nat, i: nat, n: nat)
    ensures Delay(Settings(a * 1000 % 0x1_0000_0000, None, i), n) == (a * 1000 + n * i) % 0x1_0000_0000
  {
    hide Delay;
    NoLimit(Settings(a * 1000 % WORD, None, i), n);
    WrapSum(a * 1000, n * i);
  }

  lemma Small(x: nat)
    requires x < WORD
    ensures x % WORD == x
  {
  }

  lemma WrapSum(a: nat, b: nat)
    ensures (a % WORD + b) % WORD == (a + b) % WORD
  {
    var q := a / WORD;
    assert a == q * WORD + a % WORD;
  }

  /** The driver's globals: the module parameters (seconds, seconds and
      milliseconds) and the step. */
  class Gadget {
    const autoresume: uint32
    const maxAutoresume: uint32
    const intervalMs: uint32
    var stepMs: uint32
    ghost var suspends: nat

    /** The parameters in unsigned 32-bit milliseconds. */
    function Configured(): Settings {
      Settings((autoresume as nat * 1000) % WORD,
               if maxAutoresume == 0 then None else Some((maxAutoresume as nat * 1000) % WORD),
               intervalMs as nat)
    }

    /** The n-th wake-up delay from the parameters in seconds, seconds and milliseconds:
        a ramp from the first delay to the limit, if the step past it fits 32 bits or
        wraps to exactly the first delay ... */
    lemma RampInParameters(n: nat)
      requires 0 < autoresume <= maxAutoresume && maxAutoresume as nat * 1000 < 0x1_0000_0000 && intervalMs > 0
      requires var a, m, i := autoresume as nat, maxAutoresume as nat, intervalMs as nat;
               || a * 1000 + ((m - a) * 1000 / i + 1) * i < 0x1_0000_0000
               || ((m - a) * 1000 / i + 1) * i == 0x1_0000_0000
      ensures var a, m, i := autoresume as nat, maxAutoresume as nat, intervalMs as nat;
              Delay(Configured(), n) == a * 1000 + n % ((m - a) * 1000 / i + 1) * i
    {
      hide Delay;
      RampFrom(autoresume as nat, maxAutoresume as nat, intervalMs as nat, n);
      Small(autoresume as nat * 1000);
      Small(maxAutoresume as nat * 1000);
    }

    /** ... and without a limit an endless one, modulo 2^32. */
    lemma NoLimitInParameters(n: nat)
      requires maxAutoresume == 0
      ensures Delay(Configured(), n) == (autoresume as nat * 1000 + n * intervalMs as nat) % 0x1_0000_0000
    {
      hide Delay;
      NoLimitFrom(autoresume as nat, intervalMs as nat, n);
    }

    ghost predicate Valid()
      reads this
    {
      autoresume != 0 ==> stepMs as nat == StepMs(Configured(), suspends)
    }

    /** The auto-resume part of zero_bind */
    constructor (autoresume: uint32, maxAutoresume: uint32, intervalMs: uint32)
      ensures Valid() && suspends == 0
      ensures autoresume != 0 ==> stepMs as nat == autoresume as nat * 1000 % 0x1_0000_0000
      ensures this.autoresume == autoresume && this.maxAutoresume == maxAutoresume
      ensures this.intervalMs == intervalMs
    {
      this.autoresume, this.maxAutoresume, this.intervalMs := autoresume, maxAutoresume, intervalMs;
      suspends := 0;
      stepMs := if autoresume != 0 then ((autoresume as nat * 1000) % WORD) as uint32 else 0;
    }

    /** zero_suspend: the delay of the wake-up it schedules, if it does. */
    method Suspend(speedKnown: bool) returns (delay: Option<uint32>)
      requires Valid()
      modifies this
      ensures Valid()
      ensures !speedKnown || autoresume == 0 ==>
                delay == None && stepMs == old(stepMs) && suspends == old(suspends)
      ensures speedKnown && autoresume != 0 ==>
                && delay.Some? && delay.value as nat == Delay(Configured(), old(suspends))
                && suspends == old(suspends) + 1
      // one wake-up: the step, or the first delay again once the step exceeds the limit
      ensures speedKnown && autoresume != 0 ==>
                && stepMs as nat == (delay.value as nat + intervalMs as nat) % 0x1_0000_0000
                && delay.value as nat ==
                   if maxAutoresume != 0 && old(stepMs) as nat > maxAutoresume as nat * 1000 % 0x1_0000_0000 then
                     autoresume as nat * 1000 % 0x1_0000_0000
                   else old(stepMs) as nat
    {
      if !speedKnown {
        return None;
      }
      if autoresume != 0 {
        if maxAutoresume != 0 && stepMs as nat > (maxAutoresume as nat * 1000) % WORD {
          stepMs := ((autoresume as nat * 1000) % WORD) as uint32;
        }
        delay := Some(stepMs);
        stepMs := ((stepMs as nat + intervalMs as nat) % WORD) as uint32;
        suspends := suspends + 1;
      } else {
        delay := None;
      }
    }
  }
}
