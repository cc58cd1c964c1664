// The wait before a reconnect: doubling up to a limit, with jitter. Durations are nanoseconds.
module Backoff {
  const NANOS_PER_SEC: nat := 1_000_000_000
  const NANOS_PER_MILLI: nat := 1_000_000

  function Min(a: nat, b: nat): nat {
    if a <= b then a else b
  }

  type Jitter = j: real | -0.2 <= j <= 0.2 witness 0.0

  function Scaled(x: real, jitter: real): real {
    x * (1.0 + jitter)
  }

  /** Whole milliseconds, jittered and truncated. */
  function JitteredMillis(millis: nat, jitter: Jitter): nat {
    var wait := Scaled(millis as real, jitter);
    if wait < 0.0 then 0 else wait.Floor
  }

  /** The wait for a base; what the base has beyond whole milliseconds is dropped. */
  function DelayOf(base: nat, jitter: Jitter): nat {
    JitteredMillis(base / NANOS_PER_MILLI, jitter) * NANOS_PER_MILLI
  }

  class ReconnectBackoff {
    var current: nat
    const initial: nat
    const max: nat
    ghost var calls: seq<Call>

    ghost predicate Valid()
      reads this
    {
      current == Base(initial, max, calls)
    }

    constructor (initial: nat, max: nat)
      ensures Valid() && calls == [] && this.initial == initial && this.max == max
    {
      this.initial := initial;
      this.max := max;
      current := initial;
      calls := [];
    }

    method NextDelay(jitter: Jitter) returns (delay: nat)
      requires Valid()
      modifies this
      ensures Valid() && calls == old(calls) + [Next(jitter)]
      ensures delay == DelayOf(Base(initial, max, old(calls)), jitter)
    {
      var base := current;
      delay := JitteredMillis(base / NANOS_PER_MILLI, jitter) * NANOS_PER_MILLI;
      current := Min(current * 2, max);
      calls := calls + [Next(jitter)];
      assert calls[..|calls| - 1] == old(calls);
    }

    method Reset()
      modifies this
      ensures Valid() && calls == old(calls) + [Resetting]
    {
      current := initial;
      calls := calls + [Resetting];
    }
  }

  // ----- Every run of calls -------------------------------------------------------------

  datatype Call = Next(jitter: Jitter) | Resetting

  /** The base in force after a run of calls. */
  function Base(initial: nat, max: nat, calls: seq<Call>): nat {
    if calls == [] then initial
    else if calls[|calls| - 1].Resetting? then initial
    else Min(Base(initial, max, calls[..|calls| - 1]) * 2, max)
  }

  function SinceReset(calls: seq<Call>): nat {
    if calls == [] || calls[|calls| - 1].Resetting? then 0 else SinceReset(calls[..|calls| - 1]) + 1
  }

  function Pow2(k: nat): (p: nat)
    ensures p >= 1
  {
    if k == 0 then 1 else 2 * Pow2(k - 1)
  }

  lemma {:induction false} DoubledOrMax(initial: nat, max: nat, calls: seq<Call>)
    ensures var k := SinceReset(calls);
      Base(initial, max, calls) == if k == 0 then initial else Min(initial * Pow2(k), max)
  {
    if calls != [] && !calls[|calls| - 1].Resetting? {
      var most := calls[..|calls| - 1];
      DoubledOrMax(initial, max, most);
      var k := SinceReset(most);
      Doubling(initial, k);
    }
  }

  lemma Doubling(initial: nat, k: nat)
    ensures initial * Pow2(k + 1) == 2 * (initial * Pow2(k))
  {
  }

  /** The k-th base after a reset is the initial one doubled k times, cut off at the limit; the one
      exception is the first, when the initial base is above the limit. */
  lemma ClosedForm(initial: nat, max: nat, calls: seq<Call>)
    ensures var k := SinceReset(calls);
      Base(initial, max, calls) == Min(initial * Pow2(k), max) <==> k > 0 || initial <= max
  {
    DoubledOrMax(initial, max, calls);
  }

  lemma DelayBounds(base: nat, jitter: Jitter)
    ensures var millis := base / NANOS_PER_MILLI; var delay := DelayOf(base, jitter);
      && delay % NANOS_PER_MILLI == 0
      && 0.8 * millis as real - 1.0 < (delay / NANOS_PER_MILLI) as real <= 1.2 * millis as real
  {
    var millis := base / NANOS_PER_MILLI;
    JitterBounds(millis, jitter);
    WholeMillis(JitteredMillis(millis, jitter));
  }

  lemma JitterBounds(millis: nat, jitter: Jitter)
    ensures 0.8 * millis as real - 1.0 < JitteredMillis(millis, jitter) as real <= 1.2 * millis as real
  {
    var x := millis as real;
    var wait := Scaled(x, jitter);
    ScaledBounds(x, jitter);
    FloorBounds(wait);
  }

  lemma FloorBounds(wait: real)
    ensures wait - 1.0 < wait.Floor as real <= wait
  {
  }

  lemma ScaledBounds(x: real, jitter: Jitter)
    requires x >= 0.0
    ensures 0.0 <= 0.8 * x <= Scaled(x, jitter) <= 1.2 * x
  {
    ScaledGrows(x, -0.2, jitter);
    ScaledGrows(x, jitter, 0.2);
  }

  lemma ScaledGrows(x: real, small: real, large: real)
    requires x >= 0.0 && small <= large
    ensures Scaled(x, small) <= Scaled(x, large)
  {
    assert x * (large - small) >= 0.0;
  }

  lemma WholeMillis(n: nat)
    ensures n * NANOS_PER_MILLI / NANOS_PER_MILLI == n && n * NANOS_PER_MILLI % NANOS_PER_MILLI == 0
  {
  }

  /** Every wait of every run is within 20% of min(initial * 2^k, max), up to the truncation to
      milliseconds, and none is longer than 1.2 * max. */
  lemma WaitsAreBounded(initial: nat, max: nat, calls: seq<Call>, jitter: Jitter)
    requires initial <= max
    ensures var base := Min(initial * Pow2(SinceReset(calls)), max);
      var delay := DelayOf(Base(initial, max, calls), jitter);
      && 0.8 * (base / NANOS_PER_MILLI) as real - 1.0 < (delay / NANOS_PER_MILLI) as real
      && (delay / NANOS_PER_MILLI) as real <= 1.2 * (base / NANOS_PER_MILLI) as real
      && delay as real <= 1.2 * max as real
  {
    ClosedForm(initial, max, calls);
    var base := Base(initial, max, calls);
    var delay := DelayOf(base, jitter);
    DelayBounds(base, jitter);
    var whole, n := base / NANOS_PER_MILLI, delay / NANOS_PER_MILLI;
    assert delay == n * NANOS_PER_MILLI;
    assert whole * NANOS_PER_MILLI <= base <= max;
  }

  /** With the defaults, one second and one minute, the limit is reached after exactly six failures. */
  lemma DefaultsReachLimit(calls: seq<Call>)
    ensures Base(NANOS_PER_SEC, 60 * NANOS_PER_SEC, calls) == 60 * NANOS_PER_SEC <==> SinceReset(calls) >= 6
  {
    var k := SinceReset(calls);
    DoubledOrMax(NANOS_PER_SEC, 60 * NANOS_PER_SEC, calls);
    assert Pow2(3) == 8 && Pow2(5) == 32 && Pow2(6) == 64;
    if k >= 6 {
      Pow2Grows(6, k);
    } else {
      Pow2Grows(k, 5);
    }
  }

  lemma {:induction false} Pow2Grows(j: nat, k: nat)
    requires j <= k
    ensures Pow2(j) <= Pow2(k)
  {
    if j < k {
      Pow2Grows(j, k - 1);
    }
  }
}
