/** The tick rate limiter of src/shared/ticker.rs. Times are in nanoseconds. */
module Ticking {
  import opened Bytes

  /** `scaled` is the slack of a tick times the recovery rate, as the code gets it:
      a product of 32-bit floats, rounded, and truncated to an integer. Nothing is
      assumed about the rounding. */
  datatype Ticker = Ticker(overflow: int, recovery: bool, scaled: nat -> int, delay: nat)

  /** How much of the overflow a tick with `slack` nanoseconds to spare may recover. */
  function Correction(slack: nat, scaled: nat -> int): int {
    Min(scaled(slack), slack)
  }

  /** What a tick leaves of its delay. */
  function Slack(taken: nat, delay: nat): nat {
    delay - Min(taken, delay)
  }

  /** The overflow after a tick, and the time it goes to sleep for. */
  function TickEnd(t: Ticker, taken: nat): (int, int) {
    var base := Min(taken, t.delay);
    if !t.recovery then (t.overflow, t.delay - base)
    else
      var total := t.overflow + taken - base;
      var reduced := Max(0, total - Correction(t.delay - base, t.scaled));
      (reduced, t.delay - (base + (total - reduced)))
  }

  /** One of the unsigned subtractions of the tick would go below zero. */
  predicate Underflows(t: Ticker, taken: nat) {
    var base := Min(taken, t.delay);
    var total := t.overflow + taken - base;
    t.recovery && (total < TickEnd(t, taken).0 || TickEnd(t, taken).1 < 0)
  }

  /** A tick underflows exactly when recovery is on and its slack scales below zero. */
  lemma UnderflowsIffNegativeCorrection(t: Ticker, taken: nat)
    requires t.overflow >= 0
    ensures Underflows(t, taken) <==> t.recovery && t.scaled(Slack(taken, t.delay)) < 0
  {
  }

  /** A quick tick makes up for its whole slack exactly when rounding takes nothing
      off the scaled slack. A 32-bit float loses one of 16777217 nanoseconds. */
  lemma TickRecoversIff(t: Ticker, taken: nat)
    requires t.recovery && taken <= t.delay && t.overflow >= Slack(taken, t.delay)
    ensures TickEnd(t, taken).0 == t.overflow - Slack(taken, t.delay) <==> t.scaled(Slack(taken, t.delay)) >= Slack(taken, t.delay)
  {
  }

  // ----- scaling without rounding -----

  /** Truncation towards zero, as of a cast to an integer. */
  function Truncate(x: real): int {
    if x >= 0.0 then x.Floor else -((-x).Floor)
  }

  function Exactly(slack: nat, rate: real): int {
    Truncate(slack as real * rate)
  }

  lemma TruncateSign(x: real)
    ensures Truncate(x) < 0 <==> x <= -1.0
    ensures x >= 0.0 ==> Truncate(x) as real <= x < Truncate(x) as real + 1.0
  {
  }

  /** But for rounding, a rate underflows from one nanosecond of slack below zero,
      and a rate of 1.0 or more recovers all of the slack. */
  lemma ExactRates(rate: real, slack: nat)
    ensures Exactly(slack, rate) < 0 <==> slack as real * rate <= -1.0
    ensures rate >= 1.0 ==> Exactly(slack, rate) >= slack
  {
    hide Truncate;
    TruncateSign(slack as real * rate);
    if rate >= 1.0 {
      assert slack as real * rate >= slack as real;
    }
  }

  class TickTimer {
    var tickStart: int
    var tickOverflow: nat
    const recovery: bool
    const scaled: nat -> int
    const tickDelay: nat

    constructor (sendRate: nat, recovery: bool, scaled: nat -> int, now: int)
      requires sendRate > 0
      ensures State() == Ticker(0, recovery, scaled, 1_000_000_000 / sendRate) && tickStart == now
    {
      tickStart, tickOverflow := now, 0;
      this.recovery, this.scaled, tickDelay := recovery, scaled, 1_000_000_000 / sendRate;
    }

    function State(): Ticker
      reads this
    {
      Ticker(tickOverflow, recovery, scaled, tickDelay)
    }

    method BeginTick(now: int)
      modifies this
      ensures tickStart == now && State() == old(State())
    {
      tickStart := now;
    }

    method Reset(now: int)
      modifies this
      ensures tickStart == now && State() == old(State()).(overflow := 0)
    {
      tickStart, tickOverflow := now, 0;
    }

    /** Returns the time to sleep for. */
    method EndTick(now: int) returns (sleep: nat)
      requires tickStart <= now && !Underflows(State(), now - tickStart)
      modifies this
      ensures (tickOverflow, sleep as int) == TickEnd(old(State()), now - old(tickStart))
      ensures tickStart == old(tickStart) && State() == old(State()).(overflow := tickOverflow)
    {
      var taken := now - tickStart;
      var reduction := Min(taken, tickDelay);
      if recovery {
        tickOverflow := tickOverflow + (taken - reduction);
        var maxCorrection := tickDelay - reduction;
        var correction := Correction(maxCorrection, scaled);
        var reducedOverflow := Max(0, tickOverflow - correction);
        reduction := reduction + (tickOverflow - reducedOverflow);
        tickOverflow := reducedOverflow;
      }
      sleep := tickDelay - reduction;
    }
  }

  // ----- whole runs -----

  function After(t: Ticker, run: seq<nat>): Ticker {
    if run == [] then t else t.(overflow := TickEnd(After(t, run[..|run| - 1]), run[|run| - 1]).0)
  }

  /** The wall time of a run: what each tick took and slept. */
  function Elapsed(t: Ticker, run: seq<nat>): int {
    if run == [] then 0
    else Elapsed(t, run[..|run| - 1]) + run[|run| - 1] + TickEnd(After(t, run[..|run| - 1]), run[|run| - 1]).1
  }

  /** One tick: what it takes and sleeps beyond the delay becomes overflow. */
  lemma TickBalance(t: Ticker, taken: nat)
    requires t.recovery && t.overflow >= 0
    ensures TickEnd(t, taken).0 >= 0 && taken + TickEnd(t, taken).1 == t.delay + TickEnd(t, taken).0 - t.overflow
  {
  }

  lemma OneMoreDelay(n: nat, delay: nat)
    ensures (n + 1) * delay == n * delay + delay
  {
  }

  /** No tick of the run underflows. */
  predicate NeverUnderflows(t: Ticker, run: seq<nat>) {
    run == [] || (NeverUnderflows(t, run[..|run| - 1]) && !Underflows(After(t, run[..|run| - 1]), run[|run| - 1]))
  }

  /** With recovery on, a run is late by exactly the overflow it has gathered:
      when the overflow is back where it was, the mean rate is the target. This
      holds however the corrections are scaled and rounded, and no tick underflows
      as long as none of its slacks scales below zero. */
  lemma {:induction false} DriftLaw(t: Ticker, run: seq<nat>)
    requires t.recovery && t.overflow >= 0
    ensures After(t, run).overflow >= 0
    ensures Elapsed(t, run) == |run| * t.delay + After(t, run).overflow - t.overflow
    ensures NeverUnderflows(t, run) <==> forall n | n in run :: t.scaled(Slack(n, t.delay)) >= 0
  {
    if run != [] {
      var init, last := run[..|run| - 1], run[|run| - 1];
      DriftLaw(t, init);
      TickBalance(After(t, init), last);
      OneMoreDelay(|init|, t.delay);
      UnderflowsIffNegativeCorrection(After(t, init), last);
      assert forall n :: n in run <==> n in init || n == last;
    }
  }

  function Excess(run: seq<nat>, delay: nat): nat {
    if run == [] then 0 else Excess(run[..|run| - 1], delay) + Max(0, run[|run| - 1] - delay)
  }

  /** Without recovery the delay of every slow tick is lost for good. */
  lemma {:induction false} DriftWithoutRecovery(t: Ticker, run: seq<nat>)
    requires !t.recovery
    ensures After(t, run) == t
    ensures Elapsed(t, run) == |run| * t.delay + Excess(run, t.delay)
  {
    if run != [] {
      var init := run[..|run| - 1];
      DriftWithoutRecovery(t, init);
      OneMoreDelay(|init|, t.delay);
    }
  }

  /** What the ticks of a run may recover between them. */
  function Recoverable(run: seq<nat>, t: Ticker): int {
    if run == [] then 0
    else Recoverable(run[..|run| - 1], t) + Correction(Slack(run[|run| - 1], t.delay), t.scaled)
  }

  /** Over quick ticks the overflow shrinks by what they may recover, and stops at
      zero. */
  lemma {:induction false} QuickTicksRecover(t: Ticker, run: seq<nat>)
    requires t.recovery && t.overflow >= 0
    requires forall n | n in run :: n <= t.delay && t.scaled(Slack(n, t.delay)) >= 0
    ensures Recoverable(run, t) >= 0 && After(t, run).overflow == Max(0, t.overflow - Recoverable(run, t))
  {
    if run != [] {
      var init, last := run[..|run| - 1], run[|run| - 1];
      assert last in run && forall n | n in init :: n in run;
      QuickTicksRecover(t, init);
    }
  }

  function SlackOf(run: seq<nat>, delay: nat): nat {
    if run == [] then 0 else SlackOf(run[..|run| - 1], delay) + Slack(run[|run| - 1], delay)
  }

  /** If every tick recovers its whole slack, the overflow is gone once quick ticks
      have made up for it. */
  lemma {:induction false} FullRecovery(t: Ticker, run: seq<nat>)
    requires t.recovery && t.overflow >= 0
    requires forall n | n in run :: n <= t.delay && t.scaled(Slack(n, t.delay)) >= Slack(n, t.delay)
    ensures After(t, run).overflow == Max(0, t.overflow - SlackOf(run, t.delay))
  {
    QuickTicksRecover(t, run);
    AllSlack(t, run);
  }

  lemma {:induction false} AllSlack(t: Ticker, run: seq<nat>)
    requires forall n | n in run :: t.scaled(Slack(n, t.delay)) >= Slack(n, t.delay)
    ensures Recoverable(run, t) == SlackOf(run, t.delay)
  {
    if run != [] {
      var init, last := run[..|run| - 1], run[|run| - 1];
      assert last in run && forall n | n in init :: n in run;
      AllSlack(t, init);
    }
  }
}
