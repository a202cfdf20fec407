/** The binary rate limiter of src/shared/binary_rate_limiter.rs: a timed
    machine with a good and a bad mode. Clock readings are in milliseconds. */
module RateLimiting {
  import opened Bytes

  const MIN_GOOD_MODE_TIME_DELAY := 1000
  const MAX_GOOD_MODE_TIME_DELAY := 60000
  const RTT_THRESHOLD := 250

  /** About a third of the ticks: the formula of the constructor. */
  function MaxTick(rate: real): int
    requires rate > 0.0
  {
    (rate / (33.0 / (100.0 / rate))).Floor
  }

  /** The send rate cancels out: every third tick, whatever it is. */
  lemma MaxTickIsThree(rate: real)
    requires rate > 0.0
    ensures MaxTick(rate) == 3
  {
  }

  datatype Mode = Good | Bad

  datatype Limiter = Limiter(tick: nat, mode: Mode, lastBad: int, lastGood: int, goodDuration: int, delay: nat)

  function Fresh(now: int): Limiter {
    Limiter(0, Good, now, now, 0, MIN_GOOD_MODE_TIME_DELAY)
  }

  predicate Congested(l: Limiter) {
    l.mode == Bad
  }

  predicate ShouldSend(l: Limiter) {
    !Congested(l) || l.tick == 0
  }

  /** The current conditions, noted in the timers. */
  function Observe(l: Limiter, now: int, rtt: nat): Limiter {
    if rtt <= RTT_THRESHOLD then l.(goodDuration := l.goodDuration + (now - l.lastGood), lastGood := now)
    else l.(lastBad := now, goodDuration := 0)
  }

  function SwitchMode(l: Limiter, now: int, rtt: nat): Limiter {
    if l.mode == Good && rtt > RTT_THRESHOLD then
      l.(mode := Bad,
         delay := if now - l.lastBad < 10000 then Min(l.delay * 2, MAX_GOOD_MODE_TIME_DELAY) else l.delay)
    else if l.mode == Good then
      if l.goodDuration >= 10000 then
        l.(goodDuration := l.goodDuration - 10000, delay := Max(l.delay, MIN_GOOD_MODE_TIME_DELAY))
      else l
    else if now - l.lastBad > l.delay then l.(mode := Good)
    else l
  }

  function Updated(l: Limiter, now: int, rtt: nat): Limiter {
    var switched := SwitchMode(Observe(l, now, rtt), now, rtt);
    switched.(tick := if l.tick + 1 == 3 then 0 else l.tick + 1)
  }

  /** The first update under good conditions lets a packet through. */
  lemma FreshSends(now: int)
    ensures ShouldSend(Updated(Fresh(now), now, 0))
  {
  }

  class BinaryRateLimiter {
    const maxTick: int
    var tick: nat
    var mode: Mode
    var lastBadTime: int
    var lastGoodTime: int
    var goodTimeDuration: int
    var delayUntilGoodMode: nat

    constructor (sendRate: real, now: int)
      requires sendRate >= 1.0
      ensures State() == Fresh(now) && maxTick == 3
    {
      MaxTickIsThree(sendRate);
      tick, maxTick, mode := 0, MaxTick(sendRate), Good;
      lastBadTime, lastGoodTime := now, now;
      goodTimeDuration, delayUntilGoodMode := 0, MIN_GOOD_MODE_TIME_DELAY;
    }

    function State(): Limiter
      reads this
    {
      Limiter(tick, mode, lastBadTime, lastGoodTime, goodTimeDuration, delayUntilGoodMode)
    }

    method Update(now: int, rtt: nat)
      requires maxTick == 3
      modifies this
      ensures State() == Updated(old(State()), now, rtt)
    {
      var conditions := Bad;
      if rtt <= RTT_THRESHOLD {
        goodTimeDuration := goodTimeDuration + (now - lastGoodTime);
        lastGoodTime := now;
        conditions := Good;
      } else {
        lastBadTime := now;
        goodTimeDuration := 0;
      }
      match mode {
        case Good =>
          match conditions {
            case Bad =>
              mode := Bad;
              if now - lastBadTime < 10000 {
                delayUntilGoodMode := delayUntilGoodMode * 2;
                delayUntilGoodMode := Min(delayUntilGoodMode, MAX_GOOD_MODE_TIME_DELAY);
              }
            case Good =>
              if goodTimeDuration >= 10000 {
                goodTimeDuration := goodTimeDuration - 10000;
                delayUntilGoodMode := Max(delayUntilGoodMode, MIN_GOOD_MODE_TIME_DELAY);
              }
          }
        case Bad =>
          if now - lastBadTime > delayUntilGoodMode {
            mode := Good;
          }
      }
      tick := tick + 1;
      if tick == maxTick {
        tick := 0;
      }
    }

    method Reset(now: int)
      modifies this
      ensures State() == Fresh(now)
    {
      tick, mode := 0, Good;
      lastBadTime, lastGoodTime := now, now;
      goodTimeDuration, delayUntilGoodMode := 0, MIN_GOOD_MODE_TIME_DELAY;
    }
  }

  // ----- whole runs -----

  /** One call of `update`: the clock and the round trip time it sees. */
  datatype Reading = Reading(now: int, rtt: nat)

  function UpdateAll(l: Limiter, run: seq<Reading>): Limiter {
    if run == [] then l
    else Updated(UpdateAll(l, run[..|run| - 1]), run[|run| - 1].now, run[|run| - 1].rtt)
  }

  function ClockAfter(start: int, run: seq<Reading>): int {
    if run == [] then start else run[|run| - 1].now
  }

  predicate Monotone(start: int, run: seq<Reading>) {
    run == [] ||
    (Monotone(start, run[..|run| - 1]) && ClockAfter(start, run[..|run| - 1]) <= run[|run| - 1].now)
  }

  /** How often the mode went from `before` to the other one. */
  function Switches(l: Limiter, run: seq<Reading>, before: Mode): nat {
    if run == [] then 0
    else
      var init := UpdateAll(l, run[..|run| - 1]);
      Switches(l, run[..|run| - 1], before) +
      if init.mode == before && UpdateAll(l, run).mode != before then 1 else 0
  }

  /** The delay in force after `k` drops into bad mode. */
  function DelayAfter(k: nat): nat {
    Min(MIN_GOOD_MODE_TIME_DELAY * Pow2(k), MAX_GOOD_MODE_TIME_DELAY)
  }

  function DelaysUpTo(k: nat): nat {
    if k == 0 then 0 else DelaysUpTo(k - 1) + DelayAfter(k)
  }

  /** Every drop into bad mode doubles the delay up to a minute, and nothing ever
      halves it: the delay is a function of the number of drops alone. */
  lemma {:induction false} DelayCountsDrops(start: int, run: seq<Reading>)
    ensures UpdateAll(Fresh(start), run).delay == DelayAfter(Switches(Fresh(start), run, Good))
  {
    if run != [] {
      DelayCountsDrops(start, run[..|run| - 1]);
    }
  }

  /** Drops and returns take turns. */
  lemma {:induction false} DropsAndReturns(start: int, run: seq<Reading>)
    ensures Switches(Fresh(start), run, Good) ==
            Switches(Fresh(start), run, Bad) + if UpdateAll(Fresh(start), run).mode == Bad then 1 else 0
  {
    if run != [] {
      DropsAndReturns(start, run[..|run| - 1]);
    }
  }

  /** The time a number of returns must have taken at least: each bad phase
      outlasts, by a millisecond or more, the delay that its drop set. */
  function EarliestReturn(start: int, k: nat): int {
    start + DelaysUpTo(k) + k
  }

  /** Toggling is bounded: `k` completed returns to good mode take more than the
      sum of the first `k` delays, for every round trip time and clock. */
  lemma {:induction false} ReturnsTakeTime(start: int, run: seq<Reading>)
    requires Monotone(start, run)
    ensures var l, k := UpdateAll(Fresh(start), run), Switches(Fresh(start), run, Bad);
            EarliestReturn(start, k) <= ClockAfter(start, run) &&
            (l.mode == Bad ==> EarliestReturn(start, k) <= l.lastBad <= ClockAfter(start, run))
  {
    if run != [] {
      var init := run[..|run| - 1];
      ReturnsTakeTime(start, init);
      DelayCountsDrops(start, init);
      DropsAndReturns(start, init);
    }
  }

  // ----- dropping and recovering -----

  /** A reading above a quarter of a second drops the good mode, and nothing else
      does; the bad mode ends exactly if more than the delay has passed since the
      last such reading, the present one included. */
  lemma ModeExact(l: Limiter, now: int, rtt: nat)
    ensures l.mode == Good ==> (Updated(l, now, rtt).mode == Bad <==> rtt > 250)
    ensures l.mode == Bad ==> (Updated(l, now, rtt).mode == Good <==> now - (if rtt <= 250 then l.lastBad else now) > l.delay)
  {
  }

  /** The clock of the last reading above a quarter of a second, or the start. */
  function LastBadAt(start: int, run: seq<Reading>): int {
    if run == [] then start
    else if run[|run| - 1].rtt > 250 then run[|run| - 1].now
    else LastBadAt(start, run[..|run| - 1])
  }

  lemma {:induction false} LastBadIs(start: int, run: seq<Reading>)
    ensures UpdateAll(Fresh(start), run).lastBad == LastBadAt(start, run)
  {
    if run != [] {
      LastBadIs(start, run[..|run| - 1]);
    }
  }

  /** Over every run: in bad mode after `k` drops, the next reading returns to good
      mode exactly if it is good and more than min(1000 * 2^k, 60000) milliseconds
      have passed since the last bad one. */
  lemma RecoversIff(start: int, run: seq<Reading>, next: Reading, k: nat, l: Limiter)
    requires l == UpdateAll(Fresh(start), run) && l.mode == Bad && k == Switches(Fresh(start), run, Good)
    ensures UpdateAll(Fresh(start), run + [next]).mode == Good <==>
            next.rtt <= 250 && next.now - LastBadAt(start, run) > Min(1000 * Pow2(k), 60000)
  {
    hide Updated;
    DelayCountsDrops(start, run);
    LastBadIs(start, run);
    ModeExact(l, next.now, next.rtt);
    assert (run + [next])[..|run|] == run;
  }

  // ----- sending while congested -----

  /** Every update of the run ends in bad mode. */
  predicate StaysBad(l: Limiter, run: seq<Reading>) {
    run == [] || (StaysBad(l, run[..|run| - 1]) && UpdateAll(l, run).mode == Bad)
  }

  function Sends(l: Limiter, run: seq<Reading>): nat {
    if run == [] then 0
    else Sends(l, run[..|run| - 1]) + if ShouldSend(UpdateAll(l, run)) then 1 else 0
  }

  /** A congested connection sends exactly every third packet. */
  lemma {:induction false} CongestedSendsOneInThree(l: Limiter, run: seq<Reading>)
    requires l.tick < 3 && StaysBad(l, run)
    ensures UpdateAll(l, run).tick == (l.tick + |run|) % 3
    ensures Sends(l, run) == (l.tick + |run|) / 3
    ensures |run| / 3 <= Sends(l, run) <= (|run| + 2) / 3
  {
    if run != [] {
      CongestedSendsOneInThree(l, run[..|run| - 1]);
    }
  }
}
