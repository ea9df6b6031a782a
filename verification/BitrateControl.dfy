/**
 The conservative bitrate controller: pressure on the sender lowers the rate at once, and only a long quiet
 period raises it again. Durations are milliseconds and rates kbps.
 */
module BitrateControl {
  import opened Common

  datatype Config = Config(minRate: nat, initialRate: nat, maxRate: nat, decreasePercent: nat, increaseStep: nat,
                           stableMs: nat, holdMs: nat, congestedDepth: nat, stableDepth: nat) {
    predicate Usable() {
      && 0 < minRate <= initialRate <= maxRate
      && 0 < decreasePercent < 100 && increaseStep > 0 && stableMs > 0
      && congestedDepth > stableDepth
    }
  }

  function DefaultConfig(): Config { Config(300, 1200, 1200, 15, 80, 8000, 3000, 2, 1) }

  /** All counts are increments over one sample period. */
  datatype Feedback = Feedback(durationMs: nat, depth: nat, drops: nat, failures: nat)

  datatype Controller = Controller(config: Config, rate: nat, stableMs: nat, holdMs: nat, ready: bool)

  function Idle(): Controller { Controller(DefaultConfig(), 0, 0, 0, false) }

  function Initialize(config: Config): Controller {
    if config.Usable() then Controller(config, config.initialRate, 0, 0, true) else Idle()
  }

  function Reset(c: Controller): Controller {
    c.(stableMs := 0, holdMs := 0, rate := if c.ready then c.config.initialRate else c.rate)
  }

  predicate Congested(c: Config, f: Feedback) { f.drops > 0 || f.failures > 0 || f.depth >= c.congestedDepth }

  predicate Stable(c: Config, f: Feedback) { f.drops == 0 && f.failures == 0 && f.depth <= c.stableDepth }

  /** Feedback without a duration, or without a configuration, is ignored. */
  predicate Heard(c: Controller, f: Feedback) { c.ready && f.durationMs > 0 }

  function Reduced(c: Config, rate: nat): nat {
    if rate <= c.minRate then c.minRate
    else
      var reduction := Max(rate * c.decreasePercent / 100, 1);
      if reduction >= rate - c.minRate then c.minRate else rate - reduction
  }

  function Update(c: Controller, f: Feedback): (Controller, Option<nat>) {
    if !Heard(c, f) then (c, None)
    else if Congested(c.config, f) then Decrease(c)
    else if c.holdMs > 0 then
      (c.(holdMs := if f.durationMs >= c.holdMs then 0 else c.holdMs - f.durationMs, stableMs := 0), None)
    else if !Stable(c.config, f) then (c.(stableMs := 0), None)
    else if c.stableMs + f.durationMs < c.config.stableMs then (c.(stableMs := c.stableMs + f.durationMs), None)
    else if c.rate >= c.config.maxRate then (c.(stableMs := 0), None)
    else
      var rate := Min(c.rate + c.config.increaseStep, c.config.maxRate);
      (c.(stableMs := 0, rate := rate), Some(rate))
  }

  function Decrease(c: Controller): (Controller, Option<nat>) {
    var held := c.(stableMs := 0, holdMs := c.config.holdMs);
    var reduced := Reduced(c.config, c.rate);
    if reduced >= c.rate then (held, None) else (held.(rate := reduced), Some(reduced))
  }

  function UpdateAll(c: Controller, run: seq<Feedback>): Controller {
    if run == [] then c else Update(UpdateAll(c, run[..|run| - 1]), run[|run| - 1]).0
  }

  // ---------- the rate stays in range ----------

  predicate Sound(c: Controller) {
    c.ready ==>
      && c.config.Usable() && c.config.minRate <= c.rate <= c.config.maxRate
      && c.stableMs < c.config.stableMs && c.holdMs <= c.config.holdMs
  }

  /** An update answers with a rate exactly when it changes it, and then with the new one. */
  lemma UpdateSound(c: Controller, f: Feedback)
    requires Sound(c)
    ensures var (n, answer) := Update(c, f);
      && Sound(n) && n.config == c.config && n.ready == c.ready
      && (answer.Some? <==> n.rate != c.rate) && (answer.Some? ==> answer.value == n.rate && c.ready)
      && (n.rate > c.rate ==> !Congested(c.config, f) && c.holdMs == 0 && n.rate <= c.rate + c.config.increaseStep)
  {
  }

  lemma {:induction false} RunSound(c: Controller, run: seq<Feedback>)
    requires Sound(c)
    ensures var n := UpdateAll(c, run); Sound(n) && n.config == c.config && n.ready == c.ready
  {
    if run == [] {
    } else {
      RunSound(c, run[..|run| - 1]);
      UpdateSound(UpdateAll(c, run[..|run| - 1]), run[|run| - 1]);
    }
  }

  // ---------- congestion lowers it ----------

  lemma CongestionLowers(c: Controller, f: Feedback)
    requires Sound(c) && Heard(c, f) && Congested(c.config, f)
    ensures var n := Update(c, f).0;
      && n.holdMs == c.config.holdMs && n.stableMs == 0
      && (if c.rate > c.config.minRate then c.config.minRate <= n.rate < c.rate else n.rate == c.config.minRate)
  {
  }

  /** One cut takes the configured share of the rate, rounded down but at least one, as far as the minimum allows. */
  lemma CutSize(c: Config, rate: nat)
    requires c.Usable() && rate > c.minRate
    ensures var cut, share := rate - Reduced(c, rate), rate * c.decreasePercent;
      && 1 <= cut <= rate - c.minRate
      && (cut < rate - c.minRate ==> 100 * (cut - 1) < share < 100 * (cut + 1) && (cut > 1 ==> 100 * cut <= share))
      && (cut == rate - c.minRate > 1 ==> 100 * cut <= share)
  {
  }

  /** A drop, a failed send or a deep queue alone lowers the rate, and nothing else does. */
  lemma LowersExactly(c: Controller, f: Feedback)
    requires Sound(c)
    ensures Update(c, f).0.rate < c.rate <==>
              && c.ready && f.durationMs > 0 && c.rate > c.config.minRate
              && (f.drops > 0 || f.failures > 0 || f.depth >= c.config.congestedDepth)
    ensures Update(c, f).0.rate < c.rate ==> Update(c, f).0.rate == Reduced(c.config, c.rate)
  {
    if Heard(c, f) && Congested(c.config, f) {
      CongestionLowers(c, f);
    }
  }

  /** Congestion without a break brings the rate down strictly with each update until the minimum is reached. */
  lemma {:induction false} CongestionReachesMinimum(c: Controller, run: seq<Feedback>)
    requires Sound(c) && c.ready
    requires forall i :: 0 <= i < |run| ==> run[i].durationMs > 0 && Congested(c.config, run[i])
    ensures UpdateAll(c, run).rate <= Max(c.config.minRate, c.rate - |run|)
    ensures |run| >= c.rate - c.config.minRate ==> UpdateAll(c, run).rate == c.config.minRate
  {
    RunSound(c, run);
    if run == [] {
    } else {
      CongestionReachesMinimum(c, run[..|run| - 1]);
      RunSound(c, run[..|run| - 1]);
      CongestionLowers(UpdateAll(c, run[..|run| - 1]), run[|run| - 1]);
    }
  }

  // ---------- recovery is slow ----------

  function Duration(run: seq<Feedback>): nat {
    if run == [] then 0 else Duration(run[..|run| - 1]) + run[|run| - 1].durationMs
  }

  /** `elapsed` milliseconds after congestion, the hold and the quiet time counted so far fit into them. */
  predicate HeldSince(c: Controller, elapsed: nat) { c.config.holdMs + c.stableMs <= elapsed + c.holdMs }

  lemma HeldSinceKept(c: Controller, f: Feedback, elapsed: nat)
    requires HeldSince(c, elapsed)
    ensures HeldSince(Update(c, f).0, elapsed + f.durationMs)
    ensures Update(c, f).0.rate > c.rate && Sound(c) ==> c.config.holdMs + c.config.stableMs <= elapsed + f.durationMs
  {
  }

  lemma {:induction false} RunHeld(c: Controller, run: seq<Feedback>)
    requires HeldSince(c, 0)
    ensures HeldSince(UpdateAll(c, run), Duration(run))
  {
    if run == [] {
    } else {
      RunHeld(c, run[..|run| - 1]);
      HeldSinceKept(UpdateAll(c, run[..|run| - 1]), run[|run| - 1], Duration(run[..|run| - 1]));
    }
  }

  /**
   On every run, from congestion to any later increase the sample durations, the raising one included, add up
   to the hold time and the quiet time.
   */
  lemma RecoveryIsSlow(c: Controller, congestion: Feedback, between: seq<Feedback>, last: Feedback)
    requires Sound(c) && Heard(c, congestion) && Congested(c.config, congestion)
    requires var before := UpdateAll(Update(c, congestion).0, between); Update(before, last).0.rate > before.rate
    ensures Duration(between) + last.durationMs >= c.config.holdMs + c.config.stableMs
  {
    var low := Update(c, congestion).0;
    CongestionLowers(c, congestion);
    UpdateSound(c, congestion);
    RunHeld(low, between);
    RunSound(low, between);
    HeldSinceKept(UpdateAll(low, between), last, Duration(between));
  }

  /** Two increases are at least a quiet period apart. */
  lemma IncreasesApart(c: Controller, first: Feedback, between: seq<Feedback>, last: Feedback)
    requires Sound(c) && Update(c, first).0.rate > c.rate
    requires var before := UpdateAll(Update(c, first).0, between); Update(before, last).0.rate > before.rate
    ensures Duration(between) + last.durationMs >= c.config.stableMs
  {
    var high := Update(c, first).0;
    UpdateSound(c, first);
    RunQuiet(high, between);
    RunSound(high, between);
  }

  /** A period that is not quiet, pressure or not, starts the quiet time afresh. */
  lemma UnquietRestarts(c: Controller, unquiet: Feedback, between: seq<Feedback>, last: Feedback)
    requires Sound(c) && Heard(c, unquiet) && !Stable(c.config, unquiet)
    requires var before := UpdateAll(Update(c, unquiet).0, between); Update(before, last).0.rate > before.rate
    ensures Duration(between) + last.durationMs >= c.config.stableMs
  {
    var restarted := Update(c, unquiet).0;
    UpdateSound(c, unquiet);
    RunQuiet(restarted, between);
    RunSound(restarted, between);
  }

  lemma {:induction false} RunQuiet(c: Controller, run: seq<Feedback>)
    requires c.stableMs == 0
    ensures UpdateAll(c, run).stableMs <= Duration(run)
  {
    if run == [] {
    } else {
      RunQuiet(c, run[..|run| - 1]);
    }
  }

  // ---------- recovery happens ----------

  ghost predicate Calm(c: Config, run: seq<Feedback>) {
    forall i :: 0 <= i < |run| ==> run[i].durationMs > 0 && Stable(c, run[i])
  }

  lemma CalmPrefix(c: Config, run: seq<Feedback>, n: nat)
    requires Calm(c, run) && n <= |run|
    ensures Calm(c, run[..n])
  {
  }

  /** While the calm periods do not fill the hold, they only use it up. */
  lemma {:induction false} HoldRunsOut(c: Controller, run: seq<Feedback>)
    requires Sound(c) && c.ready && c.stableMs == 0 && Calm(c.config, run)
    requires run != [] ==> Duration(run[..|run| - 1]) < c.holdMs
    ensures UpdateAll(c, run) == c.(holdMs := Max(c.holdMs - Duration(run), 0))
  {
    if run == [] {
    } else {
      var k := |run| - 1;
      CalmPrefix(c.config, run, k);
      assert k > 0 ==> Duration(run[..k][..k - 1]) <= Duration(run[..k]) by {
        assert k > 0 ==> Duration(run[..k]) == Duration(run[..k][..k - 1]) + run[..k][k - 1].durationMs;
      }
      HoldRunsOut(c, run[..k]);
      assert Stable(c.config, run[k]);
    }
  }

  /** Without a hold, calm periods add up until they fill the quiet time. */
  lemma {:induction false} QuietAddsUp(c: Controller, run: seq<Feedback>)
    requires Sound(c) && c.ready && c.stableMs == 0 && c.holdMs == 0 && Calm(c.config, run)
    requires Duration(run) < c.config.stableMs
    ensures UpdateAll(c, run) == c.(stableMs := Duration(run))
  {
    if run == [] {
    } else {
      var k := |run| - 1;
      CalmPrefix(c.config, run, k);
      QuietAddsUp(c, run[..k]);
      assert Stable(c.config, run[k]);
    }
  }

  lemma {:induction false} UpdateAllConcat(c: Controller, xs: seq<Feedback>, ys: seq<Feedback>)
    ensures UpdateAll(c, xs + ys) == UpdateAll(UpdateAll(c, xs), ys)
  {
    if ys == [] {
      assert xs + ys == xs;
    } else {
      assert (xs + ys)[..|xs + ys| - 1] == xs + ys[..|ys| - 1];
      UpdateAllConcat(c, xs, ys[..|ys| - 1]);
    }
  }

  /**
   After congestion below the maximum, calm periods that first use up the hold and then fill the quiet time
   raise the rate by one step, at the period that completes it and not before.
   */
  lemma RecoveryHappens(c: Controller, congestion: Feedback, hold: seq<Feedback>, quiet: seq<Feedback>, last: Feedback)
    requires Sound(c) && Heard(c, congestion) && Congested(c.config, congestion)
    requires Calm(c.config, hold) && Calm(c.config, quiet) && last.durationMs > 0 && Stable(c.config, last)
    requires Duration(hold) >= c.config.holdMs && (hold != [] ==> Duration(hold[..|hold| - 1]) < c.config.holdMs)
    requires Duration(quiet) < c.config.stableMs <= Duration(quiet) + last.durationMs
    ensures var low := Update(c, congestion).0;
      var before := UpdateAll(low, hold + quiet);
      && before.rate == low.rate
      && Update(before, last).0.rate == Min(low.rate + c.config.increaseStep, c.config.maxRate)
  {
    var low := Update(c, congestion).0;
    CongestionLowers(c, congestion);
    UpdateSound(c, congestion);
    HoldRunsOut(low, hold);
    UpdateAllConcat(low, hold, quiet);
    RunSound(low, hold);
    QuietAddsUp(UpdateAll(low, hold), quiet);
  }

  /** A controller whose range is one rate never asks for another. */
  lemma PinnedStays(c: Controller, f: Feedback)
    requires Sound(c) && c.ready && c.config.minRate == c.config.maxRate
    ensures Update(c, f).1 == None && Update(c, f).0.rate == c.rate
  {
  }
}
