/**
 The target buffer of the adaptive jitter controller: raised at once when arrivals are uneven or playback runs
 dry, lowered one step for each stable window. All times are 64-bit microseconds; that no intermediate value
 leaves that range is part of what the types of these functions say.
 */
module JitterTarget {
  import opened Common

  const I64_MAX := 0x7FFF_FFFF_FFFF_FFFF

  type I64 = x: int | -I64_MAX - 1 <= x <= I64_MAX

  datatype Config = Config(minTarget: I64, initialTarget: I64, maxTarget: I64, safetyMargin: I64, multiplier: nat,
                           hysteresis: I64, underrunIncrease: I64, lateIncrease: I64, window: I64, step: I64) {
    predicate Usable() {
      && 0 < minTarget <= initialTarget <= maxTarget
      && 0 <= safetyMargin <= maxTarget - minTarget
      && 0 < multiplier < 0x1_0000_0000
      && 0 <= hysteresis <= maxTarget - minTarget
      && underrunIncrease > 0 && lateIncrease > 0 && window > 0 && step > 0
    }
  }

  function DefaultConfig(): Config {
    Config(60_000, 120_000, 250_000, 20_000, 4, 5_000, 30_000, 10_000, 5_000_000, 5_000)
  }

  datatype Counts = Counts(samples: nat, ignored: nat, underruns: nat, late: nat,
                           raises: nat, cuts: nat, resets: nat)

  datatype Jitter = Jitter(latest: I64, estimate: I64, maximum: I64)

  datatype Baseline = NoBaseline | Baseline(media: I64, arrival: I64)

  datatype Controller = Controller(config: Config, baseline: Baseline, stable: I64, jitter: Jitter, target: I64,
                                   counts: Counts)

  function Create(wanted: Config): Controller {
    var config := if wanted.Usable() then wanted else DefaultConfig();
    Controller(config, NoBaseline, 0, Jitter(0, 0, 0), config.initialTarget, Counts(0, 0, 0, 0, 0, 0, 0))
  }

  function SaturatingAdd(left: I64, right: I64): I64 {
    if right > 0 && left > I64_MAX - right then I64_MAX
    else if right < 0 && left < -I64_MAX - 1 - right then -I64_MAX - 1
    else left + right
  }

  function ClampTarget(c: Config, target: I64): I64
    requires c.Usable()
  {
    if target < c.minTarget then c.minTarget else if target > c.maxTarget then c.maxTarget else target
  }

  function JitterMargin(c: Config, estimate: I64): I64
    requires c.Usable()
  {
    var positive := Max(estimate, 0);
    if positive > I64_MAX / c.multiplier then I64_MAX
    else
      MarginFits(positive, c.multiplier);
      positive * c.multiplier
  }

  lemma MarginFits(estimate: nat, multiplier: nat)
    requires multiplier > 0
    ensures estimate <= I64_MAX / multiplier <==> estimate * multiplier <= I64_MAX
  {
    var q := I64_MAX / multiplier;
    assert q * multiplier <= I64_MAX < q * multiplier + multiplier;
    if estimate <= q {
      ProductMonotone(estimate, q, multiplier);
    } else {
      ProductMonotone(q + 1, estimate, multiplier);
      NextProduct(q, multiplier);
    }
  }

  lemma NextProduct(n: nat, size: int)
    ensures (n + 1) * size == n * size + size
  {
  }

  lemma SumProduct(m: nat, n: nat, size: int)
    ensures (m + n) * size == m * size + n * size
  {
  }

  /** What the buffer should hold for the current jitter. */
  function Desired(s: Controller): I64
    requires s.config.Usable()
  {
    var base := SaturatingAdd(s.config.minTarget, s.config.safetyMargin);
    ClampTarget(s.config, SaturatingAdd(base, JitterMargin(s.config, s.jitter.estimate)))
  }

  function Increase(s: Controller, requested: I64): Controller
    requires s.config.Usable()
  {
    var target := ClampTarget(s.config, requested);
    if target <= s.target || target - s.target < s.config.hysteresis then s
    else s.(target := target, stable := 0, counts := s.counts.(raises := s.counts.raises + 1))
  }

  function Decrease(s: Controller): Controller
    requires InRange(s)
  {
    if s.target <= Desired(s) then s
    else
      var stepped: I64 := Max(Desired(s), s.target - s.config.step);
      if s.target - stepped < s.config.hysteresis then s
      else s.(target := ClampTarget(s.config, stepped), counts := s.counts.(cuts := s.counts.cuts + 1))
  }

  predicate InRange(s: Controller) { s.config.Usable() && s.config.minTarget <= s.target <= s.config.maxTarget }

  function Smoothed(estimate: I64, sample: I64): I64
    requires estimate >= 0 && sample >= 0
  {
    estimate + TruncDiv(sample - estimate, 16)
  }

  predicate Ordered(b: Baseline) { b.Baseline? ==> b.media > 0 && b.arrival > 0 }

  predicate Sampled(s: Controller, media: I64, arrival: I64) {
    media > 0 && arrival > 0 && s.baseline.Baseline? && media > s.baseline.media && arrival >= s.baseline.arrival
  }

  function Sample(b: Baseline, media: I64, arrival: I64): (sample: I64)
    requires b.Baseline? && Ordered(b) && media > b.media && arrival >= b.arrival
    ensures sample >= 0
  {
    var mediaInterval: I64 := media - b.media;
    var arrivalInterval: I64 := arrival - b.arrival;
    Abs(arrivalInterval - mediaInterval)
  }

  function Ignore(s: Controller): Controller { s.(counts := s.counts.(ignored := s.counts.ignored + 1)) }

  function Record(s: Controller, media: I64, arrival: I64): Controller
    requires Ordered(s.baseline) && Sampled(s, media, arrival) && s.jitter.estimate >= 0
  {
    var sample := Sample(s.baseline, media, arrival);
    s.(baseline := Baseline(media, arrival),
       jitter := Jitter(sample, Smoothed(s.jitter.estimate, sample), Max(s.jitter.maximum, sample)),
       counts := s.counts.(samples := s.counts.samples + 1))
  }

  function ObserveArrival(s: Controller, media: I64, arrival: I64): Controller
    requires Sound(s)
  {
    if media <= 0 || arrival <= 0 then Ignore(s)
    else if s.baseline.NoBaseline? then s.(baseline := Baseline(media, arrival))
    else if !Sampled(s, media, arrival) then Ignore(s)
    else
      var recorded := Record(s, media, arrival);
      Increase(recorded, Desired(recorded))
  }

  function NotifyUnderrun(s: Controller, missing: I64): Controller
    requires Sound(s)
  {
    if missing <= 0 then s
    else
      var counted := s.(stable := 0, counts := s.counts.(underruns := s.counts.underruns + 1));
      Increase(counted, SaturatingAdd(s.target, Max(s.config.underrunIncrease, missing)))
  }

  function NotifyLateFrame(s: Controller): Controller
    requires Sound(s)
  {
    var counted := s.(stable := 0, counts := s.counts.(late := s.counts.late + 1));
    Increase(counted, SaturatingAdd(s.target, s.config.lateIncrease))
  }

  /** Uses up complete stable windows, one step down each, until one brings no change. */
  function Settle(s: Controller): (n: Controller)
    requires InRange(s) && s.stable >= 0
    ensures InRange(n) && n.config == s.config && 0 <= n.stable < s.config.window
    decreases s.stable
  {
    if s.stable < s.config.window then s
    else
      var lowered := Decrease(s.(stable := s.stable - s.config.window));
      DecreaseInRange(s.(stable := s.stable - s.config.window));
      if lowered.target == s.target then lowered.(stable := 0) else Settle(lowered)
  }

  function NotifyStablePlayback(s: Controller, played: I64): (n: Controller)
    requires InRange(s) && 0 <= s.stable < s.config.window
    ensures InRange(n) && n.config == s.config && 0 <= n.stable < s.config.window
  {
    if played <= 0 then s else Settle(s.(stable := SaturatingAdd(s.stable, played)))
  }

  function Reset(s: Controller): Controller {
    s.(baseline := NoBaseline, stable := 0, jitter := s.jitter.(latest := 0, estimate := 0),
       target := s.config.initialTarget, counts := s.counts.(resets := s.counts.resets + 1))
  }

  // ---------- what every operation keeps ----------

  predicate Sound(s: Controller) {
    && InRange(s) && Ordered(s.baseline)
    && 0 <= s.stable < s.config.window
    && 0 <= s.jitter.estimate <= s.jitter.maximum && 0 <= s.jitter.latest <= s.jitter.maximum
  }

  lemma DecreaseInRange(s: Controller)
    requires InRange(s)
    ensures var n := Decrease(s);
      && InRange(n) && n.config == s.config && n.stable == s.stable && n.jitter == s.jitter
      && n.baseline == s.baseline
      && (n.target != s.target ==> Desired(s) <= n.target && n.target + Max(s.config.hysteresis, 1) <= s.target)
      && s.target - s.config.step <= n.target <= s.target
  {
  }

  lemma {:induction false} SettleKeeps(s: Controller)
    requires InRange(s) && s.stable >= 0
    ensures var n := Settle(s);
      && n.jitter == s.jitter && n.baseline == s.baseline
      && (n.target != s.target ==> Desired(s) <= n.target && n.target + Max(s.config.hysteresis, 1) <= s.target)
    decreases s.stable
  {
    if s.stable >= s.config.window {
      var spent := s.(stable := s.stable - s.config.window);
      DecreaseInRange(spent);
      if Decrease(spent).target != s.target {
        SettleKeeps(Decrease(spent));
      }
    }
  }

  datatype Event =
    | Arrival(media: I64, arrival: I64)
    | Underrun(missing: I64)
    | LateFrame
    | Stable(played: I64)
    | Restart

  function Perform(s: Controller, e: Event): Controller
    requires Sound(s)
  {
    match e
    case Arrival(media, arrival) => ObserveArrival(s, media, arrival)
    case Underrun(missing) => NotifyUnderrun(s, missing)
    case LateFrame => NotifyLateFrame(s)
    case Stable(played) => NotifyStablePlayback(s, played)
    case Restart => Reset(s)
  }

  /** A change of the target is at least the hysteresis, up on trouble and down on stable playback only. */
  predicate Steady(s: Controller, e: Event, n: Controller) {
    match e
    case Restart => n.target == s.config.initialTarget
    case Stable(_) => n.target != s.target ==> n.target + Max(s.config.hysteresis, 1) <= s.target
    case _ => n.target != s.target ==> n.target >= s.target + Max(s.config.hysteresis, 1)
  }

  lemma SmoothedBetween(estimate: I64, sample: I64)
    requires estimate >= 0 && sample >= 0
    ensures Min(estimate, sample) <= Smoothed(estimate, sample) <= Max(estimate, sample)
  {
  }

  lemma PerformKeeps(s: Controller, e: Event)
    requires Sound(s)
    ensures Sound(Perform(s, e)) && Perform(s, e).config == s.config && Steady(s, e, Perform(s, e))
    ensures Perform(s, e).jitter.maximum >= s.jitter.maximum
  {
    match e {
      case Arrival(media, arrival) =>
        if Sampled(s, media, arrival) {
          SmoothedBetween(s.jitter.estimate, Sample(s.baseline, media, arrival));
        }
      case Stable(played) =>
        if played > 0 {
          SettleKeeps(s.(stable := SaturatingAdd(s.stable, played)));
        }
      case _ =>
    }
  }

  ghost function Run(wanted: Config, run: seq<Event>): (s: Controller)
    ensures Sound(s) && s.config == Create(wanted).config
    decreases |run|
  {
    if run == [] then Create(wanted)
    else
      var before := Run(wanted, run[..|run| - 1]);
      PerformKeeps(before, run[|run| - 1]);
      Perform(before, run[|run| - 1])
  }

  /** The largest arrival deviation the controller has taken as a sample on a run. */
  ghost function LargestSample(wanted: Config, run: seq<Event>): nat
    decreases |run|
  {
    if run == [] then 0
    else
      var before, e := Run(wanted, run[..|run| - 1]), run[|run| - 1];
      var earlier := LargestSample(wanted, run[..|run| - 1]);
      if e.Arrival? && Sampled(before, e.media, e.arrival)
      then Max(earlier, Sample(before.baseline, e.media, e.arrival))
      else earlier
  }

  /**
   On every run from any configuration, the target is within its bounds, the stable time is less than a window
   and the jitter estimate is between zero and the largest sample seen.
   */
  lemma {:induction false} RunBounds(wanted: Config, run: seq<Event>)
    ensures var s := Run(wanted, run);
      && s.config.minTarget <= s.target <= s.config.maxTarget
      && 0 <= s.stable < s.config.window
      && 0 <= s.jitter.estimate <= LargestSample(wanted, run)
      && s.jitter.maximum == LargestSample(wanted, run)
  {
    if run == [] {
    } else {
      RunBounds(wanted, run[..|run| - 1]);
      var before, e := Run(wanted, run[..|run| - 1]), run[|run| - 1];
      PerformKeeps(before, e);
      MaximumFollows(before, e);
    }
  }

  lemma MaximumFollows(s: Controller, e: Event)
    requires Sound(s)
    ensures Perform(s, e).jitter.maximum ==
      if e.Arrival? && Sampled(s, e.media, e.arrival) then Max(s.jitter.maximum, Sample(s.baseline, e.media, e.arrival))
      else s.jitter.maximum
  {
    if e.Stable? && e.played > 0 {
      SettleKeeps(s.(stable := SaturatingAdd(s.stable, e.played)));
    }
  }

  /** Saturation never shows: the desired target is the plain sum, cut off at the maximum. */
  lemma DesiredIsExact(s: Controller)
    requires Sound(s)
    ensures Desired(s) == Min(s.config.maxTarget,
                              s.config.minTarget + s.config.safetyMargin + s.config.multiplier * s.jitter.estimate)
  {
    MarginFits(s.jitter.estimate, s.config.multiplier);
    assert s.config.multiplier * s.jitter.estimate >= 0;
  }

  /** An underrun raises the target by what was missing, up to the maximum, unless that is within the hysteresis. */
  lemma UnderrunRaises(s: Controller, missing: I64)
    requires Sound(s) && missing > 0
    ensures var n := NotifyUnderrun(s, missing);
      var wanted := Min(s.config.maxTarget, s.target + Max(s.config.underrunIncrease, missing));
      && n.stable == 0
      && n.target == if wanted - s.target < s.config.hysteresis then s.target else wanted
  {
  }

  /** The average moves by a sixteenth of the difference. */
  lemma SmoothedGain(estimate: I64, sample: I64)
    requires estimate >= 0 && sample >= 0
    ensures Abs(16 * (Smoothed(estimate, sample) - estimate) - (sample - estimate)) < 16
  {
  }

  /** What an arrival asks for is what the new estimate asks for, unless that is within the hysteresis. */
  lemma ArrivalRaises(s: Controller, media: I64, arrival: I64)
    requires Sound(s) && Sampled(s, media, arrival)
    ensures var n := ObserveArrival(s, media, arrival);
      var wanted := Min(s.config.maxTarget,
                        s.config.minTarget + s.config.safetyMargin + s.config.multiplier * n.jitter.estimate);
      && n.target == (if wanted <= s.target || wanted - s.target < s.config.hysteresis then s.target else wanted)
      && n.stable == if n.target == s.target then s.stable else 0
  {
    var recorded := Record(s, media, arrival);
    SmoothedBetween(s.jitter.estimate, Sample(s.baseline, media, arrival));
    DesiredIsExact(recorded);
  }

  /** A late frame raises the target by the configured amount within the maximum, unless within the hysteresis. */
  lemma LateFrameRaises(s: Controller)
    requires Sound(s)
    ensures var n := NotifyLateFrame(s);
      var wanted := Min(s.config.maxTarget, s.target + s.config.lateIncrease);
      && n.stable == 0
      && n.target == if wanted - s.target < s.config.hysteresis then s.target else wanted
  {
  }

  /** All frames take equally long. */
  ghost predicate EvenlyPaced(run: seq<Event>, transit: int) {
    forall i :: 0 <= i < |run| ==> run[i].Arrival? && run[i].arrival - run[i].media == transit
  }

  /** Evenly paced arrivals are no jitter at all, however far apart they are. */
  lemma {:induction false} EvenArrivals(wanted: Config, run: seq<Event>, transit: int)
    requires EvenlyPaced(run, transit)
    ensures var s := Run(wanted, run);
      && (s.baseline.Baseline? ==> s.baseline.arrival - s.baseline.media == transit)
      && s.jitter == Jitter(0, 0, 0) && LargestSample(wanted, run) == 0
  {
    if run == [] {
    } else {
      var before, e := run[..|run| - 1], run[|run| - 1];
      EvenArrivals(wanted, before, transit);
      assert e.Arrival? && e.arrival - e.media == transit;
    }
  }

  /** After evenly paced arrivals, a frame that takes longer or shorter by `change` gives that as the sample. */
  lemma OddArrival(wanted: Config, run: seq<Event>, transit: int, odd: Event)
    requires EvenlyPaced(run, transit) && TakesSample(Run(wanted, run), odd)
    ensures var change := odd.arrival - odd.media - transit;
      var n := Perform(Run(wanted, run), odd);
      n.jitter.latest == Abs(change) && n.jitter.estimate == Abs(change) / 16
  {
    EvenArrivals(wanted, run, transit);
  }

  /** A reset forgets the jitter and the last arrival: the next one is no sample, whenever it comes. */
  lemma RestartForgets(s: Controller, media: I64, arrival: I64)
    requires Sound(s) && media > 0 && arrival > 0
    ensures var n := Perform(Perform(s, Restart), Arrival(media, arrival));
      && n.jitter.estimate == n.jitter.latest == 0 && n.target == s.config.initialTarget && n.stable == 0
      && n.baseline == Baseline(media, arrival)
  {
  }

  // ---------- the target covers the jitter ----------

  /** The target is at least the desired one, or less than the hysteresis below it. */
  predicate Covers(s: Controller)
    requires s.config.Usable()
  {
    Desired(s) - s.target < Max(s.config.hysteresis, 1)
  }

  predicate TakesSample(s: Controller, e: Event) { e.Arrival? && Sampled(s, e.media, e.arrival) }

  lemma SampleCovers(s: Controller, e: Event)
    requires Sound(s) && TakesSample(s, e)
    ensures Covers(Perform(s, e))
  {
    var recorded := Record(s, e.media, e.arrival);
    var n := Increase(recorded, Desired(recorded));
    assert n.jitter == recorded.jitter && n.config == recorded.config;
    assert Desired(n) == Desired(recorded);
  }

  lemma CoversKept(s: Controller, e: Event)
    requires Sound(s) && Covers(s) && !e.Restart?
    ensures Covers(Perform(s, e))
  {
    if TakesSample(s, e) {
      SampleCovers(s, e);
    } else if e.Stable? && e.played > 0 {
      SettleKeeps(s.(stable := SaturatingAdd(s.stable, e.played)));
    }
  }

  /**
   From the first arrival sample on, whatever happens except a reset, the target covers what the current
   jitter estimate asks for, up to the hysteresis.
   */
  lemma {:induction false} NeverTooSmall(wanted: Config, before: seq<Event>, sample: Event, after: seq<Event>)
    requires TakesSample(Run(wanted, before), sample)
    requires forall i :: 0 <= i < |after| ==> !after[i].Restart?
    ensures Covers(Run(wanted, before + [sample] + after))
    decreases |after|
  {
    if after == [] {
      RunAppend(wanted, before, sample);
      SampleCovers(Run(wanted, before), sample);
      assert before + [sample] + [] == before + [sample];
    } else {
      var k := |after| - 1;
      NeverTooSmall(wanted, before, sample, after[..k]);
      RunAppend(wanted, before + [sample] + after[..k], after[k]);
      CoversKept(Run(wanted, before + [sample] + after[..k]), after[k]);
      assert before + [sample] + after == before + [sample] + after[..k] + [after[k]];
    }
  }

  lemma RunAppend(wanted: Config, run: seq<Event>, e: Event)
    ensures Run(wanted, run + [e]) == Perform(Run(wanted, run), e)
  {
    assert (run + [e])[..|run|] == run;
  }

  // ---------- stable playback converges ----------

  /** Nothing is left to lower: the target is at most the desired one or within the hysteresis above it. */
  predicate Settled(s: Controller)
    requires s.config.Usable()
  {
    s.target <= Desired(s) || s.target - Desired(s) < s.config.hysteresis
  }

  /** What one notification adds to the stable time at least, even where the sum saturates. */
  function Credit(c: Config, played: I64): nat
    requires c.Usable()
  {
    if played <= 0 then 0 else Min(played, I64_MAX - c.window + 1)
  }

  function Credits(c: Config, run: seq<I64>): nat
    requires c.Usable()
  {
    if run == [] then 0 else Credits(c, run[..|run| - 1]) + Credit(c, run[|run| - 1])
  }

  function StableAll(s: Controller, run: seq<I64>): (n: Controller)
    requires InRange(s) && 0 <= s.stable < s.config.window
    ensures InRange(n) && 0 <= n.stable < n.config.window && n.config == s.config && n.jitter == s.jitter
    decreases |run|
  {
    if run == [] then s
    else
      var before := StableAll(s, run[..|run| - 1]);
      var played := run[|run| - 1];
      if played <= 0 then before
      else
        SettleKeeps(before.(stable := SaturatingAdd(before.stable, played)));
        NotifyStablePlayback(before, played)
  }

  lemma SettledStays(s: Controller, played: I64)
    requires InRange(s) && 0 <= s.stable < s.config.window && Settled(s)
    ensures NotifyStablePlayback(s, played).target == s.target && Settled(NotifyStablePlayback(s, played))
  {
    if played > 0 {
      var added := s.(stable := SaturatingAdd(s.stable, played));
      SettleKeeps(added);
      if added.stable >= s.config.window {
        assert Decrease(added.(stable := added.stable - s.config.window)).target == s.target;
      }
    }
  }

  /** `n` is `windows` whole steps below `s`, and those windows and the stable time left cover `played`. */
  predicate Lowered(s: Controller, n: Controller, windows: nat, played: nat) {
    && n.target == s.target - windows * s.config.step
    && windows * s.config.window + n.stable >= s.stable + played
  }

  lemma LoweredFurther(s: Controller, m: Controller, n: Controller, i: nat, j: nat, played: nat, more: nat)
    requires Lowered(s, m, i, played) && Lowered(m, n, j, more) && m.config == s.config
    ensures Lowered(s, n, i + j, played + more)
  {
    SumProduct(i, j, s.config.step);
    SumProduct(i, j, s.config.window);
  }

  function OneWindow(s: Controller): Controller
    requires InRange(s) && s.stable >= s.config.window
  {
    Decrease(s.(stable := s.stable - s.config.window))
  }

  lemma OneWindowStep(s: Controller)
    requires InRange(s) && s.stable >= s.config.window && s.config.step >= s.config.hysteresis
    ensures var n := OneWindow(s);
      && InRange(n) && n.config == s.config && 0 <= n.stable < s.stable
      && (n.target == s.target ==> Settled(Settle(s)))
      && (n.target != s.target ==> Settle(s) == Settle(n))
      && (Settled(n) || Lowered(s, n, 1, 0))
  {
    DecreaseInRange(s.(stable := s.stable - s.config.window));
    DecreaseSettles(s.(stable := s.stable - s.config.window));
  }

  /** While not settled, every window lowers the target by a whole step, if that is not below the hysteresis. */
  lemma {:induction false} SettleProgress(s: Controller) returns (windows: nat)
    requires InRange(s) && s.stable >= 0 && s.config.step >= s.config.hysteresis
    ensures Settled(Settle(s)) || Lowered(s, Settle(s), windows, 0)
    decreases s.stable
  {
    windows := 0;
    if s.stable >= s.config.window {
      OneWindowStep(s);
      var n := OneWindow(s);
      if Settled(n) {
        SettledSettles(n);
      } else {
        var more := SettleProgress(n);
        windows := 1 + more;
        if !Settled(Settle(n)) {
          LoweredFurther(s, n, Settle(n), 1, more, 0, 0);
        }
      }
    }
  }

  /** One step down is whole or reaches the desired target, or the target was settled already. */
  lemma DecreaseSettles(s: Controller)
    requires InRange(s) && s.config.step >= s.config.hysteresis
    ensures Decrease(s).target == s.target ==> Settled(s)
    ensures Settled(Decrease(s)) || Decrease(s).target == s.target - s.config.step
  {
  }

  lemma SettledSettles(s: Controller)
    requires InRange(s) && s.stable >= 0 && Settled(s)
    ensures Settle(s).target == s.target && Settled(Settle(s))
  {
    SettleKeeps(s);
    if s.stable >= s.config.window {
      assert Decrease(s.(stable := s.stable - s.config.window)).target == s.target;
    }
  }

  lemma {:induction false} RunProgress(s: Controller, run: seq<I64>) returns (windows: nat)
    requires InRange(s) && 0 <= s.stable < s.config.window && s.config.step >= s.config.hysteresis
    ensures Settled(StableAll(s, run)) || Lowered(s, StableAll(s, run), windows, Credits(s.config, run))
  {
    windows := 0;
    if run == [] {
    } else {
      var k := |run| - 1;
      windows := RunProgress(s, run[..k]);
      var before := StableAll(s, run[..k]);
      if Settled(before) {
        SettledStays(before, run[k]);
      } else if run[k] > 0 {
        var more := NotifyProgress(before, run[k]);
        if !Settled(StableAll(s, run)) {
          LoweredFurther(s, before, StableAll(s, run), windows, more,
                         Credits(s.config, run[..k]), Credit(s.config, run[k]));
        }
        windows := windows + more;
      }
    }
  }

  lemma NotifyProgress(s: Controller, played: I64) returns (windows: nat)
    requires InRange(s) && 0 <= s.stable < s.config.window && s.config.step >= s.config.hysteresis && played > 0
    ensures var n := NotifyStablePlayback(s, played);
      Settled(n) || Lowered(s, n, windows, Credit(s.config, played))
  {
    var added := s.(stable := SaturatingAdd(s.stable, played));
    windows := SettleProgress(added);
    assert added.stable >= s.stable + Credit(s.config, played);
  }

  lemma EnoughWindows(used: nat, windows: nat, step: nat, window: nat, rest: nat)
    requires used * window + rest >= windows * window && rest < window
    ensures used * step >= windows * step
  {
    if used < windows {
      ProductMonotone(used + 1, windows, window);
      NextProduct(used, window);
      assert false;
    }
    ProductMonotone(windows, used, step);
  }

  /**
   Stable playback alone, for as many windows as it takes to step down from the target to the desired one,
   settles the target, provided that a step is not below the hysteresis.
   */
  lemma Converges(s: Controller, run: seq<I64>, windows: nat)
    requires Sound(s) && s.config.step >= s.config.hysteresis
    requires windows * s.config.step >= s.target - Desired(s)
    requires Credits(s.config, run) >= windows * s.config.window
    ensures Settled(StableAll(s, run)) && Desired(StableAll(s, run)) == Desired(s)
  {
    var used := RunProgress(s, run);
    var n := StableAll(s, run);
    if !Settled(n) {
      EnoughWindows(used, windows, s.config.step, s.config.window, n.stable);
    }
  }

  /** Otherwise no amount of stable playback ever lowers the target. */
  lemma {:induction false} NeverLowered(s: Controller, run: seq<I64>)
    requires Sound(s) && s.config.step < s.config.hysteresis
    ensures StableAll(s, run).target == s.target
  {
    if run == [] {
    } else {
      NeverLowered(s, run[..|run| - 1]);
      var before, played := StableAll(s, run[..|run| - 1]), run[|run| - 1];
      if played > 0 {
        var added := before.(stable := SaturatingAdd(before.stable, played));
        if added.stable >= s.config.window {
          assert Decrease(added.(stable := added.stable - s.config.window)).target == before.target;
        }
      }
    }
  }

  function Repeat(played: I64, n: nat): seq<I64> { seq(n, _ => played) }

  lemma {:induction false} RepeatCredits(c: Config, played: I64, n: nat)
    requires c.Usable() && played > 0
    ensures Credits(c, Repeat(played, n)) >= n
  {
    if n == 0 {
    } else {
      RepeatCredits(c, played, n - 1);
      assert Repeat(played, n)[..n - 1] == Repeat(played, n - 1);
    }
  }

  /** An accepted configuration can be of that kind: a valid step of 1 ms with the default hysteresis of 5 ms. */
  lemma StepBelowHysteresisIsAccepted()
    ensures DefaultConfig().(step := 1_000).Usable()
    ensures !Settled(Create(DefaultConfig().(step := 1_000)))
  {
  }

  lemma SettlesEventually(s: Controller) returns (run: seq<I64>)
    requires Sound(s) && !Settled(s) && s.config.step >= s.config.hysteresis
    ensures Settled(StableAll(s, run))
  {
    var gap := s.target - Desired(s);
    run := Repeat(s.config.window, gap * s.config.window);
    RepeatCredits(s.config, s.config.window, gap * s.config.window);
    assert gap * s.config.step >= gap by {
      ProductMonotone(1, s.config.step, gap);
    }
    Converges(s, run, gap);
  }

  lemma NeverSettles(s: Controller, run: seq<I64>)
    requires Sound(s) && !Settled(s) && s.config.step < s.config.hysteresis
    ensures !Settled(StableAll(s, run))
  {
    NeverLowered(s, run);
    assert Desired(StableAll(s, run)) == Desired(s);
  }

  ghost predicate CanSettle(s: Controller)
    requires InRange(s) && 0 <= s.stable < s.config.window
  {
    exists run: seq<I64> :: Settled(StableAll(s, run))
  }

  /** Whether stable playback can settle an unsettled target depends on the configured step alone. */
  lemma SettlesExactlyWhen(s: Controller)
    requires Sound(s) && !Settled(s)
    ensures CanSettle(s) <==> s.config.step >= s.config.hysteresis
  {
    if s.config.step >= s.config.hysteresis {
      var run := SettlesEventually(s);
      assert CanSettle(s);
    } else {
      NeverSettlesAtAll(s);
    }
  }

  lemma NeverSettlesAtAll(s: Controller)
    requires Sound(s) && !Settled(s) && s.config.step < s.config.hysteresis
    ensures !CanSettle(s)
  {
    forall run: seq<I64> ensures !Settled(StableAll(s, run)) {
      NeverSettles(s, run);
    }
  }
}
