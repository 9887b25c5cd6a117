/** How the agent feeds its baselines: victims are judged against their own normal and frozen while
    flagged, usage is learned every interval and frozen while spiking (internal/agent/agent.go). */
module Judging {
  import opened Options
  import opened Reals
  import opened Baselines

  /** The knobs both sides share: EMA weight, warm-up, deviation factor. */
  datatype Knobs = Knobs(alpha: real, warmup: int, factor: real)

  // ----- one reading -----

  predicate Flagged(kn: Knobs, floor: real, m: Averages, r: Reading) {
    var ratio := Ratio(kn.warmup, m, r.cg, r.value);
    r.value >= floor && (ratio.None? || ratio.value >= kn.factor)
  }

  /** Judging freezes a trusted normal while its cgroup is flagged. */
  function JudgePolicy(kn: Knobs, floor: real): Policy {
    (m: Averages, r: Reading) => !(Ratio(kn.warmup, m, r.cg, r.value).Some? && Flagged(kn, floor, m, r))
  }

  function Judged(kn: Knobs, floor: real, m: Averages, r: Reading): Averages {
    Observed(kn.alpha, m, r.cg, r.value, JudgePolicy(kn, floor)(m, r))
  }

  predicate Spiking(kn: Knobs, m: Averages, r: Reading) {
    var ratio := Ratio(kn.warmup, m, r.cg, r.value);
    ratio.Some? && ratio.value >= kn.factor
  }

  /** Learning usage freezes it while the cgroup is spiking. */
  function LearnPolicy(kn: Knobs): Policy {
    (m: Averages, r: Reading) => !Spiking(kn, m, r)
  }

  function Learned(kn: Knobs, m: Averages, r: Reading): Averages {
    Observed(kn.alpha, m, r.cg, r.value, LearnPolicy(kn)(m, r))
  }

  method JudgeVictim(b: Baseline, floor: real, factor: real, cg: nat, value: real) returns (isVictim: bool, deg: real)
    modifies b
    ensures var kn := Knobs(b.alpha, b.warmup, factor);
            && isVictim == Flagged(kn, floor, old(b.state), Reading(cg, value))
            && b.state == Judged(kn, floor, old(b.state), Reading(cg, value))
            && deg == match Ratio(b.warmup, old(b.state), cg, value) case None => 0.0 case Some(r) => r
  {
    var ratio, ready := b.Deviation(cg, value);
    isVictim := value >= floor;
    if ready && ratio < factor {
      isVictim := false;
    }
    b.Observe(cg, value, !(ready && isVictim));
    deg := if ready then ratio else 0.0;
  }

  method ObserveUsage(b: Baseline, factor: real, cg: nat, usage: real)
    modifies b
    ensures b.state == Learned(Knobs(b.alpha, b.warmup, factor), old(b.state), Reading(cg, usage))
  {
    var ratio, ready := b.Deviation(cg, usage);
    var spiking := ready && ratio >= factor;
    b.Observe(cg, usage, !spiking);
  }

  // ----- rounds of readings, each closed by one prune -----

  function JudgeAll(kn: Knobs, floor: real, m: Averages, rs: Interval): Averages {
    ObserveAll(kn.alpha, JudgePolicy(kn, floor), m, rs)
  }

  function JudgeRun(kn: Knobs, floor: real, m: Averages, run: seq<Interval>): Averages {
    RunRounds(kn.alpha, JudgePolicy(kn, floor), m, run)
  }

  function LearnAll(kn: Knobs, m: Averages, rs: Interval): Averages {
    ObserveAll(kn.alpha, LearnPolicy(kn), m, rs)
  }

  function LearnRun(kn: Knobs, m: Averages, run: seq<Interval>): Averages {
    RunRounds(kn.alpha, LearnPolicy(kn), m, run)
  }

  /** Both sides of the agent track exactly the cgroups read in the last twelve intervals. */
  lemma AgentTracks(kn: Knobs, floor: real, run: seq<Interval>, cg: nat)
    ensures cg in JudgeRun(kn, floor, map[], run) <==> HeardSince(run, cg, |run| - 12)
    ensures cg in LearnRun(kn, map[], run) <==> HeardSince(run, cg, |run| - 12)
  {
    TrackedExactly(kn.alpha, JudgePolicy(kn, floor), run, cg);
    TrackedExactly(kn.alpha, LearnPolicy(kn), run, cg);
  }

  /** The cgroup is never silent long enough to be forgotten. */
  predicate Lively(run: seq<Interval>, cg: nat, quiet: nat) {
    Silence(run, cg, quiet) < PRUNE_AFTER && (run == [] || Lively(run[..|run| - 1], cg, quiet))
  }

  predicate AllReadings(run: seq<Interval>, cg: nat, p: real -> bool) {
    forall i, j :: 0 <= i < |run| && 0 <= j < |run[i]| && run[i][j].cg == cg ==> p(run[i][j].value)
  }

  predicate AllIn(rs: Interval, cg: nat, p: real -> bool) {
    forall j :: 0 <= j < |rs| && rs[j].cg == cg ==> p(rs[j].value)
  }

  // ----- a sustained spike is never absorbed -----

  /** Between intervals: a trusted normal v. */
  predicate Rested(kn: Knobs, m: Averages, cg: nat, v: real, quiet: nat) {
    cg in m && m[cg].value == v && m[cg].samples >= kn.warmup && !m[cg].touched && m[cg].misses == quiet
  }

  /** Inside an interval. */
  predicate Trusted(kn: Knobs, m: Averages, cg: nat, v: real, quiet: nat, heard: bool) {
    cg in m && m[cg].value == v && m[cg].samples >= kn.warmup && m[cg].touched == heard &&
    m[cg].misses == if heard then 0 else quiet
  }

  lemma RatioAtLeast(value: real, v: real, factor: real)
    requires v > 0.0
    ensures value / v >= factor <==> value >= factor * v
  {
    var q := value / v;
    Quotient(value, v, q);
    if q < factor {
      Positive(factor - q, v, factor * v - value);
    } else {
      NonNegative(q - factor, v, value - factor * v);
    }
  }

  /** A reading at or above both thresholds is flagged and leaves the normal alone. */
  lemma SpikeFlagged(kn: Knobs, floor: real, m: Averages, r: Reading, v: real, quiet: nat, heard: bool)
    requires v > 0.0 && Trusted(kn, m, r.cg, v, quiet, heard) && r.value >= floor && r.value >= kn.factor * v
    ensures Flagged(kn, floor, m, r) && Trusted(kn, Judged(kn, floor, m, r), r.cg, v, quiet, true)
  {
    RatioAtLeast(r.value, v, kn.factor);
  }

  predicate FlaggedAll(kn: Knobs, floor: real, m: Averages, rs: Interval, cg: nat) {
    rs == [] ||
    var before := rs[..|rs| - 1];
    FlaggedAll(kn, floor, m, before, cg) &&
    (rs[|rs| - 1].cg == cg ==> Flagged(kn, floor, JudgeAll(kn, floor, m, before), rs[|rs| - 1]))
  }

  predicate FlaggedRun(kn: Knobs, floor: real, m: Averages, run: seq<Interval>, cg: nat) {
    run == [] ||
    var before := run[..|run| - 1];
    FlaggedRun(kn, floor, m, before, cg) && FlaggedAll(kn, floor, JudgeRun(kn, floor, m, before), run[|run| - 1], cg)
  }

  lemma {:induction false} SpikeInterval(
    kn: Knobs, floor: real, m: Averages, rs: Interval, cg: nat, v: real, quiet: nat)
    requires v > 0.0 && Rested(kn, m, cg, v, quiet) && AllIn(rs, cg, x => x >= floor && x >= kn.factor * v)
    ensures Trusted(kn, JudgeAll(kn, floor, m, rs), cg, v, quiet, Heard(rs, cg))
    ensures FlaggedAll(kn, floor, m, rs, cg)
    decreases |rs|
  {
    if rs != [] {
      var before, r := rs[..|rs| - 1], rs[|rs| - 1];
      SpikeInterval(kn, floor, m, before, cg, v, quiet);
      HeardSnoc(rs, cg);
      if r.cg == cg {
        SpikeFlagged(kn, floor, JudgeAll(kn, floor, m, before), r, v, quiet, Heard(before, cg));
      }
    }
  }

  /** From a trusted normal v, any number of intervals whose readings of the cgroup all reach both the
      floor and factor*v leave v exactly as it was and flag every one of them. */
  lemma {:induction false} SpikeNeverAbsorbed(
    kn: Knobs, floor: real, m: Averages, run: seq<Interval>, cg: nat, v: real, quiet: nat)
    requires v > 0.0 && Rested(kn, m, cg, v, quiet) && Lively(run, cg, quiet)
    requires AllReadings(run, cg, x => x >= floor && x >= kn.factor * v)
    ensures Rested(kn, JudgeRun(kn, floor, m, run), cg, v, Silence(run, cg, quiet))
    ensures FlaggedRun(kn, floor, m, run, cg)
    decreases |run|
  {
    if run != [] {
      var before, rs := run[..|run| - 1], run[|run| - 1];
      SpikeNeverAbsorbed(kn, floor, m, before, cg, v, quiet);
      SpikeInterval(kn, floor, JudgeRun(kn, floor, m, before), rs, cg, v, Silence(before, cg, quiet));
    }
  }

  // ----- normals learned from usage -----

  /** Whatever is observed, frozen or pruned, a normal stays among the usages it was learned from. */
  lemma {:induction false} LearnAllWithin(kn: Knobs, m: Averages, rs: Interval, cg: nat, lo: real, hi: real)
    requires 0.0 <= kn.alpha <= 1.0 && Within(m, cg, lo, hi) && AllIn(rs, cg, x => lo <= x <= hi)
    ensures Within(LearnAll(kn, m, rs), cg, lo, hi)
    decreases |rs|
  {
    if rs != [] {
      var before, r := rs[..|rs| - 1], rs[|rs| - 1];
      LearnAllWithin(kn, m, before, cg, lo, hi);
      var m1 := LearnAll(kn, m, before);
      ObservedWithin(kn.alpha, m1, r, !Spiking(kn, m1, r), cg, lo, hi);
    }
  }

  lemma {:induction false} NormalAmongUsages(kn: Knobs, m: Averages, run: seq<Interval>, cg: nat, lo: real, hi: real)
    requires 0.0 <= kn.alpha <= 1.0 && Within(m, cg, lo, hi) && AllReadings(run, cg, x => lo <= x <= hi)
    ensures Within(LearnRun(kn, m, run), cg, lo, hi)
    decreases |run|
  {
    if run != [] {
      var before, rs := run[..|run| - 1], run[|run| - 1];
      NormalAmongUsages(kn, m, before, cg, lo, hi);
      LearnAllWithin(kn, LearnRun(kn, m, before), rs, cg, lo, hi);
      PrunedWithin(LearnAll(kn, LearnRun(kn, m, before), rs), cg, lo, hi);
    }
  }

  // ----- how fast a usage normal can grow -----

  /** v * g^n. */
  function Grown(v: real, g: real, n: nat): real {
    if n == 0 then v else g * Grown(v, g, n - 1)
  }

  function Growth(kn: Knobs): real {
    1.0 + kn.alpha * (kn.factor - 1.0)
  }

  function CountRun(run: seq<Interval>, cg: nat): nat {
    if run == [] then 0 else CountRun(run[..|run| - 1], cg) + CountOf(run[|run| - 1], cg)
  }

  predicate Sane(kn: Knobs) {
    0.0 <= kn.alpha <= 1.0 && kn.factor >= 1.0
  }

  /** A usage that cannot drop a positive normal to zero. */
  predicate Leaves(kn: Knobs, u: real) {
    u >= 0.0 && (kn.alpha == 1.0 ==> u > 0.0)
  }

  /** A usage below factor*v moves the normal up by at most the growth factor, and never to zero. */
  lemma BlendBound(kn: Knobs, u: real, v: real)
    requires Sane(kn) && v > 0.0 && Leaves(kn, u) && u <= kn.factor * v
    ensures 0.0 < Blend(kn.alpha, u, v) <= Growth(kn) * v
  {
    var a, d := kn.alpha, kn.factor;
    if a < 1.0 {
      Positive(1.0 - a, v, (1.0 - a) * v);
    }
    NonNegative(a, u, a * u);
    Scale(a, u, d * v, a * u, a * (d * v));
    assert Growth(kn) * v == a * (d * v) + (1.0 - a) * v by {
      assert (1.0 + a * (d - 1.0)) * v == v + a * (d - 1.0) * v;
      assert a * (d - 1.0) * v == a * (d * v) - a * v;
      assert (1.0 - a) * v == v - a * v;
    }
  }

  lemma GrowthAtLeastOne(kn: Knobs, v: real)
    requires Sane(kn) && v > 0.0
    ensures Growth(kn) >= 1.0 && Growth(kn) * v >= v
  {
    NonNegative(kn.alpha, kn.factor - 1.0, kn.alpha * (kn.factor - 1.0));
    NonNegative(Growth(kn) - 1.0, v, Growth(kn) * v - v);
  }

  /** Between readings: a trusted normal between 0 and the bound. */
  predicate Bounded(kn: Knobs, m: Averages, cg: nat, bound: real, quiet: nat, heard: bool) {
    cg in m && 0.0 < m[cg].value <= bound && m[cg].samples >= kn.warmup && m[cg].touched == heard &&
    m[cg].misses == if heard then 0 else quiet
  }

  /** One usage reading of the cgroup. */
  lemma LearnedBound(kn: Knobs, m: Averages, r: Reading, bound: real, bound': real, quiet: nat, heard: bool)
    requires Sane(kn) && Bounded(kn, m, r.cg, bound, quiet, heard)
    requires Leaves(kn, r.value) && bound' == Growth(kn) * bound
    ensures Bounded(kn, Learned(kn, m, r), r.cg, bound', quiet, true)
  {
    var v := m[r.cg].value;
    GrowthAtLeastOne(kn, v);
    Scale(Growth(kn), v, bound, Growth(kn) * v, bound');
    RatioAtLeast(r.value, v, kn.factor);
    if !Spiking(kn, m, r) {
      BlendBound(kn, r.value, v);
    }
  }

  lemma {:induction false} LearnAllBound(kn: Knobs, m: Averages, rs: Interval, cg: nat, v: real, n: nat, quiet: nat)
    requires Sane(kn) && Bounded(kn, m, cg, Grown(v, Growth(kn), n), quiet, false) && AllIn(rs, cg, x => Leaves(kn, x))
    ensures Bounded(kn, LearnAll(kn, m, rs), cg, Grown(v, Growth(kn), n + CountOf(rs, cg)), quiet, Heard(rs, cg))
    decreases |rs|
  {
    if rs != [] {
      var before, r := rs[..|rs| - 1], rs[|rs| - 1];
      LearnAllBound(kn, m, before, cg, v, n, quiet);
      HeardSnoc(rs, cg);
      if r.cg == cg {
        var k := n + CountOf(before, cg);
        LearnedBound(kn, LearnAll(kn, m, before), r, Grown(v, Growth(kn), k), Grown(v, Growth(kn), k + 1), quiet,
                     Heard(before, cg));
      }
    }
  }

  /** From a trusted normal v > 0, after any number of intervals with n readings of the cgroup in all,
      the normal is at most v * (1 + alpha*(factor-1))^n. With alpha = 1 the readings must be positive. */
  lemma {:induction false} UsageGrowthBounded(kn: Knobs, m: Averages, run: seq<Interval>, cg: nat, v: real, quiet: nat)
    requires Sane(kn) && v > 0.0 && Rested(kn, m, cg, v, quiet) && Lively(run, cg, quiet)
    requires AllReadings(run, cg, x => Leaves(kn, x))
    ensures Bounded(kn, LearnRun(kn, m, run), cg, Grown(v, Growth(kn), CountRun(run, cg)),
                    Silence(run, cg, quiet), false)
    decreases |run|
  {
    if run != [] {
      var before, rs := run[..|run| - 1], run[|run| - 1];
      UsageGrowthBounded(kn, m, before, cg, v, quiet);
      LearnAllBound(kn, LearnRun(kn, m, before), rs, cg, v, CountRun(before, cg), Silence(before, cg, quiet));
    }
  }

  /** With alpha = 1 one idle interval drops the normal to zero, which reads as not yet learned, and the
      next usage is taken over whole, however large. */
  lemma FullWeightForgets(kn: Knobs, m: Averages, cg: nat, v: real, quiet: nat, u: real)
    requires kn.alpha == 1.0 && kn.factor > 0.0 && v > 0.0 && Rested(kn, m, cg, v, quiet)
    ensures var m1 := Pruned(Learned(kn, m, Reading(cg, 0.0)));
            var m2 := Pruned(Learned(kn, m1, Reading(cg, u)));
            cg in m2 && m2[cg].value == u
  {
    RatioAtLeast(0.0, v, kn.factor);
    Positive(kn.factor, v, kn.factor * v);
  }

  /** The normal stays under the growth bound at the end of this run. */
  predicate GrowsSlowly(kn: Knobs, m: Averages, run: seq<Interval>, cg: nat, v: real) {
    var m' := LearnRun(kn, m, run);
    cg in m' && m'[cg].value <= Grown(v, Growth(kn), CountRun(run, cg))
  }

  predicate Plausible(run: seq<Interval>, cg: nat, quiet: nat) {
    Lively(run, cg, quiet) && AllReadings(run, cg, x => x >= 0.0)
  }

  lemma OneReading(kn: Knobs, m: Averages, a: Reading)
    ensures LearnAll(kn, m, [a]) == Learned(kn, m, a)
  {
    var none: Interval := [];
    assert [a][..0] == none && LearnAll(kn, m, none) == m;
  }

  lemma TwoIntervals(kn: Knobs, m: Averages, a: Reading, b: Reading)
    ensures LearnRun(kn, m, [[a], [b]]) == Pruned(Learned(kn, Pruned(Learned(kn, m, a)), b))
  {
    var none: seq<Interval> := [];
    assert [[a], [b]][..1] == [[a]] && [[a]][..0] == none;
    OneReading(kn, m, a);
    assert LearnRun(kn, m, none) == m && [[a]][0] == [a];
    assert LearnRun(kn, m, [[a]]) == Pruned(Learned(kn, m, a));
    OneReading(kn, Pruned(Learned(kn, m, a)), b);
  }

  lemma TwoReadings(cg: nat, u: real, quiet: nat)
    requires u >= 0.0 && quiet < PRUNE_AFTER
    ensures var run := [[Reading(cg, 0.0)], [Reading(cg, u)]]; Plausible(run, cg, quiet) && CountRun(run, cg) == 2
  {
    var a, b := [Reading(cg, 0.0)], [Reading(cg, u)];
    var run := [a, b];
    var none: seq<Interval> := [];
    assert run[..1] == [a] && [a][..0] == none;
    assert a[0].cg == cg && b[0].cg == cg;
    assert Heard(a, cg) && Heard(b, cg);
    assert Silence([a], cg, quiet) == 0 && Silence(run, cg, quiet) == 0;
    assert Lively(none, cg, quiet) && Lively([a], cg, quiet);
    assert a[..0] == [] && b[..0] == [];
    assert CountOf(a, cg) == 1 && CountOf(b, cg) == 1;
    assert CountRun([a], cg) == 1;
  }

  /** Over all runs of non-negative usage the growth bound holds exactly when alpha is below 1. */
  lemma UsageGrowthExactly(kn: Knobs, m: Averages, cg: nat, v: real, quiet: nat)
    requires Sane(kn) && v > 0.0 && quiet < PRUNE_AFTER && Rested(kn, m, cg, v, quiet)
    ensures kn.alpha < 1.0 <==> forall run :: Plausible(run, cg, quiet) ==> GrowsSlowly(kn, m, run, cg, v)
  {
    if kn.alpha < 1.0 {
      forall run | Plausible(run, cg, quiet) ensures GrowsSlowly(kn, m, run, cg, v) {
        UsageGrowthBounded(kn, m, run, cg, v, quiet);
      }
    } else {
      var bound := Grown(v, Growth(kn), 2);
      var u := if bound < 0.0 then 0.0 else bound + 1.0;
      var a, b := Reading(cg, 0.0), Reading(cg, u);
      TwoReadings(cg, u, quiet);
      FullWeightForgets(kn, m, cg, v, quiet, u);
      TwoIntervals(kn, m, a, b);
      assert !GrowsSlowly(kn, m, [[a], [b]], cg, v);
    }
  }

  // ----- one reading, from the numbers alone -----

  /** There is a normal to go by. */
  predicate Warm(kn: Knobs, m: Averages, cg: nat) {
    cg in m && m[cg].samples >= kn.warmup && m[cg].value > 0.0
  }

  /** A reading is flagged exactly when it reaches the floor and, once there is a normal, factor times it. */
  lemma FlaggedExactly(kn: Knobs, floor: real, m: Averages, r: Reading)
    ensures Flagged(kn, floor, m, r) <==>
            r.value >= floor && (Warm(kn, m, r.cg) ==> r.value >= kn.factor * m[r.cg].value)
  {
    if Warm(kn, m, r.cg) {
      RatioAtLeast(r.value, m[r.cg].value, kn.factor);
    }
  }

  /** The value moves by alpha towards the reading, unless it is frozen; a first reading is taken whole. */
  predicate Moved(kn: Knobs, m: Averages, m': Averages, r: Reading, frozen: bool) {
    r.cg in m' &&
    (r.cg !in m ==> m'[r.cg].value == r.value) &&
    (r.cg in m ==> m'[r.cg].value == m[r.cg].value + if frozen then 0.0 else kn.alpha * (r.value - m[r.cg].value))
  }

  lemma BlendMoves(alpha: real, x: real, v: real)
    ensures Blend(alpha, x, v) == v + alpha * (x - v)
  {
    assert alpha * (x - v) == alpha * x - alpha * v;
    assert (1.0 - alpha) * v == v - alpha * v;
  }

  /** On the victim side the normal is frozen exactly while a trusted one is exceeded by a flagged reading. */
  lemma JudgedExactly(kn: Knobs, floor: real, m: Averages, r: Reading)
    ensures Moved(kn, m, Judged(kn, floor, m, r), r,
                  Warm(kn, m, r.cg) && r.value >= floor && r.value >= kn.factor * m[r.cg].value)
  {
    FlaggedExactly(kn, floor, m, r);
    if r.cg in m {
      BlendMoves(kn.alpha, r.value, m[r.cg].value);
    }
  }

  /** On the usage side exactly while a trusted one is exceeded by the factor. */
  lemma LearnedExactly(kn: Knobs, m: Averages, r: Reading)
    ensures Moved(kn, m, Learned(kn, m, r), r, Warm(kn, m, r.cg) && r.value >= kn.factor * m[r.cg].value)
  {
    if r.cg in m {
      BlendMoves(kn.alpha, r.value, m[r.cg].value);
      if Warm(kn, m, r.cg) {
        RatioAtLeast(r.value, m[r.cg].value, kn.factor);
      }
    }
  }

  // ----- a new level is learned -----

  /** A trusted normal on its way from v to c: n readings have closed the gap by a factor (1-alpha)^n. */
  predicate Approaching(kn: Knobs, m: Averages, cg: nat, v: real, c: real, n: nat, quiet: nat, heard: bool) {
    cg in m && m[cg].samples >= kn.warmup && m[cg].touched == heard && m[cg].misses == (if heard then 0 else quiet) &&
    m[cg].value - c == Grown(v - c, 1.0 - kn.alpha, n) && (v <= m[cg].value <= c || c <= m[cg].value <= v)
  }

  /** The new level is no spike, seen from the old one. */
  predicate Reachable(kn: Knobs, v: real, c: real) {
    0.0 <= kn.alpha <= 1.0 && kn.factor > 1.0 && v > 0.0 && c > 0.0 && c < kn.factor * v
  }

  lemma NoSpike(kn: Knobs, v: real, c: real, x: real)
    requires Reachable(kn, v, c) && (v <= x <= c || c <= x <= v)
    ensures x > 0.0 && c < kn.factor * x
  {
    if v <= x {
      Scale(kn.factor, v, x, kn.factor * v, kn.factor * x);
    } else {
      Positive(kn.factor - 1.0, x, kn.factor * x - x);
    }
  }

  lemma ApproachesOne(kn: Knobs, m: Averages, r: Reading, v: real, n: nat, quiet: nat, heard: bool)
    requires Reachable(kn, v, r.value) && Approaching(kn, m, r.cg, v, r.value, n, quiet, heard)
    ensures Approaching(kn, Learned(kn, m, r), r.cg, v, r.value, n + 1, quiet, true)
  {
    var x, c := m[r.cg].value, r.value;
    NoSpike(kn, v, c, x);
    RatioAtLeast(c, x, kn.factor);
    GapCloses(kn.alpha, c, x, x - c);
    if v <= c {
      Convex(kn.alpha, c, x, v, c);
    } else {
      Convex(kn.alpha, c, x, c, v);
    }
  }

  lemma GapCloses(alpha: real, c: real, x: real, gap: real)
    requires gap == x - c
    ensures Blend(alpha, c, x) - c == (1.0 - alpha) * gap
  {
    assert (1.0 - alpha) * gap == (1.0 - alpha) * x - (1.0 - alpha) * c;
    assert (1.0 - alpha) * c == c - alpha * c;
  }

  lemma {:induction false} ApproachesAll(
    kn: Knobs, m: Averages, rs: Interval, cg: nat, v: real, c: real, n: nat, quiet: nat)
    requires Reachable(kn, v, c) && Approaching(kn, m, cg, v, c, n, quiet, false) && AllIn(rs, cg, x => x == c)
    ensures Approaching(kn, LearnAll(kn, m, rs), cg, v, c, n + CountOf(rs, cg), quiet, Heard(rs, cg))
    decreases |rs|
  {
    if rs != [] {
      var before, r := rs[..|rs| - 1], rs[|rs| - 1];
      ApproachesAll(kn, m, before, cg, v, c, n, quiet);
      HeardSnoc(rs, cg);
      if r.cg == cg {
        ApproachesOne(kn, LearnAll(kn, m, before), r, v, n + CountOf(before, cg), quiet, Heard(before, cg));
      }
    }
  }

  /** A change that is no spike becomes the new normal: after n readings at level c the distance of the
      normal from c is exactly (1-alpha)^n of what it was. */
  lemma {:induction false} NewLevelLearned(
    kn: Knobs, m: Averages, run: seq<Interval>, cg: nat, v: real, c: real, quiet: nat)
    requires Reachable(kn, v, c) && Rested(kn, m, cg, v, quiet) && Lively(run, cg, quiet)
    requires AllReadings(run, cg, x => x == c)
    ensures Approaching(kn, LearnRun(kn, m, run), cg, v, c, CountRun(run, cg), Silence(run, cg, quiet), false)
    decreases |run|
  {
    if run != [] {
      var before, rs := run[..|run| - 1], run[|run| - 1];
      NewLevelLearned(kn, m, before, cg, v, c, quiet);
      ApproachesAll(kn, LearnRun(kn, m, before), rs, cg, v, c, CountRun(before, cg), Silence(before, cg, quiet));
    }
  }
}
