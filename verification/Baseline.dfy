/** Learned normals: an exponential moving average per cgroup (internal/metrics/baseline.go). */
module Baselines {
  import opened Options
  import opened Reals

  const PRUNE_AFTER: nat := 12

  datatype Avg = Avg(value: real, samples: nat, touched: bool, misses: nat)

  type Averages = map<nat, Avg>

  // ----- what the methods do -----

  /** current / baseline once the baseline is established. */
  function Ratio(warmup: int, m: Averages, key: nat, current: real): Option<real> {
    if key !in m || m[key].samples < warmup || m[key].value <= 0.0 then None
    else Some(current / m[key].value)
  }

  function Blend(alpha: real, current: real, value: real): real {
    alpha * current + (1.0 - alpha) * value
  }

  function Observed(alpha: real, m: Averages, key: nat, current: real, update: bool): Averages {
    if key !in m then m[key := Avg(current, 1, true, 0)]
    else
      var a := m[key];
      m[key := Avg(if update then Blend(alpha, current, a.value) else a.value, a.samples + 1, true, 0)]
  }

  predicate Survives(a: Avg) {
    a.touched || a.misses + 1 < PRUNE_AFTER
  }

  function Aged(a: Avg): Avg {
    if a.touched then a.(touched := false) else a.(misses := a.misses + 1)
  }

  function Pruned(m: Averages): Averages {
    map k | k in m && Survives(m[k]) :: Aged(m[k])
  }

  class Baseline {
    const alpha: real
    const warmup: int
    var state: Averages

    constructor (alpha: real, warmup: int)
      ensures this.alpha == alpha && this.warmup == warmup && state == map[]
    {
      this.alpha, this.warmup, state := alpha, warmup, map[];
    }

    method Deviation(key: nat, current: real) returns (ratio: real, ready: bool)
      ensures match Ratio(warmup, state, key, current)
              case None => !ready && ratio == 0.0
              case Some(r) => ready && ratio == r
    {
      if key !in state || state[key].samples < warmup || state[key].value <= 0.0 {
        return 0.0, false;
      }
      return current / state[key].value, true;
    }

    method Observe(key: nat, current: real, update: bool)
      modifies this
      ensures state == Observed(alpha, old(state), key, current, update)
    {
      if key !in state {
        state := state[key := Avg(current, 1, true, 0)];
        return;
      }
      var a := state[key];
      a := a.(touched := true, misses := 0, samples := a.samples + 1);
      if update {
        a := a.(value := Blend(alpha, current, a.value));
      }
      state := state[key := a];
    }

    method Prune()
      modifies this
      ensures state == Pruned(old(state))
    {
      ghost var before := state;
      var todo := state.Keys;
      while todo != {}
        invariant todo <= before.Keys
        invariant forall k :: k in state <==> k in before && (k in todo || Survives(before[k]))
        invariant forall k :: k in state ==> state[k] == if k in todo then before[k] else Aged(before[k])
        decreases todo
      {
        var k :| k in todo;
        todo := todo - {k};
        var a := state[k];
        if a.touched {
          state := state[k := a.(touched := false)];
        } else {
          a := a.(misses := a.misses + 1);
          if a.misses >= PRUNE_AFTER {
            state := state - {k};
          } else {
            state := state[k := a];
          }
        }
      }
    }
  }

  // ----- intervals: observe some cgroups, then prune once -----

  datatype Reading = Reading(cg: nat, value: real)

  type Interval = seq<Reading>

  /** Whether a reading is folded in, given what was learned before it; otherwise the value is frozen. */
  type Policy = (Averages, Reading) -> bool

  function ObserveAll(alpha: real, learn: Policy, m: Averages, rs: Interval): Averages {
    if rs == [] then m
    else
      var before, r := ObserveAll(alpha, learn, m, rs[..|rs| - 1]), rs[|rs| - 1];
      Observed(alpha, before, r.cg, r.value, learn(before, r))
  }

  function RunRounds(alpha: real, learn: Policy, m: Averages, run: seq<Interval>): Averages {
    if run == [] then m
    else Pruned(ObserveAll(alpha, learn, RunRounds(alpha, learn, m, run[..|run| - 1]), run[|run| - 1]))
  }

  predicate Heard(rs: Interval, cg: nat) {
    exists i :: 0 <= i < |rs| && rs[i].cg == cg
  }

  lemma HeardSnoc(rs: Interval, cg: nat)
    requires rs != []
    ensures Heard(rs, cg) <==> Heard(rs[..|rs| - 1], cg) || rs[|rs| - 1].cg == cg
  {
    if Heard(rs, cg) && rs[|rs| - 1].cg != cg {
      var i :| 0 <= i < |rs| && rs[i].cg == cg;
      assert rs[..|rs| - 1][i].cg == cg;
    }
    if Heard(rs[..|rs| - 1], cg) {
      var i :| 0 <= i < |rs| - 1 && rs[..|rs| - 1][i].cg == cg;
      assert rs[i].cg == cg;
    }
  }

  /** Intervals since the cgroup was last heard of, starting from quiet. */
  function Silence(run: seq<Interval>, cg: nat, quiet: nat): nat {
    if run == [] then quiet
    else if Heard(run[|run| - 1], cg) then 0
    else Silence(run[..|run| - 1], cg, quiet) + 1
  }

  // ----- which cgroups are tracked -----

  lemma {:induction false} ObserveAllKey(alpha: real, learn: Policy, m: Averages, rs: Interval, cg: nat)
    ensures var m' := ObserveAll(alpha, learn, m, rs);
            && (cg in m' <==> cg in m || Heard(rs, cg))
            && (Heard(rs, cg) ==> m'[cg].touched && m'[cg].misses == 0)
            && (!Heard(rs, cg) && cg in m ==> m'[cg] == m[cg])
    decreases |rs|
  {
    if rs != [] {
      ObserveAllKey(alpha, learn, m, rs[..|rs| - 1], cg);
      HeardSnoc(rs, cg);
    }
  }

  /** A cgroup never heard of counts as silent long enough to be forgotten. */
  lemma {:induction false} TrackedBySilence(alpha: real, learn: Policy, run: seq<Interval>, cg: nat)
    ensures var m := RunRounds(alpha, learn, map[], run);
            var silence := Silence(run, cg, PRUNE_AFTER);
            && (cg in m <==> silence < PRUNE_AFTER)
            && (cg in m ==> !m[cg].touched && m[cg].misses == silence)
    decreases |run|
  {
    if run != [] {
      var before := run[..|run| - 1];
      TrackedBySilence(alpha, learn, before, cg);
      ObserveAllKey(alpha, learn, RunRounds(alpha, learn, map[], before), run[|run| - 1], cg);
    }
  }

  predicate HeardSince(run: seq<Interval>, cg: nat, from: int) {
    exists i :: from <= i < |run| && 0 <= i && Heard(run[i], cg)
  }

  lemma {:induction false} SilenceIsRecency(run: seq<Interval>, cg: nat, k: nat)
    requires k <= PRUNE_AFTER
    ensures Silence(run, cg, PRUNE_AFTER) < k <==> HeardSince(run, cg, |run| - k)
    decreases |run|
  {
    if run != [] && k > 0 {
      var n := |run| - 1;
      var before := run[..n];
      SilenceIsRecency(before, cg, k - 1);
      if HeardSince(before, cg, n - (k - 1)) {
        var i :| n - (k - 1) <= i < n && 0 <= i && Heard(before[i], cg);
        assert Heard(run[i], cg);
      }
      if HeardSince(run, cg, |run| - k) {
        var i :| |run| - k <= i < |run| && 0 <= i && Heard(run[i], cg);
        if i < n { assert Heard(before[i], cg); }
      }
    }
  }

  /** After any intervals and whatever was frozen, the tracked cgroups are exactly those read in the
      last twelve. */
  lemma TrackedExactly(alpha: real, learn: Policy, run: seq<Interval>, cg: nat)
    ensures cg in RunRounds(alpha, learn, map[], run) <==> HeardSince(run, cg, |run| - 12)
  {
    TrackedBySilence(alpha, learn, run, cg);
    SilenceIsRecency(run, cg, PRUNE_AFTER);
  }

  // ----- when a normal is trusted -----

  /** How often the cgroup is read in an interval. */
  function CountOf(rs: Interval, cg: nat): nat {
    if rs == [] then 0 else CountOf(rs[..|rs| - 1], cg) + if rs[|rs| - 1].cg == cg then 1 else 0
  }

  /** Readings of the cgroup since it was last forgotten. */
  function Recent(run: seq<Interval>, cg: nat): nat {
    if run == [] || Silence(run, cg, PRUNE_AFTER) >= PRUNE_AFTER then 0
    else Recent(run[..|run| - 1], cg) + CountOf(run[|run| - 1], cg)
  }

  lemma {:induction false} ObserveAllSamples(alpha: real, learn: Policy, m: Averages, rs: Interval, cg: nat)
    ensures var m' := ObserveAll(alpha, learn, m, rs);
            cg in m' ==> m'[cg].samples == (if cg in m then m[cg].samples else 0) + CountOf(rs, cg)
    ensures CountOf(rs, cg) == 0 <==> !Heard(rs, cg)
    decreases |rs|
  {
    if rs != [] {
      ObserveAllSamples(alpha, learn, m, rs[..|rs| - 1], cg);
      ObserveAllKey(alpha, learn, m, rs[..|rs| - 1], cg);
      HeardSnoc(rs, cg);
    }
  }

  lemma {:induction false} SamplesExact(alpha: real, learn: Policy, run: seq<Interval>, cg: nat)
    ensures var m := RunRounds(alpha, learn, map[], run);
            Recent(run, cg) == if cg in m then m[cg].samples else 0
    decreases |run|
  {
    TrackedBySilence(alpha, learn, run, cg);
    if run != [] {
      var before := run[..|run| - 1];
      SamplesExact(alpha, learn, before, cg);
      ObserveAllSamples(alpha, learn, RunRounds(alpha, learn, map[], before), run[|run| - 1], cg);
    }
  }

  /** A normal is trusted exactly when the cgroup was read in the last twelve intervals, at least warmup
      times since it was last forgotten, and its value is positive; the ratio is then the reading over it. */
  lemma WarmExactly(alpha: real, warmup: int, learn: Policy, run: seq<Interval>, cg: nat, current: real)
    ensures var m := RunRounds(alpha, learn, map[], run);
            && (cg in m <==> HeardSince(run, cg, |run| - 12))
            && (Ratio(warmup, m, cg, current).Some? <==>
                cg in m && Recent(run, cg) >= warmup && m[cg].value > 0.0)
            && (Ratio(warmup, m, cg, current).Some? ==> Ratio(warmup, m, cg, current).value * m[cg].value == current)
  {
    TrackedExactly(alpha, learn, run, cg);
    SamplesExact(alpha, learn, run, cg);
    var m := RunRounds(alpha, learn, map[], run);
    if Ratio(warmup, m, cg, current).Some? {
      Quotient(current, m[cg].value, Ratio(warmup, m, cg, current).value);
    }
  }

  // ----- the average stays among its observations -----

  lemma Convex(alpha: real, c: real, v: real, lo: real, hi: real)
    requires 0.0 <= alpha <= 1.0 && lo <= c <= hi && lo <= v <= hi
    ensures lo <= Blend(alpha, c, v) <= hi
  {
    var beta := 1.0 - alpha;
    Scale(alpha, lo, c, alpha * lo, alpha * c);
    Scale(beta, lo, v, beta * lo, beta * v);
    Scale(alpha, c, hi, alpha * c, alpha * hi);
    Scale(beta, v, hi, beta * v, beta * hi);
    assert alpha * lo + beta * lo == lo && alpha * hi + beta * hi == hi;
  }

  predicate Within(m: Averages, key: nat, lo: real, hi: real) {
    key in m ==> lo <= m[key].value <= hi
  }

  lemma ObservedWithin(alpha: real, m: Averages, r: Reading, update: bool, key: nat, lo: real, hi: real)
    requires 0.0 <= alpha <= 1.0 && Within(m, key, lo, hi) && (r.cg == key ==> lo <= r.value <= hi)
    ensures Within(Observed(alpha, m, r.cg, r.value, update), key, lo, hi)
  {
    if r.cg == key && key in m {
      Convex(alpha, r.value, m[key].value, lo, hi);
    }
  }

  lemma PrunedWithin(m: Averages, key: nat, lo: real, hi: real)
    requires Within(m, key, lo, hi)
    ensures Within(Pruned(m), key, lo, hi)
  {
  }
}
