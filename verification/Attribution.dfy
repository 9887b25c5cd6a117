/** Offender confidence and ranking (internal/agent/agent.go), and how many pods can ever be blamed
    (with internal/controller/remediation.go). */
module Attribution {
  import opened Options
  import opened Reals
  import opened Identity
  import opened Targets
  import opened Baselines
  import opened Judging

  function Min(x: real, y: real): real { if x < y then x else y }

  function Max(x: real, y: real): real { if x < y then y else x }

  function Clamp(x: real, lo: real, hi: real): real {
    Min(hi, Max(lo, x))
  }

  // ----- confidence -----

  /** The minimum of three signals: it changed (or is throttled), it is big enough, there is harm. */
  function Confidence(ratio: Option<real>, sharePct: real, harm: real, fallback: real, throttle: real): real {
    var magnitude := Clamp(sharePct / 25.0, 0.0, 1.0);
    var deviation := if ratio.Some? then Clamp((ratio.value - 1.0) / 4.0, 0.0, 1.0) else fallback;
    var changed := if throttle > 0.0 then Max(deviation, Clamp(throttle, 0.0, 1.0)) else deviation;
    if changed < 0.0 then -1.0 else Clamp(Min(Min(changed, magnitude), harm), 0.0, 1.0)
  }

  /** Whatever the other signals say, confidence is at most the share over 25 percent. */
  lemma ConfidenceCapped(ratio: Option<real>, sharePct: real, harm: real, fallback: real, throttle: real)
    requires sharePct >= 0.0
    ensures Confidence(ratio, sharePct, harm, fallback, throttle) <= sharePct / 25.0
    ensures Confidence(ratio, sharePct, harm, fallback, throttle) <= 1.0
  {
  }

  /** When confidence reaches g: there is harm, the share is at least 25g percent, and usage is at least
      1+4g times normal (or, before there is a normal, the fallback reaches g), unless throttling at g
      stands in for that. */
  lemma ConfidenceExactly(ratio: Option<real>, sharePct: real, harm: real, fallback: real, throttle: real, g: real)
    requires 0.0 < g <= 1.0
    ensures Confidence(ratio, sharePct, harm, fallback, throttle) >= g <==>
            && harm >= g && sharePct >= 25.0 * g
            && (throttle >= g || if ratio.Some? then ratio.value >= 1.0 + 4.0 * g else fallback >= g)
  {
    assert sharePct / 25.0 >= g <==> sharePct >= 25.0 * g;
    if ratio.Some? {
      assert (ratio.value - 1.0) / 4.0 >= g <==> ratio.value >= 1.0 + 4.0 * g;
    }
  }

  /** Confidence is a number in [0, 1], or -1 exactly when there is no evidence of a change to go by. */
  lemma UnattributableExactly(ratio: Option<real>, sharePct: real, harm: real, fallback: real, throttle: real)
    ensures var c := Confidence(ratio, sharePct, harm, fallback, throttle);
            && (c == -1.0 <==> ratio.None? && fallback < 0.0 && throttle <= 0.0)
            && (c == -1.0 || 0.0 <= c <= 1.0)
  {
  }

  /** A steady pod is never confidently blamed: if every usage ever observed for the cgroup lies in
      [lo, hi] with lo > 0 and hi < lo*(1+4g), then in every warm interval, without throttling, its
      confidence stays below g, through any mix of learning, freezing, silence and pruning. */
  lemma SteadyNeverBlamed(kn: Knobs, run: seq<Interval>, cg: nat, usage: real, lo: real, hi: real, g: real,
                          sharePct: real, harm: real, fallback: real, throttle: real)
    requires 0.0 <= kn.alpha <= 1.0 && 0.0 < lo && 0.0 < g && hi < lo * (1.0 + 4.0 * g) && throttle <= 0.0
    requires AllReadings(run, cg, x => lo <= x <= hi) && lo <= usage <= hi
    ensures var ratio := Ratio(kn.warmup, LearnRun(kn, map[], run), cg, usage);
            ratio.Some? ==> Confidence(ratio, sharePct, harm, fallback, throttle) < g
  {
    NormalAmongUsages(kn, map[], run, cg, lo, hi);
    var m := LearnRun(kn, map[], run);
    if Ratio(kn.warmup, m, cg, usage).Some? {
      SteadyRatio(usage, m[cg].value, lo, hi, g);
    }
  }

  lemma SteadyRatio(usage: real, v: real, lo: real, hi: real, g: real)
    requires 0.0 < lo <= v && usage <= hi && g > 0.0 && hi < lo * (1.0 + 4.0 * g)
    ensures usage / v < 1.0 + 4.0 * g
  {
    var k := 1.0 + 4.0 * g;
    Scale(k, lo, v, k * lo, k * v);
    assert usage < k * v;
    RatioAtLeast(usage, v, k);
  }

  // ----- ranking -----

  datatype Row = Row(cg: nat, amount: nat)

  function Amounts(rows: seq<Row>): nat {
    if rows == [] then 0 else Amounts(rows[..|rows| - 1]) + rows[|rows| - 1].amount
  }

  /** Insertion into a list ranked by amount, largest first. */
  function InsertRow(rows: seq<Row>, r: Row): seq<Row> {
    if rows == [] || rows[|rows| - 1].amount >= r.amount then rows + [r]
    else InsertRow(rows[..|rows| - 1], r) + [rows[|rows| - 1]]
  }

  function Rank(rows: seq<Row>): seq<Row> {
    if rows == [] then [] else InsertRow(Rank(rows[..|rows| - 1]), rows[|rows| - 1])
  }

  function Top(rows: seq<Row>, n: nat): seq<Row> {
    if |rows| > n then rows[..n] else rows
  }

  predicate Ranked(rows: seq<Row>) {
    forall i, j :: 0 <= i < j < |rows| ==> rows[i].amount >= rows[j].amount
  }

  lemma {:induction false} InsertRowRanks(rows: seq<Row>, r: Row)
    requires Ranked(rows)
    ensures Ranked(InsertRow(rows, r))
    ensures forall x :: x in InsertRow(rows, r) ==> x in rows || x == r
    decreases |rows|
  {
    if rows != [] && rows[|rows| - 1].amount < r.amount {
      var init, last := rows[..|rows| - 1], rows[|rows| - 1];
      InsertRowRanks(init, r);
      var out := InsertRow(init, r);
      assert forall i :: 0 <= i < |out| ==> out[i] in out;
      assert forall i :: 0 <= i < |out| ==> out[i].amount >= last.amount;
    }
  }

  lemma {:induction false} InsertRowKeeps(rows: seq<Row>, r: Row)
    ensures multiset(InsertRow(rows, r)) == multiset(rows) + multiset{r}
    decreases |rows|
  {
    if rows != [] && rows[|rows| - 1].amount < r.amount {
      var init, last := rows[..|rows| - 1], rows[|rows| - 1];
      InsertRowKeeps(init, r);
      assert rows == init + [last];
    }
  }

  lemma {:induction false} InsertRowAmounts(rows: seq<Row>, r: Row)
    ensures Amounts(InsertRow(rows, r)) == Amounts(rows) + r.amount
    decreases |rows|
  {
    if rows == [] || rows[|rows| - 1].amount >= r.amount {
      assert (rows + [r])[..|rows|] == rows;
    } else {
      var init, last := rows[..|rows| - 1], rows[|rows| - 1];
      InsertRowAmounts(init, r);
      var out := InsertRow(init, r);
      assert (out + [last])[..|out|] == out;
    }
  }

  /** Ranking reorders and loses nothing. */
  lemma {:induction false} RankRanks(rows: seq<Row>)
    ensures Ranked(Rank(rows)) && multiset(Rank(rows)) == multiset(rows)
    decreases |rows|
  {
    if rows != [] {
      var init := rows[..|rows| - 1];
      RankRanks(init);
      InsertRowRanks(Rank(init), rows[|rows| - 1]);
      InsertRowKeeps(Rank(init), rows[|rows| - 1]);
      assert rows == init + [rows[|rows| - 1]];
    }
  }

  lemma {:induction false} RankAmounts(rows: seq<Row>)
    ensures Amounts(Rank(rows)) == Amounts(rows)
    decreases |rows|
  {
    if rows != [] {
      RankAmounts(rows[..|rows| - 1]);
      InsertRowAmounts(Rank(rows[..|rows| - 1]), rows[|rows| - 1]);
    }
  }

  lemma {:induction false} PrefixAmounts(rows: seq<Row>, n: nat)
    requires n <= |rows|
    ensures Amounts(rows[..n]) <= Amounts(rows)
    decreases |rows|
  {
    if n == |rows| {
      assert rows[..n] == rows;
    } else {
      PrefixAmounts(rows[..|rows| - 1], n);
      assert rows[..|rows| - 1][..n] == rows[..n];
    }
  }

  /** Percent of the resource. */
  function Share(part: nat, total: nat): real {
    if total == 0 then 0.0 else part as real / total as real * 100.0
  }

  /** How a dimension turns a ranked row and its share into an offender. */
  type Scorer = (Row, real) -> Offender

  function ListOf(rows: seq<Row>, total: nat, score: Scorer): seq<Offender> {
    if rows == [] then []
    else
      var r := rows[|rows| - 1];
      ListOf(rows[..|rows| - 1], total, score) + [score(r, Share(r.amount, total))]
  }

  function OffendersOf(rows: seq<Row>, topN: nat, score: Scorer): seq<Offender> {
    ListOf(Top(Rank(rows), topN), Amounts(rows), score)
  }

  /** cpuOffenders, ioOffenders and netOffenders: total, rank, cut, score, and track the best. */
  method RankOffenders(rows: seq<Row>, topN: nat, score: Scorer, maxConf0: real)
    returns (out: seq<Offender>, maxConf: real)
    ensures out == OffendersOf(rows, topN, score)
    ensures maxConf >= maxConf0 && forall i :: 0 <= i < |out| ==> out[i].confidence <= maxConf
    ensures maxConf == maxConf0 || exists i :: 0 <= i < |out| && out[i].confidence == maxConf
  {
    var total := 0;
    for i := 0 to |rows|
      invariant total == Amounts(rows[..i])
    {
      assert rows[..i + 1][..i] == rows[..i];
      total := total + rows[i].amount;
    }
    assert rows[..|rows|] == rows;
    var top := Rank(rows);
    if |top| > topN {
      top := top[..topN];
    }
    out, maxConf := [], maxConf0;
    for i := 0 to |top|
      invariant out == ListOf(top[..i], total, score) && maxConf >= maxConf0
      invariant forall j :: 0 <= j < |out| ==> out[j].confidence <= maxConf
      invariant maxConf == maxConf0 || exists j :: 0 <= j < |out| && out[j].confidence == maxConf
    {
      assert top[..i + 1][..i] == top[..i];
      var o := score(top[i], Share(top[i].amount, total));
      ghost var before := out;
      out := out + [o];
      assert forall j :: 0 <= j < |before| ==> out[j] == before[j];
      assert out[|before|] == o;
      if o.confidence > maxConf {
        maxConf := o.confidence;
      }
    }
    assert top[..|top|] == top;
  }

  // ----- blame is bounded -----

  /** A scorer whose confidence never exceeds the share over 25 percent. */
  ghost predicate Capped(score: Scorer) {
    forall r, s :: s >= 0.0 ==> score(r, s).confidence <= s / 25.0
  }

  lemma ShareBound(part: nat, total: nat, g: real, c: real)
    requires g > 0.0 && c >= g && c <= Share(part, total) / 25.0
    ensures total > 0 && g * total as real <= 4.0 * part as real
  {
    if total > 0 {
      var p, t := part as real, total as real;
      var q := p / t;
      Quotient(p, t, q);
      assert Share(part, total) / 25.0 == 4.0 * q;
      NonNegative(4.0 * q - g, t, 4.0 * p - g * t);
    }
  }

  lemma ShareNonNegative(part: nat, total: nat)
    ensures Share(part, total) >= 0.0
  {
    if total > 0 {
      var p, t := part as real, total as real;
      var q := p / t;
      Quotient(p, t, q);
      if q < 0.0 { Positive(-q, t, -p); }
    }
  }

  lemma ReachingLast(os: seq<Offender>, o: Offender, g: real)
    ensures Reaching(os + [o], g) == Reaching(os, g) + if o.confidence >= g then 1 else 0
  {
    assert (os + [o])[..|os|] == os;
  }

  lemma ScoredRow(r: Row, total: nat, score: Scorer, g: real, gt: real)
    requires g > 0.0 && Capped(score) && gt == g * total as real
    ensures score(r, Share(r.amount, total)).confidence >= g ==> total > 0 && gt <= 4.0 * r.amount as real
  {
    var s := Share(r.amount, total);
    ShareNonNegative(r.amount, total);
    if score(r, s).confidence >= g {
      ShareBound(r.amount, total, g, score(r, s).confidence);
    }
  }

  /** gt added up k times. */
  function Repeat(k: nat, gt: real): real {
    if k == 0 then 0.0 else Repeat(k - 1, gt) + gt
  }

  lemma {:induction false} RepeatIsProduct(k: nat, gt: real)
    ensures Repeat(k, gt) == k as real * gt
  {
    if k > 0 {
      RepeatIsProduct(k - 1, gt);
      Distribute(gt, (k - 1) as real, 1.0, k as real);
    }
  }

  /** A row that reaches the gate holds at least gt/4 of the resource. */
  ghost predicate Weighty(total: nat, score: Scorer, g: real, gt: real) {
    forall r: Row :: score(r, Share(r.amount, total)).confidence >= g ==> total > 0 && gt <= 4.0 * r.amount as real
  }

  lemma {:induction false} ReachingBound(rows: seq<Row>, total: nat, score: Scorer, g: real, gt: real)
    requires Weighty(total, score, g, gt)
    ensures var k := Reaching(ListOf(rows, total, score), g);
            Repeat(k, gt) <= 4.0 * Amounts(rows) as real && (total == 0 ==> k == 0)
    decreases |rows|
  {
    if rows != [] {
      var before, r := rows[..|rows| - 1], rows[|rows| - 1];
      ReachingBound(before, total, score, g, gt);
      ReachingLast(ListOf(before, total, score), score(r, Share(r.amount, total)), g);
    }
  }

  lemma TopAmounts(rows: seq<Row>, topN: nat)
    ensures Amounts(Top(Rank(rows), topN)) <= Amounts(rows)
  {
    RankAmounts(rows);
    if |Rank(rows)| > topN {
      PrefixAmounts(Rank(rows), topN);
    }
  }

  /** At most 4/g offenders of one dimension reach confidence g, whatever the rows, the cut and the
      other evidence. */
  lemma BlameBounded(rows: seq<Row>, topN: nat, score: Scorer, g: real)
    requires g > 0.0 && Capped(score)
    ensures Reaching(OffendersOf(rows, topN, score), g) <= (4.0 / g).Floor
  {
    var top, total := Top(Rank(rows), topN), Amounts(rows);
    var k := Reaching(OffendersOf(rows, topN, score), g);
    TopAmounts(rows, topN);
    var gt := g * total as real;
    forall r: Row
      ensures score(r, Share(r.amount, total)).confidence >= g ==> total > 0 && gt <= 4.0 * r.amount as real
    {
      ScoredRow(r, total, score, g, gt);
    }
    ReachingBound(top, total, score, g, gt);
    RepeatIsProduct(k, gt);
    CountFromShares(k, g, total, gt, Amounts(top));
  }

  lemma CountFromShares(k: nat, g: real, total: nat, gt: real, part: nat)
    requires g > 0.0 && gt == g * total as real && part <= total && k as real * gt <= 4.0 * part as real
    requires total == 0 ==> k == 0
    ensures k <= (4.0 / g).Floor
  {
    var kg := k as real * g;
    if total > 0 {
      assert k as real * gt == kg * total as real;
      if kg > 4.0 { Positive(kg - 4.0, total as real, kg * total as real - 4.0 * total as real); }
    }
    FloorBound(k, g);
  }

  lemma FloorBound(k: nat, g: real)
    requires g > 0.0 && k as real * g <= 4.0
    ensures k <= (4.0 / g).Floor
  {
    var q := 4.0 / g;
    Quotient(4.0, g, q);
    if k as real > q { Positive(k as real - q, g, k as real * g - 4.0); }
  }

  // ----- the three scorers -----

  /** What the agent knows of a cgroup this interval. */
  datatype Facts = Facts(resolved: Option<PodID>, ratio: Option<real>, throttle: real, correlation: real)

  function CpuFallback(intensity: real, requestMilli: int, totalReq: int): real {
    if totalReq > 0
    then Clamp((intensity - requestMilli as real / totalReq as real * 100.0) / 50.0, 0.0, 1.0)
    else -1.0
  }

  function CpuScore(facts: nat -> Facts, totalReq: int, victimSignal: real, r: Row, share: real): Offender {
    var f := facts(r.cg);
    Offender(Label(f.resolved, r.cg),
             if f.resolved.None? then -1.0
             else Confidence(f.ratio, share, Max(victimSignal, f.correlation),
                             CpuFallback(share, f.resolved.value.requestMilli, totalReq), f.throttle))
  }

  /** Disk and network: no request to fall back on, no throttle counter. */
  function ByteScore(facts: nat -> Facts, victimSignal: real, r: Row, share: real): Offender {
    var f := facts(r.cg);
    Offender(Label(f.resolved, r.cg),
             if f.resolved.None? then -1.0 else Confidence(f.ratio, share, victimSignal, -1.0, 0.0))
  }

  // ----- the whole snapshot -----

  /** One dimension of an interval: whether it has victims, the cgroups' amounts, what is known of
      each, and how badly the worst victim is hurt. */
  datatype Evidence = Evidence(victims: bool, rows: seq<Row>, facts: nat -> Facts, signal: real)

  /** The CPU requests of all resolved cgroups seen this interval. */
  function RequestSum(rows: seq<Row>, facts: nat -> Facts): int {
    if rows == [] then 0
    else
      var f := facts(rows[|rows| - 1].cg);
      RequestSum(rows[..|rows| - 1], facts) + if f.resolved.Some? then f.resolved.value.requestMilli else 0
  }

  function CpuScorerWith(e: Evidence, totalReq: int): Scorer {
    (r: Row, share: real) => CpuScore(e.facts, totalReq, e.signal, r, share)
  }

  function CpuScorer(e: Evidence): Scorer {
    CpuScorerWith(e, RequestSum(e.rows, e.facts))
  }

  function ByteScorer(e: Evidence): Scorer {
    (r: Row, share: real) => ByteScore(e.facts, e.signal, r, share)
  }

  lemma CpuCapped(e: Evidence)
    ensures Capped(CpuScorer(e))
  {
    var totalReq := RequestSum(e.rows, e.facts);
    forall r: Row, s: real | s >= 0.0 ensures CpuScore(e.facts, totalReq, e.signal, r, s).confidence <= s / 25.0 {
      var f := e.facts(r.cg);
      if f.resolved.Some? {
        ConfidenceCapped(f.ratio, s, Max(e.signal, f.correlation),
                         CpuFallback(s, f.resolved.value.requestMilli, totalReq), f.throttle);
      }
    }
  }

  lemma BytesCapped(e: Evidence)
    ensures Capped(ByteScorer(e))
  {
    forall r: Row, s: real | s >= 0.0 ensures ByteScore(e.facts, e.signal, r, s).confidence <= s / 25.0 {
      ConfidenceCapped(e.facts(r.cg).ratio, s, e.signal, -1.0, 0.0);
    }
  }

  /** A dimension's offenders are listed only when it has victims. */
  function Reported(e: Evidence, score: Scorer, topN: nat): seq<Offender> {
    if e.victims then OffendersOf(e.rows, topN, score) else []
  }

  function BuildSnapshot(confidenceMin: real, topN: nat, cpu: Evidence, disk: Evidence, net: Evidence): Snapshot {
    Snapshot(confidenceMin, Reported(cpu, CpuScorer(cpu), topN), Reported(disk, ByteScorer(disk), topN),
             Reported(net, ByteScorer(net), topN))
  }

  /** cpuOffenders: the ranking with every pod's fair share of the requests in its score. */
  method CpuOffenders(e: Evidence, topN: nat, maxConf0: real) returns (out: seq<Offender>, maxConf: real)
    ensures out == OffendersOf(e.rows, topN, CpuScorer(e))
    ensures maxConf >= maxConf0 && forall i :: 0 <= i < |out| ==> out[i].confidence <= maxConf
    ensures maxConf == maxConf0 || exists i :: 0 <= i < |out| && out[i].confidence == maxConf
  {
    var totalReq := 0;
    for i := 0 to |e.rows|
      invariant totalReq == RequestSum(e.rows[..i], e.facts)
    {
      assert e.rows[..i + 1][..i] == e.rows[..i];
      var f := e.facts(e.rows[i].cg);
      if f.resolved.Some? {
        totalReq := totalReq + f.resolved.value.requestMilli;
      }
    }
    assert e.rows[..|e.rows|] == e.rows;
    out, maxConf := RankOffenders(e.rows, topN, CpuScorerWith(e, totalReq), maxConf0);
  }

  /** buildSnapshot: offenders only where there are victims, and no target at all on a healthy node. */
  method Build(confidenceMin: real, topN: nat, cpu: Evidence, disk: Evidence, net: Evidence)
    returns (snap: Snapshot, healthy: bool)
    ensures snap == BuildSnapshot(confidenceMin, topN, cpu, disk, net)
    ensures healthy <==> !cpu.victims && !disk.victims && !net.victims
    ensures healthy ==> forall override :: TargetsOf(snap, override) == []
  {
    snap := Snapshot(confidenceMin, [], [], []);
    healthy := !cpu.victims && !disk.victims && !net.victims;
    if healthy {
      return;
    }
    if cpu.victims {
      var os, _ := CpuOffenders(cpu, topN, -1.0);
      snap := snap.(cpu := os);
    }
    if disk.victims {
      var os, _ := RankOffenders(disk.rows, topN, ByteScorer(disk), -1.0);
      snap := snap.(disk := os);
    }
    if net.victims {
      var os, _ := RankOffenders(net.rows, topN, ByteScorer(net), -1.0);
      snap := snap.(net := os);
    }
  }

  /** For any interval and any evidence, the controller gets at most 3*floor(4/g) targets from the
      agent's snapshot, where g is the gate in force. */
  lemma TargetsBounded(confidenceMin: real, topN: nat, cpu: Evidence, disk: Evidence, net: Evidence, override: real)
    requires Gate(BuildSnapshot(confidenceMin, topN, cpu, disk, net), override) > 0.0
    ensures var s := BuildSnapshot(confidenceMin, topN, cpu, disk, net);
            |TargetsOf(s, override)| <= 3 * (4.0 / Gate(s, override)).Floor
  {
    var s := BuildSnapshot(confidenceMin, topN, cpu, disk, net);
    var g := Gate(s, override);
    CpuCapped(cpu);
    BytesCapped(disk);
    BytesCapped(net);
    DimensionBounded(cpu, CpuScorer(cpu), topN, g, Cpu);
    DimensionBounded(disk, ByteScorer(disk), topN, g, Disk);
    DimensionBounded(net, ByteScorer(net), topN, g, Net);
  }

  lemma DimensionBounded(e: Evidence, score: Scorer, topN: nat, g: real, res: Resource)
    requires Capped(score) && g > 0.0
    ensures |Picked(Reported(e, score, topN), g, res)| <= (4.0 / g).Floor
  {
    PickedCount(Reported(e, score, topN), g, res);
    if e.victims {
      BlameBounded(e.rows, topN, score, g);
    } else {
      FloorBound(0, g);
    }
  }

  /** The scorer names a row by its cgroup's label. */
  ghost predicate Labels(score: Scorer, facts: nat -> Facts) {
    forall r, s :: score(r, s).pod == Label(facts(r.cg).resolved, r.cg)
  }

  /** Every listed offender is a scored row. */
  lemma {:induction false} ListedRows(rows: seq<Row>, total: nat, score: Scorer, o: Offender)
    requires o in ListOf(rows, total, score)
    ensures exists r :: r in rows && o == score(r, Share(r.amount, total))
    decreases |rows|
  {
    var before, last := rows[..|rows| - 1], rows[|rows| - 1];
    if o in ListOf(before, total, score) {
      ListedRows(before, total, score, o);
      var r :| r in before && o == score(r, Share(r.amount, total));
      assert r in rows;
    } else {
      assert last in rows;
    }
  }

  lemma TopFromRows(rows: seq<Row>, n: nat, r: Row)
    requires r in Top(Rank(rows), n)
    ensures r in rows
  {
    RankRanks(rows);
    assert r in multiset(Rank(rows));
  }

  function EvidenceFor(res: Resource, cpu: Evidence, disk: Evidence, net: Evidence): Evidence {
    match res
    case Cpu => cpu
    case Disk => disk
    case Net => net
  }

  function ScorerFor(res: Resource, e: Evidence): Scorer {
    if res == Cpu then CpuScorer(e) else ByteScorer(e)
  }

  /** The target is the full identity of this row's resolved cgroup, with the row's own score. */
  predicate FromRow(e: Evidence, score: Scorer, t: Target, r: Row) {
    var resolved := e.facts(r.cg).resolved;
    r in e.rows && resolved.Some? && resolved.value.ns != "" &&
    Print(resolved.value) == Join(Parts(t.ns, t.pod, t.container)) &&
    score(r, Share(r.amount, Amounts(e.rows))).confidence == t.confidence
  }

  lemma ReportedResolved(e: Evidence, score: Scorer, topN: nat, t: Target)
    requires Labels(score, e.facts) && Genuine(Parts(t.ns, t.pod, t.container))
    requires Offender(Join(Parts(t.ns, t.pod, t.container)), t.confidence) in Reported(e, score, topN)
    ensures exists r :: FromRow(e, score, t, r)
  {
    var q := Parts(t.ns, t.pod, t.container);
    var o := Offender(Join(q), t.confidence);
    var top := Top(Rank(e.rows), topN);
    ListedRows(top, Amounts(e.rows), score, o);
    var r :| r in top && o == score(r, Share(r.amount, Amounts(e.rows)));
    TopFromRows(e.rows, topN, r);
    SplitPodExact(o.pod, q);
    LabelParsesBack(e.facts(r.cg).resolved, r.cg);
    assert FromRow(e, score, t, r);
  }

  /** No unresolved cgroup becomes a target, whatever the snapshot: every target is the identity,
      printed in full, of a cgroup of its dimension that the resolver knew, with that cgroup's score. */
  lemma NoUnresolvedTarget(confidenceMin: real, topN: nat, cpu: Evidence, disk: Evidence, net: Evidence,
                           override: real, t: Target)
    requires t in TargetsOf(BuildSnapshot(confidenceMin, topN, cpu, disk, net), override)
    ensures var e := EvidenceFor(t.resource, cpu, disk, net);
            exists r :: FromRow(e, ScorerFor(t.resource, e), t, r)
  {
    TargetsGenuine(BuildSnapshot(confidenceMin, topN, cpu, disk, net), override, t);
    var e := EvidenceFor(t.resource, cpu, disk, net);
    ReportedResolved(e, ScorerFor(t.resource, e), topN, t);
  }

  // ----- who is a target, exactly -----

  /** The totals are plain sums over the rows. */
  lemma {:induction false} TotalsAdd(a: seq<Row>, b: seq<Row>, facts: nat -> Facts)
    ensures Amounts(a + b) == Amounts(a) + Amounts(b)
    ensures RequestSum(a + b, facts) == RequestSum(a, facts) + RequestSum(b, facts)
    decreases |b|
  {
    if b == [] {
      assert a + b == a;
    } else {
      TotalsAdd(a, b[..|b| - 1], facts);
      assert (a + b)[..|a + b| - 1] == a + b[..|b| - 1];
    }
  }

  lemma TotalsOne(r: Row, facts: nat -> Facts)
    ensures Amounts([r]) == r.amount
    ensures var resolved := facts(r.cg).resolved;
            RequestSum([r], facts) == if resolved.Some? then resolved.value.requestMilli else 0
  {
    assert [r][..0] == [];
  }

  lemma {:induction false} InsertRowLength(rows: seq<Row>, r: Row)
    ensures |InsertRow(rows, r)| == |rows| + 1
    decreases |rows|
  {
    if rows != [] && rows[|rows| - 1].amount < r.amount {
      InsertRowLength(rows[..|rows| - 1], r);
    }
  }

  lemma {:induction false} RankLength(rows: seq<Row>)
    ensures |Rank(rows)| == |rows|
    decreases |rows|
  {
    if rows != [] {
      RankLength(rows[..|rows| - 1]);
      InsertRowLength(Rank(rows[..|rows| - 1]), rows[|rows| - 1]);
    }
  }

  /** What is left of a list beyond its first k rows. */
  lemma CutSplits(all: seq<Row>, k: nat, x: Row)
    requires k <= |all|
    ensures multiset(all) == multiset(all[..k]) + multiset(all[k..])
    ensures x in multiset(all) - multiset(all[..k]) ==> x in all[k..]
  {
    assert all == all[..k] + all[k..];
  }

  lemma CutRanked(all: seq<Row>, k: nat, x: Row, r: Row)
    requires Ranked(all) && k <= |all| && x in all[k..] && r in all[..k]
    ensures x.amount <= r.amount
  {
    var i :| 0 <= i < |all[k..]| && all[k..][i] == x;
    var j :| 0 <= j < k && all[..k][j] == r;
    assert all[k + i] == x && all[j] == r;
  }

  /** The cut keeps the largest: as many rows as asked for or there are, each of them a row, and every row
      left out no larger than any kept. */
  lemma TopExact(rows: seq<Row>, n: nat, x: Row, r: Row)
    ensures var top := Top(Rank(rows), n);
            && |top| == (if |rows| < n then |rows| else n) && multiset(top) <= multiset(rows)
            && (x in multiset(rows) - multiset(top) && r in top ==> x.amount <= r.amount)
  {
    var all, top := Rank(rows), Top(Rank(rows), n);
    RankRanks(rows);
    RankLength(rows);
    assert top == all[..|top|];
    CutSplits(all, |top|, x);
    if x in multiset(rows) - multiset(top) && r in top {
      CutRanked(all, |top|, x, r);
    }
  }

  /** The row's cgroup is to blame at gate g, in terms of what was measured: it is known; there is harm; it
      holds at least g/4 of the resource; and it is throttled at g, or uses at least 1+4g times its normal,
      or, before it has a normal, uses at least g/2 more of the CPU than its share of all requests. */
  predicate ToBlame(res: Resource, e: Evidence, r: Row, g: real) {
    var f := e.facts(r.cg);
    var total, requests := Amounts(e.rows), RequestSum(e.rows, e.facts);
    && f.resolved.Some? && total > 0
    && (e.signal >= g || (res == Cpu && f.correlation >= g))
    && 4.0 * (r.amount as real / total as real) >= g
    && (|| (res == Cpu && f.throttle >= g)
        || if f.ratio.Some? then f.ratio.value >= 1.0 + 4.0 * g
           else res == Cpu && requests > 0 &&
                r.amount as real / total as real - f.resolved.value.requestMilli as real / requests as real >= g / 2.0)
  }

  lemma FallbackExactly(used: real, requestMilli: int, requests: int, g: real)
    requires 0.0 < g <= 1.0
    ensures CpuFallback(used * 100.0, requestMilli, requests) >= g <==>
            requests > 0 && used - requestMilli as real / requests as real >= g / 2.0
  {
  }

  lemma ToBlameExactly(res: Resource, e: Evidence, r: Row, g: real)
    requires 0.0 < g <= 1.0
    ensures ScorerFor(res, e)(r, Share(r.amount, Amounts(e.rows))).confidence >= g <==> ToBlame(res, e, r, g)
  {
    var f := e.facts(r.cg);
    var total, requests := Amounts(e.rows), RequestSum(e.rows, e.facts);
    var share := Share(r.amount, total);
    if f.resolved.Some? {
      var used := if total > 0 then r.amount as real / total as real else 0.0;
      assert share == used * 100.0;
      var requestMilli := f.resolved.value.requestMilli;
      FallbackExactly(used, requestMilli, requests, g);
      ConfidenceExactly(f.ratio, share, Max(e.signal, f.correlation), CpuFallback(share, requestMilli, requests),
                        f.throttle, g);
      ConfidenceExactly(f.ratio, share, e.signal, -1.0, 0.0, g);
    }
  }

  /** A row is unattributable exactly when its cgroup is unknown, or has no normal yet and nothing else to
      go by: on the CPU side neither requests to compare with nor throttling, on the others nothing at all. */
  lemma UnattributableRow(res: Resource, e: Evidence, r: Row, share: real)
    ensures var f := e.facts(r.cg);
            ScorerFor(res, e)(r, share).confidence == -1.0 <==>
            f.resolved.None? ||
            (f.ratio.None? && (res == Cpu ==> RequestSum(e.rows, e.facts) <= 0 && f.throttle <= 0.0))
  {
    var f := e.facts(r.cg);
    if f.resolved.Some? {
      var requests := RequestSum(e.rows, e.facts);
      UnattributableExactly(f.ratio, share, Max(e.signal, f.correlation),
                            CpuFallback(share, f.resolved.value.requestMilli, requests), f.throttle);
      UnattributableExactly(f.ratio, share, e.signal, -1.0, 0.0);
    }
  }

  /** The row's own identity, printed in full, is the target's. */
  predicate Names(e: Evidence, r: Row, t: Target) {
    var resolved := e.facts(r.cg).resolved;
    resolved.Some? && resolved.value.ns != "" &&
    resolved.value.ns + "/" + resolved.value.pod + "/" + resolved.value.container ==
    t.ns + "/" + t.pod + "/" + t.container
  }

  lemma {:induction false} ListedExactly(rows: seq<Row>, total: nat, score: Scorer, o: Offender)
    ensures o in ListOf(rows, total, score) <==> exists r :: r in rows && o == score(r, Share(r.amount, total))
    decreases |rows|
  {
    if rows != [] {
      var before, last := rows[..|rows| - 1], rows[|rows| - 1];
      ListedExactly(before, total, score, o);
      assert rows == before + [last];
      if exists r :: r in rows && o == score(r, Share(r.amount, total)) {
        var r :| r in rows && o == score(r, Share(r.amount, total));
        assert r in before || r == last;
      }
    }
  }

  /** A row that yields the target: among the largest, of that name and score, and to blame. */
  ghost predicate Yields(res: Resource, e: Evidence, topN: nat, g: real, t: Target, r: Row) {
    r in Top(Rank(e.rows), topN) && Names(e, r, t) && ToBlame(res, e, r, g) &&
    ScorerFor(res, e)(r, Share(r.amount, Amounts(e.rows))).confidence == t.confidence
  }

  /** The label of a row is the target's name exactly when its identity is. */
  lemma LabelNames(e: Evidence, r: Row, t: Target)
    requires Genuine(Parts(t.ns, t.pod, t.container))
    ensures Label(e.facts(r.cg).resolved, r.cg) == t.ns + "/" + t.pod + "/" + t.container <==> Names(e, r, t)
  {
    var q := Parts(t.ns, t.pod, t.container);
    SplitPodExact(Label(e.facts(r.cg).resolved, r.cg), q);
    LabelParsesBack(e.facts(r.cg).resolved, r.cg);
  }

  lemma OffenderYields(res: Resource, e: Evidence, topN: nat, g: real, t: Target)
    requires 0.0 < g <= 1.0 && t.confidence >= g && Genuine(Parts(t.ns, t.pod, t.container))
    ensures var o := Offender(t.ns + "/" + t.pod + "/" + t.container, t.confidence);
            o in OffendersOf(e.rows, topN, ScorerFor(res, e)) <==> exists r :: Yields(res, e, topN, g, t, r)
  {
    var o := Offender(t.ns + "/" + t.pod + "/" + t.container, t.confidence);
    var top, total, score := Top(Rank(e.rows), topN), Amounts(e.rows), ScorerFor(res, e);
    ListedExactly(top, total, score, o);
    forall r: Row ensures o == score(r, Share(r.amount, total)) && r in top <==> Yields(res, e, topN, g, t, r) {
      LabelNames(e, r, t);
      ToBlameExactly(res, e, r, g);
    }
  }

  /** From what was measured to what the controller may act on: t is a target if and only if its dimension
      has victims and one of the largest users of the resource bears its name, its score, and the blame. */
  lemma TargetExactly(confidenceMin: real, topN: nat, cpu: Evidence, disk: Evidence, net: Evidence,
                      override: real, t: Target)
    requires 0.0 < (if override > 0.0 then override else confidenceMin) <= 1.0
    ensures var g := if override > 0.0 then override else confidenceMin;
            var e := EvidenceFor(t.resource, cpu, disk, net);
            t in TargetsOf(BuildSnapshot(confidenceMin, topN, cpu, disk, net), override) <==>
            && t.confidence >= g && Genuine(Parts(t.ns, t.pod, t.container))
            && e.victims && exists r :: Yields(t.resource, e, topN, g, t, r)
  {
    var g := if override > 0.0 then override else confidenceMin;
    var e := EvidenceFor(t.resource, cpu, disk, net);
    TargetsExact(BuildSnapshot(confidenceMin, topN, cpu, disk, net), override, t);
    if t.confidence >= g && Genuine(Parts(t.ns, t.pod, t.container)) {
      OffenderYields(t.resource, e, topN, g, t);
    }
  }

  // ----- steady cgroups are never targets -----

  /** The row's cgroup is warm and unthrottled, its usage was learned over this run, and all its usage,
      this interval's included, lies in [lo, hi] with hi < lo*(1+4g). */
  predicate SteadyRow(e: Evidence, r: Row, g: real, kn: Knobs, run: seq<Interval>, lo: real, hi: real) {
    var f := e.facts(r.cg);
    0.0 <= kn.alpha <= 1.0 && 0.0 < lo && hi < lo * (1.0 + 4.0 * g) &&
    AllReadings(run, r.cg, x => lo <= x <= hi) && lo <= r.amount as real <= hi &&
    f.ratio == Ratio(kn.warmup, LearnRun(kn, map[], run), r.cg, r.amount as real) &&
    f.ratio.Some? && f.throttle <= 0.0
  }

  lemma SteadyScored(e: Evidence, r: Row, g: real, kn: Knobs, run: seq<Interval>, lo: real, hi: real,
                     res: Resource, share: real)
    requires g > 0.0 && SteadyRow(e, r, g, kn, run, lo, hi)
    ensures ScorerFor(res, e)(r, share).confidence < g
  {
    var f := e.facts(r.cg);
    if f.resolved.Some? {
      var usage := r.amount as real;
      SteadyNeverBlamed(kn, run, r.cg, usage, lo, hi, g, share, e.signal, -1.0, 0.0);
      SteadyNeverBlamed(kn, run, r.cg, usage, lo, hi, g, share, Max(e.signal, f.correlation),
                        CpuFallback(share, f.resolved.value.requestMilli, RequestSum(e.rows, e.facts)), f.throttle);
    }
  }

  /** From the learned averages to the controller: whatever the snapshot, every target at gate g stems
      from a row whose cgroup is not steady. */
  lemma SteadyNeverTargeted(confidenceMin: real, topN: nat, cpu: Evidence, disk: Evidence, net: Evidence,
                            override: real, t: Target)
    requires Gate(BuildSnapshot(confidenceMin, topN, cpu, disk, net), override) > 0.0
    requires t in TargetsOf(BuildSnapshot(confidenceMin, topN, cpu, disk, net), override)
    ensures var g := Gate(BuildSnapshot(confidenceMin, topN, cpu, disk, net), override);
            var e := EvidenceFor(t.resource, cpu, disk, net);
            exists r :: FromRow(e, ScorerFor(t.resource, e), t, r) &&
                        forall kn, run, lo, hi :: !SteadyRow(e, r, g, kn, run, lo, hi)
  {
    var s := BuildSnapshot(confidenceMin, topN, cpu, disk, net);
    var g, e := Gate(s, override), EvidenceFor(t.resource, cpu, disk, net);
    TargetsGenuine(s, override, t);
    NoUnresolvedTarget(confidenceMin, topN, cpu, disk, net, override, t);
    var r :| FromRow(e, ScorerFor(t.resource, e), t, r);
    forall kn, run, lo, hi | SteadyRow(e, r, g, kn, run, lo, hi) ensures false {
      SteadyScored(e, r, g, kn, run, lo, hi, t.resource, Share(r.amount, Amounts(e.rows)));
    }
  }
}
