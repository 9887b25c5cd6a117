/** Run-queue wait histograms: bucketing in the kernel, the per-CPU merge, and the percentile
    estimate (sched_monitor.bpf.c, internal/ebpf/sched.go, internal/metrics/histogram.go). */
module Histogram {

  const MAX_SLOTS: nat := 27

  /** One cgroup's wait histogram on one CPU, or the merge of several. */
  datatype Hist = Hist(slots: seq<nat>, totalUs: nat, count: nat)

  function Pow2(n: nat): (p: nat)
    ensures p > 0
  {
    if n == 0 then 1 else 2 * Pow2(n - 1)
  }

  lemma {:induction false} Pow2Grows(m: nat, n: nat)
    requires m < n
    ensures 2 * Pow2(m) <= Pow2(n)
  {
    if m + 1 < n {
      Pow2Grows(m, n - 1);
    }
  }

  // ----- bucketing -----

  /** Slot b's range: [2^b, 2^(b+1)), with 0 added to the first and everything above to the last. */
  predicate InSlot(v: nat, b: nat) {
    b < MAX_SLOTS && (v < 2 ==> b == 0) && (v >= 2 ==> Pow2(b) <= v) && (b < MAX_SLOTS - 1 ==> v < Pow2(b + 1))
  }

  lemma SlotUnique(v: nat, a: nat, b: nat)
    requires InSlot(v, a) && InSlot(v, b)
    ensures a == b
  {
    if a < b { Pow2Grows(a, b); }
    if b < a { Pow2Grows(b, a); }
  }

  /** How often v can be halved before it reaches 1, at most room times. */
  function Halvings(v: nat, room: nat): nat {
    if v > 1 && room > 0 then 1 + Halvings(v / 2, room - 1) else 0
  }

  lemma {:induction false} HalvingsSlot(v: nat, room: nat)
    ensures var h := Halvings(v, room);
            h <= room && (v < 2 ==> h == 0) && (v >= 2 ==> Pow2(h) <= v) && (h < room ==> v < Pow2(h + 1))
    decreases room
  {
    if v > 1 && room > 0 {
      HalvingsSlot(v / 2, room - 1);
    }
  }

  method Log2Bucket(value: nat) returns (bucket: nat)
    ensures InSlot(value, bucket)
  {
    var v := value;
    bucket := 0;
    while v > 1 && bucket < MAX_SLOTS - 1
      invariant bucket < MAX_SLOTS
      invariant bucket + Halvings(v, MAX_SLOTS - 1 - bucket) == Halvings(value, MAX_SLOTS - 1)
    {
      v := v / 2;
      bucket := bucket + 1;
    }
    HalvingsSlot(value, MAX_SLOTS - 1);
  }

  /** The slot of a wait, by search from slot b upwards. */
  function SlotFrom(v: nat, b: nat): (slot: nat)
    requires b < MAX_SLOTS && (b == 0 || (v >= 2 && Pow2(b) <= v))
    ensures InSlot(v, slot)
    decreases MAX_SLOTS - b
  {
    if b == MAX_SLOTS - 1 || v < Pow2(b + 1) then b
    else
      assert Pow2(b + 1) >= 2;
      SlotFrom(v, b + 1)
  }

  function SlotOf(v: nat): nat {
    SlotFrom(v, 0)
  }

  lemma SlotMonotone(v: nat, w: nat)
    requires v <= w
    ensures SlotOf(v) <= SlotOf(w)
  {
    var a, b := SlotOf(v), SlotOf(w);
    if b < a { Pow2Grows(b, a); }
  }

  // ----- histograms of recorded waits -----

  function CountIn(ws: seq<nat>, i: int): nat {
    if ws == [] then 0 else CountIn(ws[..|ws| - 1], i) + if SlotOf(ws[|ws| - 1]) == i then 1 else 0
  }

  function SumOf(ws: seq<nat>): nat {
    if ws == [] then 0 else SumOf(ws[..|ws| - 1]) + ws[|ws| - 1]
  }

  /** The histogram counts exactly these waits. */
  predicate Counts(h: Hist, ws: seq<nat>) {
    |h.slots| == MAX_SLOTS && h.count == |ws| && h.totalUs == SumOf(ws) &&
    forall i :: 0 <= i < MAX_SLOTS ==> h.slots[i] == CountIn(ws, i)
  }

  const EMPTY := Hist(seq(MAX_SLOTS, _ => 0), 0, 0)

  /** Recording one more wait, as the switch handler does with the bucket it computed. */
  function Recorded(h: Hist, us: nat, bucket: nat): Hist
    requires bucket < |h.slots|
  {
    Hist(h.slots[bucket := h.slots[bucket] + 1], h.totalUs + us, h.count + 1)
  }

  lemma RecordedCounts(h: Hist, ws: seq<nat>, us: nat, bucket: nat)
    requires Counts(h, ws) && InSlot(us, bucket)
    ensures Counts(Recorded(h, us, bucket), ws + [us])
  {
    SlotUnique(us, bucket, SlotOf(us));
    assert (ws + [us])[..|ws|] == ws;
  }

  // ----- the per-CPU merge -----

  function SlotSum(percpu: seq<Hist>, i: nat): nat
    requires forall c :: 0 <= c < |percpu| ==> i < |percpu[c].slots|
  {
    if percpu == [] then 0 else SlotSum(percpu[..|percpu| - 1], i) + percpu[|percpu| - 1].slots[i]
  }

  function CountSum(percpu: seq<Hist>): nat {
    if percpu == [] then 0 else CountSum(percpu[..|percpu| - 1]) + percpu[|percpu| - 1].count
  }

  function UsSum(percpu: seq<Hist>): nat {
    if percpu == [] then 0 else UsSum(percpu[..|percpu| - 1]) + percpu[|percpu| - 1].totalUs
  }

  ghost predicate IsMerge(h: Hist, percpu: seq<Hist>) {
    (forall c :: 0 <= c < |percpu| ==> |percpu[c].slots| == MAX_SLOTS) &&
    |h.slots| == MAX_SLOTS && h.count == CountSum(percpu) && h.totalUs == UsSum(percpu) &&
    forall i :: 0 <= i < MAX_SLOTS ==> h.slots[i] == SlotSum(percpu, i)
  }

  /** Read's inner loops for one cgroup. */
  method MergePerCpu(percpu: seq<Hist>) returns (h: Hist)
    requires forall c :: 0 <= c < |percpu| ==> |percpu[c].slots| == MAX_SLOTS
    ensures IsMerge(h, percpu)
  {
    var slots := new nat[MAX_SLOTS](_ => 0);
    var totalUs, count := 0, 0;
    for c := 0 to |percpu|
      invariant count == CountSum(percpu[..c]) && totalUs == UsSum(percpu[..c])
      invariant forall i :: 0 <= i < MAX_SLOTS ==> slots[i] == SlotSum(percpu[..c], i)
    {
      assert percpu[..c + 1][..c] == percpu[..c];
      for i := 0 to MAX_SLOTS
        invariant forall j :: 0 <= j < i ==> slots[j] == SlotSum(percpu[..c], j) + percpu[c].slots[j]
        invariant forall j :: i <= j < MAX_SLOTS ==> slots[j] == SlotSum(percpu[..c], j)
      {
        slots[i] := slots[i] + percpu[c].slots[i];
      }
      totalUs := totalUs + percpu[c].totalUs;
      count := count + percpu[c].count;
    }
    assert percpu[..|percpu|] == percpu;
    h := Hist(slots[..], totalUs, count);
  }

  function Concat(wss: seq<seq<nat>>): seq<nat> {
    if wss == [] then [] else Concat(wss[..|wss| - 1]) + wss[|wss| - 1]
  }

  lemma {:induction false} CountInConcat(a: seq<nat>, b: seq<nat>, i: int)
    ensures CountIn(a + b, i) == CountIn(a, i) + CountIn(b, i)
    ensures SumOf(a + b) == SumOf(a) + SumOf(b)
    decreases |b|
  {
    if b == [] {
      assert a + b == a;
    } else {
      CountInConcat(a, b[..|b| - 1], i);
      assert (a + b)[..|a + b| - 1] == a + b[..|b| - 1];
    }
  }

  /** One wait counts once, in its own slot, with its own length. */
  lemma CountsOne(w: nat, i: int)
    ensures SumOf([w]) == w && CountIn([w], i) == if i == SlotOf(w) then 1 else 0
  {
    assert [w][..0] == [];
  }

  /** Merging histograms is concatenating the waits they count. */
  lemma {:induction false} MergeSlots(percpu: seq<Hist>, wss: seq<seq<nat>>, i: nat)
    requires |percpu| == |wss| && i < MAX_SLOTS
    requires forall c :: 0 <= c < |percpu| ==> i < |percpu[c].slots| && percpu[c].slots[i] == CountIn(wss[c], i)
    ensures SlotSum(percpu, i) == CountIn(Concat(wss), i)
    decreases |wss|
  {
    if wss != [] {
      var n := |wss| - 1;
      MergeSlots(percpu[..n], wss[..n], i);
      CountInConcat(Concat(wss[..n]), wss[n], i);
    }
  }

  lemma {:induction false} MergeSums(percpu: seq<Hist>, wss: seq<seq<nat>>)
    requires |percpu| == |wss|
    requires forall c :: 0 <= c < |percpu| ==> percpu[c].count == |wss[c]| && percpu[c].totalUs == SumOf(wss[c])
    ensures CountSum(percpu) == |Concat(wss)| && UsSum(percpu) == SumOf(Concat(wss))
    decreases |wss|
  {
    if wss != [] {
      var n := |wss| - 1;
      MergeSums(percpu[..n], wss[..n]);
      CountInConcat(Concat(wss[..n]), wss[n], 0);
    }
  }

  lemma MergeCounts(h: Hist, percpu: seq<Hist>, wss: seq<seq<nat>>)
    requires IsMerge(h, percpu)
    requires |percpu| == |wss| && forall c :: 0 <= c < |wss| ==> Counts(percpu[c], wss[c])
    ensures Counts(h, Concat(wss))
  {
    assert forall c :: 0 <= c < |percpu| ==> Counts(percpu[c], wss[c]);
    MergeSums(percpu, wss);
    forall i | 0 <= i < MAX_SLOTS ensures h.slots[i] == CountIn(Concat(wss), i) {
      MergeSlots(percpu, wss, i);
    }
  }

  // ----- percentile -----

  /** The events in the first i slots. */
  function Cum(slots: seq<nat>, i: nat): nat
    requires i <= |slots|
  {
    if i == 0 then 0 else Cum(slots, i - 1) + slots[i - 1]
  }

  function Total(slots: seq<nat>): nat {
    Cum(slots, |slots|)
  }

  function Ceil(x: real): int {
    -((-x).Floor)
  }

  /** How many events lie at or below the percentile, at least one. */
  function Target(p: real, n: nat): nat
    requires p >= 0.0
  {
    var t := Ceil(p / 100.0 * n as real);
    if t <= 0 then 1 else t
  }

  /** k is the smallest positive number of events that is at least p percent of n. */
  predicate IsRank(p: real, n: nat, k: nat) {
    k >= 1 && p * n as real <= 100.0 * k as real && (k == 1 || 100.0 * (k - 1) as real < p * n as real)
  }

  lemma TargetIsRank(p: real, n: nat)
    requires p >= 0.0
    ensures IsRank(p, n, Target(p, n))
  {
    var x, y := p * n as real, p / 100.0 * n as real;
    assert 100.0 * y == x;
    var t := Ceil(y);
    assert (t - 1) as real < y <= t as real;
    assert x >= 0.0;
  }

  function Midpoint(i: nat): real {
    Pow2(i) as real * 1.5
  }

  /** Slot i is where the running count reaches the target, or the last slot if it never does. */
  predicate Reaches(slots: seq<nat>, target: nat, i: nat) {
    i < |slots| && Cum(slots, i) < target && (target <= Cum(slots, i + 1) || i == |slots| - 1)
  }

  method Percentile(slots: seq<nat>, p: real) returns (r: real)
    requires p >= 0.0
    ensures Total(slots) == 0 ==> r == 0.0
    ensures Total(slots) > 0 ==>
              exists k, i :: IsRank(p, Total(slots), k) && Reaches(slots, k, i) && r == Midpoint(i)
  {
    var total := 0;
    for i := 0 to |slots|
      invariant total == Cum(slots, i)
    {
      total := total + slots[i];
    }
    if total == 0 {
      return 0.0;
    }
    var target := Target(p, total);
    TargetIsRank(p, total);
    var cum := 0;
    for i := 0 to |slots|
      invariant cum == Cum(slots, i) && cum < target
    {
      cum := cum + slots[i];
      if cum >= target {
        assert Reaches(slots, target, i);
        return Midpoint(i);
      }
    }
    assert Reaches(slots, target, |slots| - 1);
    return Midpoint(|slots| - 1);
  }

  // ----- order statistics -----

  function Insert(s: seq<nat>, x: nat): seq<nat> {
    if s == [] || s[|s| - 1] <= x then s + [x]
    else Insert(s[..|s| - 1], x) + [s[|s| - 1]]
  }

  function Sort(ws: seq<nat>): seq<nat> {
    if ws == [] then [] else Insert(Sort(ws[..|ws| - 1]), ws[|ws| - 1])
  }

  predicate Sorted(s: seq<nat>) {
    forall i, j :: 0 <= i < j < |s| ==> s[i] <= s[j]
  }

  lemma {:induction false} InsertSorts(s: seq<nat>, x: nat)
    requires Sorted(s)
    ensures |Insert(s, x)| == |s| + 1 && Sorted(Insert(s, x))
    ensures forall y :: y in Insert(s, x) ==> y in s || y == x
    ensures multiset(Insert(s, x)) == multiset(s) + multiset{x}
    decreases |s|
  {
    if s != [] && s[|s| - 1] > x {
      var init, last := s[..|s| - 1], s[|s| - 1];
      InsertSorts(init, x);
      assert s == init + [last];
      var r := Insert(init, x);
      assert forall i :: 0 <= i < |r| ==> r[i] in r;
      assert forall i :: 0 <= i < |r| ==> r[i] <= last;
    }
  }

  lemma {:induction false} SortSorts(ws: seq<nat>)
    ensures |Sort(ws)| == |ws| && Sorted(Sort(ws)) && multiset(Sort(ws)) == multiset(ws)
    decreases |ws|
  {
    if ws != [] {
      var init := ws[..|ws| - 1];
      SortSorts(init);
      InsertSorts(Sort(init), ws[|ws| - 1]);
      assert ws == init + [ws[|ws| - 1]];
    }
  }

  /** The k-th smallest wait. */
  function Kth(ws: seq<nat>, k: nat): nat
    requires 1 <= k <= |ws|
  {
    assert |Sort(ws)| == |ws| by { SortSorts(ws); }
    Sort(ws)[k - 1]
  }

  /** How many waits fall into slots up to i. */
  function UpTo(ws: seq<nat>, i: int): nat {
    if ws == [] then 0 else UpTo(ws[..|ws| - 1], i) + if SlotOf(ws[|ws| - 1]) <= i then 1 else 0
  }

  lemma {:induction false} UpToBounds(ws: seq<nat>, i: int)
    ensures UpTo(ws, i) <= |ws|
    ensures (forall j :: 0 <= j < |ws| ==> SlotOf(ws[j]) <= i) ==> UpTo(ws, i) == |ws|
    ensures i < 0 ==> UpTo(ws, i) == 0
    ensures UpTo(ws, i) == UpTo(ws, i - 1) + CountIn(ws, i)
    decreases |ws|
  {
    if ws != [] {
      UpToBounds(ws[..|ws| - 1], i);
    }
  }

  lemma {:induction false} UpToInsert(s: seq<nat>, x: nat, i: int)
    ensures UpTo(Insert(s, x), i) == UpTo(s, i) + if SlotOf(x) <= i then 1 else 0
    decreases |s|
  {
    if s == [] || s[|s| - 1] <= x {
      assert (s + [x])[..|s|] == s;
    } else {
      var r := Insert(s[..|s| - 1], x);
      UpToInsert(s[..|s| - 1], x, i);
      assert (r + [s[|s| - 1]])[..|r|] == r;
    }
  }

  lemma {:induction false} UpToSort(ws: seq<nat>, i: int)
    ensures UpTo(Sort(ws), i) == UpTo(ws, i)
    decreases |ws|
  {
    if ws != [] {
      UpToSort(ws[..|ws| - 1], i);
      UpToInsert(Sort(ws[..|ws| - 1]), ws[|ws| - 1], i);
    }
  }

  /** In a sorted sequence the waits up to slot i form a prefix. */
  lemma {:induction false} RankInSorted(s: seq<nat>, k: nat, i: int)
    requires Sorted(s) && 1 <= k <= |s|
    ensures UpTo(s, i) >= k <==> SlotOf(s[k - 1]) <= i
    decreases |s|
  {
    var last := s[|s| - 1];
    if SlotOf(last) <= i {
      forall j | 0 <= j < |s| ensures SlotOf(s[j]) <= i {
        SlotMonotone(s[j], last);
      }
      UpToBounds(s, i);
    } else {
      UpToBounds(s[..|s| - 1], i);
      if k < |s| {
        RankInSorted(s[..|s| - 1], k, i);
      }
    }
  }

  lemma {:induction false} PrefixTotals(h: Hist, ws: seq<nat>, i: nat)
    requires Counts(h, ws) && i <= MAX_SLOTS
    ensures Cum(h.slots, i) == UpTo(ws, i - 1)
    decreases i
  {
    UpToBounds(ws, i - 1);
    if i > 0 {
      PrefixTotals(h, ws, i - 1);
    }
  }

  /** Every histogram's slots add up to its count. */
  lemma SlotsSumToCount(h: Hist, ws: seq<nat>)
    requires Counts(h, ws)
    ensures Total(h.slots) == h.count
  {
    PrefixTotals(h, ws, MAX_SLOTS);
    UpToBounds(ws, MAX_SLOTS - 1);
  }

  // ----- what a percentile is -----

  /** How many waits are q or shorter. */
  function AtMost(ws: seq<nat>, q: nat): nat {
    if ws == [] then 0 else AtMost(ws[..|ws| - 1], q) + if ws[|ws| - 1] <= q then 1 else 0
  }

  /** How many waits are strictly shorter than q. */
  function Below(ws: seq<nat>, q: nat): nat {
    if ws == [] then 0 else Below(ws[..|ws| - 1], q) + if ws[|ws| - 1] < q then 1 else 0
  }

  /** q is one of the waits, at least p percent of them are q or shorter, and fewer than p percent are
      strictly shorter (none at all for the zeroth percentile). */
  predicate IsPercentile(ws: seq<nat>, p: real, q: nat) {
    q in ws && p * |ws| as real <= 100.0 * AtMost(ws, q) as real &&
    (Below(ws, q) == 0 || 100.0 * Below(ws, q) as real < p * |ws| as real)
  }

  lemma {:induction false} AtMostInsert(s: seq<nat>, x: nat, q: nat)
    ensures AtMost(Insert(s, x), q) == AtMost(s, q) + if x <= q then 1 else 0
    ensures Below(Insert(s, x), q) == Below(s, q) + if x < q then 1 else 0
    decreases |s|
  {
    if s == [] || s[|s| - 1] <= x {
      assert (s + [x])[..|s|] == s;
    } else {
      var r := Insert(s[..|s| - 1], x);
      AtMostInsert(s[..|s| - 1], x, q);
      assert (r + [s[|s| - 1]])[..|r|] == r;
    }
  }

  lemma {:induction false} AtMostSort(ws: seq<nat>, q: nat)
    ensures AtMost(Sort(ws), q) == AtMost(ws, q) && Below(Sort(ws), q) == Below(ws, q)
    decreases |ws|
  {
    if ws != [] {
      AtMostSort(ws[..|ws| - 1], q);
      AtMostInsert(Sort(ws[..|ws| - 1]), ws[|ws| - 1], q);
    }
  }

  /** In a sorted sequence the k-th element has k at most it, and fewer than k below it. */
  lemma {:induction false} RankCounts(s: seq<nat>, k: nat, q: nat)
    requires Sorted(s) && 1 <= k <= |s| && q == s[k - 1]
    ensures AtMost(s, q) >= k && Below(s, q) < k
    decreases |s|
  {
    var init := s[..|s| - 1];
    if k == |s| {
      AllAtMost(s, q);
      BelowAtMost(init, q);
    } else {
      RankCounts(init, k, q);
    }
  }

  lemma {:induction false} AllAtMost(s: seq<nat>, q: nat)
    requires forall i :: 0 <= i < |s| ==> s[i] <= q
    ensures AtMost(s, q) == |s|
    decreases |s|
  {
    if s != [] {
      AllAtMost(s[..|s| - 1], q);
    }
  }

  lemma {:induction false} BelowAtMost(s: seq<nat>, q: nat)
    ensures Below(s, q) <= |s|
    decreases |s|
  {
    if s != [] {
      BelowAtMost(s[..|s| - 1], q);
    }
  }

  /** The element at that rank is the percentile. */
  lemma RankIsPercentile(ws: seq<nat>, p: real, k: nat)
    requires p >= 0.0 && IsRank(p, |ws|, k) && k <= |ws|
    ensures IsPercentile(ws, p, Kth(ws, k))
  {
    var s, q := Sort(ws), Kth(ws, k);
    SortSorts(ws);
    AtMostSort(ws, q);
    RankCounts(s, k, q);
    assert q in multiset(s);
    assert k as real <= AtMost(ws, q) as real && Below(ws, q) as real <= (k - 1) as real;
  }

  /** A percentile is unique. */
  lemma PercentileUnique(ws: seq<nat>, p: real, q: nat, q': nat)
    requires IsPercentile(ws, p, q) && IsPercentile(ws, p, q')
    ensures q == q'
  {
    if q < q' {
      AtMostBelow(ws, q, q');
    }
    if q' < q {
      AtMostBelow(ws, q', q);
    }
  }

  lemma {:induction false} AtMostBelow(ws: seq<nat>, q: nat, q': nat)
    requires q < q'
    ensures AtMost(ws, q) <= Below(ws, q') && (q in ws ==> Below(ws, q') > 0)
    decreases |ws|
  {
    if ws != [] {
      var init, last := ws[..|ws| - 1], ws[|ws| - 1];
      AtMostBelow(init, q, q');
      assert ws == init + [last];
    }
  }

  lemma TargetInRange(p: real, n: nat)
    requires 0.0 <= p <= 100.0 && n > 0
    ensures 1 <= Target(p, n) <= n
  {
    assert p / 100.0 * n as real <= n as real;
  }

  /** The true percentile: the ceil(p*n/100)-th smallest wait. */
  function TrueWait(ws: seq<nat>, p: real): nat
    requires ws != [] && 0.0 <= p <= 100.0
  {
    TargetInRange(p, |ws|);
    Kth(ws, Target(p, |ws|))
  }

  /** Merge, then estimate: the whole path from per-CPU histograms to a percentile. */
  method EstimatePercentile(percpu: seq<Hist>, p: real, ghost wss: seq<seq<nat>>) returns (v: real)
    requires 0.0 <= p <= 100.0
    requires |percpu| == |wss| && forall c :: 0 <= c < |wss| ==> Counts(percpu[c], wss[c])
    ensures var ws := Concat(wss);
            if ws == [] then v == 0.0
            else var q := TrueWait(ws, p);
                 && IsPercentile(ws, p, q)
                 && v == Midpoint(SlotOf(q))
                 && (0.75 * q as real < v <= 1.5 * q as real <==> 1 <= q < 134_217_728)
  {
    var h := MergePerCpu(percpu);
    ghost var ws := Concat(wss);
    MergeCounts(h, percpu, wss);
    SlotsSumToCount(h, ws);
    v := Percentile(h.slots, p);
    if ws != [] {
      var k, i :| IsRank(p, |ws|, k) && Reaches(h.slots, k, i) && v == Midpoint(i);
      TargetIsRank(p, |ws|);
      TargetInRange(p, |ws|);
      RankUnique(p, |ws|, k, Target(p, |ws|));
      RankIsPercentile(ws, p, k);
      ReachedSlot(h, ws, k, i);
      MidpointBound(Kth(ws, k));
    }
  }

  lemma RankUnique(p: real, n: nat, k: nat, k': nat)
    requires IsRank(p, n, k) && IsRank(p, n, k')
    ensures k == k'
  {
  }

  /** The k-th smallest wait lies in the slots up to i exactly when at least k waits do. */
  lemma RankOf(ws: seq<nat>, k: nat, i: int)
    requires 1 <= k <= |ws|
    ensures UpTo(ws, i) >= k <==> SlotOf(Kth(ws, k)) <= i
  {
    SortSorts(ws);
    UpToSort(ws, i);
    RankInSorted(Sort(ws), k, i);
  }

  /** The running count reaches the target in the slot of the target-th smallest wait. */
  lemma ReachedSlot(h: Hist, ws: seq<nat>, k: nat, i: nat)
    requires Counts(h, ws) && 1 <= k <= |ws| && Reaches(h.slots, k, i)
    ensures i == SlotOf(Kth(ws, k))
  {
    var slot := SlotOf(Kth(ws, k));
    assert slot < MAX_SLOTS;
    assert Cum(h.slots, i) == UpTo(ws, i - 1) by { PrefixTotals(h, ws, i); }
    assert Cum(h.slots, i + 1) == UpTo(ws, i) by { PrefixTotals(h, ws, i + 1); }
    assert UpTo(ws, i - 1) >= k <==> slot <= i - 1 by { RankOf(ws, k, i - 1); }
    assert UpTo(ws, i) >= k <==> slot <= i by { RankOf(ws, k, i); }
  }

  /** The histogram ends at 2^27 microseconds, about 134 seconds. */
  lemma TopOfRange()
    ensures Pow2(MAX_SLOTS) == 134_217_728
  {
    assert Pow2(9) == 512;
    assert Pow2(18) == 262_144;
  }

  lemma BelowTop(q: nat, b: nat, top: nat)
    requires b < top && (b + 1 < top ==> q < Pow2(b + 1))
    ensures q < 2 * Pow2(b) <==> q < Pow2(top)
  {
    assert Pow2(b + 1) == 2 * Pow2(b);
    if b + 1 < top {
      Pow2Grows(b + 1, top);
    }
  }

  /** A wait is at least the lower end of its slot, and below twice that exactly inside the range. */
  lemma SlotBracket(q: nat)
    requires q >= 1
    ensures var b := Pow2(SlotOf(q)); b <= q && (q < 2 * b <==> q < 134_217_728)
  {
    TopOfRange();
    var b, top := SlotOf(q), MAX_SLOTS;
    assert InSlot(q, b);
    BelowTop(q, b, top);
  }

  /** The bucket midpoint is within half the true value exactly inside the histogram's range. */
  lemma MidpointBound(q: nat)
    ensures var v := Midpoint(SlotOf(q));
            0.75 * q as real < v <= 1.5 * q as real <==> 1 <= q < 134_217_728
  {
    var b := Pow2(SlotOf(q));
    if q >= 1 {
      SlotBracket(q);
      assert b as real <= q as real;
      assert q < 2 * b <==> (q as real) < 2.0 * (b as real);
    }
  }
}
