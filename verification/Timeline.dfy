/** The sub-interval timeline: a ring of 64 windows per CPU with lazy reset, and the drain that folds
    the per-CPU rings onto one time axis (sched_monitor.bpf.c, internal/ebpf/sched.go). */
module Timeline {

  const NUM_BUCKETS: nat := 64
  const BUCKET_NS: nat := 100_000_000

  /** The four counters of a window. */
  datatype Load = Load(runqLatNs: nat, runqCount: nat, cpuNs: nat, ctxSwitches: nat)

  const ZERO := Load(0, 0, 0, 0)

  function Plus(a: Load, b: Load): Load {
    Load(a.runqLatNs + b.runqLatNs, a.runqCount + b.runqCount, a.cpuNs + b.cpuNs, a.ctxSwitches + b.ctxSwitches)
  }

  /** One of the four counters. */
  datatype Field = RunqLatNs | RunqCount | CpuNs | CtxSwitches

  function Get(l: Load, f: Field): nat {
    match f
    case RunqLatNs => l.runqLatNs
    case RunqCount => l.runqCount
    case CpuNs => l.cpuNs
    case CtxSwitches => l.ctxSwitches
  }

  /** Loads add counter by counter. */
  lemma PlusAdds(a: Load, b: Load, f: Field)
    ensures Get(Plus(a, b), f) == Get(a, f) + Get(b, f)
  {
  }

  datatype Bucket = Bucket(epoch: nat, load: Load)

  type Ring = r: seq<Bucket> | |r| == NUM_BUCKETS witness seq(NUM_BUCKETS, _ => Bucket(0, ZERO))

  function EmptyRing(): Ring {
    seq(NUM_BUCKETS, _ => Bucket(0, ZERO))
  }

  /** A contribution stamped with the kernel clock. */
  datatype Charge = Charge(now: nat, load: Load)

  function EpochOf(now: nat): nat {
    now / BUCKET_NS
  }

  // ----- the ring -----

  /** get_timeline_bucket followed by the adds: reset the slot if it holds another window. */
  function Charged(r: Ring, c: Charge): Ring {
    var e := EpochOf(c.now);
    var b := r[e % NUM_BUCKETS];
    var base := if b.epoch != e then ZERO else b.load;
    r[e % NUM_BUCKETS := Bucket(e, Plus(base, c.load))]
  }

  function RingOf(h: seq<Charge>): Ring {
    if h == [] then EmptyRing() else Charged(RingOf(h[..|h| - 1]), h[|h| - 1])
  }

  // ----- the simple form -----

  /** Everything charged in window e. */
  function SumAt(h: seq<Charge>, e: int): Load {
    if h == [] then ZERO
    else
      var c := h[|h| - 1];
      if EpochOf(c.now) == e then Plus(SumAt(h[..|h| - 1], e), c.load) else SumAt(h[..|h| - 1], e)
  }

  /** One counter's amount charged in window e, in plain numbers. */
  function TotalAt(h: seq<Charge>, e: int, f: Field): nat {
    if h == [] then 0
    else
      var c := h[|h| - 1];
      TotalAt(h[..|h| - 1], e, f) + if EpochOf(c.now) == e then Get(c.load, f) else 0
  }

  lemma {:induction false} SumAtTotals(h: seq<Charge>, e: int, f: Field)
    ensures Get(SumAt(h, e), f) == TotalAt(h, e, f)
    decreases |h|
  {
    if h != [] {
      var before, c := h[..|h| - 1], h[|h| - 1];
      SumAtTotals(before, e, f);
      PlusAdds(SumAt(before, e), c.load, f);
    }
  }

  /** A later window that shares e's slot was charged too. */
  predicate Overwritten(h: seq<Charge>, e: int) {
    exists i :: 0 <= i < |h| && EpochOf(h[i].now) > e && EpochOf(h[i].now) % NUM_BUCKETS == e % NUM_BUCKETS
  }

  predicate Monotone(h: seq<Charge>) {
    forall i, j :: 0 <= i < j < |h| ==> h[i].now <= h[j].now
  }

  /** What the ring still knows of window e. */
  function Visible(h: seq<Charge>, e: int): Load {
    if Overwritten(h, e) then ZERO else SumAt(h, e)
  }

  // ----- the ring refines the simple form -----

  lemma EpochMonotone(a: nat, b: nat)
    requires a <= b
    ensures EpochOf(a) <= EpochOf(b)
  {
  }

  predicate SlotFor(b: Bucket, i: nat) {
    b.epoch == 0 || b.epoch % NUM_BUCKETS == i
  }

  lemma {:induction false} RingSlots(h: seq<Charge>, i: nat)
    requires i < NUM_BUCKETS
    ensures SlotFor(RingOf(h)[i], i)
    ensures RingOf(h)[i].epoch > 0 ==> exists j :: 0 <= j < |h| && RingOf(h)[i].epoch == EpochOf(h[j].now)
    decreases |h|
  {
    if h != [] {
      var g, c := h[..|h| - 1], h[|h| - 1];
      RingSlots(g, i);
      if i == EpochOf(c.now) % NUM_BUCKETS {
        assert RingOf(h)[i].epoch == EpochOf(h[|h| - 1].now);
      } else if RingOf(g)[i].epoch > 0 {
        var j :| 0 <= j < |g| && RingOf(g)[i].epoch == EpochOf(g[j].now);
        assert h[j] == g[j];
      }
    }
  }

  lemma OverwrittenSnoc(g: seq<Charge>, c: Charge, e: int)
    ensures Overwritten(g + [c], e) <==>
            Overwritten(g, e) || (EpochOf(c.now) > e && EpochOf(c.now) % NUM_BUCKETS == e % NUM_BUCKETS)
  {
    var h := g + [c];
    assert h[|g|] == c;
    assert forall i :: 0 <= i < |g| ==> h[i] == g[i];
  }

  lemma {:induction false} RingHolds(h: seq<Charge>, e: nat)
    requires Monotone(h)
    ensures var b := RingOf(h)[e % NUM_BUCKETS];
            && (b.epoch == e ==> b.load == SumAt(h, e))
            && (b.epoch < e ==> SumAt(h, e) == ZERO)
            && (b.epoch > e <==> Overwritten(h, e))
    decreases |h|
  {
    if h != [] {
      var g, c := h[..|h| - 1], h[|h| - 1];
      assert h == g + [c];
      RingHolds(g, e);
      OverwrittenSnoc(g, c, e);
      var i := e % NUM_BUCKETS;
      RingSlots(g, i);
      var b := RingOf(g)[i];
      // time order: nothing in the ring is newer than the charge
      assert b.epoch <= EpochOf(c.now) by {
        if b.epoch > 0 {
          var j :| 0 <= j < |g| && b.epoch == EpochOf(g[j].now);
          assert g[j] == h[j];
          EpochMonotone(h[j].now, h[|h| - 1].now);
        }
      }
    }
  }

  /** The slot of window e holds, counter by counter, everything charged in e, or an older window and e
      was never charged, or a newer one and e is overwritten. */
  lemma RingRefines(h: seq<Charge>, e: nat)
    requires Monotone(h)
    ensures var b := RingOf(h)[e % NUM_BUCKETS];
            && (b.epoch == e ==> b.load == SumAt(h, e) && forall f :: Get(b.load, f) == TotalAt(h, e, f))
            && (b.epoch < e ==> SumAt(h, e) == ZERO && forall f :: TotalAt(h, e, f) == 0)
            && (b.epoch > e <==> Overwritten(h, e))
  {
    RingHolds(h, e);
    forall f ensures Get(SumAt(h, e), f) == TotalAt(h, e, f) {
      SumAtTotals(h, e, f);
    }
    assert forall f :: Get(ZERO, f) == 0;
  }

  // ----- the drain -----

  /** The drain adds window epoch at position p of the axis ending at refEpoch. */
  predicate Lands(epoch: nat, refEpoch: nat, p: nat) {
    epoch != 0 && epoch <= refEpoch && refEpoch - epoch < NUM_BUCKETS && NUM_BUCKETS - 1 - (refEpoch - epoch) == p
  }

  function Part(b: Bucket, refEpoch: nat, p: nat): Load {
    if Lands(b.epoch, refEpoch, p) then b.load else ZERO
  }

  /** The sum of the first n loads. */
  function Sum(ls: seq<Load>, n: nat): Load
    requires n <= |ls|
  {
    if n == 0 then ZERO else Plus(Sum(ls, n - 1), ls[n - 1])
  }

  /** What each slot of a ring adds at position p. */
  function Parts(r: Ring, refEpoch: nat, p: nat): seq<Load> {
    seq(NUM_BUCKETS, j requires 0 <= j < NUM_BUCKETS => Part(r[j], refEpoch, p))
  }

  function RingPart(r: Ring, refEpoch: nat, p: nat): Load {
    Sum(Parts(r, refEpoch, p), NUM_BUCKETS)
  }

  /** What each CPU adds at position p. */
  function CpuParts(percpu: seq<Ring>, refEpoch: nat, p: nat): seq<Load> {
    seq(|percpu|, c requires 0 <= c < |percpu| => RingPart(percpu[c], refEpoch, p))
  }

  function DrainPart(percpu: seq<Ring>, refEpoch: nat, p: nat): Load {
    Sum(CpuParts(percpu, refEpoch, p), |percpu|)
  }

  lemma CpuPartsLast(percpu: seq<Ring>, refEpoch: nat, p: nat, c: nat)
    requires c < |percpu|
    ensures Sum(CpuParts(percpu, refEpoch, p), c + 1) ==
            Plus(Sum(CpuParts(percpu, refEpoch, p), c), RingPart(percpu[c], refEpoch, p))
  {
  }

  /** ReadTimeline's inner loops for one cgroup: the drained series, oldest to newest. */
  method Drain(percpu: seq<Ring>, refEpoch: nat) returns (series: seq<Load>)
    ensures |series| == NUM_BUCKETS
    ensures forall p :: 0 <= p < NUM_BUCKETS ==> series[p] == DrainPart(percpu, refEpoch, p)
  {
    var out := new Load[NUM_BUCKETS](_ => ZERO);
    for c := 0 to |percpu|
      invariant forall p :: 0 <= p < NUM_BUCKETS ==> out[p] == Sum(CpuParts(percpu, refEpoch, p), c)
    {
      AddRing(out, percpu[c], refEpoch);
      forall p | 0 <= p < NUM_BUCKETS {
        CpuPartsLast(percpu, refEpoch, p, c);
      }
    }
    series := out[..];
  }

  method AddRing(out: array<Load>, ring: Ring, refEpoch: nat)
    requires out.Length == NUM_BUCKETS
    modifies out
    ensures forall p :: 0 <= p < NUM_BUCKETS ==> out[p] == Plus(old(out[p]), RingPart(ring, refEpoch, p))
  {
    ghost var before := out[..];
    for i := 0 to NUM_BUCKETS
      invariant forall p :: 0 <= p < NUM_BUCKETS ==> out[p] == Plus(before[p], Sum(Parts(ring, refEpoch, p), i))
    {
      ghost var cur := out[..];
      AddBucket(out, ring[i], refEpoch);
      forall p | 0 <= p < NUM_BUCKETS ensures out[p] == Plus(before[p], Sum(Parts(ring, refEpoch, p), i + 1)) {
        assert out[p] == Plus(cur[p], Parts(ring, refEpoch, p)[i]);
      }
    }
  }

  /** The body of the innermost loop: skip, or add the slot's counters at its position. */
  method AddBucket(out: array<Load>, b: Bucket, refEpoch: nat)
    requires out.Length == NUM_BUCKETS
    modifies out
    ensures forall p :: 0 <= p < NUM_BUCKETS ==> out[p] == Plus(old(out[p]), Part(b, refEpoch, p))
    ensures forall p, f :: 0 <= p < NUM_BUCKETS ==>
              Get(out[p], f) == Get(old(out[p]), f) + if Lands(b.epoch, refEpoch, p) then Get(b.load, f) else 0
  {
    if b.epoch == 0 || b.epoch > refEpoch {
      return;
    }
    var age := refEpoch - b.epoch;
    if age >= NUM_BUCKETS {
      return;
    }
    var pos := NUM_BUCKETS - 1 - age;
    out[pos] := Plus(out[pos], b.load);
  }

  /** The window at position p of the axis ending at refEpoch. */
  function Window(refEpoch: nat, p: nat): int {
    refEpoch - (NUM_BUCKETS - 1) + p
  }

  lemma LandsInWindow(epoch: nat, refEpoch: nat, p: nat)
    requires p < NUM_BUCKETS
    ensures Lands(epoch, refEpoch, p) <==> epoch >= 1 && epoch == Window(refEpoch, p)
  {
  }

  lemma {:induction false} ZeroSummands(ls: seq<Load>, n: nat)
    requires n <= |ls| && forall j :: 0 <= j < n ==> ls[j] == ZERO
    ensures Sum(ls, n) == ZERO
  {
    if n > 0 {
      ZeroSummands(ls, n - 1);
    }
  }

  /** A sum with one non-zero summand. */
  lemma {:induction false} OneSummand(ls: seq<Load>, n: nat, i: nat)
    requires i < n <= |ls| && forall j :: 0 <= j < |ls| && j != i ==> ls[j] == ZERO
    ensures Sum(ls, n) == ls[i]
    decreases n
  {
    if n == i + 1 {
      ZeroSummands(ls, i);
    } else {
      OneSummand(ls, n - 1, i);
    }
  }

  // ----- the drain refines the per-window sums -----

  function VisibleOn(hs: seq<seq<Charge>>, e: int): seq<Load> {
    seq(|hs|, c requires 0 <= c < |hs| => Visible(hs[c], e))
  }

  function SumsOn(hs: seq<seq<Charge>>, e: int): seq<Load> {
    seq(|hs|, c requires 0 <= c < |hs| => SumAt(hs[c], e))
  }

  /** One counter's amount charged in window e, added up over the first n CPUs. */
  function CpuTotals(hs: seq<seq<Charge>>, e: int, f: Field, n: nat): nat
    requires n <= |hs|
  {
    if n == 0 then 0 else CpuTotals(hs, e, f, n - 1) + TotalAt(hs[n - 1], e, f)
  }

  /** The same, leaving out the CPUs whose ring went a full revolution past the window. */
  function VisibleTotals(hs: seq<seq<Charge>>, e: int, f: Field, n: nat): nat
    requires n <= |hs|
  {
    if n == 0 then 0
    else VisibleTotals(hs, e, f, n - 1) + if Overwritten(hs[n - 1], e) then 0 else TotalAt(hs[n - 1], e, f)
  }

  lemma {:induction false} SumsTotals(hs: seq<seq<Charge>>, e: int, f: Field, n: nat)
    requires n <= |hs|
    ensures Get(Sum(SumsOn(hs, e), n), f) == CpuTotals(hs, e, f, n)
    decreases n
  {
    if n > 0 {
      SumsTotals(hs, e, f, n - 1);
      PlusAdds(Sum(SumsOn(hs, e), n - 1), SumsOn(hs, e)[n - 1], f);
      SumAtTotals(hs[n - 1], e, f);
    }
  }

  lemma {:induction false} VisibleSumsTotals(hs: seq<seq<Charge>>, e: int, f: Field, n: nat)
    requires n <= |hs|
    ensures Get(Sum(VisibleOn(hs, e), n), f) == VisibleTotals(hs, e, f, n)
    decreases n
  {
    if n > 0 {
      VisibleSumsTotals(hs, e, f, n - 1);
      PlusAdds(Sum(VisibleOn(hs, e), n - 1), VisibleOn(hs, e)[n - 1], f);
      SumAtTotals(hs[n - 1], e, f);
    }
  }

  /** Only the slot of the window at position p can contribute there. */
  lemma OneSlotLands(h: seq<Charge>, refEpoch: nat, p: nat)
    requires p < NUM_BUCKETS
    ensures RingPart(RingOf(h), refEpoch, p) == Part(RingOf(h)[Window(refEpoch, p) % NUM_BUCKETS], refEpoch, p)
  {
    var i := Window(refEpoch, p) % NUM_BUCKETS;
    var r := RingOf(h);
    var ls := Parts(r, refEpoch, p);
    forall j | 0 <= j < NUM_BUCKETS && j != i ensures ls[j] == ZERO {
      RingSlots(h, j);
      LandsInWindow(r[j].epoch, refEpoch, p);
    }
    OneSummand(ls, NUM_BUCKETS, i);
  }

  /** A ring shows at position p exactly what it still knows of that window. */
  lemma RingPartExact(h: seq<Charge>, refEpoch: nat, p: nat)
    requires Monotone(h) && p < NUM_BUCKETS
    ensures var w := Window(refEpoch, p);
            RingPart(RingOf(h), refEpoch, p) == if w >= 1 then Visible(h, w) else ZERO
  {
    var w := Window(refEpoch, p);
    OneSlotLands(h, refEpoch, p);
    LandsInWindow(RingOf(h)[w % NUM_BUCKETS].epoch, refEpoch, p);
    if w >= 1 {
      RingRefines(h, w);
    }
  }

  /** The rings of a set of histories, one per CPU. */
  predicate RingsOf(percpu: seq<Ring>, hs: seq<seq<Charge>>) {
    |percpu| == |hs| && forall c :: 0 <= c < |hs| ==> Monotone(hs[c]) && percpu[c] == RingOf(hs[c])
  }

  /** The drain is exact for every history: position p holds, summed over the CPUs, everything charged
      in its window on each CPU whose ring has not gone a full revolution past that window. */
  lemma DrainExact(percpu: seq<Ring>, hs: seq<seq<Charge>>, refEpoch: nat, p: nat)
    requires RingsOf(percpu, hs) && p < NUM_BUCKETS
    ensures var w := Window(refEpoch, p);
            && DrainPart(percpu, refEpoch, p) == (if w >= 1 then Sum(VisibleOn(hs, w), |hs|) else ZERO)
            && forall f :: Get(DrainPart(percpu, refEpoch, p), f) ==
                           if w >= 1 then VisibleTotals(hs, w, f, |hs|) else 0
  {
    forall f ensures Get(Sum(VisibleOn(hs, Window(refEpoch, p)), |hs|), f) ==
                     VisibleTotals(hs, Window(refEpoch, p), f, |hs|)
    {
      VisibleSumsTotals(hs, Window(refEpoch, p), f, |hs|);
    }
    var w := Window(refEpoch, p);
    var ls := CpuParts(percpu, refEpoch, p);
    forall c | 0 <= c < |hs| ensures ls[c] == if w >= 1 then Visible(hs[c], w) else ZERO {
      RingPartExact(hs[c], refEpoch, p);
    }
    if w >= 1 {
      assert ls == VisibleOn(hs, w);
    } else {
      ZeroSummands(ls, |percpu|);
    }
  }

  lemma FullRevolution(h: seq<Charge>, e: int, latest: int)
    requires latest < e + NUM_BUCKETS && forall i :: 0 <= i < |h| ==> EpochOf(h[i].now) <= latest
    ensures Visible(h, e) == SumAt(h, e)
  {
  }

  /** If no charge is more than k windows ahead of the reference, every position from k on is the
      plain per-window sum over all CPUs; with k = 0 all 64 positions are. */
  lemma DrainIsWindowSum(percpu: seq<Ring>, hs: seq<seq<Charge>>, refEpoch: nat, k: nat, p: nat)
    requires RingsOf(percpu, hs) && k <= p < NUM_BUCKETS
    requires forall c, i :: 0 <= c < |hs| && 0 <= i < |hs[c]| ==> EpochOf(hs[c][i].now) <= refEpoch + k
    ensures var w := Window(refEpoch, p);
            && DrainPart(percpu, refEpoch, p) == (if w >= 1 then Sum(SumsOn(hs, w), |hs|) else ZERO)
            && forall f :: Get(DrainPart(percpu, refEpoch, p), f) == if w >= 1 then CpuTotals(hs, w, f, |hs|) else 0
  {
    DrainExact(percpu, hs, refEpoch, p);
    var w := Window(refEpoch, p);
    forall f ensures Get(Sum(SumsOn(hs, w), |hs|), f) == CpuTotals(hs, w, f, |hs|) {
      SumsTotals(hs, w, f, |hs|);
    }
    forall c | 0 <= c < |hs| ensures Visible(hs[c], w) == SumAt(hs[c], w) {
      FullRevolution(hs[c], w, refEpoch + k);
    }
    assert VisibleOn(hs, w) == SumsOn(hs, w);
  }
}
