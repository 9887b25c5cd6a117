/** The scheduler observer: the context-switch handler's maps and the three read-and-delete drains
    (sched_monitor.bpf.c, internal/ebpf/sched.go). Ghost fields keep the history the maps stand for. */
module Sched {
  import opened Options
  import opened Histogram
  import opened Timeline
  import opened SchedHistory

  type PerCpu<T> = seq<seq<T>>

  /** A cgroup's per-CPU histories with one more item on one CPU. */
  function Push<T>(m: map<nat, PerCpu<T>>, cpus: nat, cg: nat, cpu: nat, x: T): map<nat, PerCpu<T>>
    requires cpu < cpus && forall g :: g in m ==> |m[g]| == cpus
  {
    var hs := if cg in m then m[cg] else seq(cpus, _ => []);
    m[cg := hs[cpu := hs[cpu] + [x]]]
  }

  // ----- CPU time per CPU, summed over cgroups -----

  /** The sum of a map's values. */
  ghost function Grand(m: map<nat, nat>): nat {
    if m == map[] then 0 else
    var g :| g in m;
    m[g] + Grand(m - {g})
  }

  lemma {:induction false} GrandSplit(m: map<nat, nat>, g: nat)
    requires g in m
    ensures Grand(m) == m[g] + Grand(m - {g})
    decreases |m|
  {
    var f :| f in m && Grand(m) == m[f] + Grand(m - {f});
    if f != g {
      GrandSplit(m - {f}, g);
      GrandSplit(m - {g}, f);
      assert m - {f} - {g} == m - {g} - {f};
    }
  }

  /** One CPU's counter of every cgroup. */
  function Column(m: map<nat, seq<nat>>, cpu: nat): map<nat, nat>
    requires forall g :: g in m ==> cpu < |m[g]|
  {
    map g | g in m :: m[g][cpu]
  }

  /** The time charged on a CPU and not yet read out. */
  ghost function Resident(m: map<nat, seq<nat>>, cpu: nat): nat
    requires forall g :: g in m ==> cpu < |m[g]|
  {
    Grand(Column(m, cpu))
  }

  lemma ResidentSplit(m: map<nat, seq<nat>>, cpu: nat, g: nat)
    requires (forall g :: g in m ==> cpu < |m[g]|) && g in m
    ensures Resident(m, cpu) == m[g][cpu] + Resident(m - {g}, cpu)
  {
    GrandSplit(Column(m, cpu), g);
    assert Column(m, cpu) - {g} == Column(m - {g}, cpu);
  }

  lemma ResidentUpdate(m: map<nat, seq<nat>>, cpu: nat, g: nat, v: seq<nat>)
    requires (forall g :: g in m ==> cpu < |m[g]|) && cpu < |v|
    ensures Resident(m[g := v], cpu) == v[cpu] + Resident(m, cpu) - if g in m then m[g][cpu] else 0
  {
    var m' := m[g := v];
    ResidentSplit(m', cpu, g);
    if g in m {
      ResidentSplit(m, cpu, g);
      assert m' - {g} == m - {g};
    } else {
      assert m' - {g} == m;
    }
  }

  /** The per-CPU counter row of a cgroup with one more slice on one CPU. */
  function AddedTime(m: map<nat, seq<nat>>, cpus: nat, cg: nat, cpu: nat, ns: nat): map<nat, seq<nat>>
    requires cpu < cpus && forall g :: g in m ==> |m[g]| == cpus
  {
    var row: seq<nat> := if cg in m then m[cg] else seq(cpus, _ => 0);
    var sum: nat := row[cpu] + ns;
    m[cg := row[cpu := sum]]
  }

  lemma AddedTimeResident(m: map<nat, seq<nat>>, cpus: nat, cg: nat, cpu: nat, ns: nat, c: nat)
    requires cpu < cpus && c < cpus && forall g :: g in m ==> |m[g]| == cpus
    ensures Resident(AddedTime(m, cpus, cg, cpu, ns), c) == Resident(m, c) + if c == cpu then ns else 0
  {
    var row: seq<nat> := if cg in m then m[cg] else seq(cpus, _ => 0);
    var sum: nat := row[cpu] + ns;
    ResidentUpdate(m, c, cg, row[cpu := sum]);
  }

  function SumNs(xs: seq<nat>, n: nat): nat
    requires n <= |xs|
  {
    if n == 0 then 0 else SumNs(xs, n - 1) + xs[n - 1]
  }

  lemma {:induction false} SumNsAdds(a: seq<nat>, b: seq<nat>, c: seq<nat>, n: nat)
    requires n <= |a| && n <= |b| && n <= |c| && forall i :: 0 <= i < n ==> c[i] == a[i] + b[i]
    ensures SumNs(c, n) == SumNs(a, n) + SumNs(b, n)
    decreases n
  {
    if n > 0 {
      SumNsAdds(a, b, c, n - 1);
    }
  }

  /** What is resident on each CPU. */
  ghost function Residents(m: map<nat, seq<nat>>, cpus: nat): (rs: seq<nat>)
    requires forall g :: g in m ==> |m[g]| == cpus
    ensures |rs| == cpus && forall c :: 0 <= c < cpus ==> rs[c] == Resident(m, c)
  {
    seq(cpus, c requires 0 <= c < cpus && forall g :: g in m ==> c < |m[g]| => Resident(m, c))
  }

  /** The drained time of each CPU after everything resident was read out. */
  ghost function Drained(m: map<nat, seq<nat>>, cpus: nat, drained: seq<nat>): (d: seq<nat>)
    requires |drained| == cpus && forall g :: g in m ==> |m[g]| == cpus
    ensures |d| == cpus && forall c :: 0 <= c < cpus ==> d[c] == drained[c] + Resident(m, c)
    ensures SumNs(d, cpus) == SumNs(drained, cpus) + SumNs(Residents(m, cpus), cpus)
  {
    var rs := Residents(m, cpus);
    var d := seq(cpus, c requires 0 <= c < cpus => drained[c] + rs[c]);
    SumNsAdds(drained, rs, d, cpus);
    d
  }

  /** Adding up the rows or the columns of the counters gives the same total. */
  lemma {:induction false} RowsAndColumns(m: map<nat, seq<nat>>, cpus: nat, rows: map<nat, nat>)
    requires forall g :: g in m ==> |m[g]| == cpus
    requires rows.Keys == m.Keys && forall g :: g in rows ==> rows[g] == SumNs(m[g], cpus)
    ensures Grand(rows) == SumNs(Residents(m, cpus), cpus)
    decreases |m|
  {
    var all := Residents(m, cpus);
    if m == map[] {
      SumNsAdds(all, all, all, cpus);
    } else {
      var g :| g in m;
      var rest := Residents(m - {g}, cpus);
      GrandSplit(rows, g);
      RowsAndColumns(m - {g}, cpus, rows - {g});
      forall c | 0 <= c < cpus ensures all[c] == m[g][c] + rest[c] {
        ResidentSplit(m, c, g);
      }
      SumNsAdds(m[g], rest, all, cpus);
    }
  }

  // ----- what the maps stand for -----

  predicate RunqOf(cpus: nat, runq: map<nat, seq<Hist>>, waits: map<nat, PerCpu<nat>>) {
    runq.Keys == waits.Keys &&
    (forall g :: g in waits ==> |runq[g]| == |waits[g]| == cpus) &&
    (forall g, c :: g in waits && 0 <= c < cpus ==> Counts(runq[g][c], waits[g][c]))
  }

  /** No charge on a CPU is later than the CPU's own last switch. */
  predicate HistoryUpTo(hs: PerCpu<Charge>, last: seq<nat>) {
    |hs| == |last| && forall c, i :: 0 <= c < |hs| && 0 <= i < |hs[c]| ==> hs[c][i].now <= last[c]
  }

  predicate TimelineOf(
    cpus: nat, timeline: map<nat, seq<Ring>>, charges: map<nat, PerCpu<Charge>>, last: seq<nat>)
  {
    |last| == cpus && timeline.Keys == charges.Keys &&
    forall g :: g in charges ==>
      |charges[g]| == cpus && RingsOf(timeline[g], charges[g]) && HistoryUpTo(charges[g], last)
  }

  /** All on-CPU time ever charged on a CPU plus its idle time is the time between its first and its
      last switch. */
  ghost predicate Balanced(cpuTime: map<nat, seq<nat>>, c: nat, start: nat, first: nat, idle: nat, drained: nat)
    requires forall g :: g in cpuTime ==> c < |cpuTime[g]|
  {
    Resident(cpuTime, c) + drained + idle + (if start == 0 then 0 else first) == start
  }

  ghost predicate ConservedOf(cpus: nat, cpuTime: map<nat, seq<nat>>, sliceStart: seq<nat>,
                              first: seq<nat>, idle: seq<nat>, drained: seq<nat>) {
    |sliceStart| == |first| == |idle| == |drained| == cpus &&
    (forall g :: g in cpuTime ==> |cpuTime[g]| == cpus) &&
    (forall c :: 0 <= c < cpus ==> Balanced(cpuTime, c, sliceStart[c], first[c], idle[c], drained[c]))
  }

  // ----- one switch -----

  /** The slice that just ended belongs to a real task. */
  predicate Ran(start: nat, prevPid: nat) {
    start != 0 && prevPid != 0
  }

  function TimeAfter(m: map<nat, seq<nat>>, cpus: nat, start: nat, cpu: nat, now: nat, prevPid: nat, prevCg: nat)
    : map<nat, seq<nat>>
    requires cpu < cpus && start <= now && forall g :: g in m ==> |m[g]| == cpus
  {
    if Ran(start, prevPid) then AddedTime(m, cpus, prevCg, cpu, now - start) else m
  }

  function IdleAfter(idle: seq<nat>, start: nat, cpu: nat, now: nat, prevPid: nat): seq<nat>
    requires cpu < |idle| && start <= now
  {
    if start != 0 && prevPid == 0 then
      var sum: nat := idle[cpu] + now - start;
      idle[cpu := sum]
    else idle
  }

  function FirstAfter(first: seq<nat>, start: nat, cpu: nat, now: nat): seq<nat>
    requires cpu < |first|
  {
    if start == 0 then first[cpu := now] else first
  }

  function SliceCharges(
    cs: map<nat, PerCpu<Charge>>, cpus: nat, start: nat, cpu: nat, now: nat, prevPid: nat, prevCg: nat)
    : map<nat, PerCpu<Charge>>
    requires cpu < cpus && start <= now && forall g :: g in cs ==> |cs[g]| == cpus
  {
    if Ran(start, prevPid) then Push<Charge>(cs, cpus, prevCg, cpu, Charge(now, Load(0, 0, now - start, 1))) else cs
  }

  /** The waits and charges after the victim half of a switch. */
  function AfterWait(ws: map<nat, PerCpu<nat>>, cpus: nat, woken: map<nat, nat>, cpu: nat, now: nat,
                     nextPid: nat, nextCg: nat): map<nat, PerCpu<nat>>
    requires cpu < cpus && (forall g :: g in ws ==> |ws[g]| == cpus) && (nextPid in woken ==> woken[nextPid] <= now)
  {
    if nextPid in woken then Push<nat>(ws, cpus, nextCg, cpu, (now - woken[nextPid]) / 1000) else ws
  }

  function WaitCharges(cs: map<nat, PerCpu<Charge>>, cpus: nat, woken: map<nat, nat>, cpu: nat, now: nat,
                       nextPid: nat, nextCg: nat): map<nat, PerCpu<Charge>>
    requires cpu < cpus && (forall g :: g in cs ==> |cs[g]| == cpus) && (nextPid in woken ==> woken[nextPid] <= now)
  {
    if nextPid in woken then
      Push<Charge>(cs, cpus, nextCg, cpu, Charge(now, Load(now - woken[nextPid], 1, 0, 0)))
    else cs
  }

  // ----- the maps are what the history says -----

  function Cell<T>(m: map<nat, seq<T>>, g: nat, c: nat, none: T): T {
    if g in m && c < |m[g]| then m[g][c] else none
  }

  ghost predicate StartsExplained(cpus: nat, sliceStart: seq<nat>, h: History) {
    |sliceStart| == cpus && forall c :: 0 <= c < cpus ==> sliceStart[c] == LastOn(h, c)
  }

  ghost predicate WakeupsExplained(wakeup: map<nat, nat>, h: History) {
    forall pid :: WokenAt(h, pid) == if pid in wakeup then Some(wakeup[pid]) else None
  }

  /** Every counter is the sum of the slices of its cgroup on its CPU since event number from. */
  ghost predicate TimeExplained(cpus: nat, cpuTime: map<nat, seq<nat>>, h: History, from: nat) {
    forall g: nat, c: nat :: c < cpus ==> Cell<nat>(cpuTime, g, c, 0) == CpuTimeOf(h, from, g, c)
  }

  ghost predicate WaitsExplained(cpus: nat, waits: map<nat, PerCpu<nat>>, h: History, from: nat) {
    forall g: nat, c: nat :: c < cpus ==> Cell<seq<nat>>(waits, g, c, []) == WaitsOf(h, from, g, c)
  }

  ghost predicate ChargesExplained(cpus: nat, charges: map<nat, PerCpu<Charge>>, h: History, from: nat) {
    forall g: nat, c: nat :: c < cpus ==> Cell<seq<Charge>>(charges, g, c, []) == ChargesOf(h, from, g, c)
  }

  ghost predicate IdleExplained(cpus: nat, first: seq<nat>, idle: seq<nat>, h: History) {
    |first| == |idle| == cpus && forall c :: 0 <= c < cpus ==> first[c] == FirstOn(h, c) && idle[c] == IdleOf(h, c)
  }

  lemma StartsSwitch(cpus: nat, sliceStart: seq<nat>, h: History, e: Event)
    requires StartsExplained(cpus, sliceStart, h) && e.Switch? && e.cpu < cpus
    ensures StartsExplained(cpus, sliceStart[e.cpu := e.now], h + [e])
  {
    forall c | 0 <= c < cpus ensures sliceStart[e.cpu := e.now][c] == LastOn(h + [e], c) {
      LastOnSnoc(h, e, c);
    }
  }

  lemma WakeupsSwitch(wakeup: map<nat, nat>, h: History, e: Event)
    requires WakeupsExplained(wakeup, h) && e.Switch?
    ensures WakeupsExplained(wakeup - {e.nextPid}, h + [e])
  {
    forall pid: nat
      ensures WokenAt(h + [e], pid) == if pid in wakeup - {e.nextPid} then Some(wakeup[pid]) else None
    {
      WokenAtSnoc(h, e, pid);
    }
  }

  lemma IdleSwitch(cpus: nat, first: seq<nat>, idle: seq<nat>, h: History, e: Event, start: nat)
    requires IdleExplained(cpus, first, idle, h) && e.Switch? && e.cpu < cpus && start == LastOn(h, e.cpu) <= e.now
    ensures IdleExplained(cpus, FirstAfter(first, start, e.cpu, e.now),
                          IdleAfter(idle, start, e.cpu, e.now, e.prevPid), h + [e])
  {
    forall c | 0 <= c < cpus
      ensures FirstAfter(first, start, e.cpu, e.now)[c] == FirstOn(h + [e], c)
      ensures IdleAfter(idle, start, e.cpu, e.now, e.prevPid)[c] == IdleOf(h + [e], c)
    {
      IdleSnoc(h, e, c);
    }
  }

  lemma TimeSwitch(cpus: nat, m: map<nat, seq<nat>>, h: History, from: nat, e: Event, start: nat)
    requires TimeExplained(cpus, m, h, from) && from <= |h| && forall g :: g in m ==> |m[g]| == cpus
    requires e.Switch? && e.cpu < cpus && start == LastOn(h, e.cpu) <= e.now
    ensures TimeExplained(cpus, TimeAfter(m, cpus, start, e.cpu, e.now, e.prevPid, e.prevCg), h + [e], from)
  {
    var m' := TimeAfter(m, cpus, start, e.cpu, e.now, e.prevPid, e.prevCg);
    forall g: nat, c: nat | c < cpus ensures Cell<nat>(m', g, c, 0) == CpuTimeOf(h + [e], from, g, c) {
      CpuTimeSnoc(h, from, e, g, c);
      assert Cell<nat>(m, g, c, 0) == CpuTimeOf(h, from, g, c);
    }
  }

  /** Pushing an item adds it to one cell. */
  lemma PushCell<T>(m: map<nat, PerCpu<T>>, cpus: nat, cg: nat, cpu: nat, x: T, g: nat, c: nat)
    requires cpu < cpus && c < cpus && forall g :: g in m ==> |m[g]| == cpus
    ensures Cell<seq<T>>(Push<T>(m, cpus, cg, cpu, x), g, c, []) ==
            Cell<seq<T>>(m, g, c, []) + if g == cg && c == cpu then [x] else []
  {
  }

  lemma WaitsSwitch(cpus: nat, ws: map<nat, PerCpu<nat>>, h: History, from: nat, e: Event, woken: map<nat, nat>)
    requires WaitsExplained(cpus, ws, h, from) && from <= |h| && forall g :: g in ws ==> |ws[g]| == cpus
    requires WakeupsExplained(woken, h) && e.Switch? && e.cpu < cpus
    requires e.nextPid in woken ==> woken[e.nextPid] <= e.now
    ensures WaitsExplained(cpus, AfterWait(ws, cpus, woken, e.cpu, e.now, e.nextPid, e.nextCg), h + [e], from)
  {
    var ws' := AfterWait(ws, cpus, woken, e.cpu, e.now, e.nextPid, e.nextCg);
    assert WokenAt(h, e.nextPid) == if e.nextPid in woken then Some(woken[e.nextPid]) else None;
    forall g: nat, c: nat | c < cpus ensures Cell<seq<nat>>(ws', g, c, []) == WaitsOf(h + [e], from, g, c) {
      WaitsSnoc(h, from, e, g, c);
      assert Cell<seq<nat>>(ws, g, c, []) == WaitsOf(h, from, g, c);
      if e.nextPid in woken {
        PushCell<nat>(ws, cpus, e.nextCg, e.cpu, (e.now - woken[e.nextPid]) / 1000, g, c);
      }
    }
  }

  lemma SliceCell(cs: map<nat, PerCpu<Charge>>, cpus: nat, h: History, e: Event, start: nat, g: nat, c: nat)
    requires forall g :: g in cs ==> |cs[g]| == cpus
    requires e.Switch? && e.cpu < cpus && c < cpus && start == LastOn(h, e.cpu) <= e.now
    ensures Cell<seq<Charge>>(SliceCharges(cs, cpus, start, e.cpu, e.now, e.prevPid, e.prevCg), g, c, []) ==
            Cell<seq<Charge>>(cs, g, c, []) + SliceCharge(h, e, g, c)
  {
    if Ran(start, e.prevPid) {
      PushCell<Charge>(cs, cpus, e.prevCg, e.cpu, Charge(e.now, Load(0, 0, e.now - start, 1)), g, c);
    }
  }

  lemma WaitCell(cs: map<nat, PerCpu<Charge>>, cpus: nat, h: History, e: Event, woken: map<nat, nat>, g: nat, c: nat)
    requires forall g :: g in cs ==> |cs[g]| == cpus
    requires WakeupsExplained(woken, h) && e.Switch? && e.cpu < cpus && c < cpus
    requires e.nextPid in woken ==> woken[e.nextPid] <= e.now
    ensures Cell<seq<Charge>>(WaitCharges(cs, cpus, woken, e.cpu, e.now, e.nextPid, e.nextCg), g, c, []) ==
            Cell<seq<Charge>>(cs, g, c, []) + WaitCharge(h, e, g, c)
  {
    assert WokenAt(h, e.nextPid) == if e.nextPid in woken then Some(woken[e.nextPid]) else None;
    if e.nextPid in woken {
      PushCell<Charge>(cs, cpus, e.nextCg, e.cpu, Charge(e.now, Load(e.now - woken[e.nextPid], 1, 0, 0)), g, c);
    }
  }

  lemma ChargesSwitch(cpus: nat, cs: map<nat, PerCpu<Charge>>, mid: map<nat, PerCpu<Charge>>, h: History, from: nat,
                      e: Event, start: nat, woken: map<nat, nat>)
    requires ChargesExplained(cpus, cs, h, from) && from <= |h| && forall g :: g in cs ==> |cs[g]| == cpus
    requires WakeupsExplained(woken, h) && e.Switch? && e.cpu < cpus && start == LastOn(h, e.cpu) <= e.now
    requires e.nextPid in woken ==> woken[e.nextPid] <= e.now
    requires mid == SliceCharges(cs, cpus, start, e.cpu, e.now, e.prevPid, e.prevCg)
    ensures ChargesExplained(cpus, WaitCharges(mid, cpus, woken, e.cpu, e.now, e.nextPid, e.nextCg), h + [e], from)
  {
    var cs' := WaitCharges(mid, cpus, woken, e.cpu, e.now, e.nextPid, e.nextCg);
    forall g: nat, c: nat | c < cpus ensures Cell<seq<Charge>>(cs', g, c, []) == ChargesOf(h + [e], from, g, c) {
      ChargesSnoc(h, from, e, g, c);
      assert Cell<seq<Charge>>(cs, g, c, []) == ChargesOf(h, from, g, c);
      SliceCell(cs, cpus, h, e, start, g, c);
      WaitCell(mid, cpus, h, e, woken, g, c);
    }
  }

  /** The values the history explains. */
  datatype Tally = Tally(
    sliceStart: seq<nat>, wakeup: map<nat, nat>, first: seq<nat>, idle: seq<nat>, cpuTime: map<nat, seq<nat>>,
    waits: map<nat, PerCpu<nat>>, charges: map<nat, PerCpu<Charge>>)

  /** How many events each of the three drains had seen. */
  datatype Marks = Marks(cpu: nat, wait: nat, line: nat)

  ghost predicate ExplainedBy(cpus: nat, t: Tally, h: History, marks: Marks) {
    marks.cpu <= |h| && marks.wait <= |h| && marks.line <= |h| &&
    StartsExplained(cpus, t.sliceStart, h) && WakeupsExplained(t.wakeup, h) &&
    IdleExplained(cpus, t.first, t.idle, h) &&
    TimeExplained(cpus, t.cpuTime, h, marks.cpu) && WaitsExplained(cpus, t.waits, h, marks.wait) &&
    ChargesExplained(cpus, t.charges, h, marks.line)
  }

  ghost predicate Sized(cpus: nat, t: Tally) {
    |t.sliceStart| == |t.first| == |t.idle| == cpus && (forall g :: g in t.cpuTime ==> |t.cpuTime[g]| == cpus) &&
    (forall g :: g in t.waits ==> |t.waits[g]| == cpus) && (forall g :: g in t.charges ==> |t.charges[g]| == cpus)
  }

  ghost predicate MaySwitch(cpus: nat, t: Tally, e: Event) {
    Sized(cpus, t) && e.Switch? && e.cpu < cpus && t.sliceStart[e.cpu] <= e.now &&
    (e.nextPid in t.wakeup ==> t.wakeup[e.nextPid] <= e.now)
  }

  /** Everything a switch changes. */
  ghost function Switched(cpus: nat, t: Tally, e: Event): Tally
    requires MaySwitch(cpus, t, e)
  {
    var start := t.sliceStart[e.cpu];
    Tally(t.sliceStart[e.cpu := e.now],
          t.wakeup - {e.nextPid},
          FirstAfter(t.first, start, e.cpu, e.now),
          IdleAfter(t.idle, start, e.cpu, e.now, e.prevPid),
          TimeAfter(t.cpuTime, cpus, start, e.cpu, e.now, e.prevPid, e.prevCg),
          AfterWait(t.waits, cpus, t.wakeup, e.cpu, e.now, e.nextPid, e.nextCg),
          WaitCharges(SliceCharges(t.charges, cpus, start, e.cpu, e.now, e.prevPid, e.prevCg),
                      cpus, t.wakeup, e.cpu, e.now, e.nextPid, e.nextCg))
  }

  /** What a switch does to the values is what the event means. */
  lemma SwitchExplains(cpus: nat, t: Tally, h: History, marks: Marks, e: Event)
    requires ExplainedBy(cpus, t, h, marks) && MaySwitch(cpus, t, e)
    ensures ExplainedBy(cpus, Switched(cpus, t, e), h + [e], marks)
  {
    var start := t.sliceStart[e.cpu];
    StartsSwitch(cpus, t.sliceStart, h, e);
    WakeupsSwitch(t.wakeup, h, e);
    IdleSwitch(cpus, t.first, t.idle, h, e, start);
    TimeSwitch(cpus, t.cpuTime, h, marks.cpu, e, start);
    WaitsSwitch(cpus, t.waits, h, marks.wait, e, t.wakeup);
    var mid := SliceCharges(t.charges, cpus, start, e.cpu, e.now, e.prevPid, e.prevCg);
    ChargesSwitch(cpus, t.charges, mid, h, marks.line, e, start, t.wakeup);
  }

  lemma WakeupsWakeup(wakeup: map<nat, nat>, h: History, pid: nat, now: nat)
    requires WakeupsExplained(wakeup, h)
    ensures WakeupsExplained(wakeup[pid := now], h + [Wakeup(pid, now)])
  {
    forall p: nat
      ensures WokenAt(h + [Wakeup(pid, now)], p) ==
              if p in wakeup[pid := now] then Some(wakeup[pid := now][p]) else None
    {
      WokenAtSnoc(h, Wakeup(pid, now), p);
    }
  }

  lemma WakeupExplains(cpus: nat, t: Tally, h: History, marks: Marks, pid: nat, now: nat)
    requires ExplainedBy(cpus, t, h, marks)
    ensures ExplainedBy(cpus, t.(wakeup := t.wakeup[pid := now]), h + [Wakeup(pid, now)], marks)
  {
    var h' := h + [Wakeup(pid, now)];
    WakeupsWakeup(t.wakeup, h, pid, now);
    forall c: nat | c < cpus
      ensures LastOn(h', c) == LastOn(h, c) && FirstOn(h', c) == FirstOn(h, c) && IdleOf(h', c) == IdleOf(h, c)
    {
      LastOnSnoc(h, Wakeup(pid, now), c);
      IdleSnoc(h, Wakeup(pid, now), c);
    }
    TalliesWakeup(cpus, t, h, marks, Wakeup(pid, now));
  }

  lemma TalliesWakeup(cpus: nat, t: Tally, h: History, marks: Marks, e: Event)
    requires ExplainedBy(cpus, t, h, marks) && e.Wakeup?
    ensures TimeExplained(cpus, t.cpuTime, h + [e], marks.cpu) && WaitsExplained(cpus, t.waits, h + [e], marks.wait)
    ensures ChargesExplained(cpus, t.charges, h + [e], marks.line)
  {
    forall g: nat, c: nat | c < cpus ensures Cell<nat>(t.cpuTime, g, c, 0) == CpuTimeOf(h + [e], marks.cpu, g, c) {
      WakeupSnoc(h, marks.cpu, e, g, c);
    }
    forall g: nat, c: nat | c < cpus
      ensures Cell<seq<nat>>(t.waits, g, c, []) == WaitsOf(h + [e], marks.wait, g, c)
    {
      WakeupSnoc(h, marks.wait, e, g, c);
    }
    forall g: nat, c: nat | c < cpus
      ensures Cell<seq<Charge>>(t.charges, g, c, []) == ChargesOf(h + [e], marks.line, g, c)
    {
      WakeupSnoc(h, marks.line, e, g, c);
    }
  }

  /** A cgroup's row of counters adds up to its on-CPU time since the last drain. */
  lemma {:induction false} RowIsTime(cpus: nat, m: map<nat, seq<nat>>, h: History, from: nat, g: nat, n: nat)
    requires TimeExplained(cpus, m, h, from) && n <= cpus && (g in m ==> |m[g]| == cpus)
    ensures CpuTimeOver(h, from, g, n) == if g in m then SumNs(m[g], n) else 0
  {
    if n > 0 {
      RowIsTime(cpus, m, h, from, g, n - 1);
      assert Cell<nat>(m, g, n - 1, 0) == CpuTimeOf(h, from, g, n - 1);
    }
  }

  lemma WaitsAre(cpus: nat, waits: map<nat, PerCpu<nat>>, h: History, from: nat, g: nat)
    requires WaitsExplained(cpus, waits, h, from) && (g in waits ==> |waits[g]| == cpus)
    ensures g in waits ==> waits[g] == WaitsPerCpu(h, from, g, cpus)
    ensures g !in waits ==> forall c :: 0 <= c < cpus ==> WaitsOf(h, from, g, c) == []
  {
    forall c: nat | c < cpus ensures Cell<seq<nat>>(waits, g, c, []) == WaitsOf(h, from, g, c) {
    }
  }

  /** The charges of a cgroup add up, over all CPUs, to what its events mean. */
  lemma {:induction false} ChargesAre(cpus: nat, charges: map<nat, PerCpu<Charge>>, h: History, from: nat, g: nat,
                                      w: int, f: Field, n: nat)
    requires ChargesExplained(cpus, charges, h, from) && n <= cpus && (g in charges ==> |charges[g]| == cpus)
    ensures WindowOver(h, from, g, w, f, n) == if g in charges then CpuTotals(charges[g], w, f, n) else 0
  {
    if n > 0 {
      ChargesAre(cpus, charges, h, from, g, w, f, n - 1);
      ChargesTotal(h, from, g, n - 1, w, f);
      assert Cell<seq<Charge>>(charges, g, n - 1, []) == ChargesOf(h, from, g, n - 1);
    }
  }

  /** What the events of the window at position p, on the axis that ends at clock reading ref, add up to in
      one counter over all CPUs; the first window after boot is not reported. */
  function EventSum(h: History, from: nat, cpus: nat, g: nat, ref: nat, p: nat, f: Field): nat {
    var w := ref / 100_000_000 - 63 + p;
    if w >= 1 then WindowOver(h, from, g, w, f, cpus) else 0
  }

  /** Every counter at every position, in plain numbers. */
  ghost predicate ByEvents(series: seq<Load>, h: History, from: nat, cpus: nat, g: nat, ref: nat) {
    |series| == NUM_BUCKETS &&
    forall p, f :: 0 <= p < NUM_BUCKETS ==> Get(series[p], f) == EventSum(h, from, cpus, g, ref, p, f)
  }

  lemma PlainSumFields(hs: PerCpu<Charge>, refEpoch: nat, p: nat, f: Field)
    ensures var w := Window(refEpoch, p);
            Get(PlainSum(hs, refEpoch, p), f) == if w >= 1 then CpuTotals(hs, w, f, |hs|) else 0
  {
    SumsTotals(hs, Window(refEpoch, p), f, |hs|);
  }

  lemma PlainIsEvents(cpus: nat, charges: map<nat, PerCpu<Charge>>, h: History, from: nat, g: nat, ref: nat, p: nat,
                      f: Field)
    requires g in charges && |charges[g]| == cpus && ChargesExplained(cpus, charges, h, from)
    ensures Get(PlainSum(charges[g], EpochOf(ref), p), f) == EventSum(h, from, cpus, g, ref, p, f)
  {
    PlainSumFields(charges[g], EpochOf(ref), p, f);
    ChargesAre(cpus, charges, h, from, g, Window(EpochOf(ref), p), f, cpus);
  }

  lemma PlainByEvents(series: seq<Load>, cpus: nat, charges: map<nat, PerCpu<Charge>>, h: History, from: nat, g: nat,
                      ref: nat)
    requires g in charges && |charges[g]| == cpus && ChargesExplained(cpus, charges, h, from)
    requires AllPlain(series, charges[g], EpochOf(ref))
    ensures ByEvents(series, h, from, cpus, g, ref)
  {
    forall p, f | 0 <= p < NUM_BUCKETS ensures Get(series[p], f) == EventSum(h, from, cpus, g, ref, p, f) {
      PlainIsEvents(cpus, charges, h, from, g, ref, p, f);
    }
  }

  lemma RowsAreTimes(cpus: nat, m: map<nat, seq<nat>>, h: History, from: nat, results: map<nat, nat>)
    requires TimeExplained(cpus, m, h, from) && results.Keys == m.Keys
    requires forall g :: g in m ==> |m[g]| == cpus && results[g] == SumNs(m[g], cpus)
    ensures forall g :: CpuTimeOver(h, from, g, cpus) == if g in results then results[g] else 0
  {
    forall g ensures CpuTimeOver(h, from, g, cpus) == if g in results then results[g] else 0 {
      RowIsTime(cpus, m, h, from, g, cpus);
    }
  }

  /** A wakeup ends no slice and no wait. */
  lemma WakeupSnoc(h: History, from: nat, e: Event, g: nat, c: nat)
    requires e.Wakeup? && from <= |h|
    ensures CpuTimeOf(h + [e], from, g, c) == CpuTimeOf(h, from, g, c)
    ensures WaitsOf(h + [e], from, g, c) == WaitsOf(h, from, g, c)
    ensures ChargesOf(h + [e], from, g, c) == ChargesOf(h, from, g, c)
  {
    CpuTimeSnoc(h, from, e, g, c);
    WaitsSnoc(h, from, e, g, c);
    ChargesSnoc(h, from, e, g, c);
  }

  // ----- the balance -----

  /** One switch on one CPU keeps the balance of every CPU. */
  lemma SwitchConserves(cpus: nat, now: nat, m: map<nat, seq<nat>>, sliceStart: seq<nat>, first: seq<nat>,
                        idle: seq<nat>, drained: seq<nat>, cpu: nat, prevPid: nat, prevCg: nat)
    requires ConservedOf(cpus, m, sliceStart, first, idle, drained) && cpu < cpus && sliceStart[cpu] <= now
    ensures var start := sliceStart[cpu];
            ConservedOf(cpus, TimeAfter(m, cpus, start, cpu, now, prevPid, prevCg), sliceStart[cpu := now],
                        FirstAfter(first, start, cpu, now), IdleAfter(idle, start, cpu, now, prevPid), drained)
  {
    var start := sliceStart[cpu];
    forall c | 0 <= c < cpus
      ensures Resident(AddedTime(m, cpus, prevCg, cpu, now - start), c) ==
              Resident(m, c) + if c == cpu then now - start else 0
    {
      AddedTimeResident(m, cpus, prevCg, cpu, now - start, c);
    }
    assert Balanced(m, cpu, start, first[cpu], idle[cpu], drained[cpu]);
  }

  method BumpRing(ring: Ring, now: nat, load: Load) returns (r: Ring)
    ensures r == Charged(ring, Charge(now, load))
    ensures var epoch := now / 100_000_000;
            var idx := epoch % 64;
            && r[idx].epoch == epoch && (forall j :: 0 <= j < 64 && j != idx ==> r[j] == ring[j])
            && forall f :: Get(r[idx].load, f) ==
                           Get(load, f) + if ring[idx].epoch == epoch then Get(ring[idx].load, f) else 0
  {
    var epoch := now / BUCKET_NS;
    var idx := epoch % NUM_BUCKETS;
    var bkt := ring[idx];
    if bkt.epoch != epoch {
      bkt := Bucket(epoch, ZERO);
    }
    bkt := Bucket(bkt.epoch, Plus(bkt.load, load));
    r := ring[idx := bkt];
  }

  lemma ChargedRings(rings: seq<Ring>, hs: PerCpu<Charge>, cpu: nat, c: Charge, last: seq<nat>)
    requires RingsOf(rings, hs) && HistoryUpTo(hs, last) && cpu < |hs| && last[cpu] <= c.now
    ensures RingsOf(rings[cpu := Charged(rings[cpu], c)], hs[cpu := hs[cpu] + [c]])
    ensures HistoryUpTo(hs[cpu := hs[cpu] + [c]], last[cpu := c.now])
  {
    var h := hs[cpu] + [c];
    assert h[..|hs[cpu]|] == hs[cpu];
    assert Monotone(hs[cpu]);
  }

  /** A history stays within a later bound. */
  lemma LaterBound(cpus: nat, timeline: map<nat, seq<Ring>>, charges: map<nat, PerCpu<Charge>>, last: seq<nat>,
                   cpu: nat, now: nat)
    requires TimelineOf(cpus, timeline, charges, last) && cpu < cpus && last[cpu] <= now
    ensures TimelineOf(cpus, timeline, charges, last[cpu := now])
  {
    forall g | g in charges ensures HistoryUpTo(charges[g], last[cpu := now]) {
      assert HistoryUpTo(charges[g], last);
    }
  }

  lemma RecordedHists(cpus: nat, hists: seq<Hist>, ws: PerCpu<nat>, cpu: nat, us: nat, bucket: nat)
    requires |hists| == |ws| == cpus && cpu < cpus && InSlot(us, bucket)
    requires forall c :: 0 <= c < cpus ==> Counts(hists[c], ws[c])
    ensures bucket < |hists[cpu].slots|
    ensures var hists' := hists[cpu := Recorded(hists[cpu], us, bucket)];
            var ws' := ws[cpu := ws[cpu] + [us]];
            forall c :: 0 <= c < cpus ==> Counts(hists'[c], ws'[c])
  {
    RecordedCounts(hists[cpu], ws[cpu], us, bucket);
  }

  // ----- the loops of the drains -----

  method SumRows(cpus: nat, cpuTime: map<nat, seq<nat>>) returns (results: map<nat, nat>)
    requires forall g :: g in cpuTime ==> |cpuTime[g]| == cpus
    ensures results.Keys == cpuTime.Keys
    ensures forall g :: g in results ==> results[g] == SumNs(cpuTime[g], cpus)
  {
    results := map[];
    var todo := cpuTime.Keys;
    while todo != {}
      invariant todo <= cpuTime.Keys && results.Keys == cpuTime.Keys - todo
      invariant forall g :: g in results ==> results[g] == SumNs(cpuTime[g], cpus)
      decreases todo
    {
      var g :| g in todo;
      var sum := 0;
      for c := 0 to cpus
        invariant sum == SumNs(cpuTime[g], c)
      {
        sum := sum + cpuTime[g][c];
      }
      results := results[g := sum];
      todo := todo - {g};
    }
  }

  method MergeAll(cpus: nat, runq: map<nat, seq<Hist>>, ghost waits: map<nat, PerCpu<nat>>)
    returns (results: map<nat, Hist>)
    requires RunqOf(cpus, runq, waits)
    ensures results.Keys == waits.Keys
    ensures forall g :: g in results ==>
              Counts(results[g], Concat(waits[g])) && Histogram.Total(results[g].slots) == results[g].count
  {
    results := map[];
    var todo := runq.Keys;
    while todo != {}
      invariant todo <= runq.Keys && results.Keys == runq.Keys - todo
      invariant forall g :: g in results ==>
                  Counts(results[g], Concat(waits[g])) && Histogram.Total(results[g].slots) == results[g].count
      decreases todo
    {
      var g :| g in todo;
      assert forall c :: 0 <= c < cpus ==> Counts(runq[g][c], waits[g][c]);
      var agg := MergePerCpu(runq[g]);
      MergeCounts(agg, runq[g], waits[g]);
      SlotsSumToCount(agg, Concat(waits[g]));
      results := results[g := agg];
      todo := todo - {g};
    }
  }

  method DrainAll(timeline: map<nat, seq<Ring>>, refEpoch: nat, ghost charges: map<nat, PerCpu<Charge>>)
    returns (results: map<nat, seq<Load>>)
    requires timeline.Keys == charges.Keys && forall g :: g in charges ==> RingsOf(timeline[g], charges[g])
    ensures results.Keys == charges.Keys
    ensures forall g :: g in results ==>
              Aligned(results[g], charges[g], refEpoch) && Plain(results[g], charges[g], refEpoch)
  {
    results := map[];
    var todo := timeline.Keys;
    while todo != {}
      invariant todo <= timeline.Keys && results.Keys == timeline.Keys - todo
      invariant forall g :: g in results ==>
                  Aligned(results[g], charges[g], refEpoch) && Plain(results[g], charges[g], refEpoch)
      decreases todo
    {
      var g :| g in todo;
      var series := Drain(timeline[g], refEpoch);
      DrainAligned(series, timeline[g], charges[g], refEpoch);
      DrainPlain(series, timeline[g], charges[g], refEpoch);
      results := results[g := series];
      todo := todo - {g};
    }
  }

  class Observer {
    const cpus: nat
    var sliceStart: seq<nat>
    var wakeup: map<nat, nat>
    var cpuTime: map<nat, seq<nat>>
    var runq: map<nat, seq<Hist>>
    var timeline: map<nat, seq<Ring>>

    ghost var first: seq<nat>                     // per CPU: the first switch
    ghost var idle: seq<nat>                      // per CPU: time spent in the idle task
    ghost var drained: seq<nat>                   // per CPU: CPU time already read out
    ghost var waits: map<nat, PerCpu<nat>>        // waits recorded since the last Read
    ghost var charges: map<nat, PerCpu<Charge>>   // charges made since the last ReadTimeline
    ghost var events: History                     // everything the tracepoints reported
    ghost var marks: Marks                        // how many of them each drain had seen

    ghost predicate Conserved()
      reads this
    {
      ConservedOf(cpus, cpuTime, sliceStart, first, idle, drained)
    }

    /** The maps stand for the waits, the charges and the balance. */
    ghost predicate Counted()
      reads this
    {
      Conserved() && RunqOf(cpus, runq, waits) && TimelineOf(cpus, timeline, charges, sliceStart)
    }

    ghost function Values(): Tally
      reads this
    {
      Tally(sliceStart, wakeup, first, idle, cpuTime, waits, charges)
    }

    /** Waits, charges, counters and times are what the events mean. */
    ghost predicate Explained()
      reads this
    {
      ExplainedBy(cpus, Values(), events, marks)
    }

    ghost predicate Valid()
      reads this
    {
      Counted() && Explained()
    }

    constructor (cpus: nat)
      ensures Valid() && this.cpus == cpus && waits == map[] && charges == map[] && events == []
      ensures drained == idle == sliceStart == seq(cpus, _ => 0)
    {
      this.cpus := cpus;
      sliceStart, first := seq(cpus, _ => 0), seq(cpus, _ => 0);
      idle, drained := seq(cpus, _ => 0), seq(cpus, _ => 0);
      wakeup, cpuTime, runq, timeline := map[], map[], map[], map[];
      waits, charges := map[], map[];
      events, marks := [], Marks(0, 0, 0);
    }

    method HandleWakeup(pid: nat, now: nat)
      requires Valid()
      modifies this`wakeup, this`events
      ensures Valid() && wakeup == old(wakeup)[pid := now] && events == old(events) + [Wakeup(pid, now)]
    {
      WakeupExplains(cpus, Values(), events, marks, pid, now);
      wakeup := wakeup[pid := now];
      events := events + [Wakeup(pid, now)];
    }

    method AddCpuTime(cg: nat, cpu: nat, ns: nat)
      requires cpu < cpus && forall g :: g in cpuTime ==> |cpuTime[g]| == cpus
      modifies this`cpuTime
      ensures cpuTime == AddedTime(old(cpuTime), cpus, cg, cpu, ns)
    {
      if cg !in cpuTime {
        var zero: seq<nat> := seq(cpus, _ => 0);
        cpuTime := cpuTime[cg := zero];
      }
      var row: seq<nat> := cpuTime[cg];
      var total: nat := row[cpu] + ns;
      cpuTime := cpuTime[cg := row[cpu := total]];
    }

    /** get_timeline_bucket and the adds that follow it. */
    method ChargeTimeline(cg: nat, cpu: nat, now: nat, load: Load, ghost last: seq<nat>)
      requires cpu < cpus && TimelineOf(cpus, timeline, charges, last) && last[cpu] <= now
      modifies this`timeline, this`charges
      ensures TimelineOf(cpus, timeline, charges, last[cpu := now])
      ensures charges == Push<Charge>(old(charges), cpus, cg, cpu, Charge(now, load))
    {
      var rings: seq<Ring> := if cg in timeline then timeline[cg] else seq(cpus, _ => EmptyRing());
      ghost var hs := if cg in charges then charges[cg] else seq(cpus, _ => []);
      var ring := BumpRing(rings[cpu], now, load);
      assert RingsOf(rings, hs) && HistoryUpTo(hs, last);
      ChargedRings(rings, hs, cpu, Charge(now, load), last);
      timeline := timeline[cg := rings[cpu := ring]];
      charges := Push<Charge>(charges, cpus, cg, cpu, Charge(now, load));
    }

    method RecordWait(cg: nat, cpu: nat, us: nat)
      requires cpu < cpus && RunqOf(cpus, runq, waits)
      modifies this`runq, this`waits
      ensures RunqOf(cpus, runq, waits) && waits == Push<nat>(old(waits), cpus, cg, cpu, us)
    {
      var hists := if cg in runq then runq[cg] else seq(cpus, _ => EMPTY);
      ghost var ws := if cg in waits then waits[cg] else seq(cpus, _ => []);
      var bucket := Log2Bucket(us);
      RecordedHists(cpus, hists, ws, cpu, us, bucket);
      runq := runq[cg := hists[cpu := Recorded(hists[cpu], us, bucket)]];
      waits := Push<nat>(waits, cpus, cg, cpu, us);
    }

    /** A context switch on one CPU: prev leaves, next takes over. Time moves forward on that CPU and
        since next was woken; clocks of different CPUs need not agree otherwise. */
    method HandleSwitch(cpu: nat, now: nat, prevPid: nat, prevCg: nat, nextPid: nat, nextCg: nat)
      requires Valid() && cpu < cpus && sliceStart[cpu] <= now && (nextPid in wakeup ==> wakeup[nextPid] <= now)
      modifies this
      ensures Valid() && events == old(events) + [Switch(cpu, now, prevPid, prevCg, nextPid, nextCg)]
      ensures drained == old(drained) && marks == old(marks)
      ensures Values() == Switched(cpus, old(Values()), Switch(cpu, now, prevPid, prevCg, nextPid, nextCg))
    {
      ghost var t, e := Values(), Switch(cpu, now, prevPid, prevCg, nextPid, nextCg);
      assert MaySwitch(cpus, t, e);
      ghost var t' := Switched(cpus, t, e);
      assert ExplainedBy(cpus, t', events + [e], marks) by { SwitchExplains(cpus, t, events, marks, e); }
      ChargeBoth(cpu, now, prevPid, prevCg, nextPid, nextCg);
      events := events + [e];
      assert Values() == t';
    }

    /** Both halves of the handler. */
    method ChargeBoth(cpu: nat, now: nat, prevPid: nat, prevCg: nat, nextPid: nat, nextCg: nat)
      requires Counted() && MaySwitch(cpus, Values(), Switch(cpu, now, prevPid, prevCg, nextPid, nextCg))
      modifies this`sliceStart, this`wakeup, this`first, this`idle, this`cpuTime, this`runq, this`timeline,
               this`waits, this`charges
      ensures Counted()
      ensures Values() == Switched(cpus, old(Values()), Switch(cpu, now, prevPid, prevCg, nextPid, nextCg))
    {
      var start := sliceStart[cpu];
      ChargeSlice(cpu, now, start, prevPid, prevCg);
      ChargeWait(cpu, now, nextPid, nextCg);
    }

    /** The victim half of the handler: how long did next wait in the run queue? */
    method ChargeWait(cpu: nat, now: nat, nextPid: nat, nextCg: nat)
      requires Counted() && cpu < cpus && sliceStart[cpu] == now && (nextPid in wakeup ==> wakeup[nextPid] <= now)
      modifies this`wakeup, this`timeline, this`charges, this`runq, this`waits
      ensures Counted() && wakeup == old(wakeup) - {nextPid}
      ensures waits == AfterWait(old(waits), cpus, old(wakeup), cpu, now, nextPid, nextCg)
      ensures charges == WaitCharges(old(charges), cpus, old(wakeup), cpu, now, nextPid, nextCg)
    {
      if nextPid !in wakeup {
        assert wakeup == wakeup - {nextPid};
        return;
      }
      var wait := now - wakeup[nextPid];
      wakeup := wakeup - {nextPid};
      ChargeTimeline(nextCg, cpu, now, Load(wait, 1, 0, 0), sliceStart);
      assert sliceStart[cpu := now] == sliceStart;
      RecordWait(nextCg, cpu, wait / 1000);
    }

    /** The offender half of the handler: charge the slice that just ended. */
    method ChargeSlice(cpu: nat, now: nat, start: nat, prevPid: nat, prevCg: nat)
      requires Conserved() && TimelineOf(cpus, timeline, charges, sliceStart) && cpu < cpus
      requires start == sliceStart[cpu] <= now
      modifies this`cpuTime, this`timeline, this`charges, this`first, this`idle, this`sliceStart
      ensures Conserved() && TimelineOf(cpus, timeline, charges, sliceStart)
      ensures sliceStart == old(sliceStart)[cpu := now]
      ensures cpuTime == TimeAfter(old(cpuTime), cpus, start, cpu, now, prevPid, prevCg)
      ensures charges == SliceCharges(old(charges), cpus, start, cpu, now, prevPid, prevCg)
      ensures idle == IdleAfter(old(idle), start, cpu, now, prevPid) && first == FirstAfter(old(first), start, cpu, now)
    {
      SwitchConserves(cpus, now, cpuTime, sliceStart, first, idle, drained, cpu, prevPid, prevCg);
      ChargePrev(cpu, now, start, prevPid, prevCg);
      idle, first := IdleAfter(idle, start, cpu, now, prevPid), FirstAfter(first, start, cpu, now);
      sliceStart := sliceStart[cpu := now];
    }

    /** Skip the first switch and the idle task; otherwise the slice goes to prev's cgroup. */
    method ChargePrev(cpu: nat, now: nat, start: nat, prevPid: nat, prevCg: nat)
      requires cpu < cpus && TimelineOf(cpus, timeline, charges, sliceStart) && start == sliceStart[cpu] <= now
      requires forall g :: g in cpuTime ==> |cpuTime[g]| == cpus
      modifies this`cpuTime, this`timeline, this`charges
      ensures TimelineOf(cpus, timeline, charges, sliceStart[cpu := now])
      ensures cpuTime == TimeAfter(old(cpuTime), cpus, start, cpu, now, prevPid, prevCg)
      ensures charges == SliceCharges(old(charges), cpus, start, cpu, now, prevPid, prevCg)
    {
      if start != 0 && prevPid != 0 {
        AddCpuTime(prevCg, cpu, now - start);
        ChargeTimeline(prevCg, cpu, now, Load(0, 0, now - start, 1), sliceStart);
      } else {
        LaterBound(cpus, timeline, charges, sliceStart, cpu, now);
      }
    }

    // ----- the drains -----

    /** ReadCPU: per cgroup the sum over CPUs of its on-CPU time since the last ReadCPU, then delete. What
        is returned is exactly what leaves the counters, in total and per CPU. */
    method ReadCPU() returns (results: map<nat, nat>)
      requires Valid()
      modifies this`cpuTime, this`drained, this`marks
      ensures Valid() && cpuTime == map[] && results.Keys == old(cpuTime.Keys) && marks == old(marks).(cpu := |events|)
      ensures forall g :: g in results ==> results[g] == SumNs(old(cpuTime)[g], cpus)
      ensures forall g :: CpuTimeOver(events, old(marks).cpu, g, cpus) == if g in results then results[g] else 0
      ensures forall c :: 0 <= c < cpus ==> drained[c] == old(drained[c]) + old(Resident(cpuTime, c))
      ensures SumNs(drained, cpus) == SumNs(old(drained), cpus) + Grand(results)
    {
      results := SumRows(cpus, cpuTime);
      RowsAreTimes(cpus, cpuTime, events, marks.cpu, results);
      RowsAndColumns(cpuTime, cpus, results);
      TimeDrained(cpus, Values(), events, marks);
      BalanceDrained(cpus, cpuTime, sliceStart, first, idle, drained);
      drained := Drained(cpuTime, cpus, drained);
      cpuTime, marks := map[], marks.(cpu := |events|);
    }

    /** Read: per cgroup the merged histogram of its waits since the last Read, then delete. */
    method Read() returns (results: map<nat, Hist>)
      requires Valid()
      modifies this`runq, this`waits, this`marks
      ensures Valid() && runq == map[] && waits == map[] && results.Keys == old(waits.Keys)
      ensures marks == old(marks).(wait := |events|)
      ensures forall g :: g in results ==>
                && Counts(results[g], Concat(WaitsPerCpu(events, old(marks).wait, g, cpus)))
                && Histogram.Total(results[g].slots) == results[g].count
      ensures forall g, c :: g !in results && 0 <= c < cpus ==> WaitsOf(events, old(marks).wait, g, c) == []
    {
      results := MergeAll(cpus, runq, waits);
      forall g
        ensures g in waits ==> waits[g] == WaitsPerCpu(events, marks.wait, g, cpus)
        ensures g !in waits ==> forall c :: 0 <= c < cpus ==> WaitsOf(events, marks.wait, g, c) == []
      {
        WaitsAre(cpus, waits, events, marks.wait, g);
      }
      WaitsDrained(cpus, Values(), events, marks);
      runq, waits, marks := map[], map[], marks.(wait := |events|);
    }

    /** ReadTimeline at clock reading ref: every cgroup on the same 64-window axis, then delete. With a
        reference at or after every CPU's last switch each position is the plain sum of its window. */
    method ReadTimeline(ref: nat) returns (results: map<nat, seq<Load>>)
      requires Valid()
      modifies this`timeline, this`charges, this`marks
      ensures Valid() && timeline == map[] && charges == map[] && results.Keys == old(charges.Keys)
      ensures marks == old(marks).(line := |events|)
      ensures forall g :: g in results ==>
                Aligned(results[g], old(charges)[g], EpochOf(ref)) && Plain(results[g], old(charges)[g], EpochOf(ref))
      ensures (forall c :: 0 <= c < cpus ==> sliceStart[c] <= ref) ==>
                forall g :: g in results ==>
                  && AllPlain(results[g], old(charges)[g], EpochOf(ref))
                  && ByEvents(results[g], events, old(marks).line, cpus, g, ref)
      ensures forall g, w, f :: g !in results ==> WindowOver(events, old(marks).line, g, w, f, cpus) == 0
    {
      results := DrainAll(timeline, ref / BUCKET_NS, charges);
      if forall c :: 0 <= c < cpus ==> sliceStart[c] <= ref {
        forall g | g in results
          ensures AllPlain(results[g], charges[g], EpochOf(ref))
          ensures ByEvents(results[g], events, marks.line, cpus, g, ref)
        {
          NotAhead(charges[g], sliceStart, ref);
          PlainEverywhere(results[g], charges[g], EpochOf(ref));
          PlainByEvents(results[g], cpus, charges, events, marks.line, g, ref);
        }
      }
      forall g, w, f | g !in results ensures WindowOver(events, marks.line, g, w, f, cpus) == 0 {
        ChargesAre(cpus, charges, events, marks.line, g, w, f, cpus);
      }
      ChargesDrained(cpus, Values(), events, marks);
      timeline, charges, marks := map[], map[], marks.(line := |events|);
    }
  }

  lemma BalanceDrained(cpus: nat, m: map<nat, seq<nat>>, sliceStart: seq<nat>, first: seq<nat>, idle: seq<nat>,
                       drained: seq<nat>)
    requires ConservedOf(cpus, m, sliceStart, first, idle, drained)
    ensures ConservedOf(cpus, map[], sliceStart, first, idle, Drained(m, cpus, drained))
  {
    var drained' := Drained(m, cpus, drained);
    forall c | 0 <= c < cpus ensures Balanced(map[], c, sliceStart[c], first[c], idle[c], drained'[c]) {
      assert Balanced(m, c, sliceStart[c], first[c], idle[c], drained[c]);
    }
  }

  lemma TimeDrained(cpus: nat, t: Tally, h: History, marks: Marks)
    requires ExplainedBy(cpus, t, h, marks)
    ensures ExplainedBy(cpus, t.(cpuTime := map[]), h, marks.(cpu := |h|))
  {
    assert TimeExplained(cpus, map[], h, |h|);
  }

  lemma WaitsDrained(cpus: nat, t: Tally, h: History, marks: Marks)
    requires ExplainedBy(cpus, t, h, marks)
    ensures ExplainedBy(cpus, t.(waits := map[]), h, marks.(wait := |h|))
  {
    assert WaitsExplained(cpus, map[], h, |h|);
  }

  lemma ChargesDrained(cpus: nat, t: Tally, h: History, marks: Marks)
    requires ExplainedBy(cpus, t, h, marks)
    ensures ExplainedBy(cpus, t.(charges := map[]), h, marks.(line := |h|))
  {
    assert ChargesExplained(cpus, map[], h, |h|);
  }

  /** No charge is in a window after e. */
  predicate AheadAtMost(hs: PerCpu<Charge>, e: nat) {
    forall c, i :: 0 <= c < |hs| && 0 <= i < |hs[c]| ==> EpochOf(hs[c][i].now) <= e
  }

  lemma NotAhead(hs: PerCpu<Charge>, last: seq<nat>, ref: nat)
    requires HistoryUpTo(hs, last) && forall c :: 0 <= c < |last| ==> last[c] <= ref
    ensures AheadAtMost(hs, EpochOf(ref))
  {
    forall c, i | 0 <= c < |hs| && 0 <= i < |hs[c]| ensures EpochOf(hs[c][i].now) <= EpochOf(ref) {
      EpochMonotone(hs[c][i].now, ref);
    }
  }

  /** Everything charged in the window at position p, over all CPUs. */
  function PlainSum(hs: PerCpu<Charge>, refEpoch: nat, p: nat): Load {
    var w := Window(refEpoch, p);
    if w >= 1 then Timeline.Sum(SumsOn(hs, w), |hs|) else ZERO
  }

  /** A position as many windows from the left as the newest charge is ahead, or more, is a plain sum. */
  ghost predicate Plain(series: seq<Load>, hs: PerCpu<Charge>, refEpoch: nat) {
    |series| == NUM_BUCKETS &&
    forall p :: 0 <= p < NUM_BUCKETS && AheadAtMost(hs, refEpoch + p) ==> series[p] == PlainSum(hs, refEpoch, p)
  }

  lemma NoFurtherAhead(hs: PerCpu<Charge>, e: nat, e': nat)
    requires AheadAtMost(hs, e) && e <= e'
    ensures AheadAtMost(hs, e')
  {
    forall c, i | 0 <= c < |hs| && 0 <= i < |hs[c]| ensures EpochOf(hs[c][i].now) <= e' {
      assert EpochOf(hs[c][i].now) <= e;
    }
  }

  /** All 64 positions are plain sums. */
  ghost predicate AllPlain(series: seq<Load>, hs: PerCpu<Charge>, refEpoch: nat) {
    |series| == NUM_BUCKETS && forall p :: 0 <= p < NUM_BUCKETS ==> series[p] == PlainSum(hs, refEpoch, p)
  }

  lemma PlainEverywhere(series: seq<Load>, hs: PerCpu<Charge>, refEpoch: nat)
    requires Plain(series, hs, refEpoch) && AheadAtMost(hs, refEpoch)
    ensures AllPlain(series, hs, refEpoch)
  {
    forall p | 0 <= p < NUM_BUCKETS ensures series[p] == PlainSum(hs, refEpoch, p) {
      NoFurtherAhead(hs, refEpoch, refEpoch + p);
    }
  }

  lemma DrainPlain(series: seq<Load>, percpu: seq<Ring>, hs: PerCpu<Charge>, refEpoch: nat)
    requires |series| == NUM_BUCKETS && RingsOf(percpu, hs)
    requires forall p :: 0 <= p < NUM_BUCKETS ==> series[p] == DrainPart(percpu, refEpoch, p)
    ensures Plain(series, hs, refEpoch)
  {
    forall p | 0 <= p < NUM_BUCKETS && AheadAtMost(hs, refEpoch + p) ensures series[p] == PlainSum(hs, refEpoch, p) {
      DrainIsWindowSum(percpu, hs, refEpoch, p, p);
    }
  }

  /** Everything charged in the window at position p and not overwritten, over all CPUs. */
  ghost function VisibleSum(hs: PerCpu<Charge>, refEpoch: nat, p: nat): Load {
    var w := Window(refEpoch, p);
    if w >= 1 then Timeline.Sum(VisibleOn(hs, w), |hs|) else ZERO
  }

  /** Position p shows, summed over CPUs, all that was charged in its window and is still visible. */
  ghost predicate Aligned(series: seq<Load>, hs: PerCpu<Charge>, refEpoch: nat) {
    |series| == NUM_BUCKETS &&
    forall p :: 0 <= p < NUM_BUCKETS ==>
      series[p] == VisibleSum(hs, refEpoch, p)
  }

  lemma DrainAligned(series: seq<Load>, percpu: seq<Ring>, hs: PerCpu<Charge>, refEpoch: nat)
    requires |series| == NUM_BUCKETS && RingsOf(percpu, hs)
    requires forall p :: 0 <= p < NUM_BUCKETS ==> series[p] == DrainPart(percpu, refEpoch, p)
    ensures Aligned(series, hs, refEpoch)
  {
    forall p | 0 <= p < NUM_BUCKETS
      ensures series[p] == VisibleSum(hs, refEpoch, p)
    {
      DrainExact(percpu, hs, refEpoch, p);
    }
  }
}
