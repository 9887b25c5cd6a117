/** What the scheduler's tracepoints report, and what a history of reports means for one cgroup on one
    CPU: its on-CPU time, its waits in the run queue, and its share of every 100 ms window. */
module SchedHistory {
  import opened Options
  import opened Timeline

  datatype Event =
    | Wakeup(pid: nat, at: nat)
    | Switch(cpu: nat, now: nat, prevPid: nat, prevCg: nat, nextPid: nat, nextCg: nat)

  type History = seq<Event>

  // ----- what came before -----

  /** The time of the last switch on a CPU, 0 if there was none. */
  function LastOn(h: History, c: nat): nat {
    if h == [] then 0
    else
      var e := h[|h| - 1];
      if e.Switch? && e.cpu == c then e.now else LastOn(h[..|h| - 1], c)
  }

  /** When a task was last woken, if it has not run since. */
  function WokenAt(h: History, pid: nat): Option<nat> {
    if h == [] then None
    else
      match h[|h| - 1]
      case Wakeup(p, at) => if p == pid then Some(at) else WokenAt(h[..|h| - 1], pid)
      case Switch(_, _, _, _, nextPid, _) => if nextPid == pid then None else WokenAt(h[..|h| - 1], pid)
  }

  function Elapsed(from: nat, to: nat): nat {
    if from <= to then to - from else 0
  }

  /** The time of the first switch on a CPU, where a clock reading of 0 counts as none. */
  function FirstOn(h: History, c: nat): nat {
    if h == [] then 0
    else
      var before, e := h[..|h| - 1], h[|h| - 1];
      if e.Switch? && e.cpu == c && LastOn(before, c) == 0 then e.now else FirstOn(before, c)
  }

  /** The time a CPU spent in the idle task. */
  function IdleOf(h: History, c: nat): nat {
    if h == [] then 0
    else
      var before, e := h[..|h| - 1], h[|h| - 1];
      IdleOf(before, c) +
      if e.Switch? && e.cpu == c && e.prevPid == 0 && LastOn(before, c) != 0
      then Elapsed(LastOn(before, c), e.now) else 0
  }

  // ----- what one event means -----

  /** The event ends an on-CPU slice of a task of cgroup g on CPU c: not the first switch there, and not
      the idle task. */
  predicate EndsSlice(h: History, e: Event, g: nat, c: nat) {
    e.Switch? && e.cpu == c && e.prevCg == g && e.prevPid != 0 && LastOn(h, c) != 0
  }

  function SliceNs(h: History, e: Event): nat
    requires e.Switch?
  {
    Elapsed(LastOn(h, e.cpu), e.now)
  }

  /** The event ends a wait of a task of cgroup g in the run queue of CPU c. */
  predicate EndsWait(h: History, e: Event, g: nat, c: nat) {
    e.Switch? && e.cpu == c && e.nextCg == g && WokenAt(h, e.nextPid).Some?
  }

  function WaitNs(h: History, e: Event): nat
    requires e.Switch? && WokenAt(h, e.nextPid).Some?
  {
    Elapsed(WokenAt(h, e.nextPid).value, e.now)
  }

  /** What the event adds to one counter of cgroup g on CPU c. */
  function Contribution(h: History, e: Event, g: nat, c: nat, f: Field): nat {
    match f
    case CpuNs => if EndsSlice(h, e, g, c) then SliceNs(h, e) else 0
    case CtxSwitches => if EndsSlice(h, e, g, c) then 1 else 0
    case RunqLatNs => if EndsWait(h, e, g, c) then WaitNs(h, e) else 0
    case RunqCount => if EndsWait(h, e, g, c) then 1 else 0
  }

  // ----- what a history means, from event number from on -----

  /** Cgroup g's on-CPU time on CPU c. */
  function CpuTimeOf(h: History, from: nat, g: nat, c: nat): nat {
    if |h| <= from then 0
    else
      var before, e := h[..|h| - 1], h[|h| - 1];
      CpuTimeOf(before, from, g, c) + if EndsSlice(before, e, g, c) then SliceNs(before, e) else 0
  }

  /** Cgroup g's on-CPU time on the first n CPUs. */
  function CpuTimeOver(h: History, from: nat, g: nat, n: nat): nat {
    if n == 0 then 0 else CpuTimeOver(h, from, g, n - 1) + CpuTimeOf(h, from, g, n - 1)
  }

  /** The waits of cgroup g on CPU c in microseconds, in order. */
  function WaitsOf(h: History, from: nat, g: nat, c: nat): seq<nat> {
    if |h| <= from then []
    else
      var before, e := h[..|h| - 1], h[|h| - 1];
      WaitsOf(before, from, g, c) + if EndsWait(before, e, g, c) then [WaitNs(before, e) / 1000] else []
  }

  /** The same for each CPU. */
  function WaitsPerCpu(h: History, from: nat, g: nat, cpus: nat): (ws: seq<seq<nat>>)
    ensures |ws| == cpus && forall c :: 0 <= c < cpus ==> ws[c] == WaitsOf(h, from, g, c)
  {
    seq(cpus, c requires 0 <= c < cpus => WaitsOf(h, from, g, c))
  }

  /** The time lies in window w, 100 ms wide. */
  predicate InWindow(now: nat, w: int) {
    w * 100_000_000 <= now < (w + 1) * 100_000_000
  }

  /** What window w adds up to in one counter of cgroup g on CPU c. */
  function WindowTotal(h: History, from: nat, g: nat, c: nat, w: int, f: Field): nat {
    if |h| <= from then 0
    else
      var before, e := h[..|h| - 1], h[|h| - 1];
      WindowTotal(before, from, g, c, w, f) +
      if e.Switch? && InWindow(e.now, w) then Contribution(before, e, g, c, f) else 0
  }

  /** The same over the first n CPUs. */
  function WindowOver(h: History, from: nat, g: nat, w: int, f: Field, n: nat): nat {
    if n == 0 then 0 else WindowOver(h, from, g, w, f, n - 1) + WindowTotal(h, from, g, n - 1, w, f)
  }

  // ----- as charges to a ring -----

  function SliceCharge(h: History, e: Event, g: nat, c: nat): seq<Charge> {
    if EndsSlice(h, e, g, c) then [Charge(e.now, Load(0, 0, SliceNs(h, e), 1))] else []
  }

  function WaitCharge(h: History, e: Event, g: nat, c: nat): seq<Charge> {
    if EndsWait(h, e, g, c) then [Charge(e.now, Load(WaitNs(h, e), 1, 0, 0))] else []
  }

  function ChargesOf(h: History, from: nat, g: nat, c: nat): seq<Charge> {
    if |h| <= from then []
    else
      var before, e := h[..|h| - 1], h[|h| - 1];
      ChargesOf(before, from, g, c) + SliceCharge(before, e, g, c) + WaitCharge(before, e, g, c)
  }

  lemma {:induction false} TotalAtConcat(a: seq<Charge>, b: seq<Charge>, e: int, f: Field)
    ensures TotalAt(a + b, e, f) == TotalAt(a, e, f) + TotalAt(b, e, f)
    decreases |b|
  {
    if b == [] {
      assert a + b == a;
    } else {
      TotalAtConcat(a, b[..|b| - 1], e, f);
      assert (a + b)[..|a + b| - 1] == a + b[..|b| - 1];
    }
  }

  lemma TotalAtOne(x: Charge, e: int, f: Field)
    ensures TotalAt([x], e, f) == if InWindow(x.now, e) then Get(x.load, f) else 0
  {
    assert [x][..0] == [];
    assert EpochOf(x.now) == e <==> InWindow(x.now, e);
  }

  lemma EventTotal(h: History, e: Event, g: nat, c: nat, w: int, f: Field)
    ensures TotalAt(SliceCharge(h, e, g, c), w, f) + TotalAt(WaitCharge(h, e, g, c), w, f) ==
            if e.Switch? && InWindow(e.now, w) then Contribution(h, e, g, c, f) else 0
  {
    if EndsSlice(h, e, g, c) {
      TotalAtOne(SliceCharge(h, e, g, c)[0], w, f);
    }
    if EndsWait(h, e, g, c) {
      TotalAtOne(WaitCharge(h, e, g, c)[0], w, f);
    }
  }

  /** The charges of a history add up, window by window and counter by counter, to what its events mean. */
  lemma {:induction false} ChargesTotal(h: History, from: nat, g: nat, c: nat, w: int, f: Field)
    ensures TotalAt(ChargesOf(h, from, g, c), w, f) == WindowTotal(h, from, g, c, w, f)
    decreases |h|
  {
    if |h| > from {
      var before, e := h[..|h| - 1], h[|h| - 1];
      ChargesTotal(before, from, g, c, w, f);
      EventTotal(before, e, g, c, w, f);
      var a, b, d := ChargesOf(before, from, g, c), SliceCharge(before, e, g, c), WaitCharge(before, e, g, c);
      TotalAtConcat(a, b, w, f);
      TotalAtConcat(a + b, d, w, f);
    }
  }

  // ----- one more event -----

  lemma LastOnSnoc(h: History, e: Event, c: nat)
    ensures LastOn(h + [e], c) == if e.Switch? && e.cpu == c then e.now else LastOn(h, c)
  {
    assert (h + [e])[..|h|] == h;
  }

  lemma WokenAtSnoc(h: History, e: Event, pid: nat)
    ensures WokenAt(h + [e], pid) ==
            match e
            case Wakeup(p, at) => (if p == pid then Some(at) else WokenAt(h, pid))
            case Switch(_, _, _, _, nextPid, _) => if nextPid == pid then None else WokenAt(h, pid)
  {
    assert (h + [e])[..|h|] == h;
  }

  lemma IdleSnoc(h: History, e: Event, c: nat)
    ensures FirstOn(h + [e], c) == if e.Switch? && e.cpu == c && LastOn(h, c) == 0 then e.now else FirstOn(h, c)
    ensures IdleOf(h + [e], c) ==
            IdleOf(h, c) +
            if e.Switch? && e.cpu == c && e.prevPid == 0 && LastOn(h, c) != 0 then Elapsed(LastOn(h, c), e.now) else 0
  {
    assert (h + [e])[..|h|] == h;
  }

  lemma CpuTimeSnoc(h: History, from: nat, e: Event, g: nat, c: nat)
    requires from <= |h|
    ensures CpuTimeOf(h + [e], from, g, c) ==
            CpuTimeOf(h, from, g, c) + if EndsSlice(h, e, g, c) then SliceNs(h, e) else 0
  {
    assert (h + [e])[..|h|] == h;
  }

  lemma WaitsSnoc(h: History, from: nat, e: Event, g: nat, c: nat)
    requires from <= |h|
    ensures WaitsOf(h + [e], from, g, c) ==
            WaitsOf(h, from, g, c) + if EndsWait(h, e, g, c) then [WaitNs(h, e) / 1000] else []
  {
    assert (h + [e])[..|h|] == h;
  }

  lemma ChargesSnoc(h: History, from: nat, e: Event, g: nat, c: nat)
    requires from <= |h|
    ensures ChargesOf(h + [e], from, g, c) ==
            ChargesOf(h, from, g, c) + SliceCharge(h, e, g, c) + WaitCharge(h, e, g, c)
  {
    assert (h + [e])[..|h|] == h;
  }
}
