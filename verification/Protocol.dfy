/** The throttle/restore protocol as a state machine: the cluster (pods, ledger, clock), the
    controller's memory, and the calls in flight between two API requests. Every API call has an
    arbitrary outcome, pods come and go, and the process may be killed between any two steps.
    (internal/controller/resize.go, remediation.go, persist.go) */
module Protocol {
  import opened Options
  import opened Identity
  import opened Targets

  // ----- state -----

  datatype Config = Config(
    dryRun: bool, cooldown: int, resize: bool, restoreAfter: int,
    allow: Option<set<string>>, gate: real, durable: bool)

  /** CPU quantities in one unit; a container may declare neither. */
  datatype Resources = Resources(limit: Option<int>, request: Option<int>)

  type PodSpec = map<string, Resources>

  datatype Record = Record(ns: string, pod: string, container: string, original: int, restoreAt: int)

  /** A throttle whose patch succeeded and which is not yet recorded. */
  datatype Lowering = Lowering(ns: string, pod: string, container: string, original: int)

  datatype ActionKind = EventCreated | LimitLowered

  datatype Action = Action(key: string, at: int, kind: ActionKind)

  datatype State = State(
    // the cluster
    pods: map<string, PodSpec>,
    declared: map<string, PodSpec>,   // what each pod's owner asked for
    ledger: map<string, Record>,
    now: int,
    acts: seq<Action>,                // successful remediation actions, in order
    // the controller's memory
    throttled: map<string, Record>,
    lastActed: map<string, int>,
    // calls in flight
    patched: map<string, Lowering>,   // between the patch and the in-memory record
    unsaved: map<string, Record>,     // between the in-memory record and the end of persist
    unforgotten: set<string>)         // between the in-memory delete and the end of forget

  /** Outcomes of the API calls one action makes. */
  datatype ActOutcome = ActOutcome(getOk: bool, patchOk: bool, eventOk: bool)

  datatype Step =
    | Tick(d: nat)
    | Create(ns: string, pod: string, spec: PodSpec)
    | Delete(key: string)
    | Act(snap: Snapshot, i: nat, api: ActOutcome)
    | Keep(key: string)
    | Persist(key: string, ok: bool)
    | Restore(key: string, ok: bool)
    | Forget(key: string, ok: bool)
    | Restart

  // ----- steps -----

  predicate Allowed(cfg: Config, ns: string) {
    cfg.allow.None? || ns in cfg.allow.value
  }

  predicate OutOfCooldown(cfg: Config, s: State, key: string) {
    key !in s.lastActed || s.now - s.lastActed[key] >= cfg.cooldown
  }

  /** The container has a limit strictly above its request. */
  predicate Room(pods: map<string, PodSpec>, key: string, c: string) {
    key in pods && c in pods[key] &&
    pods[key][c].limit.Some? && pods[key][c].request.Some? &&
    pods[key][c].request.value < pods[key][c].limit.value
  }

  function SetLimit(pods: map<string, PodSpec>, key: string, c: string, cpu: int): map<string, PodSpec>
    requires key in pods && c in pods[key]
  {
    pods[key := pods[key][c := pods[key][c].(limit := Some(cpu))]]
  }

  /** The patch went through: the limit is at the request, and the old limit is in flight. */
  function Lower(s: State, t: Target): State
    requires Room(s.pods, t.Key(), t.container)
  {
    var res := s.pods[t.Key()][t.container];
    s.(pods := SetLimit(s.pods, t.Key(), t.container, res.request.value),
       patched := s.patched[t.Key() := Lowering(t.ns, t.pod, t.container, res.limit.value)],
       lastActed := s.lastActed[t.Key() := s.now],
       acts := s.acts + [Action(t.Key(), s.now, LimitLowered)])
  }

  /** Everything Remediate does for one target, up to and including the patch or the Event. */
  function ActOn(cfg: Config, s: State, t: Target, api: ActOutcome): State {
    var k := t.Key();
    if !Allowed(cfg, t.ns) || k in s.throttled || !OutOfCooldown(cfg, s, k) then s
    else if cfg.dryRun then s.(lastActed := s.lastActed[k := s.now])
    else if cfg.resize && t.resource == Cpu && api.getOk && Room(s.pods, k, t.container) && api.patchOk then Lower(s, t)
    else if api.eventOk then
      s.(lastActed := s.lastActed[k := s.now], acts := s.acts + [Action(k, s.now, EventCreated)])
    else s.(lastActed := s.lastActed - {k})
  }

  function KeepStep(cfg: Config, s: State, k: string): State {
    if k !in s.patched then s
    else
      var l := s.patched[k];
      var r := Record(l.ns, l.pod, l.container, l.original, s.now + cfg.restoreAfter);
      s.(patched := s.patched - {k}, throttled := s.throttled[k := r], unsaved := s.unsaved[k := r])
  }

  function PersistStep(cfg: Config, s: State, k: string, ok: bool): State {
    if k !in s.unsaved then s
    else s.(unsaved := s.unsaved - {k},
            ledger := if cfg.durable && ok then s.ledger[CmKey(k) := s.unsaved[k]] else s.ledger)
  }

  /** One entry of restoreDue: put the recorded limit back, or find the pod gone. */
  function RestoreStep(s: State, k: string, ok: bool): State {
    if k !in s.throttled || s.now <= s.throttled[k].restoreAt || !ok then s
    else
      var r := s.throttled[k];
      if k in s.pods && r.container !in s.pods[k] then s
      else s.(pods := if k in s.pods then SetLimit(s.pods, k, r.container, r.original) else s.pods,
              throttled := s.throttled - {k},
              unforgotten := s.unforgotten + {k})
  }

  function ForgetStep(cfg: Config, s: State, k: string, ok: bool): State {
    if k !in s.unforgotten then s
    else s.(unforgotten := s.unforgotten - {k},
            ledger := if cfg.durable && ok then s.ledger - {CmKey(k)} else s.ledger)
  }

  function RecordKey(r: Record): string {
    PodKey(r.ns, r.pod)
  }

  /** A ledger this controller wrote: each record sits under its own pod's data key. */
  predicate Tidy(ledger: map<string, Record>) {
    forall ck :: ck in ledger ==> ck == CmKey(RecordKey(ledger[ck]))
  }

  predicate Readable(r: Record) {
    r.ns != "" && r.pod != ""
  }

  /** The pod keys Recover loads. */
  function RecoveredKeys(ledger: map<string, Record>): set<string> {
    set ck | ck in ledger && Readable(ledger[ck]) && ck == CmKey(RecordKey(ledger[ck])) :: RecordKey(ledger[ck])
  }

  function Recovered(ledger: map<string, Record>): map<string, Record> {
    map k | k in RecoveredKeys(ledger) :: ledger[CmKey(k)]
  }

  /** The process dies and a new one starts: memory and calls in flight are gone, Recover runs. */
  function RestartStep(cfg: Config, s: State): State {
    s.(throttled := if cfg.durable then Recovered(s.ledger) else map[],
       lastActed := map[], patched := map[], unsaved := map[], unforgotten := {})
  }

  predicate HasRecord(s: State, k: string) {
    k in s.throttled || k in s.patched || k in s.unsaved || CmKey(k) in s.ledger
  }

  /** A pod may be created under any free host name; while a record of that name exists the new pod
      has the declared limits of the old one. */
  predicate MayCreate(s: State, ns: string, pod: string, spec: PodSpec) {
    var k := PodKey(ns, pod);
    HostName(ns) && HostName(pod) && k !in s.pods &&
    (HasRecord(s, k) ==> k in s.declared && s.declared[k] == spec)
  }

  /** An action on a pod does not overlap an unfinished throttle of the same pod. */
  predicate Free(s: State, k: string) {
    k !in s.patched && k !in s.unsaved
  }

  /** The target would be lowered now. */
  predicate WillLower(cfg: Config, s: State, t: Target) {
    Allowed(cfg, t.ns) && t.Key() !in s.throttled && OutOfCooldown(cfg, s, t.Key()) && !cfg.dryRun && cfg.resize &&
    t.resource == Cpu && Room(s.pods, t.Key(), t.container) && Free(s, t.Key())
  }

  /** The step's patch lowers this container. */
  predicate Lowers(cfg: Config, s: State, step: Step, k: string, c: string) {
    step.Act? &&
    var ts := TargetsOf(step.snap, cfg.gate);
    step.i < |ts| && ts[step.i].Key() == k && ts[step.i].container == c &&
    WillLower(cfg, s, ts[step.i]) && step.api.getOk && step.api.patchOk
  }

  function Next(cfg: Config, s: State, step: Step): State {
    match step
    case Tick(d) => s.(now := s.now + d)
    case Create(ns, pod, spec) =>
      if MayCreate(s, ns, pod, spec)
      then s.(pods := s.pods[PodKey(ns, pod) := spec], declared := s.declared[PodKey(ns, pod) := spec])
      else s
    case Delete(k) => s.(pods := s.pods - {k})
    case Act(snap, i, api) =>
      var ts := TargetsOf(snap, cfg.gate);
      if i < |ts| && Free(s, ts[i].Key()) then ActOn(cfg, s, ts[i], api) else s
    case Keep(k) => KeepStep(cfg, s, k)
    case Persist(k, ok) => PersistStep(cfg, s, k, ok)
    case Restore(k, ok) => RestoreStep(s, k, ok)
    case Forget(k, ok) => ForgetStep(cfg, s, k, ok)
    case Restart => RestartStep(cfg, s)
  }

  function Exec(cfg: Config, s: State, steps: seq<Step>): State {
    if steps == [] then s
    else Next(cfg, Exec(cfg, s, steps[..|steps| - 1]), steps[|steps| - 1])
  }

  lemma ExecSnoc(cfg: Config, s: State, steps: seq<Step>, step: Step)
    ensures Exec(cfg, s, steps + [step]) == Next(cfg, Exec(cfg, s, steps), step)
  {
    assert (steps + [step])[..|steps|] == steps;
  }

  lemma {:induction false} ExecConcat(cfg: Config, s: State, a: seq<Step>, b: seq<Step>)
    ensures Exec(cfg, s, a + b) == Exec(cfg, Exec(cfg, s, a), b)
    decreases |b|
  {
    if b == [] {
      assert a + b == a;
    } else {
      var m := |b| - 1;
      ExecConcat(cfg, s, a, b[..m]);
      assert (a + b)[..|a + b| - 1] == a + b[..m];
    }
  }

  lemma ExecOne(cfg: Config, s: State, a: Step)
    ensures Exec(cfg, s, [a]) == Next(cfg, s, a)
  {
    assert [a][..0] == [];
  }

  lemma ExecPair(cfg: Config, s: State, run: seq<Step>, a: Step, b: Step)
    ensures Exec(cfg, s, run + [a, b]) == Next(cfg, Next(cfg, Exec(cfg, s, run), a), b)
  {
    var one := run + [a];
    assert run + [a, b] == one + [b];
    assert Exec(cfg, s, one) == Next(cfg, Exec(cfg, s, run), a) by { ExecSnoc(cfg, s, run, a); }
    ExecSnoc(cfg, s, one, b);
  }

  lemma ExecThree(cfg: Config, s: State, a: Step, b: Step, c: Step)
    ensures Exec(cfg, s, [a, b, c]) == Next(cfg, Next(cfg, Next(cfg, s, a), b), c)
  {
    ExecPair(cfg, s, [a], b, c);
    assert [a] + [b, c] == [a, b, c];
    ExecOne(cfg, s, a);
  }

  /** A cluster at its declared limits and a controller that has never run. */
  predicate Initial(s: State) {
    s.pods == s.declared && (forall k :: k in s.declared ==> '_' !in k) &&
    s.ledger == map[] && s.acts == [] && s.throttled == map[] && s.lastActed == map[] &&
    s.patched == map[] && s.unsaved == map[] && s.unforgotten == {}
  }

  // ----- what it means to be lowered, recorded, lost -----

  predicate LoweredFrom(p: Resources, d: Resources) {
    d.limit.Some? && d.request.Some? && d.request.value < d.limit.value && p == Resources(d.request, d.request)
  }

  /** The live spec is the declared one, except that some limits were lowered to the request. */
  predicate ShapeOk(p: PodSpec, d: PodSpec) {
    p.Keys == d.Keys && forall c :: c in p ==> p[c] == d[c] || LoweredFrom(p[c], d[c])
  }

  predicate IsLowered(s: State, k: string, c: string) {
    k in s.pods && k in s.declared && c in s.pods[k] && c in s.declared[k] &&
    s.pods[k][c].limit != s.declared[k][c].limit
  }

  /** The record names pod k and holds the limit its owner declared, which is above the request. */
  predicate Fits(declared: map<string, PodSpec>, k: string, ns: string, pod: string, c: string, original: int) {
    k == PodKey(ns, pod) && ns != "" && pod != "" && k in declared && c in declared[k] &&
    declared[k][c].limit == Some(original) &&
    declared[k][c].request.Some? && declared[k][c].request.value < original
  }

  predicate FitsRecord(declared: map<string, PodSpec>, k: string, r: Record) {
    Fits(declared, k, r.ns, r.pod, r.container, r.original)
  }

  predicate FitsLowering(declared: map<string, PodSpec>, k: string, l: Lowering) {
    Fits(declared, k, l.ns, l.pod, l.container, l.original)
  }

  predicate Tracked(s: State, k: string, c: string) {
    (k in s.throttled && s.throttled[k].container == c) || (k in s.patched && s.patched[k].container == c)
  }

  predicate InLedger(s: State, k: string, c: string) {
    CmKey(k) in s.ledger && s.ledger[CmKey(k)].container == c
  }

  /** Containers lowered by the controller whose record a restart destroys. */
  function LostByRestart(cfg: Config, s: State): set<(string, string)> {
    set k, c | k in s.pods && c in s.pods[k] && IsLowered(s, k, c) && !(cfg.durable && InLedger(s, k, c)) :: (k, c)
  }

  function NextLost(cfg: Config, s: State, step: Step, lost: set<(string, string)>): set<(string, string)> {
    match step
    case Delete(k) => set p | p in lost && p.0 != k
    case Restart => LostByRestart(cfg, s)
    case _ => lost
  }

  /** The containers that are lowered and beyond recovery after a run. */
  function LostAfter(cfg: Config, s: State, steps: seq<Step>): set<(string, string)> {
    if steps == [] then {}
    else
      var before := steps[..|steps| - 1];
      NextLost(cfg, Exec(cfg, s, before), steps[|steps| - 1], LostAfter(cfg, s, before))
  }

  // ----- the invariant -----

  /** Every live pod has the shape of its declaration. */
  ghost predicate ShapesOf(pods: map<string, PodSpec>, declared: map<string, PodSpec>) {
    forall k :: k in pods ==> k in declared && ShapeOk(pods[k], declared[k])
  }

  /** Pod keys are built from host names. */
  ghost predicate CleanKeys(declared: map<string, PodSpec>) {
    forall k :: k in declared ==> '_' !in k
  }

  ghost predicate Shapes(s: State) {
    ShapesOf(s.pods, s.declared) && CleanKeys(s.declared) && s.unforgotten <= s.declared.Keys
  }

  ghost predicate FitAll(declared: map<string, PodSpec>, records: map<string, Record>) {
    forall k :: k in records ==> FitsRecord(declared, k, records[k])
  }

  ghost predicate FitLowerings(declared: map<string, PodSpec>, patched: map<string, Lowering>) {
    forall k :: k in patched ==> FitsLowering(declared, k, patched[k])
  }

  ghost predicate FitLedger(declared: map<string, PodSpec>, ledger: map<string, Record>) {
    forall ck :: ck in ledger ==>
      ck == CmKey(RecordKey(ledger[ck])) && FitsRecord(declared, RecordKey(ledger[ck]), ledger[ck])
  }

  ghost predicate RecordsFit(s: State) {
    FitAll(s.declared, s.throttled) && FitAll(s.declared, s.unsaved) && FitLowerings(s.declared, s.patched) &&
    FitLedger(s.declared, s.ledger)
  }

  /** A throttle in flight is the only claim on its pod. */
  ghost predicate Alone(patched: map<string, Lowering>, throttled: map<string, Record>, unsaved: map<string, Record>) {
    (forall k :: k in patched ==> k !in throttled && k !in unsaved) &&
    (forall k :: k in unsaved && k in throttled ==> unsaved[k] == throttled[k])
  }

  ghost predicate InFlightAlone(s: State) {
    Alone(s.patched, s.throttled, s.unsaved)
  }

  ghost predicate Accounted(s: State, lost: set<(string, string)>) {
    forall k, c :: IsLowered(s, k, c) ==> Tracked(s, k, c) || (k, c) in lost
  }

  ghost predicate BeyondRecovery(s: State, k: string, c: string) {
    IsLowered(s, k, c) && !Tracked(s, k, c) && !InLedger(s, k, c) &&
    (k in s.unsaved ==> s.unsaved[k].container != c)
  }

  ghost predicate LostExactly(s: State, lost: set<(string, string)>) {
    forall k, c :: (k, c) in lost ==> BeyondRecovery(s, k, c)
  }

  /** Shapes and records only. */
  ghost predicate Core(cfg: Config, s: State) {
    (!cfg.durable ==> s.ledger == map[]) && Shapes(s) && RecordsFit(s) && InFlightAlone(s)
  }

  ghost predicate Inv(cfg: Config, s: State, lost: set<(string, string)>) {
    Core(cfg, s) && Accounted(s, lost) && LostExactly(s, lost)
  }
}
