/** Restart safety of the throttle protocol over whole runs. */
module Safety {
  import opened Options
  import opened Identity
  import opened Targets
  import opened Protocol

  type Pairs = set<(string, string)>

  // ----- every step keeps the invariant -----

  lemma SetLimitShape(p: PodSpec, d: PodSpec, c: string, cpu: int)
    requires ShapeOk(p, d) && c in p
    requires Some(cpu) == d[c].limit || (d[c].limit.Some? && d[c].request == Some(cpu) && cpu < d[c].limit.value)
    ensures ShapeOk(p[c := p[c].(limit := Some(cpu))], d)
  {
  }

  // ----- maps of records -----

  lemma FitAllAdd(declared: map<string, PodSpec>, m: map<string, Record>, k: string, r: Record)
    requires FitAll(declared, m) && FitsRecord(declared, k, r)
    ensures FitAll(declared, m[k := r])
  {
  }

  lemma FitAllDrop(declared: map<string, PodSpec>, m: map<string, Record>, k: string)
    requires FitAll(declared, m)
    ensures FitAll(declared, m - {k})
  {
  }

  lemma FitLedgerAdd(declared: map<string, PodSpec>, m: map<string, Record>, k: string, r: Record)
    requires FitLedger(declared, m) && FitsRecord(declared, k, r)
    ensures FitLedger(declared, m[CmKey(k) := r])
  {
  }

  lemma FitLedgerDrop(declared: map<string, PodSpec>, m: map<string, Record>, ck: string)
    requires FitLedger(declared, m)
    ensures FitLedger(declared, m - {ck})
  {
  }

  /** Declarations agree on every pod a record is about. */
  ghost predicate SameFor(d: map<string, PodSpec>, d': map<string, PodSpec>, k: string) {
    k in d ==> k in d' && d'[k] == d[k]
  }

  lemma FitAllNew(d: map<string, PodSpec>, d': map<string, PodSpec>, m: map<string, Record>)
    requires FitAll(d, m) && forall k :: k in m ==> SameFor(d, d', k)
    ensures FitAll(d', m)
  {
  }

  lemma FitLoweringsNew(d: map<string, PodSpec>, d': map<string, PodSpec>, m: map<string, Lowering>)
    requires FitLowerings(d, m) && forall k :: k in m ==> SameFor(d, d', k)
    ensures FitLowerings(d', m)
  {
  }

  lemma FitLedgerNew(d: map<string, PodSpec>, d': map<string, PodSpec>, m: map<string, Record>)
    requires FitLedger(d, m) && forall k :: CmKey(k) in m ==> SameFor(d, d', k)
    ensures FitLedger(d', m)
  {
    forall ck | ck in m ensures FitsRecord(d', RecordKey(m[ck]), m[ck]) {
      assert SameFor(d, d', RecordKey(m[ck]));
    }
  }

  // ----- pods come and go -----

  /** Records do not mind a new pod that agrees with the declaration they were made under. */
  lemma RecordsFitNew(s: State, s': State)
    requires RecordsFit(s) && s' == s.(pods := s'.pods, declared := s'.declared)
    requires forall k :: HasRecord(s, k) ==> SameFor(s.declared, s'.declared, k)
    ensures RecordsFit(s')
  {
    FitAllNew(s.declared, s'.declared, s.throttled);
    FitAllNew(s.declared, s'.declared, s.unsaved);
    FitLoweringsNew(s.declared, s'.declared, s.patched);
    FitLedgerNew(s.declared, s'.declared, s.ledger);
  }

  lemma NewShapes(pods: map<string, PodSpec>, declared: map<string, PodSpec>, key: string, spec: PodSpec)
    requires ShapesOf(pods, declared) && CleanKeys(declared) && key !in pods && '_' !in key
    ensures ShapesOf(pods[key := spec], declared[key := spec]) && CleanKeys(declared[key := spec])
  {
  }

  lemma CoreCreate(cfg: Config, s: State, s': State, key: string, spec: PodSpec)
    requires Core(cfg, s) && key !in s.pods && '_' !in key
    requires HasRecord(s, key) ==> key in s.declared && s.declared[key] == spec
    requires s' == s.(pods := s.pods[key := spec], declared := s.declared[key := spec])
    ensures Core(cfg, s')
  {
    NewShapes(s.pods, s.declared, key, spec);
    RecordsFitNew(s, s');
  }

  lemma KeepsCreate(cfg: Config, s: State, lost: Pairs, ns: string, pod: string, spec: PodSpec)
    requires Inv(cfg, s, lost) && MayCreate(s, ns, pod, spec)
    ensures Inv(cfg, Next(cfg, s, Create(ns, pod, spec)), lost)
  {
    PodKeyClean(ns, pod);
    var s' := Next(cfg, s, Create(ns, pod, spec));
    CoreCreate(cfg, s, s', PodKey(ns, pod), spec);
    NewPodAccounted(s, s', lost, PodKey(ns, pod), spec);
  }

  lemma NewPodAccounted(s: State, s': State, lost: Pairs, key: string, spec: PodSpec)
    requires Accounted(s, lost) && LostExactly(s, lost) && key !in s.pods
    requires s' == s.(pods := s.pods[key := spec], declared := s.declared[key := spec])
    ensures Accounted(s', lost) && LostExactly(s', lost)
  {
    forall k, c | IsLowered(s', k, c) ensures Tracked(s', k, c) || (k, c) in lost {
      assert IsLowered(s, k, c);
    }
    forall k, c | (k, c) in lost ensures BeyondRecovery(s', k, c) {
      assert BeyondRecovery(s, k, c);
    }
  }

  lemma KeepsDelete(cfg: Config, s: State, lost: Pairs, key: string)
    requires Inv(cfg, s, lost)
    ensures Inv(cfg, Next(cfg, s, Delete(key)), NextLost(cfg, s, Delete(key), lost))
  {
    var s' := Next(cfg, s, Delete(key));
    var lost' := NextLost(cfg, s, Delete(key), lost);
    forall k, c | IsLowered(s', k, c) ensures Tracked(s', k, c) || (k, c) in lost' {
      assert IsLowered(s, k, c);
    }
    forall k, c | (k, c) in lost' ensures BeyondRecovery(s', k, c) {
      assert BeyondRecovery(s, k, c);
    }
  }

  /** A step that leaves pods alone keeps the accounting if it drops no track and adds no record
      that could bring a lost container back. */
  lemma SameLowered(s: State, s': State, lost: Pairs)
    requires Accounted(s, lost) && LostExactly(s, lost)
    requires s'.pods == s.pods && s'.declared == s.declared
    requires forall k, c :: Tracked(s, k, c) ==> Tracked(s', k, c)
    requires forall k, c :: BeyondRecovery(s, k, c) ==> BeyondRecovery(s', k, c)
    ensures Accounted(s', lost) && LostExactly(s', lost)
  {
    forall k, c | IsLowered(s', k, c) ensures Tracked(s', k, c) || (k, c) in lost {
      assert IsLowered(s, k, c);
    }
  }

  /** Lowering touches a container that was at its declared limit. */
  lemma RoomMeansDeclared(cfg: Config, s: State, k: string, c: string)
    requires Core(cfg, s) && Room(s.pods, k, c)
    ensures s.pods[k][c] == s.declared[k][c]
  {
    assert !LoweredFrom(s.pods[k][c], s.declared[k][c]);
  }

  lemma LowerShapes(pods: map<string, PodSpec>, declared: map<string, PodSpec>, k: string, c: string, cpu: int)
    requires ShapesOf(pods, declared) && k in pods && c in pods[k] && c in declared[k]
    requires var d := declared[k][c];
             Some(cpu) == d.limit || (d.limit.Some? && d.request == Some(cpu) && cpu < d.limit.value)
    ensures ShapesOf(SetLimit(pods, k, c, cpu), declared)
  {
    SetLimitShape(pods[k], declared[k], c, cpu);
  }

  lemma LowerFits(cfg: Config, s: State, t: Target)
    requires Core(cfg, s) && Genuine(Parts(t.ns, t.pod, t.container)) && Room(s.pods, t.Key(), t.container)
    ensures FitLowerings(s.declared, Lower(s, t).patched)
  {
    RoomMeansDeclared(cfg, s, t.Key(), t.container);
  }

  lemma LowerAlone(s: State, t: Target)
    requires InFlightAlone(s) && Free(s, t.Key()) && t.Key() !in s.throttled && Room(s.pods, t.Key(), t.container)
    ensures InFlightAlone(Lower(s, t))
  {
  }

  lemma CoreLower(cfg: Config, s: State, t: Target)
    requires Core(cfg, s) && Free(s, t.Key()) && Genuine(Parts(t.ns, t.pod, t.container))
    requires Room(s.pods, t.Key(), t.container) && t.Key() !in s.throttled
    ensures Core(cfg, Lower(s, t))
  {
    RoomMeansDeclared(cfg, s, t.Key(), t.container);
    LowerShapes(s.pods, s.declared, t.Key(), t.container, s.pods[t.Key()][t.container].request.value);
    LowerFits(cfg, s, t);
    LowerAlone(s, t);
  }

  lemma SameLimits(s: State, s': State, k: string, c: string)
    requires s'.declared == s.declared && s'.pods == s.pods
    ensures IsLowered(s', k, c) <==> IsLowered(s, k, c)
  {
  }

  /** Setting one container's limit decides whether it is lowered, and touches no other. */
  lemma LimitSet(s: State, s': State, key: string, container: string, cpu: int, k: string, c: string)
    requires key in s.pods && container in s.pods[key] && s'.declared == s.declared
    requires s'.pods == SetLimit(s.pods, key, container, cpu)
    requires key in s.declared && container in s.declared[key]
    ensures IsLowered(s', k, c) <==>
            if k == key && c == container then Some(cpu) != s.declared[k][c].limit else IsLowered(s, k, c)
  {
  }

  lemma LowerLowers(cfg: Config, s: State, t: Target, k: string, c: string)
    requires Core(cfg, s) && Room(s.pods, t.Key(), t.container)
    ensures IsLowered(Lower(s, t), k, c) <==> IsLowered(s, k, c) || (k == t.Key() && c == t.container)
    ensures IsLowered(s, k, c) ==> k != t.Key() || c != t.container
  {
    RoomMeansDeclared(cfg, s, t.Key(), t.container);
  }

  lemma LowerTracks(s: State, t: Target, k: string, c: string)
    requires Room(s.pods, t.Key(), t.container) && Free(s, t.Key())
    ensures Tracked(Lower(s, t), k, c) <==> Tracked(s, k, c) || (k == t.Key() && c == t.container)
  {
  }

  lemma KeepsLower(cfg: Config, s: State, lost: Pairs, t: Target)
    requires Inv(cfg, s, lost) && Free(s, t.Key()) && Genuine(Parts(t.ns, t.pod, t.container))
    requires Room(s.pods, t.Key(), t.container) && t.Key() !in s.throttled
    ensures Inv(cfg, Lower(s, t), lost)
  {
    CoreLower(cfg, s, t);
    var s' := Lower(s, t);
    forall k, c | IsLowered(s', k, c) ensures Tracked(s', k, c) || (k, c) in lost {
      LowerLowers(cfg, s, t, k, c);
      LowerTracks(s, t, k, c);
    }
    forall k, c | (k, c) in lost ensures BeyondRecovery(s', k, c) {
      assert BeyondRecovery(s, k, c);
      LowerLowers(cfg, s, t, k, c);
      LowerTracks(s, t, k, c);
    }
  }

  lemma KeepsActOn(cfg: Config, s: State, lost: Pairs, t: Target, api: ActOutcome)
    requires Inv(cfg, s, lost) && Free(s, t.Key()) && Genuine(Parts(t.ns, t.pod, t.container))
    ensures Inv(cfg, ActOn(cfg, s, t, api), lost)
  {
    var s' := ActOn(cfg, s, t, api);
    if s'.patched != s.patched {
      KeepsLower(cfg, s, lost, t);
    } else {
      MemoryOnly(cfg, s, s', lost);
    }
  }

  /** Clock, cooldown map and action log do not matter to the invariant. */
  lemma MemoryOnly(cfg: Config, s: State, s': State, lost: Pairs)
    requires Inv(cfg, s, lost)
    requires s' == s.(now := s'.now, lastActed := s'.lastActed, acts := s'.acts)
    ensures Inv(cfg, s', lost)
  {
    SameLowered(s, s', lost);
  }

  lemma KeepAlone(cfg: Config, s: State, key: string)
    requires InFlightAlone(s)
    ensures InFlightAlone(KeepStep(cfg, s, key))
  {
  }

  lemma KeepFits(cfg: Config, s: State, key: string)
    requires RecordsFit(s) && key in s.patched
    ensures var s' := KeepStep(cfg, s, key);
            FitAll(s.declared, s'.throttled) && FitAll(s.declared, s'.unsaved) && FitLowerings(s.declared, s'.patched)
  {
    var l := s.patched[key];
    var r := Record(l.ns, l.pod, l.container, l.original, s.now + cfg.restoreAfter);
    assert FitsLowering(s.declared, key, l);
    FitAllAdd(s.declared, s.throttled, key, r);
    FitAllAdd(s.declared, s.unsaved, key, r);
  }

  lemma CoreKeep(cfg: Config, s: State, key: string)
    requires Core(cfg, s)
    ensures Core(cfg, KeepStep(cfg, s, key))
  {
    if key in s.patched {
      KeepFits(cfg, s, key);
      KeepAlone(cfg, s, key);
    }
  }

  lemma KeepTracks(cfg: Config, s: State, key: string, k: string, c: string)
    requires InFlightAlone(s)
    ensures Tracked(KeepStep(cfg, s, key), k, c) <==> Tracked(s, k, c)
    ensures BeyondRecovery(s, k, c) ==> BeyondRecovery(KeepStep(cfg, s, key), k, c)
  {
  }

  lemma KeepsKeep(cfg: Config, s: State, lost: Pairs, key: string)
    requires Inv(cfg, s, lost)
    ensures Inv(cfg, KeepStep(cfg, s, key), lost)
  {
    CoreKeep(cfg, s, key);
    forall k, c { KeepTracks(cfg, s, key, k, c); }
    SameLowered(s, KeepStep(cfg, s, key), lost);
  }

  lemma CorePersist(cfg: Config, s: State, key: string, ok: bool)
    requires Core(cfg, s)
    ensures Core(cfg, PersistStep(cfg, s, key, ok))
  {
    if key in s.unsaved {
      FitLedgerAdd(s.declared, s.ledger, key, s.unsaved[key]);
      FitAllDrop(s.declared, s.unsaved, key);
      assert InFlightAlone(PersistStep(cfg, s, key, ok));
    }
  }

  lemma PersistBeyond(cfg: Config, s: State, key: string, ok: bool, k: string, c: string)
    requires Core(cfg, s) && BeyondRecovery(s, k, c)
    ensures BeyondRecovery(PersistStep(cfg, s, key, ok), k, c)
  {
    if key in s.unsaved && CmKey(k) == CmKey(key) {
      CmKeyInjective(k, key);
    }
  }

  lemma KeepsPersist(cfg: Config, s: State, lost: Pairs, key: string, ok: bool)
    requires Inv(cfg, s, lost)
    ensures Inv(cfg, PersistStep(cfg, s, key, ok), lost)
  {
    CorePersist(cfg, s, key, ok);
    var s' := PersistStep(cfg, s, key, ok);
    forall k, c | BeyondRecovery(s, k, c) ensures BeyondRecovery(s', k, c) {
      PersistBeyond(cfg, s, key, ok, k, c);
    }
    SameLowered(s, s', lost);
  }

  lemma CoreRestore(cfg: Config, s: State, key: string, ok: bool)
    requires Core(cfg, s)
    ensures Core(cfg, RestoreStep(s, key, ok))
  {
    if key in s.throttled {
      var r := s.throttled[key];
      assert FitsRecord(s.declared, key, r);
      if key in s.pods {
        LowerShapes(s.pods, s.declared, key, r.container, r.original);
      }
      FitAllDrop(s.declared, s.throttled, key);
      assert InFlightAlone(RestoreStep(s, key, ok));
    }
  }

  /** The restore puts this container's recorded limit back. */
  predicate Lifts(s: State, key: string, ok: bool, k: string, c: string) {
    ok && key == k && k in s.throttled && s.throttled[k].container == c && s.throttled[k].restoreAt < s.now
  }

  /** What a due restore of a live pod does to it. */
  lemma RestorePods(cfg: Config, s: State, key: string)
    requires Core(cfg, s) && key in s.throttled && s.throttled[key].restoreAt < s.now && key in s.pods
    ensures var r := s.throttled[key];
            && FitsRecord(s.declared, key, r) && r.container in s.pods[key]
            && RestoreStep(s, key, true).pods == SetLimit(s.pods, key, r.container, r.original)
  {
    assert FitsRecord(s.declared, key, s.throttled[key]);
    assert ShapeOk(s.pods[key], s.declared[key]);
  }

  /** A restore that is not due, fails or finds the pod gone leaves all pods alone. */
  lemma RestoreNothing(s: State, key: string, ok: bool)
    requires !ok || key !in s.throttled || s.now <= s.throttled[key].restoreAt || key !in s.pods
    ensures RestoreStep(s, key, ok).pods == s.pods
  {
  }

  lemma RestoreDeclared(s: State, key: string, ok: bool)
    ensures RestoreStep(s, key, ok).declared == s.declared
  {
  }

  /** A restore lifts one container and touches no other. */
  lemma RestoreLowers(cfg: Config, s: State, key: string, ok: bool, k: string, c: string)
    requires Core(cfg, s)
    ensures IsLowered(RestoreStep(s, key, ok), k, c) <==> IsLowered(s, k, c) && !Lifts(s, key, ok, k, c)
  {
    var s' := RestoreStep(s, key, ok);
    RestoreDeclared(s, key, ok);
    if !ok || key !in s.throttled || s.now <= s.throttled[key].restoreAt || key !in s.pods {
      RestoreNothing(s, key, ok);
      SameLimits(s, s', k, c);
    } else {
      RestorePods(cfg, s, key);
      LimitSet(s, s', key, s.throttled[key].container, s.throttled[key].original, k, c);
    }
  }

  lemma RestoreTracks(s: State, key: string, ok: bool, k: string, c: string)
    ensures Tracked(RestoreStep(s, key, ok), k, c) ==> Tracked(s, k, c)
    ensures Tracked(s, k, c) && !Lifts(s, key, ok, k, c) ==> Tracked(RestoreStep(s, key, ok), k, c)
  {
  }

  lemma RestoreBeyond(cfg: Config, s: State, key: string, ok: bool, k: string, c: string)
    requires Core(cfg, s) && BeyondRecovery(s, k, c)
    ensures BeyondRecovery(RestoreStep(s, key, ok), k, c)
  {
    RestoreLowers(cfg, s, key, ok, k, c);
    RestoreTracks(s, key, ok, k, c);
  }

  lemma KeepsRestore(cfg: Config, s: State, lost: Pairs, key: string, ok: bool)
    requires Inv(cfg, s, lost)
    ensures Inv(cfg, RestoreStep(s, key, ok), lost)
  {
    CoreRestore(cfg, s, key, ok);
    var s' := RestoreStep(s, key, ok);
    forall k, c | IsLowered(s', k, c) ensures Tracked(s', k, c) || (k, c) in lost {
      RestoreLowers(cfg, s, key, ok, k, c);
      RestoreTracks(s, key, ok, k, c);
    }
    forall k, c | (k, c) in lost ensures BeyondRecovery(s', k, c) {
      RestoreBeyond(cfg, s, key, ok, k, c);
    }
  }

  lemma CoreForget(cfg: Config, s: State, key: string, ok: bool)
    requires Core(cfg, s)
    ensures Core(cfg, ForgetStep(cfg, s, key, ok))
  {
    if key in s.unforgotten {
      FitLedgerDrop(s.declared, s.ledger, CmKey(key));
      assert !cfg.durable ==> ForgetStep(cfg, s, key, ok).ledger == map[];
    }
  }

  lemma ForgetFrame(cfg: Config, s: State, key: string, ok: bool)
    ensures var s' := ForgetStep(cfg, s, key, ok);
            && s' == s.(ledger := s'.ledger, unforgotten := s'.unforgotten)
            && (s'.ledger == s.ledger || s'.ledger == s.ledger - {CmKey(key)})
  {
  }

  lemma KeepsLessLedger(cfg: Config, s: State, s': State, lost: Pairs, ck: string)
    requires Inv(cfg, s, lost) && Core(cfg, s') && s' == s.(ledger := s'.ledger, unforgotten := s'.unforgotten)
    requires s'.ledger == s.ledger || s'.ledger == s.ledger - {ck}
    ensures Inv(cfg, s', lost)
  {
    SameLowered(s, s', lost);
  }

  lemma KeepsForget(cfg: Config, s: State, lost: Pairs, key: string, ok: bool)
    requires Inv(cfg, s, lost)
    ensures Inv(cfg, ForgetStep(cfg, s, key, ok), lost)
  {
    CoreForget(cfg, s, key, ok);
    ForgetFrame(cfg, s, key, ok);
    KeepsLessLedger(cfg, s, ForgetStep(cfg, s, key, ok), lost, CmKey(key));
  }

  /** Recover finds a record for pod k exactly when the ledger holds one under its data key. */
  lemma RecoverFinds(s: State, k: string)
    requires Shapes(s) && RecordsFit(s) && k in s.declared
    ensures k in Recovered(s.ledger) <==> CmKey(k) in s.ledger
    ensures k in Recovered(s.ledger) ==> Recovered(s.ledger)[k] == s.ledger[CmKey(k)]
  {
    if CmKey(k) in s.ledger {
      var r := s.ledger[CmKey(k)];
      CmKeyInjective(k, RecordKey(r));
      assert RecordKey(r) in RecoveredKeys(s.ledger);
    }
  }

  lemma RecoveredFit(s: State, k: string)
    requires RecordsFit(s) && k in Recovered(s.ledger)
    ensures FitsRecord(s.declared, k, Recovered(s.ledger)[k])
  {
  }

  lemma CoreRestart(cfg: Config, s: State)
    requires Core(cfg, s)
    ensures Core(cfg, RestartStep(cfg, s))
  {
    var s' := RestartStep(cfg, s);
    forall k | k in s'.throttled ensures FitsRecord(s'.declared, k, s'.throttled[k]) {
      RecoveredFit(s, k);
    }
  }

  lemma KeepsRestart(cfg: Config, s: State, lost: Pairs)
    requires Inv(cfg, s, lost)
    ensures Inv(cfg, RestartStep(cfg, s), LostByRestart(cfg, s))
  {
    CoreRestart(cfg, s);
    var s' := RestartStep(cfg, s);
    var lost' := LostByRestart(cfg, s);
    forall k, c | IsLowered(s', k, c) ensures Tracked(s', k, c) || (k, c) in lost' {
      RecoverFinds(s, k);
    }
    forall k, c | (k, c) in lost' ensures BeyondRecovery(s', k, c) {
      RecoverFinds(s, k);
    }
  }

  lemma NextKeeps(cfg: Config, s: State, lost: Pairs, step: Step)
    requires Inv(cfg, s, lost)
    ensures Inv(cfg, Next(cfg, s, step), NextLost(cfg, s, step, lost))
  {
    match step {
      case Tick(d) =>
        MemoryOnly(cfg, s, Next(cfg, s, step), lost);
      case Create(ns, pod, spec) =>
        if MayCreate(s, ns, pod, spec) { KeepsCreate(cfg, s, lost, ns, pod, spec); }
      case Delete(key) => KeepsDelete(cfg, s, lost, key);
      case Act(snap, i, api) =>
        var ts := TargetsOf(snap, cfg.gate);
        if i < |ts| && Free(s, ts[i].Key()) {
          TargetsGenuine(snap, cfg.gate, ts[i]);
          KeepsActOn(cfg, s, lost, ts[i], api);
        }
      case Keep(key) => KeepsKeep(cfg, s, lost, key);
      case Persist(key, ok) => KeepsPersist(cfg, s, lost, key, ok);
      case Restore(key, ok) => KeepsRestore(cfg, s, lost, key, ok);
      case Forget(key, ok) => KeepsForget(cfg, s, lost, key, ok);
      case Restart => KeepsRestart(cfg, s, lost);
    }
  }

  lemma InitialInv(cfg: Config, s: State)
    requires Initial(s)
    ensures Inv(cfg, s, {})
  {
  }

  /** The invariant holds in every state of every run, whatever fails and whenever the process dies. */
  lemma {:induction false} RunKeeps(cfg: Config, s: State, steps: seq<Step>)
    requires Initial(s)
    ensures Inv(cfg, Exec(cfg, s, steps), LostAfter(cfg, s, steps))
    decreases |steps|
  {
    if steps == [] {
      InitialInv(cfg, s);
    } else {
      var before := steps[..|steps| - 1];
      RunKeeps(cfg, s, before);
      NextKeeps(cfg, Exec(cfg, s, before), LostAfter(cfg, s, before), steps[|steps| - 1]);
    }
  }

  /** The controller holds the container's declared limit, in its record or in the call in flight. */
  predicate OnRecord(s: State, k: string, c: string) {
    k in s.declared && c in s.declared[k] &&
    (|| (k in s.throttled && s.throttled[k].container == c && s.declared[k][c].limit == Some(s.throttled[k].original))
     || (k in s.patched && s.patched[k].container == c && s.declared[k][c].limit == Some(s.patched[k].original)))
  }

  /** The original limit is never lost: in every state of every run each record, in memory or in the
      ledger, holds the limit the owner declared (never an already-lowered one), and every lowered
      container of an existing pod has such a record in memory or is one a restart orphaned. */
  lemma OriginalNeverLost(cfg: Config, s0: State, steps: seq<Step>)
    requires Initial(s0)
    ensures var s := Exec(cfg, s0, steps);
            && (forall k :: k in s.throttled ==> FitsRecord(s.declared, k, s.throttled[k]))
            && (forall ck :: ck in s.ledger ==> FitsRecord(s.declared, RecordKey(s.ledger[ck]), s.ledger[ck]))
            && (forall k, c :: IsLowered(s, k, c) ==>
                  OnRecord(s, k, c) || (k, c) in LostAfter(cfg, s0, steps))
  {
    RunKeeps(cfg, s0, steps);
    var s := Exec(cfg, s0, steps);
    forall k, c | IsLowered(s, k, c) && (k, c) !in LostAfter(cfg, s0, steps)
      ensures OnRecord(s, k, c)
    {
      assert Tracked(s, k, c);
    }
  }

  // ----- which restarts are safe -----

  /** The exact window: a restart keeps the record of a lowered container if and only if the ledger
      already holds it. */
  lemma RestartKeepsExactly(cfg: Config, s: State, lost: Pairs, k: string, c: string)
    requires Inv(cfg, s, lost) && cfg.durable && IsLowered(s, k, c)
    ensures var s' := RestartStep(cfg, s);
            (k in s'.throttled && s'.throttled[k].container == c) <==> InLedger(s, k, c)
    ensures (k, c) in LostByRestart(cfg, s) <==> !InLedger(s, k, c)
  {
    RecoverFinds(s, k);
  }

  lemma LostStays(cfg: Config, s: State, lost: Pairs, step: Step, k: string, c: string)
    requires Inv(cfg, s, lost) && (k, c) in lost && step != Delete(k)
    ensures (k, c) in NextLost(cfg, s, step, lost)
  {
    assert BeyondRecovery(s, k, c);
  }

  /** Nothing the controller does later brings a lost container back: it stays lowered in every
      continuation until the pod itself is deleted. */
  lemma {:induction false} LostForGood(
    cfg: Config, s0: State, steps: seq<Step>, more: seq<Step>, k: string, c: string)
    requires Initial(s0) && (k, c) in LostAfter(cfg, s0, steps)
    requires Delete(k) !in more
    ensures (k, c) in LostAfter(cfg, s0, steps + more)
    ensures IsLowered(Exec(cfg, s0, steps + more), k, c)
    decreases |more|
  {
    if more == [] {
      assert steps + more == steps;
    } else {
      var n := |more| - 1;
      LostForGood(cfg, s0, steps, more[..n], k, c);
      var before := steps + more[..n];
      assert (steps + more)[..|steps + more| - 1] == before;
      RunKeeps(cfg, s0, before);
      assert more[n] in more;
      LostStays(cfg, Exec(cfg, s0, before), LostAfter(cfg, s0, before), more[n], k, c);
    }
    RunKeeps(cfg, s0, steps + more);
    assert BeyondRecovery(Exec(cfg, s0, steps + more), k, c);
  }
}
