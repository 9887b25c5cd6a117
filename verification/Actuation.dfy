/** What the controller does to the cluster over whole runs: the ledger mirrors its memory, limits
    come back, actions respect the cooldown, and every limit change is authorised. */
module Actuation {
  import opened Options
  import opened Identity
  import opened Targets
  import opened Protocol
  import opened Safety
  import opened Exposure

  // ----- the ledger mirrors memory -----

  /** Ledger writes succeed and calls on one pod do not overtake each other. */
  ghost predicate Orderly(cfg: Config, s: State, step: Step) {
    match step
    case Act(_, _, _) => forall k, c :: Lowers(cfg, s, step, k, c) ==> k !in s.unforgotten
    case Persist(_, ok) => ok
    case Restore(k, _) => k !in s.unsaved
    case Forget(_, ok) => ok
    case _ => true
  }

  ghost predicate AllOrderly(cfg: Config, s: State, steps: seq<Step>) {
    steps == [] ||
    var before := steps[..|steps| - 1];
    AllOrderly(cfg, s, before) && Orderly(cfg, Exec(cfg, s, before), steps[|steps| - 1])
  }

  /** Every record in memory is in the ledger, unless its write is still in flight. */
  ghost predicate Saved(s: State) {
    forall k :: k in s.throttled ==>
      if k in s.unsaved then s.unsaved[k] == s.throttled[k]
      else CmKey(k) in s.ledger && s.ledger[CmKey(k)] == s.throttled[k]
  }

  /** A pod the ledger may name: recorded and written, or being forgotten. */
  predicate Expected(s: State, k: string) {
    (k in s.throttled && k !in s.unsaved) || k in s.unforgotten
  }

  ghost predicate NoStale(s: State) {
    forall ck :: ck in s.ledger ==> Expected(s, RecordKey(s.ledger[ck]))
  }

  ghost predicate UnsavedRecorded(s: State) {
    forall k :: k in s.unsaved ==> k in s.throttled
  }

  ghost predicate Mirror(s: State) {
    Saved(s) && NoStale(s) && UnsavedRecorded(s) && ForgetsSettled(s)
  }

  lemma SavedPersist(cfg: Config, s: State, key: string)
    requires Core(cfg, s) && cfg.durable && Mirror(s)
    ensures Saved(PersistStep(cfg, s, key, true))
  {
    if key in s.unsaved {
      var s' := PersistStep(cfg, s, key, true);
      forall k | k in s'.throttled && k !in s'.unsaved
        ensures CmKey(k) in s'.ledger && s'.ledger[CmKey(k)] == s'.throttled[k]
      {
        assert FitsRecord(s.declared, k, s.throttled[k]) && FitsRecord(s.declared, key, s.unsaved[key]);
        if CmKey(k) == CmKey(key) { CmKeyInjective(k, key); }
      }
    }
  }

  lemma NoStalePersist(cfg: Config, s: State, key: string)
    requires Core(cfg, s) && Mirror(s)
    ensures NoStale(PersistStep(cfg, s, key, true))
  {
    if key in s.unsaved {
      var s' := PersistStep(cfg, s, key, true);
      forall ck | ck in s'.ledger ensures Expected(s', RecordKey(s'.ledger[ck])) {
        if ck == CmKey(key) && cfg.durable {
          assert FitsRecord(s.declared, key, s.unsaved[key]);
        } else {
          assert Expected(s, RecordKey(s.ledger[ck]));
        }
      }
    }
  }

  lemma MirrorPersist(cfg: Config, s: State, key: string)
    requires Core(cfg, s) && cfg.durable && Mirror(s)
    ensures Mirror(PersistStep(cfg, s, key, true))
  {
    SavedPersist(cfg, s, key);
    NoStalePersist(cfg, s, key);
  }

  lemma SavedForget(cfg: Config, s: State, key: string)
    requires Core(cfg, s) && Mirror(s)
    ensures Saved(ForgetStep(cfg, s, key, true))
  {
    if key in s.unforgotten {
      var s' := ForgetStep(cfg, s, key, true);
      forall k | k in s'.throttled && k !in s'.unsaved
        ensures CmKey(k) in s'.ledger && s'.ledger[CmKey(k)] == s'.throttled[k]
      {
        assert FitsRecord(s.declared, k, s.throttled[k]);
        if CmKey(k) == CmKey(key) { CmKeyInjective(k, key); }
      }
    }
  }

  lemma NoStaleForget(cfg: Config, s: State, key: string)
    requires Core(cfg, s) && cfg.durable && NoStale(s)
    ensures NoStale(ForgetStep(cfg, s, key, true))
  {
    if key in s.unforgotten {
      var s' := ForgetStep(cfg, s, key, true);
      forall ck | ck in s'.ledger ensures Expected(s', RecordKey(s'.ledger[ck])) {
        assert Expected(s, RecordKey(s.ledger[ck]));
        assert ck == CmKey(RecordKey(s.ledger[ck])) && ck != CmKey(key);
      }
    }
  }

  lemma MirrorForget(cfg: Config, s: State, key: string)
    requires Core(cfg, s) && cfg.durable && Mirror(s)
    ensures Mirror(ForgetStep(cfg, s, key, true))
  {
    SavedForget(cfg, s, key);
    NoStaleForget(cfg, s, key);
    ForgetFrame(cfg, s, key, true);
  }

  lemma MirrorRestart(cfg: Config, s: State)
    requires Core(cfg, s) && cfg.durable
    ensures Mirror(RestartStep(cfg, s))
  {
    var s' := RestartStep(cfg, s);
    forall ck | ck in s.ledger ensures Expected(s', RecordKey(s.ledger[ck])) {
      assert FitsRecord(s.declared, RecordKey(s.ledger[ck]), s.ledger[ck]);
      RecoverFinds(s, RecordKey(s.ledger[ck]));
    }
  }

  /** Nothing the mirror speaks of changed. */
  lemma MirrorSame(s: State, s': State)
    requires Mirror(s) && s'.throttled == s.throttled && s'.unsaved == s.unsaved && s'.ledger == s.ledger
    requires s'.unforgotten == s.unforgotten && ForgetsSettled(s')
    ensures Mirror(s')
  {
    forall ck | ck in s'.ledger ensures Expected(s', RecordKey(s'.ledger[ck])) {
      assert Expected(s, RecordKey(s.ledger[ck]));
    }
  }

  /** An action touches neither records nor ledger. */
  lemma ActFrame(cfg: Config, s: State, t: Target, api: ActOutcome)
    ensures var s' := ActOn(cfg, s, t, api);
            && s'.throttled == s.throttled && s'.unsaved == s.unsaved && s'.ledger == s.ledger
            && s'.unforgotten == s.unforgotten
  {
  }

  lemma MirrorActOn(cfg: Config, s: State, t: Target, api: ActOutcome)
    requires Mirror(s) && Free(s, t.Key())
    requires WillLower(cfg, s, t) && api.getOk && api.patchOk ==> t.Key() !in s.unforgotten
    ensures Mirror(ActOn(cfg, s, t, api))
  {
    ActFrame(cfg, s, t, api);
    SettledActOn(cfg, s, t, api);
    MirrorSame(s, ActOn(cfg, s, t, api));
  }

  lemma NoStaleKeep(cfg: Config, s: State, key: string)
    requires InFlightAlone(s) && NoStale(s) && ForgetsSettled(s)
    ensures NoStale(KeepStep(cfg, s, key))
  {
    if key in s.patched {
      var s' := KeepStep(cfg, s, key);
      forall ck | ck in s'.ledger ensures Expected(s', RecordKey(s'.ledger[ck])) {
        assert Expected(s, RecordKey(s.ledger[ck]));
      }
    }
  }

  lemma SavedKeep(cfg: Config, s: State, key: string)
    requires Saved(s) && UnsavedRecorded(s)
    ensures Saved(KeepStep(cfg, s, key)) && UnsavedRecorded(KeepStep(cfg, s, key))
  {
  }

  lemma SettledKeep(cfg: Config, s: State, key: string)
    requires ForgetsSettled(s)
    ensures ForgetsSettled(KeepStep(cfg, s, key))
  {
  }

  lemma MirrorKeep(cfg: Config, s: State, key: string)
    requires Core(cfg, s) && Mirror(s)
    ensures Mirror(KeepStep(cfg, s, key))
  {
    SavedKeep(cfg, s, key);
    NoStaleKeep(cfg, s, key);
    SettledKeep(cfg, s, key);
  }

  /** A restore that does anything moves one key from the records to the forgets. */
  lemma RestoreFrame(s: State, key: string, ok: bool)
    ensures var s' := RestoreStep(s, key, ok);
            && s'.ledger == s.ledger && s'.unsaved == s.unsaved && s'.patched == s.patched && s'.now == s.now
            && ((s'.throttled == s.throttled && s'.unforgotten == s.unforgotten) ||
                (s'.throttled == s.throttled - {key} && s'.unforgotten == s.unforgotten + {key} && key in s.throttled))
  {
  }

  lemma MirrorMoves(s: State, s': State, key: string)
    requires Mirror(s) && InFlightAlone(s) && key in s.throttled && key !in s.unsaved
    requires s'.ledger == s.ledger && s'.unsaved == s.unsaved && s'.patched == s.patched
    requires s'.throttled == s.throttled - {key} && s'.unforgotten == s.unforgotten + {key}
    ensures Mirror(s')
  {
    forall ck | ck in s'.ledger ensures Expected(s', RecordKey(s'.ledger[ck])) {
      assert Expected(s, RecordKey(s.ledger[ck]));
    }
  }

  lemma MirrorRestore(cfg: Config, s: State, key: string, ok: bool)
    requires Core(cfg, s) && Mirror(s) && key !in s.unsaved
    ensures Mirror(RestoreStep(s, key, ok))
  {
    var s' := RestoreStep(s, key, ok);
    RestoreFrame(s, key, ok);
    if s'.throttled == s.throttled && s'.unforgotten == s.unforgotten {
      MirrorSame(s, s');
    } else {
      MirrorMoves(s, s', key);
    }
  }

  lemma MirrorAct(cfg: Config, s: State, snap: Snapshot, i: nat, api: ActOutcome)
    requires Mirror(s) && Orderly(cfg, s, Act(snap, i, api))
    ensures Mirror(Next(cfg, s, Act(snap, i, api)))
  {
    var ts := TargetsOf(snap, cfg.gate);
    if i < |ts| && Free(s, ts[i].Key()) {
      assert Lowers(cfg, s, Act(snap, i, api), ts[i].Key(), ts[i].container) ==> ts[i].Key() !in s.unforgotten;
      MirrorActOn(cfg, s, ts[i], api);
    }
  }

  /** Time and pods do not matter to the mirror. */
  lemma MirrorWorld(cfg: Config, s: State, step: Step)
    requires Mirror(s) && (step.Tick? || step.Create? || step.Delete?)
    ensures Mirror(Next(cfg, s, step))
  {
    MirrorSame(s, Next(cfg, s, step));
  }

  lemma MirrorNext(cfg: Config, s: State, step: Step)
    requires Core(cfg, s) && cfg.durable && Mirror(s) && Orderly(cfg, s, step)
    ensures Mirror(Next(cfg, s, step))
  {
    match step {
      case Act(snap, i, api) => MirrorAct(cfg, s, snap, i, api);
      case Keep(key) => MirrorKeep(cfg, s, key);
      case Persist(key, ok) => MirrorPersist(cfg, s, key);
      case Restore(key, ok) => MirrorRestore(cfg, s, key, ok);
      case Forget(key, ok) => MirrorForget(cfg, s, key);
      case Restart => MirrorRestart(cfg, s);
      case _ => MirrorWorld(cfg, s, step);
    }
  }

  /** Ledger round trip: after any run of successful persist and forget writes, when no call is in
      flight, Recover rebuilds exactly the in-memory map. */
  lemma {:induction false} LedgerRoundTrip(cfg: Config, s0: State, steps: seq<Step>)
    requires Initial(s0) && cfg.durable && AllOrderly(cfg, s0, steps)
    ensures Mirror(Exec(cfg, s0, steps))
    ensures var s := Exec(cfg, s0, steps);
            s.unsaved == map[] && s.unforgotten == {} ==> Recovered(s.ledger) == s.throttled
    decreases |steps|
  {
    var s := Exec(cfg, s0, steps);
    if steps != [] {
      var before := steps[..|steps| - 1];
      LedgerRoundTrip(cfg, s0, before);
      RunKeeps(cfg, s0, before);
      MirrorNext(cfg, Exec(cfg, s0, before), steps[|steps| - 1]);
    }
    RunKeeps(cfg, s0, steps);
    if s.unsaved == map[] && s.unforgotten == {} {
      MirrorSettled(cfg, s);
    }
  }

  lemma MirrorSettled(cfg: Config, s: State)
    requires Core(cfg, s) && Mirror(s) && s.unsaved == map[] && s.unforgotten == {}
    ensures Recovered(s.ledger) == s.throttled
  {
    forall k | k in s.throttled ensures k in Recovered(s.ledger) && Recovered(s.ledger)[k] == s.throttled[k] {
      RecoverFinds(s, k);
    }
  }

  // ----- limits come back -----

  /** The steps restoreDue takes for a list of due pods. */
  function RestoreRun(keys: seq<string>, patchOk: string -> bool, forgetOk: string -> bool): seq<Step> {
    if keys == [] then []
    else
      var k := keys[|keys| - 1];
      RestoreRun(keys[..|keys| - 1], patchOk, forgetOk) + [Restore(k, patchOk(k)), Forget(k, forgetOk(k))]
  }

  /** That is, for each of them in turn, a restore and then a forget. */
  lemma {:induction false} RestoreRunSteps(
    keys: seq<string>, patchOk: string -> bool, forgetOk: string -> bool, i: nat)
    requires i < |keys|
    ensures var run := RestoreRun(keys, patchOk, forgetOk);
            |run| == 2 * |keys| && run[2 * i] == Restore(keys[i], patchOk(keys[i])) &&
            run[2 * i + 1] == Forget(keys[i], forgetOk(keys[i]))
    decreases |keys|
  {
    var n := |keys| - 1;
    if n > 0 {
      RestoreRunSteps(keys[..n], patchOk, forgetOk, if i < n then i else 0);
    }
  }

  lemma RestoreShape(cfg: Config, s: State, k: string)
    requires Core(cfg, s) && k in s.throttled && s.throttled[k].restoreAt < s.now
    ensures var s' := RestoreStep(s, k, true);
            && s'.throttled == s.throttled - {k} && k in s'.unforgotten
            && s'.now == s.now && s'.declared == s.declared && s'.patched == s.patched && s'.pods.Keys == s.pods.Keys
  {
    if k in s.pods {
      assert ShapeOk(s.pods[k], s.declared[k]);
    }
  }

  lemma RestoreOneShape(cfg: Config, s: State, k: string, forgetOk: bool)
    requires Core(cfg, s) && (k in s.throttled ==> s.throttled[k].restoreAt < s.now)
    ensures var s' := ForgetStep(cfg, RestoreStep(s, k, true), k, forgetOk);
            && s'.throttled == s.throttled - {k}
            && s'.now == s.now && s'.declared == s.declared && s'.patched == s.patched && s'.pods.Keys == s.pods.Keys
  {
    if k in s.throttled {
      RestoreShape(cfg, s, k);
    } else {
      assert s.throttled - {k} == s.throttled;
    }
  }

  /** One due entry: the record is gone, the pod still there, nothing else in memory moved. */
  lemma RestoreOne(cfg: Config, s: State, lost: Pairs, k: string, forgetOk: bool)
    requires Inv(cfg, s, lost) && (k in s.throttled ==> s.throttled[k].restoreAt < s.now)
    ensures var s' := ForgetStep(cfg, RestoreStep(s, k, true), k, forgetOk);
            && Inv(cfg, s', lost) && s'.throttled == s.throttled - {k}
            && s'.now == s.now && s'.declared == s.declared && s'.patched == s.patched && s'.pods.Keys == s.pods.Keys
  {
    RestoreOneShape(cfg, s, k, forgetOk);
    KeepsRestore(cfg, s, lost, k, true);
    KeepsForget(cfg, RestoreStep(s, k, true), lost, k, forgetOk);
  }

  function Listed(keys: seq<string>): set<string> {
    set k | k in keys
  }

  /** From s to s' exactly the listed records were dealt with. */
  ghost predicate Handled(cfg: Config, s: State, s': State, lost: Pairs, gone: set<string>) {
    && Inv(cfg, s', lost) && s'.throttled == s.throttled - gone
    && s'.now == s.now && s'.declared == s.declared && s'.patched == s.patched && s'.pods.Keys == s.pods.Keys
  }

  lemma HandledOne(cfg: Config, s: State, s': State, lost: Pairs, gone: set<string>, k: string, forgetOk: bool)
    requires Handled(cfg, s, s', lost, gone) && forall k :: k in s.throttled ==> s.throttled[k].restoreAt < s.now
    ensures Handled(cfg, s, ForgetStep(cfg, RestoreStep(s', k, true), k, forgetOk), lost, gone + {k})
  {
    RestoreOne(cfg, s', lost, k, forgetOk);
    assert s.throttled - gone - {k} == s.throttled - (gone + {k});
  }

  lemma RestoreRunLast(cfg: Config, s: State, keys: seq<string>, patchOk: string -> bool, forgetOk: string -> bool)
    requires keys != []
    ensures var n := |keys| - 1;
            var s1 := Exec(cfg, s, RestoreRun(keys[..n], patchOk, forgetOk));
            Exec(cfg, s, RestoreRun(keys, patchOk, forgetOk)) ==
            ForgetStep(cfg, RestoreStep(s1, keys[n], patchOk(keys[n])), keys[n], forgetOk(keys[n]))
  {
    var n := |keys| - 1;
    var k := keys[n];
    ExecPair(cfg, s, RestoreRun(keys[..n], patchOk, forgetOk), Restore(k, patchOk(k)), Forget(k, forgetOk(k)));
  }

  lemma ListedLast(keys: seq<string>)
    requires keys != []
    ensures Listed(keys) == Listed(keys[..|keys| - 1]) + {keys[|keys| - 1]}
  {
    assert keys == keys[..|keys| - 1] + [keys[|keys| - 1]];
  }

  lemma {:induction false} RestoreRunReturns(
    cfg: Config, s: State, lost: Pairs, keys: seq<string>, patchOk: string -> bool, forgetOk: string -> bool)
    requires Inv(cfg, s, lost) && forall k :: patchOk(k)
    requires forall k :: k in s.throttled ==> s.throttled[k].restoreAt < s.now
    ensures Handled(cfg, s, Exec(cfg, s, RestoreRun(keys, patchOk, forgetOk)), lost, Listed(keys))
    decreases |keys|
  {
    if keys == [] {
      assert s.throttled - {} == s.throttled;
    } else {
      var n := |keys| - 1;
      RestoreRunReturns(cfg, s, lost, keys[..n], patchOk, forgetOk);
      var s1 := Exec(cfg, s, RestoreRun(keys[..n], patchOk, forgetOk));
      HandledOne(cfg, s, s1, lost, Listed(keys[..n]), keys[n], forgetOk(keys[n]));
      RestoreRunLast(cfg, s, keys, patchOk, forgetOk);
      ListedLast(keys);
    }
  }

  /** After any run, once every deadline has passed, one restoreDue whose patches succeed empties the
      record of throttles, and a container of a surviving pod is back at what its owner declared
      exactly when no restart orphaned it (whether or not the ledger deletes succeed). */
  lemma RestoreDueReturnsAll(
    cfg: Config, s0: State, steps: seq<Step>, keys: seq<string>, patchOk: string -> bool, forgetOk: string -> bool)
    requires Initial(s0) && Exec(cfg, s0, steps).patched == map[] && forall k :: patchOk(k)
    requires var s := Exec(cfg, s0, steps);
             forall k :: k in s.throttled ==> s.throttled[k].restoreAt < s.now && k in keys
    ensures var s := Exec(cfg, s0, steps);
            var s' := Exec(cfg, s, RestoreRun(keys, patchOk, forgetOk));
            && s'.throttled == map[] && s'.pods.Keys == s.pods.Keys
            && forall k, c :: k in s'.pods && c in s'.pods[k] ==>
                 k in s'.declared && c in s'.declared[k] &&
                 (s'.pods[k][c] == s'.declared[k][c] <==> (k, c) !in LostAfter(cfg, s0, steps))
  {
    var s, lost := Exec(cfg, s0, steps), LostAfter(cfg, s0, steps);
    RunKeeps(cfg, s0, steps);
    RestoreRunReturns(cfg, s, lost, keys, patchOk, forgetOk);
    var s' := Exec(cfg, s, RestoreRun(keys, patchOk, forgetOk));
    forall k, c | k in s'.pods && c in s'.pods[k]
      ensures k in s'.declared && c in s'.declared[k] && (s'.pods[k][c] == s'.declared[k][c] <==> (k, c) !in lost)
    {
      SettledContainer(cfg, s', lost, k, c);
    }
  }

  /** With nothing recorded or in flight, a container is at its declared resources unless it is lost. */
  lemma SettledContainer(cfg: Config, s: State, lost: Pairs, k: string, c: string)
    requires Inv(cfg, s, lost) && s.throttled == map[] && s.patched == map[] && k in s.pods && c in s.pods[k]
    ensures k in s.declared && c in s.declared[k] && (s.pods[k][c] == s.declared[k][c] <==> (k, c) !in lost)
  {
    assert ShapeOk(s.pods[k], s.declared[k]);
    if (k, c) in lost {
      assert BeyondRecovery(s, k, c);
    } else {
      assert !IsLowered(s, k, c);
    }
  }

  // ----- cooldown -----

  ghost predicate Spaced(cfg: Config, s: State) {
    (forall k :: k in s.lastActed ==> s.lastActed[k] <= s.now) &&
    (forall i :: 0 <= i < |s.acts| ==>
       || s.acts[i].at + cfg.cooldown <= s.now
       || (s.acts[i].key in s.lastActed && s.acts[i].at <= s.lastActed[s.acts[i].key])) &&
    (forall i, j :: 0 <= i < j < |s.acts| && s.acts[i].key == s.acts[j].key ==>
                      s.acts[i].at + cfg.cooldown <= s.acts[j].at)
  }

  lemma SpacedActOn(cfg: Config, s: State, t: Target, api: ActOutcome)
    requires Spaced(cfg, s)
    ensures Spaced(cfg, ActOn(cfg, s, t, api))
  {
    if t.Key() !in s.throttled && OutOfCooldown(cfg, s, t.Key()) {
      forall i | 0 <= i < |s.acts| && s.acts[i].key == t.Key() ensures s.acts[i].at + cfg.cooldown <= s.now {
      }
    }
  }

  /** The log and the cooldown map are as they were, and no time was lost. */
  predicate Quiet(s: State, s': State) {
    s'.acts == s.acts && s'.lastActed == s.lastActed && s'.now >= s.now
  }

  lemma QuietKeep(cfg: Config, s: State, k: string)
    ensures Quiet(s, KeepStep(cfg, s, k))
  {
  }

  lemma QuietPersist(cfg: Config, s: State, k: string, ok: bool)
    ensures Quiet(s, PersistStep(cfg, s, k, ok))
  {
  }

  lemma QuietRestore(s: State, k: string, ok: bool)
    ensures Quiet(s, RestoreStep(s, k, ok))
  {
  }

  /** Only actions and restarts touch the log and the cooldown map. */
  lemma OtherSteps(cfg: Config, s: State, step: Step)
    requires !step.Act? && step != Restart
    ensures Quiet(s, Next(cfg, s, step))
  {
    match step {
      case Tick(d) =>
      case Create(ns, pod, spec) =>
      case Delete(k) =>
      case Keep(k) => QuietKeep(cfg, s, k);
      case Persist(k, ok) => QuietPersist(cfg, s, k, ok);
      case Restore(k, ok) => QuietRestore(s, k, ok);
      case Forget(k, ok) => ForgetFrame(cfg, s, k, ok);
    }
  }

  lemma SpacedLater(cfg: Config, s: State, s': State)
    requires Spaced(cfg, s) && Quiet(s, s')
    ensures Spaced(cfg, s')
  {
  }

  lemma SpacedNext(cfg: Config, s: State, step: Step)
    requires Spaced(cfg, s) && step != Restart
    ensures Spaced(cfg, Next(cfg, s, step))
  {
    if step.Act? {
      var ts := TargetsOf(step.snap, cfg.gate);
      if step.i < |ts| && Free(s, ts[step.i].Key()) {
        SpacedActOn(cfg, s, ts[step.i], step.api);
      }
    } else {
      OtherSteps(cfg, s, step);
      SpacedLater(cfg, s, Next(cfg, s, step));
    }
  }

  /** Within one process lifetime any two successful actions on the same pod are at least a cooldown
      apart, although a failed Event erases the time of the last attempt. */
  lemma {:induction false} CooldownHolds(cfg: Config, s0: State, steps: seq<Step>)
    requires s0.acts == [] && s0.lastActed == map[] && Restart !in steps
    ensures Spaced(cfg, Exec(cfg, s0, steps))
    ensures var acts := Exec(cfg, s0, steps).acts;
            forall i, j :: 0 <= i < j < |acts| && acts[i].key == acts[j].key ==> acts[i].at + cfg.cooldown <= acts[j].at
    decreases |steps|
  {
    if steps != [] {
      var before := steps[..|steps| - 1];
      CooldownHolds(cfg, s0, before);
      SpacedNext(cfg, Exec(cfg, s0, before), steps[|steps| - 1]);
    }
  }

  /** Every remembered attempt is a logged action. */
  ghost predicate Stamped(s: State) {
    forall k :: k in s.lastActed ==>
      exists i :: 0 <= i < |s.acts| && s.acts[i].key == k && s.acts[i].at == s.lastActed[k]
  }

  lemma StampedMore(s: State, s': State, key: string)
    requires Stamped(s) && s.acts <= s'.acts
    requires forall k :: k in s'.lastActed && k != key ==> k in s.lastActed && s'.lastActed[k] == s.lastActed[k]
    requires key in s'.lastActed ==>
               exists i :: 0 <= i < |s'.acts| && s'.acts[i].key == key && s'.acts[i].at == s'.lastActed[key]
    ensures Stamped(s')
  {
    forall k | k in s'.lastActed && k != key
      ensures exists i :: 0 <= i < |s'.acts| && s'.acts[i].key == k && s'.acts[i].at == s'.lastActed[k]
    {
      var i :| 0 <= i < |s.acts| && s.acts[i].key == k && s.acts[i].at == s.lastActed[k];
      assert s'.acts[i] == s.acts[i];
    }
  }

  lemma StampedActOn(cfg: Config, s: State, t: Target, api: ActOutcome)
    requires Stamped(s) && !cfg.dryRun
    ensures Stamped(ActOn(cfg, s, t, api))
  {
    var s' := ActOn(cfg, s, t, api);
    if |s'.acts| > |s.acts| {
      assert s'.acts[|s.acts|].key == t.Key() && s'.acts[|s.acts|].at == s'.lastActed[t.Key()];
      StampedMore(s, s', t.Key());
    }
  }

  lemma {:induction false} StampedRun(cfg: Config, s0: State, steps: seq<Step>)
    requires s0.lastActed == map[] && Restart !in steps && !cfg.dryRun
    ensures Stamped(Exec(cfg, s0, steps))
    decreases |steps|
  {
    if steps != [] {
      var before, step := steps[..|steps| - 1], steps[|steps| - 1];
      StampedRun(cfg, s0, before);
      var s := Exec(cfg, s0, before);
      if step.Act? {
        var ts := TargetsOf(step.snap, cfg.gate);
        if step.i < |ts| && Free(s, ts[step.i].Key()) {
          StampedActOn(cfg, s, ts[step.i], step.api);
        }
      } else {
        OtherSteps(cfg, s, step);
      }
    }
  }

  /** The cooldown is neither longer nor shorter than promised: within one process lifetime a pod is out of
      cooldown if and only if every successful action on it lies at least a cooldown back. */
  lemma CooldownExactly(cfg: Config, s0: State, steps: seq<Step>, k: string)
    requires s0.acts == [] && s0.lastActed == map[] && Restart !in steps && !cfg.dryRun
    ensures var s := Exec(cfg, s0, steps);
            OutOfCooldown(cfg, s, k) <==>
            forall i :: 0 <= i < |s.acts| && s.acts[i].key == k ==> s.acts[i].at + cfg.cooldown <= s.now
  {
    CooldownHolds(cfg, s0, steps);
    StampedRun(cfg, s0, steps);
  }

  /** What an action on a pod that is due does to its next turn: d later it is due again exactly when the
      cooldown has passed or the action came to nothing (neither patch nor Event), so that it is retried.
      A dry run takes its turn as well. */
  lemma TurnExactly(cfg: Config, s: State, t: Target, api: ActOutcome, d: nat)
    requires (cfg.allow.Some? ==> t.ns in cfg.allow.value) && t.Key() !in s.throttled && OutOfCooldown(cfg, s, t.Key())
    requires cfg.cooldown > 0
    ensures var s' := ActOn(cfg, s, t, api);
            OutOfCooldown(cfg, s'.(now := s.now + d), t.Key()) <==>
            d >= cfg.cooldown || (!cfg.dryRun && s'.pods == s.pods && s'.acts == s.acts)
  {
  }

  // ----- a throttle lasts -----

  /** The pod was lowered no later than restoreAfter before this time. */
  ghost predicate LoweredBefore(cfg: Config, s: State, k: string, time: int) {
    exists i :: 0 <= i < |s.acts| && s.acts[i].key == k && s.acts[i].kind == LimitLowered &&
                s.acts[i].at + cfg.restoreAfter <= time
  }

  ghost predicate RecordsTimed(cfg: Config, s: State, m: map<string, Record>) {
    forall k :: k in m ==> LoweredBefore(cfg, s, RecordKey(m[k]), m[k].restoreAt)
  }

  ghost predicate Timed(cfg: Config, s: State) {
    RecordsTimed(cfg, s, s.throttled) && RecordsTimed(cfg, s, s.unsaved) && RecordsTimed(cfg, s, s.ledger) &&
    forall k :: k in s.patched ==> LoweredBefore(cfg, s, k, s.now + cfg.restoreAfter)
  }

  lemma LoweredBeforeLater(cfg: Config, s: State, s': State, k: string, time: int, time': int)
    requires LoweredBefore(cfg, s, k, time) && s.acts <= s'.acts && time <= time'
    ensures LoweredBefore(cfg, s', k, time')
  {
    var i :| 0 <= i < |s.acts| && s.acts[i].key == k && s.acts[i].kind == LimitLowered &&
             s.acts[i].at + cfg.restoreAfter <= time;
    assert s'.acts[i] == s.acts[i];
  }

  /** More actions or time, or fewer records, change nothing. */
  lemma RecordsTimedLater(cfg: Config, s: State, s': State, m: map<string, Record>, m': map<string, Record>)
    requires RecordsTimed(cfg, s, m) && s.acts <= s'.acts
    requires forall k :: k in m' ==> k in m && m'[k] == m[k]
    ensures RecordsTimed(cfg, s', m')
  {
    forall k | k in m' ensures LoweredBefore(cfg, s', RecordKey(m'[k]), m'[k].restoreAt) {
      LoweredBeforeLater(cfg, s, s', RecordKey(m[k]), m[k].restoreAt, m[k].restoreAt);
    }
  }

  lemma TimedLater(cfg: Config, s: State, s': State)
    requires Timed(cfg, s) && s.acts <= s'.acts && s.now <= s'.now
    requires forall k :: k in s'.throttled ==> k in s.throttled && s'.throttled[k] == s.throttled[k]
    requires forall k :: k in s'.unsaved ==> k in s.unsaved && s'.unsaved[k] == s.unsaved[k]
    requires forall k :: k in s'.ledger ==> k in s.ledger && s'.ledger[k] == s.ledger[k]
    requires forall k :: k in s'.patched ==> k in s.patched
    ensures Timed(cfg, s')
  {
    RecordsTimedLater(cfg, s, s', s.throttled, s'.throttled);
    RecordsTimedLater(cfg, s, s', s.unsaved, s'.unsaved);
    RecordsTimedLater(cfg, s, s', s.ledger, s'.ledger);
    forall k | k in s'.patched ensures LoweredBefore(cfg, s', k, s'.now + cfg.restoreAfter) {
      LoweredBeforeLater(cfg, s, s', k, s.now + cfg.restoreAfter, s'.now + cfg.restoreAfter);
    }
  }

  lemma TimedLower(cfg: Config, s: State, t: Target)
    requires Timed(cfg, s) && Room(s.pods, t.Key(), t.container)
    ensures Timed(cfg, Lower(s, t))
  {
    var s' := Lower(s, t);
    RecordsTimedLater(cfg, s, s', s.throttled, s'.throttled);
    RecordsTimedLater(cfg, s, s', s.unsaved, s'.unsaved);
    RecordsTimedLater(cfg, s, s', s.ledger, s'.ledger);
    forall k | k in s'.patched ensures LoweredBefore(cfg, s', k, s'.now + cfg.restoreAfter) {
      if k == t.Key() {
        assert s'.acts[|s.acts|] == Action(k, s.now, LimitLowered);
      } else {
        LoweredBeforeLater(cfg, s, s', k, s.now + cfg.restoreAfter, s.now + cfg.restoreAfter);
      }
    }
  }

  lemma TimedKeep(cfg: Config, s: State, key: string)
    requires Core(cfg, s) && Timed(cfg, s)
    ensures Timed(cfg, KeepStep(cfg, s, key))
  {
    if key in s.patched {
      var s' := KeepStep(cfg, s, key);
      assert FitsLowering(s.declared, key, s.patched[key]);
      forall k | k in s'.throttled
        ensures LoweredBefore(cfg, s', RecordKey(s'.throttled[k]), s'.throttled[k].restoreAt)
      {
        if k == key {
          LoweredBeforeLater(cfg, s, s', key, s.now + cfg.restoreAfter, s.now + cfg.restoreAfter);
        } else {
          LoweredBeforeLater(cfg, s, s', RecordKey(s.throttled[k]), s.throttled[k].restoreAt, s.throttled[k].restoreAt);
        }
      }
      forall k | k in s'.unsaved ensures LoweredBefore(cfg, s', RecordKey(s'.unsaved[k]), s'.unsaved[k].restoreAt) {
        if k == key {
          LoweredBeforeLater(cfg, s, s', key, s.now + cfg.restoreAfter, s.now + cfg.restoreAfter);
        } else {
          LoweredBeforeLater(cfg, s, s', RecordKey(s.unsaved[k]), s.unsaved[k].restoreAt, s.unsaved[k].restoreAt);
        }
      }
      RecordsTimedLater(cfg, s, s', s.ledger, s'.ledger);
      forall k | k in s'.patched ensures LoweredBefore(cfg, s', k, s'.now + cfg.restoreAfter) {
        LoweredBeforeLater(cfg, s, s', k, s.now + cfg.restoreAfter, s.now + cfg.restoreAfter);
      }
    }
  }

  lemma TimedPersist(cfg: Config, s: State, key: string, ok: bool)
    requires Timed(cfg, s)
    ensures Timed(cfg, PersistStep(cfg, s, key, ok))
  {
    if key in s.unsaved {
      var s' := PersistStep(cfg, s, key, ok);
      RecordsTimedLater(cfg, s, s', s.throttled, s'.throttled);
      RecordsTimedLater(cfg, s, s', s.unsaved, s'.unsaved);
      forall ck | ck in s'.ledger ensures LoweredBefore(cfg, s', RecordKey(s'.ledger[ck]), s'.ledger[ck].restoreAt) {
        if s'.ledger[ck] == s.unsaved[key] {
          LoweredBeforeLater(cfg, s, s', RecordKey(s.unsaved[key]), s.unsaved[key].restoreAt, s.unsaved[key].restoreAt);
        } else {
          LoweredBeforeLater(cfg, s, s', RecordKey(s.ledger[ck]), s.ledger[ck].restoreAt, s.ledger[ck].restoreAt);
        }
      }
      forall k | k in s'.patched ensures LoweredBefore(cfg, s', k, s'.now + cfg.restoreAfter) {
        LoweredBeforeLater(cfg, s, s', k, s.now + cfg.restoreAfter, s.now + cfg.restoreAfter);
      }
    }
  }

  lemma TimedRestart(cfg: Config, s: State)
    requires Timed(cfg, s)
    ensures Timed(cfg, RestartStep(cfg, s))
  {
    var s' := RestartStep(cfg, s);
    RecordsTimedLater(cfg, s, s', s.ledger, s'.ledger);
    forall k | k in s'.throttled ensures LoweredBefore(cfg, s', RecordKey(s'.throttled[k]), s'.throttled[k].restoreAt) {
      assert CmKey(k) in s.ledger && s'.throttled[k] == s'.ledger[CmKey(k)];
    }
  }

  lemma TimedAct(cfg: Config, s: State, t: Target, api: ActOutcome)
    requires Timed(cfg, s) && Free(s, t.Key())
    ensures Timed(cfg, ActOn(cfg, s, t, api))
  {
    if WillLower(cfg, s, t) && api.getOk && api.patchOk {
      ActWithLowering(cfg, s, t, api);
      TimedLower(cfg, s, t);
    } else {
      ActWithoutLowering(cfg, s, t, api);
      ActFrame(cfg, s, t, api);
      ActLogs(cfg, s, t, api);
      TimedLater(cfg, s, ActOn(cfg, s, t, api));
    }
  }

  lemma ActLogs(cfg: Config, s: State, t: Target, api: ActOutcome)
    ensures var s' := ActOn(cfg, s, t, api); s.acts <= s'.acts && s'.now == s.now
  {
  }

  lemma TimedRestore(cfg: Config, s: State, key: string, ok: bool)
    requires Timed(cfg, s)
    ensures Timed(cfg, RestoreStep(s, key, ok))
  {
    RestoreFrame(s, key, ok);
    QuietRestore(s, key, ok);
    TimedLater(cfg, s, RestoreStep(s, key, ok));
  }

  lemma TimedForget(cfg: Config, s: State, key: string, ok: bool)
    requires Timed(cfg, s)
    ensures Timed(cfg, ForgetStep(cfg, s, key, ok))
  {
    ForgetFrame(cfg, s, key, ok);
    TimedLater(cfg, s, ForgetStep(cfg, s, key, ok));
  }

  lemma TimedWorld(cfg: Config, s: State, step: Step)
    requires Timed(cfg, s) && (step.Tick? || step.Create? || step.Delete?)
    ensures Timed(cfg, Next(cfg, s, step))
  {
    TimedLater(cfg, s, Next(cfg, s, step));
  }

  lemma TimedNext(cfg: Config, s: State, step: Step)
    requires Core(cfg, s) && Timed(cfg, s)
    ensures Timed(cfg, Next(cfg, s, step))
  {
    match step {
      case Act(snap, i, api) =>
        var ts := TargetsOf(snap, cfg.gate);
        if i < |ts| && Free(s, ts[i].Key()) { TimedAct(cfg, s, ts[i], api); }
      case Keep(key) => TimedKeep(cfg, s, key);
      case Persist(key, ok) => TimedPersist(cfg, s, key, ok);
      case Restart => TimedRestart(cfg, s);
      case Restore(key, ok) => TimedRestore(cfg, s, key, ok);
      case Forget(key, ok) => TimedForget(cfg, s, key, ok);
      case _ => TimedWorld(cfg, s, step);
    }
  }

  lemma {:induction false} TimedRun(cfg: Config, s0: State, steps: seq<Step>)
    requires Initial(s0)
    ensures Timed(cfg, Exec(cfg, s0, steps))
    decreases |steps|
  {
    if steps != [] {
      var before := steps[..|steps| - 1];
      TimedRun(cfg, s0, before);
      RunKeeps(cfg, s0, before);
      TimedNext(cfg, Exec(cfg, s0, before), steps[|steps| - 1]);
    }
  }

  /** A throttle lasts: in every run, across restarts, a limit is only put back more than restoreAfter after
      the controller lowered that pod. */
  lemma ThrottleLasts(cfg: Config, s0: State, steps: seq<Step>, key: string, ok: bool, k: string, c: string)
    requires Initial(s0)
    requires var s := Exec(cfg, s0, steps); LimitChanged(s, RestoreStep(s, key, ok), k, c)
    ensures var s := Exec(cfg, s0, steps);
            exists i :: 0 <= i < |s.acts| && s.acts[i].key == k && s.acts[i].kind == LimitLowered &&
                        s.acts[i].at + cfg.restoreAfter < s.now
  {
    var s := Exec(cfg, s0, steps);
    TimedRun(cfg, s0, steps);
    RunKeeps(cfg, s0, steps);
    RestoreChanges(s, key, ok, k, c);
    assert FitsRecord(s.declared, k, s.throttled[k]);
    var i :| 0 <= i < |s.acts| && s.acts[i].key == k && s.acts[i].kind == LimitLowered &&
             s.acts[i].at + cfg.restoreAfter <= s.throttled[k].restoreAt;
  }

  // ----- authorised actuation -----

  function LimitOf(s: State, k: string, c: string): Option<int>
    requires k in s.pods && c in s.pods[k]
  {
    s.pods[k][c].limit
  }

  /** The step lowers this container's limit to its request, for a cpu target of a snapshot. */
  ghost predicate AuthorisedLowering(cfg: Config, s: State, step: Step, k: string, c: string, limit: Option<int>) {
    step.Act? && cfg.resize && !cfg.dryRun &&
    exists t :: t in TargetsOf(step.snap, cfg.gate) &&
                t.Key() == k && t.container == c && t.resource == Cpu &&
                (cfg.allow.Some? ==> t.ns in cfg.allow.value) &&
                t.confidence >= Gate(step.snap, cfg.gate) &&
                Offender(Join(Parts(t.ns, t.pod, c)), t.confidence) in step.snap.cpu &&
                k in s.pods && c in s.pods[k] && limit == s.pods[k][c].request &&
                limit.Some? && s.pods[k][c].limit.Some? && limit.value < s.pods[k][c].limit.value
  }

  /** The step writes back the recorded original, strictly after its deadline. */
  predicate AuthorisedRestore(s: State, step: Step, k: string, c: string, limit: Option<int>) {
    step == Restore(k, true) && k in s.throttled && s.throttled[k].container == c &&
    limit == Some(s.throttled[k].original) && s.throttled[k].restoreAt < s.now
  }

  /** The container exists before and after, and its limit changed. */
  predicate LimitChanged(s: State, s': State, k: string, c: string) {
    k in s.pods && c in s.pods[k] && k in s'.pods && c in s'.pods[k] && LimitOf(s', k, c) != LimitOf(s, k, c)
  }

  /** A lowering changes its own container's limit and no other. */
  lemma LowerChanges(s: State, t: Target, k: string, c: string)
    requires Room(s.pods, t.Key(), t.container) && LimitChanged(s, Lower(s, t), k, c)
    ensures k == t.Key() && c == t.container && LimitOf(Lower(s, t), k, c) == s.pods[k][c].request
  {
  }

  lemma ActChanges(cfg: Config, s: State, step: Step, k: string, c: string)
    requires step.Act? && LimitChanged(s, Next(cfg, s, step), k, c)
    ensures AuthorisedLowering(cfg, s, step, k, c, LimitOf(Next(cfg, s, step), k, c))
  {
    var t := TargetsOf(step.snap, cfg.gate)[step.i];
    if WillLower(cfg, s, t) && step.api.getOk && step.api.patchOk {
      ActWithLowering(cfg, s, t, step.api);
      LowerChanges(s, t, k, c);
      TargetsGenuine(step.snap, cfg.gate, t);
      assert t in TargetsOf(step.snap, cfg.gate);
    } else {
      ActWithoutLowering(cfg, s, t, step.api);
    }
  }

  lemma RestoreChanges(s: State, key: string, ok: bool, k: string, c: string)
    requires LimitChanged(s, RestoreStep(s, key, ok), k, c)
    ensures AuthorisedRestore(s, Restore(key, ok), k, c, LimitOf(RestoreStep(s, key, ok), k, c))
  {
  }

  lemma CreateChanges(cfg: Config, s: State, ns: string, pod: string, spec: PodSpec, k: string, c: string)
    ensures !LimitChanged(s, Next(cfg, s, Create(ns, pod, spec)), k, c)
  {
  }

  /** All other steps leave the limits of existing containers alone. */
  lemma OthersChangeNothing(cfg: Config, s: State, step: Step, k: string, c: string)
    requires !step.Act? && !step.Restore?
    ensures !LimitChanged(s, Next(cfg, s, step), k, c)
  {
    match step {
      case Create(ns, pod, spec) => CreateChanges(cfg, s, ns, pod, spec, k, c);
      case Keep(key) => KeepFrame(cfg, s, key);
      case Persist(key, ok) => PersistFrame(cfg, s, key, ok);
      case Forget(key, ok) => ForgetFrame(cfg, s, key, ok);
      case _ =>
    }
  }

  /** At every point of every run, a container whose limit changes was lowered under authority or
      given its recorded original back. */
  lemma OnlyAuthorisedChanges(cfg: Config, s: State, step: Step, k: string, c: string)
    requires LimitChanged(s, Next(cfg, s, step), k, c)
    ensures var limit := LimitOf(Next(cfg, s, step), k, c);
            AuthorisedLowering(cfg, s, step, k, c, limit) || AuthorisedRestore(s, step, k, c, limit)
  {
    match step {
      case Act(snap, i, api) => ActChanges(cfg, s, step, k, c);
      case Restore(key, ok) => RestoreChanges(s, key, ok, k, c);
      case _ => OthersChangeNothing(cfg, s, step, k, c);
    }
  }

  // ----- dry run -----

  predicate External(step: Step) {
    step.Create? || step.Delete?
  }

  /** No entry to restore: the ledger is empty and every record in memory is of a container at its
      declared limit. */
  ghost predicate NothingToRestore(s: State) {
    Bare(s) && forall k :: k in s.throttled ==> !IsLowered(s, k, s.throttled[k].container)
  }

  lemma {:induction false} InertRun(cfg: Config, s: State, lost: Pairs, steps: seq<Step>)
    requires Inv(cfg, s, lost) && cfg.dryRun && NothingToRestore(s)
    requires forall i :: 0 <= i < |steps| ==> !External(steps[i])
    ensures var s' := Exec(cfg, s, steps);
            s'.pods == s.pods && s'.ledger == map[] && s'.acts == s.acts && s'.declared == s.declared &&
            NothingToRestore(s') && exists lost' :: Inv(cfg, s', lost')
    decreases |steps|
  {
    if steps != [] {
      var n := |steps| - 1;
      InertRun(cfg, s, lost, steps[..n]);
      var m := Exec(cfg, s, steps[..n]);
      var lost1 :| Inv(cfg, m, lost1);
      InertStep(cfg, m, lost1, steps[n]);
    } else {
      assert Inv(cfg, Exec(cfg, s, steps), lost);
    }
  }

  lemma InertRestore(cfg: Config, s: State, key: string, ok: bool)
    requires Core(cfg, s) && NothingToRestore(s)
    ensures RestoreStep(s, key, ok).pods == s.pods
  {
    var s' := RestoreStep(s, key, ok);
    if s' != s && key in s.pods {
      var r := s.throttled[key];
      assert !IsLowered(s, key, r.container);
      assert s'.pods[key] == s.pods[key];
    }
  }

  /** With nothing in flight and nothing in the ledger. */
  ghost predicate Bare(s: State) {
    s.ledger == map[] && s.patched == map[] && s.unsaved == map[]
  }

  /** The new state has no record the old one had not. */
  ghost predicate FewerRecords(s: State, s': State) {
    forall k :: k in s'.throttled ==> k in s.throttled && s'.throttled[k] == s.throttled[k]
  }

  lemma InertActOn(cfg: Config, s: State, t: Target, api: ActOutcome)
    requires cfg.dryRun
    ensures var s' := ActOn(cfg, s, t, api); s' == s.(lastActed := s'.lastActed)
  {
  }

  /** With nothing in flight, in the ledger or allowed to act, a step can only shrink memory. */
  lemma InertMemory(cfg: Config, s: State, step: Step)
    requires cfg.dryRun && Bare(s) && !External(step)
    ensures var s' := Next(cfg, s, step);
            Bare(s') && FewerRecords(s, s') && s'.acts == s.acts && s'.declared == s.declared &&
            (step.Restore? || s'.pods == s.pods)
  {
    match step {
      case Act(snap, i, api) =>
        var ts := TargetsOf(snap, cfg.gate);
        if i < |ts| && Free(s, ts[i].Key()) { InertActOn(cfg, s, ts[i], api); }
      case Restore(key, ok) =>
        RestoreFrame(s, key, ok);
        RestoreDeclared(s, key, ok);
        QuietRestore(s, key, ok);
      case Forget(key, ok) => ForgetFrame(cfg, s, key, ok);
      case _ =>
    }
  }

  lemma InertStep(cfg: Config, s: State, lost: Pairs, step: Step)
    requires Inv(cfg, s, lost) && cfg.dryRun && NothingToRestore(s) && !External(step)
    ensures var s' := Next(cfg, s, step);
            s'.pods == s.pods && s'.ledger == map[] && s'.acts == s.acts && s'.declared == s.declared &&
            NothingToRestore(s') && exists lost' :: Inv(cfg, s', lost')
  {
    NextKeeps(cfg, s, lost, step);
    InertMemory(cfg, s, step);
    if step.Restore? { InertRestore(cfg, s, step.key, step.ok); }
    var s' := Next(cfg, s, step);
    forall k | k in s'.throttled ensures !IsLowered(s', k, s'.throttled[k].container) {
      assert !IsLowered(s, k, s.throttled[k].container);
    }
  }

  /** Dry-run mode promises that nothing is mutated. That holds of every run exactly when the process
      starts with nothing to restore: a dry-run controller still executes the restores it finds in
      memory or recovers from an earlier controller's ledger. */
  lemma DryRunInertExactly(cfg: Config, s: State, lost: Pairs)
    requires Inv(cfg, s, lost) && cfg.dryRun
    requires s.patched == map[] && s.unsaved == map[] && s.unforgotten == {}
    ensures NothingToRestore(s) <==>
            forall steps :: (forall i :: 0 <= i < |steps| ==> !External(steps[i])) ==>
                              Exec(cfg, s, steps).pods == s.pods && Exec(cfg, s, steps).ledger == s.ledger
  {
    if NothingToRestore(s) {
      forall steps: seq<Step> | forall i :: 0 <= i < |steps| ==> !External(steps[i])
        ensures Exec(cfg, s, steps).pods == s.pods && Exec(cfg, s, steps).ledger == s.ledger
      {
        InertRun(cfg, s, lost, steps);
      }
    } else {
      var steps := DryRunMutates(cfg, s, lost);
    }
  }

  /** The run that breaks the promise: wait for the deadline, restore, forget. */
  function RestoreAt(s: State, k: string): seq<Step>
    requires k in s.throttled
  {
    [Tick(Wait(s, k)), Restore(k, true), Forget(k, true)]
  }

  /** How long until the record's deadline has passed. */
  function Wait(s: State, k: string): (d: nat)
    requires k in s.throttled
    ensures s.throttled[k].restoreAt < s.now + d
  {
    var due := s.throttled[k].restoreAt;
    if due < s.now then 0 else due - s.now + 1
  }

  lemma NextRestore(cfg: Config, s: State, k: string, s': State)
    requires s' == Next(cfg, s, Restore(k, true))
    ensures s' == RestoreStep(s, k, true)
  {
  }

  lemma NextForget(cfg: Config, s: State, k: string, s': State)
    requires s' == Next(cfg, s, Forget(k, true))
    ensures s' == ForgetStep(cfg, s, k, true)
  {
  }

  /** The states of that run. */
  lemma RestoreAtStates(cfg: Config, s: State, k: string) returns (s1: State, s2: State, s3: State)
    requires k in s.throttled
    ensures s1 == s.(now := s.now + Wait(s, k)) && s2 == RestoreStep(s1, k, true) && s3 == ForgetStep(cfg, s2, k, true)
    ensures Exec(cfg, s, RestoreAt(s, k)) == s3
  {
    var a, b, c := Tick(Wait(s, k)), Restore(k, true), Forget(k, true);
    s1 := Next(cfg, s, a);
    s2 := Next(cfg, s1, b);
    s3 := Next(cfg, s2, c);
    ExecThree(cfg, s, a, b, c);
    NextRestore(cfg, s1, k, s2);
    NextForget(cfg, s2, k, s3);
  }

  lemma RestoredLedger(cfg: Config, s: State, k: string, s': State)
    requires Core(cfg, s) && k in s.throttled && s.throttled[k].restoreAt < s.now && s' == RestoreStep(s, k, true)
    ensures cfg.durable ==> ForgetStep(cfg, s', k, true).ledger == s.ledger - {CmKey(k)}
  {
    RestoreShape(cfg, s, k);
    RestoreFrame(s, k, true);
  }

  lemma RestoreAtActs(cfg: Config, s: State, lost: Pairs, k: string)
    requires Inv(cfg, s, lost) && k in s.throttled
    ensures var s' := Exec(cfg, s, RestoreAt(s, k));
            (cfg.durable ==> s'.ledger == s.ledger - {CmKey(k)}) &&
            (k in s.pods ==> k in s'.pods && var c := s.throttled[k].container;
                             c in s'.pods[k] && s'.pods[k][c].limit == Some(s.throttled[k].original))
  {
    var s1, s2, s3 := RestoreAtStates(cfg, s, k);
    MemoryOnly(cfg, s, s1, lost);
    RestoredLedger(cfg, s1, k, s2);
    ForgetFrame(cfg, s2, k, true);
    if k in s.pods {
      RestorePods(cfg, s1, k);
    }
  }

  lemma LedgerEntryMutates(cfg: Config, s: State, lost: Pairs, ck: string) returns (steps: seq<Step>)
    requires Inv(cfg, s, lost) && ck in s.ledger
    ensures forall i :: 0 <= i < |steps| ==> !External(steps[i])
    ensures ck !in Exec(cfg, s, steps).ledger
  {
    var k := RecordKey(s.ledger[ck]);
    RecoverFinds(s, k);
    var s1 := RestartStep(cfg, s);
    KeepsRestart(cfg, s, lost);
    var tail := RestoreAt(s1, k);
    RestoreAtActs(cfg, s1, LostByRestart(cfg, s), k);
    steps := [Restart] + tail;
    RestartThen(cfg, s, tail);
  }

  lemma RestartThen(cfg: Config, s: State, tail: seq<Step>)
    ensures Exec(cfg, s, [Restart] + tail) == Exec(cfg, RestartStep(cfg, s), tail)
  {
    ExecConcat(cfg, s, [Restart], tail);
    ExecOne(cfg, s, Restart);
  }

  lemma DryRunMutates(cfg: Config, s: State, lost: Pairs) returns (steps: seq<Step>)
    requires Inv(cfg, s, lost) && !NothingToRestore(s)
    requires s.patched == map[] && s.unsaved == map[] && s.unforgotten == {}
    ensures forall i :: 0 <= i < |steps| ==> !External(steps[i])
    ensures Exec(cfg, s, steps).pods != s.pods || Exec(cfg, s, steps).ledger != s.ledger
  {
    if s.ledger != map[] {
      var ck :| ck in s.ledger;
      steps := LedgerEntryMutates(cfg, s, lost, ck);
    } else {
      var k :| k in s.throttled && IsLowered(s, k, s.throttled[k].container);
      RestoreAtActs(cfg, s, lost, k);
      steps := RestoreAt(s, k);
    }
  }
}
