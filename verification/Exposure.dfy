/** Which containers a restart would orphan, and exactly which steps bring that about. */
module Exposure {
  import opened Options
  import opened Identity
  import opened Targets
  import opened Protocol
  import opened Safety

  /** A restart now would orphan this container: it is lowered and the ledger does not name it. */
  predicate Exposed(s: State, k: string, c: string) {
    IsLowered(s, k, c) && !InLedger(s, k, c)
  }

  /** The steps that expose a container: the patch that lowers it while no older ledger entry names
      it, and a late ledger delete of a pod that was lowered again. */
  predicate Exposes(cfg: Config, s: State, step: Step, k: string, c: string) {
    match step
    case Act(_, _, _) => Lowers(cfg, s, step, k, c) && !InLedger(s, k, c)
    case Forget(key, ok) => ok && key == k && k in s.unforgotten && IsLowered(s, k, c)
    case _ => false
  }

  /** The steps that end the exposure: a ledger write of its record, its restore, the end of the pod. */
  predicate Covers(cfg: Config, s: State, step: Step, k: string, c: string) {
    match step
    case Persist(key, ok) => cfg.durable && ok && key == k && k in s.unsaved && s.unsaved[k].container == c
    case Restore(key, ok) => Lifts(s, key, ok, k, c)
    case Delete(key) => key == k
    case _ => false
  }

  /** A restart orphans exactly the exposed containers. */
  lemma LostIffExposed(cfg: Config, s: State, k: string, c: string)
    requires !cfg.durable ==> s.ledger == map[]
    ensures (k, c) in LostByRestart(cfg, s) <==> Exposed(s, k, c)
  {
  }

  // ----- step by step -----

  /** The container is exposed after the step if and only if the step exposed it, or it was exposed
      and the step did not cover it. */
  predicate ExposedExactly(cfg: Config, s: State, step: Step, s': State, k: string, c: string) {
    Exposed(s', k, c) <==> Exposes(cfg, s, step, k, c) || (Exposed(s, k, c) && !Covers(cfg, s, step, k, c))
  }

  /** A step that leaves pods, declarations and ledger alone. */
  lemma ExposureSame(s: State, s': State, k: string, c: string)
    requires s'.pods == s.pods && s'.declared == s.declared && s'.ledger == s.ledger
    ensures Exposed(s', k, c) <==> Exposed(s, k, c)
  {
  }

  lemma CreateLowers(s: State, key: string, spec: PodSpec, k: string, c: string)
    requires key !in s.pods
    ensures var s' := s.(pods := s.pods[key := spec], declared := s.declared[key := spec]);
            IsLowered(s', k, c) <==> IsLowered(s, k, c)
  {
  }

  lemma ExposureCreate(cfg: Config, s: State, ns: string, pod: string, spec: PodSpec, k: string, c: string)
    ensures ExposedExactly(cfg, s, Create(ns, pod, spec), Next(cfg, s, Create(ns, pod, spec)), k, c)
  {
    if MayCreate(s, ns, pod, spec) {
      CreateLowers(s, PodKey(ns, pod), spec, k, c);
    }
  }

  lemma ExposureDelete(cfg: Config, s: State, key: string, k: string, c: string)
    ensures ExposedExactly(cfg, s, Delete(key), Next(cfg, s, Delete(key)), k, c)
  {
  }

  /** An action that lowers nothing leaves pods, declarations and ledger alone. */
  lemma ActWithoutLowering(cfg: Config, s: State, t: Target, api: ActOutcome)
    requires Free(s, t.Key()) && !(WillLower(cfg, s, t) && api.getOk && api.patchOk)
    ensures var s' := ActOn(cfg, s, t, api);
            s'.pods == s.pods && s'.declared == s.declared && s'.ledger == s.ledger && s'.patched == s.patched
  {
  }

  lemma ActWithLowering(cfg: Config, s: State, t: Target, api: ActOutcome)
    requires WillLower(cfg, s, t) && api.getOk && api.patchOk
    ensures ActOn(cfg, s, t, api) == Lower(s, t)
  {
  }

  lemma ExposureAct(cfg: Config, s: State, snap: Snapshot, i: nat, api: ActOutcome, k: string, c: string)
    requires Core(cfg, s)
    ensures ExposedExactly(cfg, s, Act(snap, i, api), Next(cfg, s, Act(snap, i, api)), k, c)
  {
    var ts := TargetsOf(snap, cfg.gate);
    if i < |ts| && Free(s, ts[i].Key()) {
      var t := ts[i];
      if WillLower(cfg, s, t) && api.getOk && api.patchOk {
        ActWithLowering(cfg, s, t, api);
        LowerLowers(cfg, s, t, k, c);
      } else {
        ActWithoutLowering(cfg, s, t, api);
        ExposureSame(s, ActOn(cfg, s, t, api), k, c);
      }
    }
  }

  /** A ledger entry of a lowered container is only ever overwritten by its own record. */
  lemma UnsavedAgrees(cfg: Config, s: State, lost: Pairs, k: string, c: string)
    requires Inv(cfg, s, lost) && IsLowered(s, k, c) && InLedger(s, k, c) && k in s.unsaved
    ensures s.unsaved[k].container == c
  {
    assert (k, c) in lost ==> BeyondRecovery(s, k, c);
    assert Tracked(s, k, c);
  }

  lemma PersistFrame(cfg: Config, s: State, key: string, ok: bool)
    ensures var s' := PersistStep(cfg, s, key, ok);
            && s'.pods == s.pods && s'.declared == s.declared
            && s'.ledger == if cfg.durable && ok && key in s.unsaved
                            then s.ledger[CmKey(key) := s.unsaved[key]] else s.ledger
  {
  }

  /** Only the pod's own persist touches its ledger entry. */
  lemma PersistLedger(cfg: Config, s: State, key: string, ok: bool, k: string, c: string)
    requires Core(cfg, s) && k in s.declared
    ensures var s' := PersistStep(cfg, s, key, ok);
            InLedger(s', k, c) <==>
            if cfg.durable && ok && key == k && k in s.unsaved then s.unsaved[k].container == c else InLedger(s, k, c)
  {
    PersistFrame(cfg, s, key, ok);
    if key in s.unsaved && CmKey(key) == CmKey(k) {
      assert FitsRecord(s.declared, key, s.unsaved[key]);
      CmKeyInjective(key, k);
    }
  }

  lemma ExposurePersist(cfg: Config, s: State, lost: Pairs, key: string, ok: bool, k: string, c: string)
    requires Inv(cfg, s, lost)
    ensures ExposedExactly(cfg, s, Persist(key, ok), PersistStep(cfg, s, key, ok), k, c)
  {
    PersistFrame(cfg, s, key, ok);
    SameLimits(s, PersistStep(cfg, s, key, ok), k, c);
    if IsLowered(s, k, c) {
      PersistLedger(cfg, s, key, ok, k, c);
      if InLedger(s, k, c) && k in s.unsaved {
        UnsavedAgrees(cfg, s, lost, k, c);
      }
    }
  }

  lemma ExposureRestore(cfg: Config, s: State, key: string, ok: bool, k: string, c: string)
    requires Core(cfg, s)
    ensures ExposedExactly(cfg, s, Restore(key, ok), RestoreStep(s, key, ok), k, c)
  {
    RestoreLowers(cfg, s, key, ok, k, c);
    assert RestoreStep(s, key, ok).ledger == s.ledger;
  }

  /** Only the pod's own forget deletes its ledger entry. */
  lemma ForgetLedger(cfg: Config, s: State, key: string, ok: bool, k: string, c: string)
    requires Core(cfg, s) && k in s.declared
    ensures InLedger(ForgetStep(cfg, s, key, ok), k, c) <==>
            InLedger(s, k, c) && !(cfg.durable && ok && key == k && k in s.unforgotten)
  {
    if key in s.unforgotten && CmKey(key) == CmKey(k) {
      CmKeyInjective(key, k);
    }
  }

  lemma ExposureForget(cfg: Config, s: State, key: string, ok: bool, k: string, c: string)
    requires Core(cfg, s)
    ensures ExposedExactly(cfg, s, Forget(key, ok), ForgetStep(cfg, s, key, ok), k, c)
  {
    ForgetFrame(cfg, s, key, ok);
    SameLimits(s, ForgetStep(cfg, s, key, ok), k, c);
    if IsLowered(s, k, c) {
      ForgetLedger(cfg, s, key, ok, k, c);
    }
  }

  lemma KeepFrame(cfg: Config, s: State, key: string)
    ensures var s' := KeepStep(cfg, s, key); s'.pods == s.pods && s'.declared == s.declared && s'.ledger == s.ledger
  {
  }

  /** Every step, both ways. */
  lemma ExposedNext(cfg: Config, s: State, lost: Pairs, step: Step, k: string, c: string)
    requires Inv(cfg, s, lost)
    ensures ExposedExactly(cfg, s, step, Next(cfg, s, step), k, c)
  {
    match step {
      case Tick(d) => ExposureSame(s, Next(cfg, s, step), k, c);
      case Create(ns, pod, spec) => ExposureCreate(cfg, s, ns, pod, spec, k, c);
      case Delete(key) => ExposureDelete(cfg, s, key, k, c);
      case Act(snap, i, api) => ExposureAct(cfg, s, snap, i, api, k, c);
      case Keep(key) =>
        KeepFrame(cfg, s, key);
        ExposureSame(s, Next(cfg, s, step), k, c);
      case Persist(key, ok) => ExposurePersist(cfg, s, lost, key, ok, k, c);
      case Restore(key, ok) => ExposureRestore(cfg, s, key, ok, k, c);
      case Forget(key, ok) => ExposureForget(cfg, s, key, ok, k, c);
      case Restart => ExposureSame(s, Next(cfg, s, step), k, c);
    }
  }

  // ----- over whole runs -----

  /** The state before step i of a run. */
  function Before(cfg: Config, s0: State, steps: seq<Step>, i: nat): State
    requires i <= |steps|
  {
    Exec(cfg, s0, steps[..i])
  }

  predicate Opens(cfg: Config, s0: State, steps: seq<Step>, k: string, c: string, i: int) {
    0 <= i < |steps| && Exposes(cfg, Before(cfg, s0, steps, i), steps[i], k, c)
  }

  predicate Closes(cfg: Config, s0: State, steps: seq<Step>, k: string, c: string, i: int) {
    0 <= i < |steps| && Covers(cfg, Before(cfg, s0, steps, i), steps[i], k, c)
  }

  /** Step i exposed the container and no later step covered it. */
  predicate LeftOpen(cfg: Config, s0: State, steps: seq<Step>, k: string, c: string, i: int) {
    Opens(cfg, s0, steps, k, c, i) && forall j :: i < j < |steps| ==> !Closes(cfg, s0, steps, k, c, j)
  }

  lemma BeforePrefix(cfg: Config, s0: State, steps: seq<Step>, n: nat, i: nat)
    requires i < n <= |steps|
    ensures Before(cfg, s0, steps[..n], i) == Before(cfg, s0, steps, i) && steps[..n][i] == steps[i]
  {
    assert steps[..n][..i] == steps[..i];
  }

  lemma OpensPrefix(cfg: Config, s0: State, steps: seq<Step>, k: string, c: string, n: nat, i: int)
    requires i < n <= |steps|
    ensures Opens(cfg, s0, steps[..n], k, c, i) <==> Opens(cfg, s0, steps, k, c, i)
    ensures Closes(cfg, s0, steps[..n], k, c, i) <==> Closes(cfg, s0, steps, k, c, i)
  {
    if 0 <= i {
      BeforePrefix(cfg, s0, steps, n, i);
    }
  }

  lemma LeftOpenSnoc(cfg: Config, s0: State, steps: seq<Step>, k: string, c: string, n: nat, i: int)
    requires |steps| == n + 1
    ensures LeftOpen(cfg, s0, steps, k, c, i) <==>
            if i == n then Opens(cfg, s0, steps, k, c, n)
            else LeftOpen(cfg, s0, steps[..n], k, c, i) && !Closes(cfg, s0, steps, k, c, n)
  {
    if i < n {
      OpensPrefix(cfg, s0, steps, k, c, n, i);
      forall j | i < j < n ensures Closes(cfg, s0, steps[..n], k, c, j) <==> Closes(cfg, s0, steps, k, c, j) {
        OpensPrefix(cfg, s0, steps, k, c, n, j);
      }
    }
  }

  /** Some step of the run left the container exposed. */
  ghost predicate SomeLeftOpen(cfg: Config, s0: State, steps: seq<Step>, k: string, c: string) {
    exists i :: LeftOpen(cfg, s0, steps, k, c, i)
  }

  lemma SomeLeftOpenSnoc(cfg: Config, s0: State, steps: seq<Step>, k: string, c: string, n: nat)
    requires |steps| == n + 1
    ensures SomeLeftOpen(cfg, s0, steps, k, c) <==>
            || Opens(cfg, s0, steps, k, c, n)
            || (SomeLeftOpen(cfg, s0, steps[..n], k, c) && !Closes(cfg, s0, steps, k, c, n))
  {
    if i :| LeftOpen(cfg, s0, steps, k, c, i) {
      LeftOpenSnoc(cfg, s0, steps, k, c, n, i);
    }
    if i :| LeftOpen(cfg, s0, steps[..n], k, c, i) {
      LeftOpenSnoc(cfg, s0, steps, k, c, n, i);
    }
    LeftOpenSnoc(cfg, s0, steps, k, c, n, n);
  }

  lemma ExposedSnoc(cfg: Config, s0: State, steps: seq<Step>, k: string, c: string, n: nat)
    requires Initial(s0) && |steps| == n + 1
    ensures Exposed(Exec(cfg, s0, steps), k, c) <==>
            || Opens(cfg, s0, steps, k, c, n)
            || (Exposed(Exec(cfg, s0, steps[..n]), k, c) && !Closes(cfg, s0, steps, k, c, n))
  {
    RunKeeps(cfg, s0, steps[..n]);
    ExposedNext(cfg, Exec(cfg, s0, steps[..n]), LostAfter(cfg, s0, steps[..n]), steps[n], k, c);
  }

  /** After any run, a container is exposed if and only if some step exposed it and none since covered
      it. */
  lemma {:induction false} ExposedRun(cfg: Config, s0: State, steps: seq<Step>, k: string, c: string)
    requires Initial(s0)
    ensures Exposed(Exec(cfg, s0, steps), k, c) <==> SomeLeftOpen(cfg, s0, steps, k, c)
    decreases |steps|
  {
    if steps != [] {
      var n := |steps| - 1;
      ExposedRun(cfg, s0, steps[..n], k, c);
      ExposedSnoc(cfg, s0, steps, k, c, n);
      SomeLeftOpenSnoc(cfg, s0, steps, k, c, n);
    }
  }

  /** Restart r of the run found the container exposed, and its pod was not deleted since. */
  ghost predicate OrphanedBy(cfg: Config, s0: State, steps: seq<Step>, k: string, c: string, r: int) {
    0 <= r < |steps| && steps[r] == Restart && SomeLeftOpen(cfg, s0, steps[..r], k, c) &&
    forall j :: r < j < |steps| ==> steps[j] != Delete(k)
  }

  lemma OrphanedSnoc(cfg: Config, s0: State, steps: seq<Step>, k: string, c: string, n: nat, r: int)
    requires |steps| == n + 1
    ensures OrphanedBy(cfg, s0, steps, k, c, r) <==>
            if r == n then steps[n] == Restart && SomeLeftOpen(cfg, s0, steps[..n], k, c)
            else OrphanedBy(cfg, s0, steps[..n], k, c, r) && steps[n] != Delete(k)
  {
    if 0 <= r < n {
      assert steps[..n][..r] == steps[..r];
      assert forall j :: 0 <= j < n ==> steps[..n][j] == steps[j];
    }
  }

  /** What is lost after one more step. */
  lemma LostSnoc(cfg: Config, s: State, lost: Pairs, step: Step, k: string, c: string)
    requires Inv(cfg, s, lost)
    ensures (k, c) in NextLost(cfg, s, step, lost) <==>
            ((k, c) in lost && step != Delete(k)) || (step == Restart && Exposed(s, k, c))
  {
    LostIffExposed(cfg, s, k, c);
    if (k, c) in lost && step != Delete(k) {
      LostStays(cfg, s, lost, step, k, c);
    }
  }

  /** The orphans of a run, exactly: a container is orphaned if and only if some restart fell after a
      step that exposed it (a lowering the ledger did not yet name, or a late forget of a pod lowered
      again), before any ledger write, restore or deletion covered it, and its pod lives on. */
  lemma {:induction false} OrphanedExactly(cfg: Config, s0: State, steps: seq<Step>, k: string, c: string)
    requires Initial(s0)
    ensures (k, c) in LostAfter(cfg, s0, steps) <==> exists r :: OrphanedBy(cfg, s0, steps, k, c, r)
    decreases |steps|
  {
    if steps != [] {
      var n := |steps| - 1;
      OrphanedExactly(cfg, s0, steps[..n], k, c);
      LostLast(cfg, s0, steps, k, c, n);
      OrphanedLast(cfg, s0, steps, k, c, n);
    }
  }

  lemma LostLast(cfg: Config, s0: State, steps: seq<Step>, k: string, c: string, n: nat)
    requires Initial(s0) && |steps| == n + 1
    ensures (k, c) in LostAfter(cfg, s0, steps) <==>
            || ((k, c) in LostAfter(cfg, s0, steps[..n]) && steps[n] != Delete(k))
            || (steps[n] == Restart && SomeLeftOpen(cfg, s0, steps[..n], k, c))
  {
    RunKeeps(cfg, s0, steps[..n]);
    LostSnoc(cfg, Exec(cfg, s0, steps[..n]), LostAfter(cfg, s0, steps[..n]), steps[n], k, c);
    ExposedRun(cfg, s0, steps[..n], k, c);
  }

  lemma OrphanedLast(cfg: Config, s0: State, steps: seq<Step>, k: string, c: string, n: nat)
    requires |steps| == n + 1
    ensures (exists r :: OrphanedBy(cfg, s0, steps, k, c, r)) <==>
            || ((exists r :: OrphanedBy(cfg, s0, steps[..n], k, c, r)) && steps[n] != Delete(k))
            || (steps[n] == Restart && SomeLeftOpen(cfg, s0, steps[..n], k, c))
  {
    forall r { OrphanedSnoc(cfg, s0, steps, k, c, n, r); }
    if steps[n] == Restart && SomeLeftOpen(cfg, s0, steps[..n], k, c) {
      assert OrphanedBy(cfg, s0, steps, k, c, n);
    }
    if r :| OrphanedBy(cfg, s0, steps[..n], k, c, r) {
      assert steps[n] != Delete(k) ==> OrphanedBy(cfg, s0, steps, k, c, r);
    }
  }

  // ----- runs without a window -----

  /** A step that opens no window: ledger writes succeed, the process is not killed inside a throttle,
      and a pod is not lowered again while its last throttle is still being forgotten. */
  ghost predicate Benign(cfg: Config, s: State, step: Step) {
    match step
    case Act(_, _, _) => forall k, c :: Lowers(cfg, s, step, k, c) ==> k !in s.unforgotten
    case Persist(_, ok) => ok
    case Restart => s.patched == map[] && s.unsaved == map[]
    case _ => true
  }

  ghost predicate AllBenign(cfg: Config, s: State, steps: seq<Step>) {
    steps == [] ||
    var before := steps[..|steps| - 1];
    AllBenign(cfg, s, before) && Benign(cfg, Exec(cfg, s, before), steps[|steps| - 1])
  }

  /** A throttle of this container is between its patch and the end of its ledger write. */
  predicate InFlight(s: State, k: string, c: string) {
    (k in s.patched && s.patched[k].container == c) || (k in s.unsaved && s.unsaved[k].container == c)
  }

  /** A forget outstanding belongs to a pod with no record in memory. */
  ghost predicate ForgetsSettled(s: State) {
    forall k :: k in s.unforgotten ==> k !in s.throttled && k !in s.patched
  }

  ghost predicate OnlyInFlight(s: State) {
    forall k, c :: Exposed(s, k, c) ==> InFlight(s, k, c)
  }

  lemma SettledActOn(cfg: Config, s: State, t: Target, api: ActOutcome)
    requires ForgetsSettled(s) && Free(s, t.Key())
    requires WillLower(cfg, s, t) && api.getOk && api.patchOk ==> t.Key() !in s.unforgotten
    ensures ForgetsSettled(ActOn(cfg, s, t, api))
  {
    if WillLower(cfg, s, t) && api.getOk && api.patchOk {
      ActWithLowering(cfg, s, t, api);
    } else {
      ActWithoutLowering(cfg, s, t, api);
    }
  }

  lemma SettledNext(cfg: Config, s: State, step: Step)
    requires InFlightAlone(s) && ForgetsSettled(s) && Benign(cfg, s, step)
    ensures ForgetsSettled(Next(cfg, s, step))
  {
    match step {
      case Act(snap, i, api) =>
        var ts := TargetsOf(snap, cfg.gate);
        if i < |ts| && Free(s, ts[i].Key()) {
          assert Lowers(cfg, s, step, ts[i].Key(), ts[i].container) ==> ts[i].Key() !in s.unforgotten;
          SettledActOn(cfg, s, ts[i], api);
        }
      case _ =>
    }
  }

  lemma KeepInFlight(cfg: Config, s: State, key: string, k: string, c: string)
    requires InFlight(s, k, c) && InFlightAlone(s)
    ensures InFlight(KeepStep(cfg, s, key), k, c)
  {
  }

  lemma PersistInFlight(cfg: Config, s: State, key: string, ok: bool, k: string, c: string)
    requires InFlight(s, k, c) && !(key == k && k in s.unsaved && s.unsaved[k].container == c)
    ensures InFlight(PersistStep(cfg, s, key, ok), k, c)
  {
  }

  lemma ActInFlight(cfg: Config, s: State, t: Target, api: ActOutcome, k: string, c: string)
    requires InFlight(s, k, c) && Free(s, t.Key())
    ensures InFlight(ActOn(cfg, s, t, api), k, c)
  {
  }

  lemma RestoreInFlight(s: State, key: string, ok: bool, k: string, c: string)
    requires InFlight(s, k, c)
    ensures InFlight(RestoreStep(s, key, ok), k, c)
  {
  }

  /** A throttle in flight stays so until a step covers it. */
  lemma InFlightNext(cfg: Config, s: State, step: Step, k: string, c: string)
    requires InFlightAlone(s) && InFlight(s, k, c) && Benign(cfg, s, step) && !Covers(cfg, s, step, k, c)
    requires cfg.durable && step != Restart
    ensures InFlight(Next(cfg, s, step), k, c)
  {
    match step {
      case Act(snap, i, api) =>
        var ts := TargetsOf(snap, cfg.gate);
        if i < |ts| && Free(s, ts[i].Key()) { ActInFlight(cfg, s, ts[i], api, k, c); }
      case Keep(key) => KeepInFlight(cfg, s, key, k, c);
      case Persist(key, ok) => PersistInFlight(cfg, s, key, ok, k, c);
      case Restore(key, ok) => RestoreInFlight(s, key, ok, k, c);
      case Forget(key, ok) => ForgetFrame(cfg, s, key, ok);
      case _ =>
    }
  }

  /** A pod whose forget is outstanding is not lowered. */
  lemma NoLateForget(cfg: Config, s: State, k: string, c: string)
    requires Inv(cfg, s, {}) && ForgetsSettled(s) && k in s.unforgotten
    ensures !IsLowered(s, k, c)
  {
    assert !Tracked(s, k, c);
  }

  /** The only step of a benign run that exposes a container puts it in flight. */
  lemma ExposesInFlight(cfg: Config, s: State, step: Step, k: string, c: string)
    requires Inv(cfg, s, {}) && ForgetsSettled(s) && Exposes(cfg, s, step, k, c)
    ensures step.Act? && InFlight(Next(cfg, s, step), k, c)
  {
    if k in s.unforgotten {
      NoLateForget(cfg, s, k, c);
    }
    ActWithLowering(cfg, s, TargetsOf(step.snap, cfg.gate)[step.i], step.api);
  }

  lemma OnlyInFlightNext(cfg: Config, s: State, step: Step, k: string, c: string)
    requires Inv(cfg, s, {}) && cfg.durable && OnlyInFlight(s) && ForgetsSettled(s) && Benign(cfg, s, step)
    requires Exposed(Next(cfg, s, step), k, c)
    ensures step != Restart && InFlight(Next(cfg, s, step), k, c)
  {
    ExposedNext(cfg, s, {}, step, k, c);
    if Exposes(cfg, s, step, k, c) {
      ExposesInFlight(cfg, s, step, k, c);
    } else {
      assert InFlight(s, k, c);
      InFlightNext(cfg, s, step, k, c);
    }
  }

  lemma NothingLost(cfg: Config, s: State, step: Step)
    requires Inv(cfg, s, {}) && OnlyInFlight(s) && Benign(cfg, s, step)
    ensures NextLost(cfg, s, step, {}) == {}
  {
    if step == Restart {
      forall k, c ensures (k, c) !in LostByRestart(cfg, s) {
        LostIffExposed(cfg, s, k, c);
      }
    }
  }

  lemma {:induction false} BenignRun(cfg: Config, s0: State, steps: seq<Step>)
    requires Initial(s0) && cfg.durable && AllBenign(cfg, s0, steps)
    ensures OnlyInFlight(Exec(cfg, s0, steps)) && ForgetsSettled(Exec(cfg, s0, steps))
    ensures LostAfter(cfg, s0, steps) == {}
    decreases |steps|
  {
    if steps != [] {
      var before, step := steps[..|steps| - 1], steps[|steps| - 1];
      BenignRun(cfg, s0, before);
      RunKeeps(cfg, s0, before);
      var s := Exec(cfg, s0, before);
      forall k, c | Exposed(Next(cfg, s, step), k, c) ensures InFlight(Next(cfg, s, step), k, c) {
        OnlyInFlightNext(cfg, s, step, k, c);
      }
      SettledNext(cfg, s, step);
      NothingLost(cfg, s, step);
    }
  }

  /** Pod k's record of container c, with the limit its owner declared. */
  predicate RecordOf(s: State, k: string, c: string) {
    k in s.throttled && FitsRecord(s.declared, k, s.throttled[k]) && s.throttled[k].container == c
  }

  lemma RecoveredRecord(cfg: Config, s: State, k: string, c: string)
    requires Inv(cfg, s, {}) && cfg.durable && IsLowered(s, k, c) && InLedger(s, k, c)
    ensures RecordOf(RestartStep(cfg, s), k, c)
  {
    RecoverFinds(s, k);
    RecoveredFit(s, k);
  }

  /** Restart safety over whole runs: whatever mix of throttles, restores, failed restores and forgets,
      Events, pod churn and restarts, as long as no step opens a window every lowered container of an
      existing pod has a record with its declared limit, and a restart between two throttles keeps it. */
  lemma RestartSafety(cfg: Config, s0: State, steps: seq<Step>, k: string, c: string)
    requires Initial(s0) && cfg.durable && AllBenign(cfg, s0, steps)
    requires IsLowered(Exec(cfg, s0, steps), k, c)
    ensures var s := Exec(cfg, s0, steps);
            && (k in s.patched ==> s.patched[k].container == c && FitsLowering(s.declared, k, s.patched[k]))
            && (k !in s.patched ==> RecordOf(s, k, c))
            && (!InFlight(s, k, c) ==> RecordOf(RestartStep(cfg, s), k, c))
  {
    var s := Exec(cfg, s0, steps);
    BenignRun(cfg, s0, steps);
    RunKeeps(cfg, s0, steps);
    assert Tracked(s, k, c);
    if !InFlight(s, k, c) {
      assert !Exposed(s, k, c);
      RecoveredRecord(cfg, s, k, c);
    }
  }

  // ----- each window is real -----

  const ALL_OK := ActOutcome(true, true, true)

  /** Lowering a target exposes it unless an older ledger entry names it; recording it in memory
      changes nothing about that. */
  lemma LoweredExposed(cfg: Config, s: State, t: Target)
    requires Core(cfg, s) && WillLower(cfg, s, t)
    ensures var k, c := t.Key(), t.container;
            && (Exposed(Lower(s, t), k, c) <==> !InLedger(s, k, c))
            && (Exposed(KeepStep(cfg, Lower(s, t), k), k, c) <==> !InLedger(s, k, c))
  {
    LowerLowers(cfg, s, t, t.Key(), t.container);
    KeepFrame(cfg, Lower(s, t), t.Key());
    ExposureSame(Lower(s, t), KeepStep(cfg, Lower(s, t), t.Key()), t.Key(), t.container);
  }

  lemma KeepUnsaved(cfg: Config, s: State, t: Target)
    requires WillLower(cfg, s, t)
    ensures var s' := KeepStep(cfg, Lower(s, t), t.Key());
            t.Key() in s'.unsaved && s'.unsaved[t.Key()].container == t.container
  {
  }

  /** Killed after the patch, after the in-memory record, or after a failed persist, the container is
      lost unless an older ledger entry happens to name it; after a completed persist it is not. */
  lemma CrashWindow(cfg: Config, s: State, lost: Pairs, t: Target)
    requires Inv(cfg, s, lost) && cfg.durable && WillLower(cfg, s, t)
    ensures var k := t.Key();
            var afterPatch := ActOn(cfg, s, t, ALL_OK);
            var afterRecord := KeepStep(cfg, afterPatch, k);
            var afterFailure := PersistStep(cfg, afterRecord, k, false);
            var afterSuccess := PersistStep(cfg, afterRecord, k, true);
            && ((k, t.container) in LostByRestart(cfg, afterPatch) <==> !InLedger(s, k, t.container))
            && ((k, t.container) in LostByRestart(cfg, afterRecord) <==> !InLedger(s, k, t.container))
            && ((k, t.container) in LostByRestart(cfg, afterFailure) <==> !InLedger(s, k, t.container))
            && (k, t.container) !in LostByRestart(cfg, afterSuccess)
  {
    var k, c := t.Key(), t.container;
    ActWithLowering(cfg, s, t, ALL_OK);
    var s1 := Lower(s, t);
    var s2 := KeepStep(cfg, s1, k);
    LoweredExposed(cfg, s, t);
    KeepUnsaved(cfg, s, t);
    LostIffExposed(cfg, s1, k, c);
    LostIffExposed(cfg, s2, k, c);
    PersistedExposed(cfg, s2, k, c, false);
    PersistedExposed(cfg, s2, k, c, true);
  }

  /** The ledger write of its record is what covers a container, and only if it succeeds. */
  lemma PersistedExposed(cfg: Config, s: State, k: string, c: string, ok: bool)
    requires cfg.durable && k in s.unsaved && s.unsaved[k].container == c
    ensures (k, c) in LostByRestart(cfg, PersistStep(cfg, s, k, ok)) <==> Exposed(s, k, c) && !ok
  {
    PersistFrame(cfg, s, k, ok);
    SameLimits(s, PersistStep(cfg, s, k, ok), k, c);
    LostIffExposed(cfg, PersistStep(cfg, s, k, ok), k, c);
  }

  /** The state after a throttle in which every call succeeds. */
  function Throttled(cfg: Config, s: State, t: Target): State
    requires Room(s.pods, t.Key(), t.container)
  {
    PersistStep(cfg, KeepStep(cfg, Lower(s, t), t.Key()), t.Key(), true)
  }

  function RecordFor(cfg: Config, s: State, t: Target): Record
    requires Room(s.pods, t.Key(), t.container)
  {
    Record(t.ns, t.pod, t.container, s.pods[t.Key()][t.container].limit.value, s.now + cfg.restoreAfter)
  }

  lemma KeptFields(cfg: Config, s: State, t: Target)
    requires WillLower(cfg, s, t)
    ensures var k, r := t.Key(), RecordFor(cfg, s, t);
            KeepStep(cfg, Lower(s, t), k) ==
            Lower(s, t).(patched := s.patched, throttled := s.throttled[k := r], unsaved := s.unsaved[k := r])
  {
    var k := t.Key();
    assert s.patched[k := Lower(s, t).patched[k]] - {k} == s.patched;
  }

  lemma ThrottledFields(cfg: Config, s: State, t: Target)
    requires cfg.durable && WillLower(cfg, s, t)
    ensures var k, r := t.Key(), RecordFor(cfg, s, t);
            Throttled(cfg, s, t) ==
            Lower(s, t).(patched := s.patched, throttled := s.throttled[k := r], ledger := s.ledger[CmKey(k) := r])
  {
    var k, r := t.Key(), RecordFor(cfg, s, t);
    KeptFields(cfg, s, t);
    assert s.unsaved[k := r] - {k} == s.unsaved;
  }

  /** The restore loop deletes the record from memory before it deletes it from the ledger. The delete
      that follows a new throttle of the pod orphans it at the next restart if and only if it succeeds
      and belongs to an earlier throttle: with the forget outstanding, every call succeeded and the
      record is in memory, yet the new ledger entry is gone. */
  lemma LateForgetWindow(cfg: Config, s: State, lost: Pairs, t: Target, ok: bool)
    requires Inv(cfg, s, lost) && cfg.durable && WillLower(cfg, s, t)
    ensures var k, c := t.Key(), t.container;
            var saved := Throttled(cfg, s, t);
            var after := ForgetStep(cfg, saved, k, ok);
            && InLedger(saved, k, c) && IsLowered(after, k, c) && k in after.throttled
            && ((k, c) in LostByRestart(cfg, after) <==> ok && k in s.unforgotten)
  {
    var k, c := t.Key(), t.container;
    ThrottledFields(cfg, s, t);
    LowerLowers(cfg, s, t, k, c);
    SavedThenForget(cfg, Lower(s, t), Throttled(cfg, s, t), k, c, ok);
  }

  lemma ForgetOwn(cfg: Config, s: State, k: string, c: string, ok: bool)
    requires cfg.durable
    ensures InLedger(ForgetStep(cfg, s, k, ok), k, c) <==> InLedger(s, k, c) && !(ok && k in s.unforgotten)
  {
  }

  lemma SavedThenForget(cfg: Config, s1: State, saved: State, k: string, c: string, ok: bool)
    requires cfg.durable && saved.pods == s1.pods && saved.declared == s1.declared
    requires IsLowered(s1, k, c) && InLedger(saved, k, c) && k in saved.throttled
    ensures var after := ForgetStep(cfg, saved, k, ok);
            && IsLowered(after, k, c) && k in after.throttled
            && ((k, c) in LostByRestart(cfg, after) <==> ok && k in saved.unforgotten)
  {
    SameLimits(s1, saved, k, c);
    ForgetFrame(cfg, saved, k, ok);
    SameLimits(saved, ForgetStep(cfg, saved, k, ok), k, c);
    ForgetOwn(cfg, saved, k, c, ok);
    LostIffExposed(cfg, ForgetStep(cfg, saved, k, ok), k, c);
  }

  lemma SetLimitBack(pods: map<string, PodSpec>, k: string, c: string, low: int, high: int)
    requires k in pods && c in pods[k] && pods[k][c].limit == Some(high)
    ensures SetLimit(SetLimit(pods, k, c, low), k, c, high) == pods
  {
    var lowered := SetLimit(pods, k, c, low);
    var low1: PodSpec := lowered[k];
    var res: Resources := low1[c];
    assert res.(limit := Some(high)) == pods[k][c];
    assert low1[c := res.(limit := Some(high))] == pods[k];
  }

  /** The restore of that throttle after the clock moved on. */
  lemma RestoredFields(cfg: Config, s: State, t: Target, d: nat)
    requires cfg.durable && WillLower(cfg, s, t) && d > cfg.restoreAfter
    ensures var k := t.Key();
            var saved := Throttled(cfg, s, t);
            RestoreStep(saved.(now := saved.now + d), k, true) ==
            saved.(now := s.now + d, pods := s.pods, throttled := s.throttled, unforgotten := s.unforgotten + {k})
  {
    var k, r := t.Key(), RecordFor(cfg, s, t);
    ThrottledFields(cfg, s, t);
    SetLimitBack(s.pods, k, t.container, s.pods[k][t.container].request.value, r.original);
    assert s.throttled[k := r] - {k} == s.throttled;
  }

  /** That window opens on its own: from any state about to lower a pod, one throttle and its restore
      lead to a state about to lower the same pod with its forget outstanding. */
  lemma LateForgetReachable(cfg: Config, s: State, t: Target, d: nat)
    requires cfg.durable && WillLower(cfg, s, t) && d > cfg.restoreAfter && d >= cfg.cooldown
    ensures var saved := Throttled(cfg, s, t);
            var s' := RestoreStep(saved.(now := saved.now + d), t.Key(), true);
            WillLower(cfg, s', t) && t.Key() in s'.unforgotten && s'.pods == s.pods
  {
    ThrottledFields(cfg, s, t);
    RestoredFields(cfg, s, t, d);
  }

  /** One throttle of a snapshot's target in which every call succeeds. */
  function ThrottleSteps(snap: Snapshot, i: nat, k: string): seq<Step> {
    [Act(snap, i, ALL_OK), Keep(k), Persist(k, true)]
  }

  lemma ThrottleRun(cfg: Config, s: State, snap: Snapshot, i: nat, t: Target)
    requires i < |TargetsOf(snap, cfg.gate)| && t == TargetsOf(snap, cfg.gate)[i] && WillLower(cfg, s, t)
    ensures Exec(cfg, s, ThrottleSteps(snap, i, t.Key())) == Throttled(cfg, s, t)
  {
    ActWithLowering(cfg, s, t, ALL_OK);
    ExecThree(cfg, s, Act(snap, i, ALL_OK), Keep(t.Key()), Persist(t.Key(), true));
  }

  /** Throttle, wait, restore. */
  function ToRestored(snap: Snapshot, i: nat, k: string, d: nat): seq<Step> {
    ThrottleSteps(snap, i, k) + [Tick(d), Restore(k, true)]
  }

  /** Throttle, wait, restore, throttle again before the forget, forget. */
  function OvertakenForget(snap: Snapshot, i: nat, k: string, d: nat): seq<Step> {
    ToRestored(snap, i, k, d) + ThrottleSteps(snap, i, k) + [Forget(k, true)]
  }

  lemma RestoredRun(cfg: Config, s: State, snap: Snapshot, i: nat, d: nat, t: Target)
    requires i < |TargetsOf(snap, cfg.gate)| && t == TargetsOf(snap, cfg.gate)[i] && WillLower(cfg, s, t)
    ensures var saved := Throttled(cfg, s, t);
            Exec(cfg, s, ToRestored(snap, i, t.Key(), d)) == RestoreStep(saved.(now := saved.now + d), t.Key(), true)
  {
    ThrottleRun(cfg, s, snap, i, t);
    ExecPair(cfg, s, ThrottleSteps(snap, i, t.Key()), Tick(d), Restore(t.Key(), true));
  }

  lemma OvertakenRun(cfg: Config, s: State, s': State, snap: Snapshot, i: nat, d: nat, t: Target)
    requires i < |TargetsOf(snap, cfg.gate)| && t == TargetsOf(snap, cfg.gate)[i] && WillLower(cfg, s', t)
    requires Exec(cfg, s, ToRestored(snap, i, t.Key(), d)) == s'
    ensures Exec(cfg, s, OvertakenForget(snap, i, t.Key(), d)) == ForgetStep(cfg, Throttled(cfg, s', t), t.Key(), true)
  {
    var k := t.Key();
    var first, again := ToRestored(snap, i, k, d), ThrottleSteps(snap, i, k);
    ThrottleRun(cfg, s', snap, i, t);
    ExecConcat(cfg, s, first, again);
    ExecSnoc(cfg, s, first + again, Forget(k, true));
  }

  /** So from any start about to lower a pod there is a run in which every call succeeds and the
      process is killed only with no throttle in flight, and still the container is orphaned. */
  lemma LateForgetLoses(cfg: Config, s0: State, snap: Snapshot, i: nat, d: nat)
    requires Initial(s0) && cfg.durable && i < |TargetsOf(snap, cfg.gate)|
    requires WillLower(cfg, s0, TargetsOf(snap, cfg.gate)[i]) && d > cfg.restoreAfter && d >= cfg.cooldown
    ensures var t := TargetsOf(snap, cfg.gate)[i];
            (t.Key(), t.container) in LostAfter(cfg, s0, OvertakenForget(snap, i, t.Key(), d) + [Restart])
  {
    var t := TargetsOf(snap, cfg.gate)[i];
    var first, run := ToRestored(snap, i, t.Key(), d), OvertakenForget(snap, i, t.Key(), d);
    var s' := Exec(cfg, s0, first);
    TargetsGenuine(snap, cfg.gate, t);
    RestoredRun(cfg, s0, snap, i, d, t);
    LateForgetReachable(cfg, s0, t, d);
    OvertakenRun(cfg, s0, s', snap, i, d, t);
    RunKeeps(cfg, s0, first);
    LateForgetWindow(cfg, s', LostAfter(cfg, s0, first), t, true);
    LostAtRestart(cfg, s0, run);
  }

  lemma LostAtRestart(cfg: Config, s0: State, run: seq<Step>)
    ensures LostAfter(cfg, s0, run + [Restart]) == LostByRestart(cfg, Exec(cfg, s0, run))
  {
    assert (run + [Restart])[..|run|] == run;
  }
}
