/** The controller's remediator as the object it is: maps it updates in place, loops over targets and
    due entries, and calls to an API server. Each method is tied to the steps of the protocol. */
module Remediation {
  import opened Options
  import opened Identity
  import opened Targets
  import opened Protocol
  import opened Safety
  import opened Exposure
  import opened Actuation

  /** What an Event on a pod announces. */
  datatype Announcement = Recommended | Throttling | Restoring

  datatype Event = Event(key: string, what: Announcement)

  /** The cluster as the controller sees it. A call's outcome is a parameter: true means the server
      carried it out (or, for a missing pod, answered NotFound), false a transient error. */
  class ApiServer {
    var pods: map<string, PodSpec>
    var ledger: map<string, Record>
    var events: seq<Event>
    var now: int
    ghost var declared: map<string, PodSpec>
    ghost var acts: seq<Action>

    /** patchCPULimit: the server rejects a container the pod does not have. */
    method PatchLimit(key: string, c: string, cpu: int, ok: bool) returns (err: bool, notFound: bool)
      modifies this`pods
      ensures notFound == (ok && key !in pods)
      ensures err == !(ok && key in old(pods) && c in old(pods)[key])
      ensures pods == if err then old(pods) else SetLimit(old(pods), key, c, cpu)
    {
      if !ok {
        return true, false;
      }
      if key !in pods {
        return true, true;
      }
      if c !in pods[key] {
        return true, false;
      }
      pods := pods[key := pods[key][c := pods[key][c].(limit := Some(cpu))]];
      return false, false;
    }

    /** emitEvent. */
    method CreateEvent(key: string, what: Announcement, ok: bool) returns (err: bool)
      modifies this`events
      ensures err == !ok && events == old(events) + Emitted(ok, key, what)
    {
      if !ok {
        return true;
      }
      events := events + [Event(key, what)];
      return false;
    }
  }

  /** NewRemediator's defaults: five minutes between actions, ten minutes of throttle. */
  function Defaulted(cfg: Config): Config {
    cfg.(cooldown := if cfg.cooldown <= 0 then 300_000_000_000 else cfg.cooldown,
         restoreAfter := if cfg.restoreAfter <= 0 then 600_000_000_000 else cfg.restoreAfter)
  }

  /** Outcomes for one target: the action's own calls, the ledger write and the announcement. */
  datatype Outcome = Outcome(act: ActOutcome, persistOk: bool, announceOk: bool)

  function Emitted(ok: bool, key: string, what: Announcement): seq<Event> {
    if ok then [Event(key, what)] else []
  }

  /** The patch of this target goes through. */
  predicate Patches(cfg: Config, s: State, t: Target, api: ActOutcome) {
    cfg.resize && t.resource == Cpu && api.getOk && Room(s.pods, t.Key(), t.container) && api.patchOk
  }

  /** The Events an action on a target that is due leaves behind. */
  function Announced(cfg: Config, s: State, t: Target, o: Outcome): seq<Event> {
    if cfg.dryRun then []
    else if Patches(cfg, s, t, o.act) then Emitted(o.announceOk, t.Key(), Throttling)
    else Emitted(o.act.eventOk, t.Key(), Recommended)
  }

  /** The steps Remediate takes for the first n targets of a snapshot. */
  function RemediateRun(ts: seq<Target>, snap: Snapshot, n: nat, outs: nat -> Outcome): seq<Step>
    requires n <= |ts|
  {
    if n == 0 then []
    else
      var k := ts[n - 1].Key();
      RemediateRun(ts, snap, n - 1, outs) +
      [Act(snap, n - 1, outs(n - 1).act), Keep(k), Persist(k, outs(n - 1).persistOk)]
  }

  /** The target is allowed, not throttled yet and out of cooldown. */
  predicate Due(cfg: Config, s: State, t: Target) {
    Allowed(cfg, t.ns) && t.Key() !in s.throttled && OutOfCooldown(cfg, s, t.Key())
  }

  /** Patched, recorded, and persisted or not. */
  function Lowered(cfg: Config, s: State, t: Target, persistOk: bool): State
    requires Room(s.pods, t.Key(), t.container)
  {
    PersistStep(cfg, KeepStep(cfg, Lower(s, t), t.Key()), t.Key(), persistOk)
  }

  /** What the tiers do once the cooldown is taken. */
  function AfterCooldown(cfg: Config, s: State, t: Target, o: Outcome): State {
    if cfg.dryRun then s
    else if Patches(cfg, s, t, o.act) then Lowered(cfg, s, t, o.persistOk)
    else if o.act.eventOk then s.(acts := s.acts + [Action(t.Key(), s.now, EventCreated)])
    else s.(lastActed := s.lastActed - {t.Key()})
  }

  /** The protocol's steps for one target: action, record, persist. */
  function TargetSteps(cfg: Config, s: State, t: Target, o: Outcome): State {
    PersistStep(cfg, KeepStep(cfg, ActOn(cfg, s, t, o.act), t.Key()), t.Key(), o.persistOk)
  }

  /** That is, for each target in turn, its action, its record and its ledger write. */
  lemma {:induction false} RemediateRunSteps(ts: seq<Target>, snap: Snapshot, n: nat, outs: nat -> Outcome, i: nat)
    requires i < n <= |ts|
    ensures var run := RemediateRun(ts, snap, n, outs);
            |run| == 3 * n && run[3 * i] == Act(snap, i, outs(i).act) && run[3 * i + 1] == Keep(ts[i].Key()) &&
            run[3 * i + 2] == Persist(ts[i].Key(), outs(i).persistOk)
    decreases n
  {
    if n > 1 {
      RemediateRunSteps(ts, snap, n - 1, outs, if i < n - 1 then i else 0);
    }
  }

  /** Whatever a due target is for, it leaves one Event exactly when the call that emits it succeeds: the
      announcement of a throttle that went through, the recommendation otherwise; a dry run leaves none. */
  lemma AnnouncedExactly(cfg: Config, s: State, t: Target, o: Outcome, ev: Event)
    ensures ev in Announced(cfg, s, t, o) <==>
            && !cfg.dryRun && ev.key == t.Key()
            && (if cfg.resize && t.resource == Cpu && o.act.getOk && o.act.patchOk && Room(s.pods, t.Key(), t.container)
                then ev.what == Throttling && o.announceOk else ev.what == Recommended && o.act.eventOk)
    ensures |Announced(cfg, s, t, o)| <= 1
  {
  }

  class Remediator {
    const cfg: Config
    const api: ApiServer
    var throttled: map<string, Record>
    var lastActed: map<string, int>
    // calls in flight; none between two calls of the public methods
    ghost var patched: map<string, Lowering>
    ghost var unsaved: map<string, Record>
    ghost var unforgotten: set<string>

    ghost function View(): State
      reads this, api
    {
      State(api.pods, api.declared, api.ledger, api.now, api.acts, throttled, lastActed, patched, unsaved, unforgotten)
    }

    /** Every record sits under its own pod's key. */
    ghost predicate Keyed()
      reads this
    {
      forall k :: k in throttled ==> k == RecordKey(throttled[k])
    }

    ghost predicate Idle()
      reads this
    {
      patched == map[] && unsaved == map[] && unforgotten == {}
    }

    constructor (cfg: Config, api: ApiServer)
      ensures this.cfg == Defaulted(cfg) && this.api == api && this.cfg.cooldown > 0 && this.cfg.restoreAfter > 0
      ensures this.cfg.cooldown == if cfg.cooldown > 0 then cfg.cooldown else 5 * 60 * 1_000_000_000
      ensures this.cfg.restoreAfter == if cfg.restoreAfter > 0 then cfg.restoreAfter else 10 * 60 * 1_000_000_000
      ensures throttled == map[] && lastActed == map[] && Idle() && Keyed()
    {
      this.cfg := Defaulted(cfg);
      this.api := api;
      throttled, lastActed := map[], map[];
      patched, unsaved, unforgotten := map[], map[], {};
    }

    /** A new process takes over from a dead one whose last state was prev. From a ledger this
        controller wrote and could read, that is the protocol's restart step. */
    method Recover(ghost prev: State, readOk: bool)
      requires throttled == map[] && lastActed == map[] && Idle()
      requires prev.pods == api.pods && prev.declared == api.declared && prev.ledger == api.ledger
      requires prev.now == api.now && prev.acts == api.acts
      modifies this`throttled
      ensures Keyed() && if cfg.durable && readOk then IsLoaded(throttled, api.ledger) else throttled == map[]
      ensures Tidy(api.ledger) && (cfg.durable ==> readOk) ==> View() == RestartStep(cfg, prev)
    {
      if !cfg.durable || !readOk {
        return;
      }
      throttled := LoadLedger(api.ledger);
      if Tidy(api.ledger) {
        LoadedIsRecovered(throttled, api.ledger);
      }
    }

    method IsThrottled(key: string) returns (b: bool)
      ensures b == (key in throttled)
    {
      b := key in throttled;
    }

    method TakeCooldown(key: string) returns (ok: bool)
      modifies this`lastActed
      ensures ok == old(OutOfCooldown(cfg, View(), key))
      ensures lastActed == if ok then old(lastActed)[key := api.now] else old(lastActed)
    {
      if key in lastActed && api.now - lastActed[key] < cfg.cooldown {
        return false;
      }
      lastActed := lastActed[key := api.now];
      return true;
    }

    method ClearCooldown(key: string)
      modifies this`lastActed
      ensures lastActed == old(lastActed) - {key}
    {
      lastActed := lastActed - {key};
    }

    method PersistCall(key: string, st: Record, ok: bool)
      requires key in unsaved && unsaved[key] == st
      modifies this`unsaved, api`ledger
      ensures View() == PersistStep(cfg, old(View()), key, ok)
    {
      if cfg.durable && ok {
        api.ledger := api.ledger[CmKey(key) := st];
      }
      unsaved := unsaved - {key};
    }

    method ForgetCall(key: string, ok: bool)
      requires key in unforgotten
      modifies this`unforgotten, api`ledger
      ensures View() == ForgetStep(cfg, old(View()), key, ok)
    {
      if cfg.durable && ok && CmKey(key) in api.ledger {
        api.ledger := api.ledger - {CmKey(key)};
      }
      unforgotten := unforgotten - {key};
    }

    /** The pod's CPU limit and request for the target's container, as far as the read finds them. */
    method ReadContainer(t: Target, getOk: bool) returns (limit: Option<int>, request: Option<int>)
      ensures limit.Some? && request.Some? && request.value < limit.value <==>
              getOk && Room(api.pods, t.Key(), t.container)
      ensures Room(api.pods, t.Key(), t.container) && getOk ==>
                limit == api.pods[t.Key()][t.container].limit && request == api.pods[t.Key()][t.container].request
    {
      var key := t.Key();
      limit, request := None, None;
      if getOk && key in api.pods && t.container in api.pods[key] {
        limit, request := api.pods[key][t.container].limit, api.pods[key][t.container].request;
      }
    }

    /** The patch of a target whose cooldown was just taken. */
    method PatchCall(t: Target, limit: int, request: int, ok: bool) returns (err: bool)
      requires Room(api.pods, t.Key(), t.container) && t.Key() in lastActed && lastActed[t.Key()] == api.now
      requires api.pods[t.Key()][t.container] == Resources(Some(limit), Some(request))
      modifies this`patched, api`pods, api`acts
      ensures err == !ok && View() == if ok then Lower(old(View()), t) else old(View())
    {
      ghost var taken := lastActed[t.Key() := api.now];
      assert taken == lastActed;
      var notFound;
      err, notFound := api.PatchLimit(t.Key(), t.container, request, ok);
      if err {
        return;
      }
      patched := patched[t.Key() := Lowering(t.ns, t.pod, t.container, limit)];
      api.acts := api.acts + [Action(t.Key(), api.now, LimitLowered)];
    }

    /** The in-memory record of a throttle. */
    method RecordCall(t: Target, limit: int) returns (st: Record)
      requires t.Key() in patched && patched[t.Key()] == Lowering(t.ns, t.pod, t.container, limit)
      modifies this`throttled, this`patched, this`unsaved
      ensures View() == KeepStep(cfg, old(View()), t.Key())
      ensures st == Record(t.ns, t.pod, t.container, limit, api.now + cfg.restoreAfter)
      ensures throttled == old(throttled)[t.Key() := st] && t.Key() in unsaved && unsaved[t.Key()] == st
    {
      var restoreAt := api.now + cfg.restoreAfter;
      st := Record(t.ns, t.pod, t.container, limit, restoreAt);
      throttled := throttled[t.Key() := st];
      patched, unsaved := patched - {t.Key()}, unsaved[t.Key() := st];
    }

    /** The /resize tier for one target whose cooldown was just taken: false sends it to the Event tier. */
    method Throttle(t: Target, o: Outcome) returns (done: bool)
      requires Idle() && Keyed() && t.Key() in lastActed && lastActed[t.Key()] == api.now
      modifies this`throttled, this`patched, this`unsaved, api`pods, api`ledger, api`acts, api`events
      ensures Idle() && Keyed()
      ensures api.events == old(api.events) + Emitted(done && o.announceOk, t.Key(), Throttling)
      ensures done == (o.act.getOk && old(Room(api.pods, t.Key(), t.container)) && o.act.patchOk)
      ensures View() == if done then Lowered(cfg, old(View()), t, o.persistOk) else old(View())
    {
      var limit, request := ReadContainer(t, o.act.getOk);
      if limit.None? || request.None? || request.value >= limit.value {
        return false;
      }
      var err := PatchCall(t, limit.value, request.value, o.act.patchOk);
      if err {
        return false;
      }
      var st := RecordCall(t, limit.value);
      PersistCall(t.Key(), st, o.persistOk);
      var _ := api.CreateEvent(t.Key(), Throttling, o.announceOk);
      return true;
    }

    /** The tiers, for a target whose cooldown was just taken. */
    method ActCall(t: Target, o: Outcome)
      requires Idle() && Keyed() && t.Key() in lastActed && lastActed[t.Key()] == api.now
      modifies this, api`pods, api`ledger, api`acts, api`events
      ensures Idle() && Keyed()
      ensures api.events == old(api.events) + Announced(cfg, old(View()), t, o)
      ensures View() == AfterCooldown(cfg, old(View()), t, o)
    {
      if cfg.dryRun {
        return;
      }
      if cfg.resize && t.resource == Cpu {
        var done := Throttle(t, o);
        if done {
          return;
        }
      }
      var err := api.CreateEvent(t.Key(), Recommended, o.act.eventOk);
      if err {
        ClearCooldown(t.Key());
        return;
      }
      api.acts := api.acts + [Action(t.Key(), api.now, EventCreated)];
    }

    /** One iteration of Remediate's loop. */
    method HandleTarget(t: Target, o: Outcome)
      requires Idle() && Keyed()
      modifies this, api`pods, api`ledger, api`acts, api`events
      ensures Idle() && Keyed()
      ensures api.events == old(api.events) + if Due(cfg, old(View()), t) then Announced(cfg, old(View()), t, o) else []
      ensures View() == TargetSteps(cfg, old(View()), t, o)
    {
      ghost var s0 := View();
      var due := TakeTurn(t);
      if !due {
        NotDue(cfg, s0, t, o);
        return;
      }
      TakenCooldown(cfg, s0, t, o);
      ActCall(t, o);
    }

    /** The three checks at the head of the loop; the last one takes the cooldown. */
    method TakeTurn(t: Target) returns (due: bool)
      modifies this`lastActed
      ensures due == Due(cfg, old(View()), t)
      ensures lastActed == if due then old(lastActed)[t.Key() := api.now] else old(lastActed)
    {
      if cfg.allow.Some? && t.ns !in cfg.allow.value {
        return false;
      }
      var known := IsThrottled(t.Key());
      if known {
        return false;
      }
      due := TakeCooldown(t.Key());
    }

    method Remediate(snap: Snapshot, outs: nat -> Outcome)
      requires Idle() && Keyed()
      modifies this, api`pods, api`ledger, api`acts, api`events
      ensures Idle() && Keyed()
      ensures old(api.events) <= api.events && (cfg.dryRun ==> api.events == old(api.events))
      ensures var ts := TargetsOf(snap, cfg.gate);
              View() == Exec(cfg, old(View()), RemediateRun(ts, snap, |ts|, outs))
    {
      var ts := ConfidentTargets(snap, cfg.gate);
      ghost var s0 := View();
      for i := 0 to |ts|
        invariant Idle() && Keyed()
        invariant old(api.events) <= api.events && (cfg.dryRun ==> api.events == old(api.events))
        invariant View() == Exec(cfg, s0, RemediateRun(ts, snap, i, outs))
      {
        ghost var s1 := View();
        HandleTarget(ts[i], outs(i));
        RemediateRunLast(cfg, s0, s1, ts, snap, i, outs);
      }
    }

    /** Put one pod's recorded limit back; true when the record is handled (restored, or the pod is
        gone) and can be forgotten. */
    method RestoreCall(st: Record, ok: bool, announceOk: bool) returns (handled: bool)
      modifies api`pods, api`events
      ensures api.events == old(api.events) +
                            Emitted(handled && RecordKey(st) in old(api.pods) && announceOk, RecordKey(st), Restoring)
      ensures var key := RecordKey(st);
              && (handled <==> ok && (key in old(api.pods) ==> st.container in old(api.pods)[key]))
              && api.pods == if handled && key in old(api.pods)
                             then SetLimit(old(api.pods), key, st.container, st.original) else old(api.pods)
    {
      var err, notFound := api.PatchLimit(PodKey(st.ns, st.pod), st.container, st.original, ok);
      handled := !err || notFound;
      if !err {
        var _ := api.CreateEvent(PodKey(st.ns, st.pod), Restoring, announceOk);
      }
    }

    /** One iteration of restoreDue's second loop. */
    method RestoreEntry(st: Record, patchOk: bool, announceOk: bool, forgetOk: bool)
      requires Idle() && Keyed() && st.restoreAt < api.now
      requires RecordKey(st) in throttled && throttled[RecordKey(st)] == st
      modifies this`throttled, this`unforgotten, api`pods, api`ledger, api`events
      ensures Idle() && Keyed() && old(api.events) <= api.events
      ensures forall k :: k in old(throttled) && k != RecordKey(st) ==>
                k in throttled && throttled[k] == old(throttled)[k]
      ensures View() == ForgetStep(cfg, RestoreStep(old(View()), RecordKey(st), patchOk), RecordKey(st), forgetOk)
    {
      ghost var s1 := View();
      var key := PodKey(st.ns, st.pod);
      var handled := RestoreCall(st, patchOk, announceOk);
      if !handled {
        return;
      }
      throttled := throttled - {key};
      unforgotten := unforgotten + {key};
      assert View() == RestoreStep(s1, key, patchOk);
      ForgetCall(key, forgetOk);
    }

    method CollectDue() returns (due: seq<Record>)
      requires Keyed()
      ensures forall i :: 0 <= i < |due| ==>
                RecordKey(due[i]) in throttled && throttled[RecordKey(due[i])] == due[i] && due[i].restoreAt < api.now
      ensures forall i, j :: 0 <= i < j < |due| ==> RecordKey(due[i]) != RecordKey(due[j])
      ensures forall k :: k in throttled && throttled[k].restoreAt < api.now ==> throttled[k] in due
    {
      due := [];
      var todo := throttled.Keys;
      while todo != {}
        invariant todo <= throttled.Keys
        invariant forall i :: 0 <= i < |due| ==>
                    RecordKey(due[i]) in throttled && throttled[RecordKey(due[i])] == due[i] &&
                    due[i].restoreAt < api.now && RecordKey(due[i]) !in todo
        invariant forall i, j :: 0 <= i < j < |due| ==> RecordKey(due[i]) != RecordKey(due[j])
        invariant forall k :: k in throttled && throttled[k].restoreAt < api.now ==> k in todo || throttled[k] in due
        decreases todo
      {
        var k :| k in todo;
        todo := todo - {k};
        if throttled[k].restoreAt < api.now {
          due := due + [throttled[k]];
        }
      }
    }

    /** The entries from i on are in memory as collected. */
    ghost predicate Pending(due: seq<Record>, i: nat)
      reads this
    {
      forall j :: i <= j < |due| ==> RecordKey(due[j]) in throttled && throttled[RecordKey(due[j])] == due[j]
    }

    method RestoreDue(patchOk: string -> bool, announceOk: string -> bool, forgetOk: string -> bool)
      returns (ghost keys: seq<string>)
      requires Idle() && Keyed()
      modifies this`throttled, this`unforgotten, api`pods, api`ledger, api`events
      ensures Idle() && Keyed() && old(api.events) <= api.events
      ensures forall k :: k in keys <==> k in old(throttled) && old(throttled)[k].restoreAt < api.now
      ensures View() == Exec(cfg, old(View()), RestoreRun(keys, patchOk, forgetOk))
    {
      var due := CollectDue();
      keys := KeysOf(due);
      forall k ensures k in keys <==> k in throttled && throttled[k].restoreAt < api.now {
        InKeysOf(due, k);
      }
      RestoreAll(due, patchOk, announceOk, forgetOk);
    }

    /** restoreDue's second loop. */
    method RestoreAll(due: seq<Record>, patchOk: string -> bool, announceOk: string -> bool, forgetOk: string -> bool)
      requires Idle() && Keyed() && Pending(due, 0)
      requires forall i :: 0 <= i < |due| ==> due[i].restoreAt < api.now
      requires forall i, j :: 0 <= i < j < |due| ==> RecordKey(due[i]) != RecordKey(due[j])
      modifies this`throttled, this`unforgotten, api`pods, api`ledger, api`events
      ensures Idle() && Keyed() && old(api.events) <= api.events
      ensures View() == Exec(cfg, old(View()), RestoreRun(KeysOf(due), patchOk, forgetOk))
    {
      ghost var s0 := View();
      for i := 0 to |due|
        invariant Idle() && Keyed() && old(api.events) <= api.events
        invariant Pending(due, i)
        invariant View() == Exec(cfg, s0, RestoreRun(KeysOf(due[..i]), patchOk, forgetOk))
      {
        var st := due[i];
        var key := PodKey(st.ns, st.pod);
        RestoreEntry(st, patchOk(key), announceOk(key), forgetOk(key));
        RestoreRunSnoc(cfg, s0, KeysOf(due[..i]), key, patchOk, forgetOk);
        KeysOfSnoc(due, i);
      }
      assert due[..|due|] == due;
    }
  }

  function KeysOf(due: seq<Record>): seq<string> {
    if due == [] then [] else KeysOf(due[..|due| - 1]) + [RecordKey(due[|due| - 1])]
  }

  lemma KeysOfSnoc(due: seq<Record>, i: nat)
    requires i < |due|
    ensures KeysOf(due[..i + 1]) == KeysOf(due[..i]) + [RecordKey(due[i])]
  {
    assert due[..i + 1][..i] == due[..i];
  }

  lemma {:induction false} InKeysOf(due: seq<Record>, k: string)
    ensures k in KeysOf(due) <==> exists i :: 0 <= i < |due| && RecordKey(due[i]) == k
    decreases |due|
  {
    if due != [] {
      InKeysOf(due[..|due| - 1], k);
    }
  }

  lemma LowerTaken(s: State, t: Target)
    requires Room(s.pods, t.Key(), t.container)
    ensures Lower(s.(lastActed := s.lastActed[t.Key() := s.now]), t) == Lower(s, t)
  {
    assert s.lastActed[t.Key() := s.now][t.Key() := s.now] == s.lastActed[t.Key() := s.now];
  }

  /** An action that leaves nothing in flight has no record to keep or write. */
  lemma NothingInFlight(cfg: Config, s: State, k: string, ok: bool)
    requires k !in s.patched && k !in s.unsaved
    ensures PersistStep(cfg, KeepStep(cfg, s, k), k, ok) == s
  {
  }

  lemma NotDue(cfg: Config, s: State, t: Target, o: Outcome)
    requires !Due(cfg, s, t) && s.patched == map[] && s.unsaved == map[]
    ensures TargetSteps(cfg, s, t, o) == s
  {
    NothingInFlight(cfg, s, t.Key(), o.persistOk);
  }

  /** Taking the cooldown first or with the action makes no difference. */
  lemma TakenCooldown(cfg: Config, s: State, t: Target, o: Outcome)
    requires Due(cfg, s, t) && s.patched == map[] && s.unsaved == map[]
    ensures var s1 := s.(lastActed := s.lastActed[t.Key() := s.now]);
            && AfterCooldown(cfg, s1, t, o) == TargetSteps(cfg, s, t, o)
            && Announced(cfg, s1, t, o) == Announced(cfg, s, t, o)
  {
    if !cfg.dryRun && Patches(cfg, s, t, o.act) {
      LowerTaken(s, t);
    } else {
      assert s.lastActed[t.Key() := s.now] - {t.Key()} == s.lastActed - {t.Key()};
      NothingInFlight(cfg, ActOn(cfg, s, t, o.act), t.Key(), o.persistOk);
    }
  }

  lemma RestoreRunSnoc(
    cfg: Config, s: State, keys: seq<string>, key: string, patchOk: string -> bool, forgetOk: string -> bool)
    ensures var s1 := Exec(cfg, s, RestoreRun(keys, patchOk, forgetOk));
            Exec(cfg, s, RestoreRun(keys + [key], patchOk, forgetOk)) ==
            ForgetStep(cfg, RestoreStep(s1, key, patchOk(key)), key, forgetOk(key))
  {
    RestoreRunLast(cfg, s, keys + [key], patchOk, forgetOk);
    assert (keys + [key])[..|keys|] == keys;
  }

  /** The record is a readable entry of the ledger about this pod. */
  ghost predicate LoadedFrom(ledger: map<string, Record>, k: string, r: Record) {
    r.ns != "" && r.pod != "" && k == RecordKey(r) && exists ck :: ck in ledger && ledger[ck] == r
  }

  /** The map holds the readable records of the ledger, each under its own pod's key; where several
      name one pod it holds one of them. */
  ghost predicate IsLoaded(loaded: map<string, Record>, ledger: map<string, Record>) {
    (forall k :: k in loaded ==> LoadedFrom(ledger, k, loaded[k])) &&
    (forall ck :: ck in ledger && ledger[ck].ns != "" && ledger[ck].pod != "" ==> RecordKey(ledger[ck]) in loaded)
  }

  /** Recover's loop over the ConfigMap's data, in whatever order the map is walked. */
  method LoadLedger(ledger: map<string, Record>) returns (loaded: map<string, Record>)
    ensures IsLoaded(loaded, ledger) && forall k :: k in loaded ==> k == RecordKey(loaded[k])
  {
    loaded := map[];
    var todo := ledger.Keys;
    while todo != {}
      invariant todo <= ledger.Keys
      invariant forall k :: k in loaded ==> LoadedFrom(ledger, k, loaded[k])
      invariant forall ck :: ck in ledger && ck !in todo && Readable(ledger[ck]) ==> RecordKey(ledger[ck]) in loaded
      decreases todo
    {
      var ck :| ck in todo;
      var p := ledger[ck];
      todo := todo - {ck};
      if p.ns != "" && p.pod != "" {
        loaded := loaded[PodKey(p.ns, p.pod) := p];
      }
    }
  }

  /** A ledger this controller wrote has one record per pod, so the order does not matter. */
  lemma LoadedIsRecovered(loaded: map<string, Record>, ledger: map<string, Record>)
    requires IsLoaded(loaded, ledger) && Tidy(ledger)
    ensures loaded == Recovered(ledger)
  {
    forall k ensures k in loaded <==> k in RecoveredKeys(ledger) {
      if k in loaded {
        assert LoadedFrom(ledger, k, loaded[k]);
        var ck :| ck in ledger && ledger[ck] == loaded[k];
        assert RecordKey(ledger[ck]) in RecoveredKeys(ledger);
      }
    }
  }

  /** The steps for one more target, from a state with no call in flight. */
  lemma RemediateRunLast(
    cfg: Config, s: State, s1: State, ts: seq<Target>, snap: Snapshot, i: nat, outs: nat -> Outcome)
    requires i < |ts| && ts == TargetsOf(snap, cfg.gate)
    requires s1 == Exec(cfg, s, RemediateRun(ts, snap, i, outs)) && s1.patched == map[] && s1.unsaved == map[]
    ensures var k := ts[i].Key();
            Exec(cfg, s, RemediateRun(ts, snap, i + 1, outs)) ==
            PersistStep(cfg, KeepStep(cfg, ActOn(cfg, s1, ts[i], outs(i).act), k), k, outs(i).persistOk)
  {
    var k := ts[i].Key();
    var a, b, c := Act(snap, i, outs(i).act), Keep(k), Persist(k, outs(i).persistOk);
    ExecConcat(cfg, s, RemediateRun(ts, snap, i, outs), [a, b, c]);
    ExecThree(cfg, s1, a, b, c);
    assert Next(cfg, s1, a) == ActOn(cfg, s1, ts[i], outs(i).act);
  }
}
