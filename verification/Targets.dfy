/** Which offenders of a snapshot the controller may act on (internal/controller/remediation.go). */
module Targets {
  import opened Options
  import opened Identity

  datatype Resource = Cpu | Disk | Net

  datatype Target = Target(ns: string, pod: string, container: string, resource: Resource, confidence: real)
  {
    function Key(): string { PodKey(ns, pod) }
  }

  /** The two offender columns the controller reads. */
  datatype Offender = Offender(pod: string, confidence: real)

  datatype Snapshot = Snapshot(confidenceMin: real, cpu: seq<Offender>, disk: seq<Offender>, net: seq<Offender>)

  function Gate(s: Snapshot, override: real): real {
    if override <= 0.0 then s.confidenceMin else override
  }

  function Pick(o: Offender, gate: real, res: Resource): seq<Target> {
    if o.confidence < gate then [] else
    match SplitPod(o.pod)
    case None => []
    case Some(q) => [Target(q.ns, q.pod, q.container, res, o.confidence)]
  }

  function Picked(os: seq<Offender>, gate: real, res: Resource): seq<Target> {
    if os == [] then [] else Picked(os[..|os| - 1], gate, res) + Pick(os[|os| - 1], gate, res)
  }

  function TargetsOf(s: Snapshot, override: real): seq<Target> {
    var gate := Gate(s, override);
    Picked(s.cpu, gate, Cpu) + Picked(s.disk, gate, Disk) + Picked(s.net, gate, Net)
  }

  method ConfidentTargets(s: Snapshot, override: real) returns (out: seq<Target>)
    ensures out == TargetsOf(s, override)
  {
    var gate := if override <= 0.0 then s.confidenceMin else override;
    var cpu := AddAll([], s.cpu, gate, Cpu);
    var disk := AddAll(cpu, s.disk, gate, Disk);
    out := AddAll(disk, s.net, gate, Net);
  }

  /** One of the three loops: append a target for every offender that passes the gate and parses. */
  method AddAll(out0: seq<Target>, os: seq<Offender>, gate: real, res: Resource) returns (out: seq<Target>)
    ensures out == out0 + Picked(os, gate, res)
  {
    out := out0;
    for i := 0 to |os|
      invariant out == out0 + Picked(os[..i], gate, res)
    {
      assert os[..i + 1][..i] == os[..i];
      if os[i].confidence >= gate {
        match SplitPod(os[i].pod) {
          case None =>
          case Some(q) =>
            out := out + [Target(q.ns, q.pod, q.container, res, os[i].confidence)];
        }
      }
    }
    assert os[..|os|] == os;
  }

  /** A target is picked exactly when some offender at or above the gate carries its name as
      "namespace/pod/container" with nothing empty. */
  lemma {:induction false} PickedExact(os: seq<Offender>, gate: real, res: Resource, t: Target)
    ensures t in Picked(os, gate, res) <==>
            t.resource == res && t.confidence >= gate && Genuine(Parts(t.ns, t.pod, t.container)) &&
            Offender(Join(Parts(t.ns, t.pod, t.container)), t.confidence) in os
  {
    if os != [] {
      var last := os[|os| - 1];
      var q := Parts(t.ns, t.pod, t.container);
      PickedExact(os[..|os| - 1], gate, res, t);
      SplitPodExact(last.pod, q);
      assert os == os[..|os| - 1] + [last];
      assert t in Pick(last, gate, res) <==>
             t.resource == res && t.confidence == last.confidence >= gate && SplitPod(last.pod) == Some(q);
    }
  }

  /** How many offenders reach the gate. */
  function Reaching(os: seq<Offender>, gate: real): nat {
    if os == [] then 0 else Reaching(os[..|os| - 1], gate) + if os[|os| - 1].confidence >= gate then 1 else 0
  }

  lemma {:induction false} PickedCount(os: seq<Offender>, gate: real, res: Resource)
    ensures |Picked(os, gate, res)| <= Reaching(os, gate)
  {
    if os != [] {
      PickedCount(os[..|os| - 1], gate, res);
    }
  }

  /** Every target of a snapshot met the gate under a genuine name, as one of the three resources. */
  lemma TargetsGenuine(s: Snapshot, override: real, t: Target)
    requires t in TargetsOf(s, override)
    ensures t.confidence >= Gate(s, override) && Genuine(Parts(t.ns, t.pod, t.container))
    ensures var o := Offender(Join(Parts(t.ns, t.pod, t.container)), t.confidence);
            match t.resource
            case Cpu => o in s.cpu
            case Disk => o in s.disk
            case Net => o in s.net
  {
    var gate := Gate(s, override);
    PickedExact(s.cpu, gate, Cpu, t);
    PickedExact(s.disk, gate, Disk, t);
    PickedExact(s.net, gate, Net, t);
  }

  /** The targets of a snapshot, exactly: an offender of the dimension's own list with that confidence,
      named "namespace/pod/container" with nothing empty, at or above the override where there is one and
      the snapshot's own threshold where there is none. */
  lemma TargetsExact(s: Snapshot, override: real, t: Target)
    ensures t in TargetsOf(s, override) <==>
            && t.confidence >= (if override > 0.0 then override else s.confidenceMin)
            && t.ns != "" && t.pod != "" && t.container != "" && '/' !in t.ns && '/' !in t.pod
            && Offender(t.ns + "/" + t.pod + "/" + t.container, t.confidence) in
               (match t.resource case Cpu => s.cpu case Disk => s.disk case Net => s.net)
  {
    var gate := Gate(s, override);
    PickedExact(s.cpu, gate, Cpu, t);
    PickedExact(s.disk, gate, Disk, t);
    PickedExact(s.net, gate, Net, t);
  }
}
