/** Pod identities: how the agent prints them (internal/cgroup/podid.go, internal/agent/agent.go)
    and how the controller parses and keys them (internal/controller/remediation.go, persist.go). */
module Identity {
  import opened Options

  datatype PodID = PodID(ns: string, pod: string, container: string, uid: string, requestMilli: int)

  /** A parsed offender label. */
  datatype Parts = Parts(ns: string, pod: string, container: string)

  // ----- printing -----

  function Print(p: PodID): string {
    if p.ns == "" then "unknown" else Join(Parts(p.ns, p.pod, p.container))
  }

  function Join(q: Parts): string {
    q.ns + "/" + q.pod + "/" + q.container
  }

  function Decimal(n: nat): (s: string)
    ensures s != "" && forall c :: c in s ==> '0' <= c <= '9'
  {
    var digit := ["0", "1", "2", "3", "4", "5", "6", "7", "8", "9"][n % 10];
    if n < 10 then digit else Decimal(n / 10) + digit
  }

  /** The label of a cgroup: its pod when the resolver knows it, a system fallback otherwise. */
  function Label(resolved: Option<PodID>, cgroup: nat): string {
    match resolved
    case Some(p) => Print(p)
    case None => "system(cg:" + Decimal(cgroup) + ")"
  }

  // ----- parsing -----

  function IndexOf(s: string, sep: char): (i: nat)
    requires sep in s
    ensures i < |s| && s[i] == sep && forall j :: 0 <= j < i ==> s[j] != sep
  {
    if s[0] == sep then 0 else
      1 + IndexOf(s[1..], sep)
  }

  /** Go's strings.SplitN for a one-character separator: at most n pieces, the last one unsplit. */
  function SplitN(s: string, sep: char, n: nat): seq<string>
    requires n > 0
  {
    if n == 1 || sep !in s then [s]
    else
      var i := IndexOf(s, sep);
      [s[..i]] + SplitN(s[i + 1..], sep, n - 1)
  }

  function SplitPod(text: string): Option<Parts> {
    var parts := SplitN(text, '/', 3);
    if |parts| != 3 || parts[0] == "" || parts[1] == "" || parts[2] == "" then None
    else Some(Parts(parts[0], parts[1], parts[2]))
  }

  /** What a parsed label may be: three non-empty parts, the first two free of slashes. */
  predicate Genuine(q: Parts) {
    q.ns != "" && q.pod != "" && q.container != "" && '/' !in q.ns && '/' !in q.pod
  }

  /** One cut of SplitN, seen from the pieces. */
  lemma FirstCut(head: string, tail: string, sep: char, n: nat)
    requires sep !in head && n > 0
    ensures SplitN(head + [sep] + tail, sep, n + 1) == [head] + SplitN(tail, sep, n)
  {
    var s := head + [sep] + tail;
    assert s[|head|] == sep;
    assert forall j :: 0 <= j < |head| ==> s[j] == head[j];
    assert IndexOf(s, sep) == |head|;
    assert s[..|head|] == head && s[|head| + 1..] == tail;
  }

  /** One cut of SplitN, seen from the text. */
  lemma CutFirst(s: string, sep: char, n: nat)
    requires sep in s && n > 0
    ensures var i := IndexOf(s, sep);
            sep !in s[..i] && s == s[..i] + [sep] + s[i + 1..] &&
            SplitN(s, sep, n + 1) == [s[..i]] + SplitN(s[i + 1..], sep, n)
  {
  }

  lemma JoinParses(q: Parts)
    requires '/' !in q.ns && '/' !in q.pod
    ensures SplitN(Join(q), '/', 3) == [q.ns, q.pod, q.container]
  {
    var rest := q.pod + ['/'] + q.container;
    assert Join(q) == q.ns + ['/'] + rest;
    FirstCut(q.ns, rest, '/', 2);
    FirstCut(q.pod, q.container, '/', 1);
    assert SplitN(q.container, '/', 1) == [q.container];
  }

  lemma JoinShape(head: string, mid: string, tail: string)
    ensures Join(Parts(head, mid, tail)) == head + ['/'] + (mid + ['/'] + tail)
  {
  }

  lemma ParsesJoin(text: string, parts: seq<string>)
    requires parts == SplitN(text, '/', 3) && |parts| == 3
    ensures '/' !in parts[0] && '/' !in parts[1] && text == Join(Parts(parts[0], parts[1], parts[2]))
  {
    CutFirst(text, '/', 2);
    var i := IndexOf(text, '/');
    var rest := text[i + 1..];
    var pieces := SplitN(rest, '/', 2);
    assert parts[0] == text[..i] && parts[1..] == pieces;
    CutFirst(rest, '/', 1);
    var j := IndexOf(rest, '/');
    assert pieces[0] == rest[..j] && pieces[1] == rest[j + 1..];
    JoinShape(text[..i], rest[..j], rest[j + 1..]);
  }

  /** The printer's shape is exactly the parser's domain: parsing succeeds with q if and only if
      q is genuine and the label is q joined by slashes. */
  lemma SplitPodExact(text: string, q: Parts)
    ensures SplitPod(text) == Some(q) <==> Genuine(q) && text == q.ns + "/" + q.pod + "/" + q.container
  {
    if Genuine(q) && text == Join(q) {
      JoinParses(q);
    }
    if SplitPod(text) == Some(q) {
      ParsesJoin(text, SplitN(text, '/', 3));
    }
  }

  /** A label without a slash is never parsed. */
  lemma NoSlashNoPod(text: string)
    requires '/' !in text
    ensures SplitPod(text) == None
  {
    assert SplitN(text, '/', 3) == [text];
  }

  /** Only a resolved cgroup whose identity is complete can be named by a parsed text, and for
      identities without slashes the parser inverts the printer. */
  lemma LabelParsesBack(resolved: Option<PodID>, cgroup: nat)
    ensures SplitPod(Label(resolved, cgroup)).Some? ==> resolved.Some? && resolved.value.ns != ""
    ensures resolved.Some? && '/' !in resolved.value.ns && '/' !in resolved.value.pod ==>
              var p := resolved.value;
              SplitPod(Label(resolved, cgroup)) ==
              if p.ns == "" || p.pod == "" || p.container == "" then None
              else Some(Parts(p.ns, p.pod, p.container))
  {
    match resolved {
      case None =>
        assert forall c :: c in Decimal(cgroup) ==> c != '/';
        NoSlashNoPod(Label(resolved, cgroup));
      case Some(p) =>
        if p.ns == "" {
          NoSlashNoPod("unknown");
        } else if '/' !in p.ns && '/' !in p.pod {
          JoinParses(Parts(p.ns, p.pod, p.container));
        }
    }
  }

  // ----- keys -----

  function PodKey(ns: string, pod: string): string {
    ns + "/" + pod
  }

  /** The ledger's data key for a pod key: every '/' becomes '_'. */
  function CmKey(podKey: string): string {
    seq(|podKey|, i requires 0 <= i < |podKey| => if podKey[i] == '/' then '_' else podKey[i])
  }

  /** Host-name syntax (section 2.1 of RFC 1123) as far as keys depend on it. */
  predicate HostName(s: string) {
    s != "" && '/' !in s && '_' !in s
  }

  lemma PodKeyInjective(ns: string, pod: string, ns': string, pod': string)
    requires '/' !in ns && '/' !in ns'
    requires PodKey(ns, pod) == PodKey(ns', pod')
    ensures ns == ns' && pod == pod'
  {
    assert PodKey(ns, pod) == ns + ['/'] + pod && PodKey(ns', pod') == ns' + ['/'] + pod';
    FirstCut(ns, pod, '/', 1);
    FirstCut(ns', pod', '/', 1);
    assert SplitN(pod, '/', 1) == [pod] && SplitN(pod', '/', 1) == [pod'];
    assert ([ns] + [pod])[0] == ns && ([ns] + [pod])[1] == pod;
  }

  /** A ledger key has no slash, and differs from its pod key only where that has one. */
  lemma CmKeyShape(podKey: string)
    ensures |CmKey(podKey)| == |podKey| && '/' !in CmKey(podKey)
    ensures forall i :: 0 <= i < |podKey| ==>
              CmKey(podKey)[i] == podKey[i] || (podKey[i] == '/' && CmKey(podKey)[i] == '_')
  {
  }

  /** Distinct pod keys without '_' never share a ledger slot. */
  lemma CmKeyInjective(a: string, b: string)
    requires '_' !in a && '_' !in b
    requires CmKey(a) == CmKey(b)
    ensures a == b
  {
    assert |a| == |CmKey(a)| == |CmKey(b)| == |b|;
    forall i | 0 <= i < |a| ensures a[i] == b[i] {
      assert CmKey(a)[i] == CmKey(b)[i];
      assert a[i] in a && b[i] in b;
    }
  }

  lemma PodKeyClean(ns: string, pod: string)
    requires HostName(ns) && HostName(pod)
    ensures '_' !in PodKey(ns, pod)
  {
  }
}
