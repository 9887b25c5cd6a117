/** The cgroup-to-pod name cache with a grace period (internal/cgroup/ttlcache.go). */
module TtlCache {
  import opened Options
  import opened Identity

  /** expiry is None while the cgroup is live. */
  datatype Entry = Entry(pod: PodID, expiry: Option<int>)

  type Items = map<nat, Entry>

  datatype Op =
    | Put(id: nat, pod: PodID, at: int)
    | Replace(live: map<nat, PodID>, at: int)
    | Tombstone(id: nat, at: int)

  // ----- what the code does -----

  predicate Expired(e: Entry, now: int) {
    e.expiry.Some? && now > e.expiry.value
  }

  function Lookup(items: Items, id: nat, now: int): Option<PodID> {
    if id !in items || Expired(items[id], now) then None else Some(items[id].pod)
  }

  function Fade(e: Entry, deadline: int): Entry {
    if e.expiry.None? then e.(expiry := Some(deadline)) else e
  }

  /** The three loops of replace, as one map. */
  function Replaced(ttl: int, items: Items, live: map<nat, PodID>, now: int): Items {
    var faded := map id | id in items :: Fade(items[id], now + ttl);
    var revived := faded + map id | id in live :: Entry(live[id], None);
    map id | id in revived && !Expired(revived[id], now) :: revived[id]
  }

  function Apply(ttl: int, items: Items, op: Op): Items {
    match op
    case Put(id, pod, _) => items[id := Entry(pod, None)]
    case Replace(live, at) => Replaced(ttl, items, live, at)
    case Tombstone(id, at) => if id in items then items[id := Fade(items[id], at + ttl)] else items
  }

  function Run(ttl: int, h: seq<Op>): Items {
    if h == [] then map[] else Apply(ttl, Run(ttl, h[..|h| - 1]), h[|h| - 1])
  }

  lemma RunSnoc(ttl: int, h: seq<Op>, op: Op)
    ensures Run(ttl, h + [op]) == Apply(ttl, Run(ttl, h), op)
  {
    assert (h + [op])[..|h|] == h;
  }

  // ----- what it is for -----

  predicate Binds(op: Op, id: nat) {
    match op
    case Put(i, _, _) => i == id
    case Replace(live, _) => id in live
    case Tombstone(_, _) => false
  }

  function PodIn(op: Op, id: nat): PodID
    requires Binds(op, id)
  {
    match op
    case Put(_, pod, _) => pod
    case Replace(live, _) => live[id]
  }

  predicate Retires(op: Op, id: nat) {
    match op
    case Put(_, _, _) => false
    case Replace(live, _) => id !in live
    case Tombstone(i, _) => i == id
  }

  predicate Ordered(h: seq<Op>, now: int) {
    (forall i, j :: 0 <= i < j < |h| ==> h[i].at <= h[j].at) && (forall i :: 0 <= i < |h| ==> h[i].at <= now)
  }

  predicate LatestBinding(h: seq<Op>, id: nat, i: int) {
    0 <= i < |h| && Binds(h[i], id) && forall j :: i < j < |h| ==> !Binds(h[j], id)
  }

  /** The history says pod p: it is id's latest binding, and no tombstone or scan without id since
      then is more than ttl ago. */
  ghost predicate Known(ttl: int, h: seq<Op>, id: nat, now: int, p: PodID) {
    exists i :: LatestBinding(h, id, i) && PodIn(h[i], id) == p &&
                forall j :: i < j < |h| && Retires(h[j], id) ==> now <= h[j].at + ttl
  }

  // ----- the connection -----

  /** What an entry remembers of the history since binding i: the deadline set by its first
      retirement, or nothing at all once a scan found that deadline passed. */
  ghost predicate Remembers(ttl: int, items: Items, h: seq<Op>, id: nat, i: int)
    requires LatestBinding(h, id, i)
  {
    if id in items then
      && items[id].pod == PodIn(h[i], id)
      && (items[id].expiry.None? <==> forall j :: i < j < |h| ==> !Retires(h[j], id))
      && (items[id].expiry.Some? ==> IsFirstDeadline(ttl, h, id, i, items[id].expiry.value))
    else
      exists d :: IsFirstDeadline(ttl, h, id, i, d) && d < h[|h| - 1].at
  }

  ghost predicate IsFirstDeadline(ttl: int, h: seq<Op>, id: nat, i: int, d: int) {
    0 <= i + 1 &&
    exists j :: i < j < |h| && Retires(h[j], id) && d == h[j].at + ttl &&
                forall m :: i < m < j ==> !Retires(h[m], id)
  }

  ghost predicate Faithful(ttl: int, items: Items, h: seq<Op>, id: nat) {
    if exists i :: LatestBinding(h, id, i)
    then forall i :: LatestBinding(h, id, i) ==> Remembers(ttl, items, h, id, i)
    else id !in items
  }

  lemma LatestSnoc(h: seq<Op>, op: Op, id: nat, i: int)
    ensures LatestBinding(h + [op], id, i) <==> if Binds(op, id) then i == |h| else LatestBinding(h, id, i)
  {
    var g := h + [op];
    assert g[|h|] == op;
    assert forall j :: 0 <= j < |h| ==> g[j] == h[j];
    if LatestBinding(h, id, i) && !Binds(op, id) {
      assert forall j :: i < j < |g| ==> !Binds(g[j], id);
    }
    if LatestBinding(g, id, i) && i < |h| {
      assert !Binds(g[|h|], id);
    }
  }

  lemma DeadlineSnoc(ttl: int, h: seq<Op>, op: Op, id: nat, i: int, d: int)
    requires -1 <= i < |h|
    ensures IsFirstDeadline(ttl, h, id, i, d) ==> IsFirstDeadline(ttl, h + [op], id, i, d)
    ensures Retires(op, id) && (forall j :: i < j < |h| ==> !Retires(h[j], id)) ==>
              IsFirstDeadline(ttl, h + [op], id, i, op.at + ttl)
  {
    var g := h + [op];
    if IsFirstDeadline(ttl, h, id, i, d) {
      var j :| i < j < |h| && Retires(h[j], id) && d == h[j].at + ttl && forall m :: i < m < j ==> !Retires(h[m], id);
      assert g[j] == h[j];
      assert forall m :: i < m < j ==> !Retires(g[m], id);
    }
    if Retires(op, id) && forall j :: i < j < |h| ==> !Retires(h[j], id) {
      assert g[|h|] == op;
      assert forall m :: i < m < |h| ==> !Retires(g[m], id);
    }
  }

  lemma FaithfulStep(ttl: int, items: Items, h: seq<Op>, op: Op, id: nat)
    requires Faithful(ttl, items, h, id) && Ordered(h + [op], op.at)
    ensures Faithful(ttl, Apply(ttl, items, op), h + [op], id)
  {
    var g, items' := h + [op], Apply(ttl, items, op);
    forall i { LatestSnoc(h, op, id, i); }
    if Binds(op, id) {
      assert LatestBinding(g, id, |h|);
    } else if exists i :: LatestBinding(h, id, i) {
      var i :| LatestBinding(h, id, i);
      assert LatestBinding(g, id, i);
      forall k | LatestBinding(g, id, k) ensures Remembers(ttl, items', g, id, k) {
        RemembersStep(ttl, items, h, op, id, k);
      }
    }
  }

  lemma RemembersStep(ttl: int, items: Items, h: seq<Op>, op: Op, id: nat, i: int)
    requires LatestBinding(h, id, i) && Remembers(ttl, items, h, id, i) && !Binds(op, id)
    requires LatestBinding(h + [op], id, i) && Ordered(h + [op], op.at)
    ensures Remembers(ttl, Apply(ttl, items, op), h + [op], id, i)
  {
    var g, items' := h + [op], Apply(ttl, items, op);
    assert forall j :: 0 <= j < |h| ==> g[j] == h[j];
    assert g[|h|] == op;
    if id in items {
      if items[id].expiry.Some? {
        DeadlineSnoc(ttl, h, op, id, i, items[id].expiry.value);
        assert !(forall j :: i < j < |g| ==> !Retires(g[j], id));
        assert id in items' ==> items'[id] == items[id];
      } else {
        DeadlineSnoc(ttl, h, op, id, i, 0);
        if Retires(op, id) {
          assert id in items' ==> items'[id] == Entry(items[id].pod, Some(op.at + ttl));
          assert !(forall j :: i < j < |g| ==> !Retires(g[j], id));
        } else {
          assert items'[id] == items[id];
        }
      }
    } else {
      var d :| IsFirstDeadline(ttl, h, id, i, d) && d < h[|h| - 1].at;
      DeadlineSnoc(ttl, h, op, id, i, d);
      assert h[|h| - 1].at <= op.at by { assert g[|h| - 1] == h[|h| - 1]; }
    }
  }

  lemma {:induction false} RunFaithful(ttl: int, h: seq<Op>, now: int, id: nat)
    requires Ordered(h, now)
    ensures Faithful(ttl, Run(ttl, h), h, id)
    decreases |h|
  {
    if h != [] {
      var g, op := h[..|h| - 1], h[|h| - 1];
      assert h == g + [op];
      RunFaithful(ttl, g, op.at, id);
      FaithfulStep(ttl, Run(ttl, g), g, op, id);
    }
  }

  lemma FaithfulAnswers(ttl: int, items: Items, h: seq<Op>, id: nat, now: int, p: PodID)
    requires Faithful(ttl, items, h, id) && Ordered(h, now)
    ensures Lookup(items, id, now) == Some(p) <==> Known(ttl, h, id, now, p)
  {
    if exists i :: LatestBinding(h, id, i) {
      var i :| LatestBinding(h, id, i);
      assert Remembers(ttl, items, h, id, i);
      forall d, m | IsFirstDeadline(ttl, h, id, i, d) && i < m < |h| && Retires(h[m], id) ensures d <= h[m].at + ttl {
      }
      assert Lookup(items, id, now) == Some(p) <==>
             PodIn(h[i], id) == p && forall j :: i < j < |h| && Retires(h[j], id) ==> now <= h[j].at + ttl;
    }
  }

  /** The cache answers exactly what the history says: the pod of the latest put or scan naming the
      cgroup, unless its first tombstone or absence since then lies more than ttl back. Pruning is
      therefore unobservable and a deadline never resets. */
  lemma CacheIsHistory(ttl: int, h: seq<Op>, id: nat, now: int, p: PodID)
    requires Ordered(h, now)
    ensures Lookup(Run(ttl, h), id, now) == Some(p) <==> Known(ttl, h, id, now, p)
  {
    RunFaithful(ttl, h, now, id);
    FaithfulAnswers(ttl, Run(ttl, h), h, id, now, p);
  }

  /** The object: items is updated in place by sequential loops. */
  class Cache {
    const ttl: int
    var items: Items
    ghost var history: seq<Op>

    ghost predicate Valid()
      reads this
    {
      items == Run(ttl, history)
    }

    constructor (ttl: int)
      ensures Valid() && history == [] && this.ttl == ttl
    {
      this.ttl := ttl;
      items, history := map[], [];
    }

    method Get(id: nat, now: int) returns (pod: Option<PodID>)
      requires Valid() && Ordered(history, now)
      ensures forall p :: pod == Some(p) <==> Known(ttl, history, id, now, p)
    {
      forall p ensures Lookup(items, id, now) == Some(p) <==> Known(ttl, history, id, now, p) {
        CacheIsHistory(ttl, history, id, now, p);
      }
      if id !in items {
        return None;
      }
      var e := items[id];
      if e.expiry.Some? && now > e.expiry.value {
        return None;
      }
      return Some(e.pod);
    }

    method Put(id: nat, pod: PodID, ghost now: int)
      requires Valid()
      modifies this
      ensures Valid() && history == old(history) + [Op.Put(id, pod, now)]
    {
      items := items[id := Entry(pod, None)];
      RunSnoc(ttl, history, Op.Put(id, pod, now));
      history := history + [Op.Put(id, pod, now)];
    }

    method Tombstone(id: nat, now: int)
      requires Valid()
      modifies this
      ensures Valid() && history == old(history) + [Op.Tombstone(id, now)]
    {
      ghost var before := items;
      if id in items && items[id].expiry.None? {
        items := items[id := Entry(items[id].pod, Some(now + ttl))];
      }
      assert items == Apply(ttl, before, Op.Tombstone(id, now));
      RunSnoc(ttl, history, Op.Tombstone(id, now));
      history := history + [Op.Tombstone(id, now)];
    }

    method Replace(live: map<nat, PodID>, now: int)
      requires Valid()
      modifies this
      ensures Valid() && history == old(history) + [Op.Replace(live, now)]
    {
      ghost var before := items;
      items := FadeAll(items, now + ttl);
      ghost var faded := items;
      items := Revive(items, live);
      ghost var revived := items;
      items := DropExpired(items, now);
      ReplacedByLoops(ttl, before, faded, revived, live, now);
      RunSnoc(ttl, history, Op.Replace(live, now));
      history := history + [Op.Replace(live, now)];
    }
  }

  /** Entries that were live start their grace period; those already counting down keep their deadline. */
  method FadeAll(before: Items, deadline: int) returns (items: Items)
    ensures items.Keys == before.Keys && forall id :: id in items ==> items[id] == Fade(before[id], deadline)
  {
    items := before;
    var todo := items.Keys;
    while todo != {}
      invariant todo <= before.Keys == items.Keys
      invariant forall id :: id in items ==> items[id] == if id in todo then before[id] else Fade(before[id], deadline)
      decreases todo
    {
      var id :| id in todo;
      todo := todo - {id};
      if items[id].expiry.None? {
        items := items[id := Entry(items[id].pod, Some(deadline))];
      }
    }
  }

  /** Everything in the scan is live again. */
  method Revive(faded: Items, live: map<nat, PodID>) returns (items: Items)
    ensures items.Keys == faded.Keys + live.Keys
    ensures forall id :: id in items ==> items[id] == if id in live then Entry(live[id], None) else faded[id]
  {
    items := faded;
    var todo := live.Keys;
    while todo != {}
      invariant todo <= live.Keys && items.Keys == faded.Keys + (live.Keys - todo)
      invariant forall id :: id in items ==>
                  items[id] == if id in live && id !in todo then Entry(live[id], None) else faded[id]
      decreases todo
    {
      var id :| id in todo;
      todo := todo - {id};
      items := items[id := Entry(live[id], None)];
    }
  }

  /** Entries whose grace period has passed are dropped. */
  method DropExpired(revived: Items, now: int) returns (items: Items)
    ensures items == map id | id in revived && !Expired(revived[id], now) :: revived[id]
  {
    items := revived;
    var todo := items.Keys;
    while todo != {}
      invariant todo <= revived.Keys
      invariant forall id :: id in items <==> id in revived && (id in todo || !Expired(revived[id], now))
      invariant forall id :: id in items ==> items[id] == revived[id]
      decreases todo
    {
      var id :| id in todo;
      todo := todo - {id};
      if items[id].expiry.Some? && now > items[id].expiry.value {
        items := items - {id};
      }
    }
  }

  lemma FadedByLoop(before: Items, faded: Items, deadline: int)
    requires faded.Keys == before.Keys && forall id :: id in faded ==> faded[id] == Fade(before[id], deadline)
    ensures faded == map id | id in before :: Fade(before[id], deadline)
  {
  }

  lemma RevivedByLoop(faded: Items, revived: Items, live: map<nat, PodID>)
    requires revived.Keys == faded.Keys + live.Keys
    requires forall id :: id in revived ==> revived[id] == if id in live then Entry(live[id], None) else faded[id]
    ensures revived == faded + map id | id in live :: Entry(live[id], None)
  {
  }

  lemma ReplacedByLoops(ttl: int, before: Items, faded: Items, revived: Items, live: map<nat, PodID>, now: int)
    requires faded.Keys == before.Keys && forall id :: id in faded ==> faded[id] == Fade(before[id], now + ttl)
    requires revived.Keys == faded.Keys + live.Keys
    requires forall id :: id in revived ==> revived[id] == if id in live then Entry(live[id], None) else faded[id]
    ensures Replaced(ttl, before, live, now) == map id | id in revived && !Expired(revived[id], now) :: revived[id]
  {
    FadedByLoop(before, faded, now + ttl);
    RevivedByLoop(faded, revived, live);
  }
}
