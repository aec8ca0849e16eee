/**
 * Provider-neutral topology values: endpoints, instances, snapshots and
 * changes, with their normalizers, validators and equality functions.
 */
module RegistryModel {
  import opened Wrappers
  import opened Ordering

  /******* Texts *******/

  predicate IsSpace(c: char) {
    '\t' <= c <= '\r' || c == ' ' || c == '\U{85}' || c == '\U{A0}' || c == '\U{1680}' || '\U{2000}' <= c <= '\U{200A}'
    || c == '\U{2028}' || c == '\U{2029}' || c == '\U{202F}' || c == '\U{205F}' || c == '\U{3000}'
  }

  /** Non-empty, with nothing for a space trim to remove and no control characters. */
  predicate ValidExactText(s: string) {
    && s != "" && !IsSpace(s[0]) && !IsSpace(s[|s| - 1])
    && forall i | 0 <= i < |s| :: s[i] >= ' ' && s[i] != '\U{7F}'
  }

  /** The order of texts by their keys is a strict order whose incomparable elements share a key. */
  lemma KeyOrder<T(!new)>(key: T -> string, lt: (T, T) -> bool)
    requires forall x, y :: lt(x, y) <==> Below(key(x), key(y))
    ensures StrictOrder(lt) && NegativelyTransitive(lt)
    ensures forall x, y :: key(x) == key(y) <==> !lt(x, y) && !lt(y, x)
  {
    forall x ensures !lt(x, x) {
      BelowTrichotomy(key(x), key(x));
    }
    forall x, y, z | lt(x, y) && lt(y, z) ensures lt(x, z) {
      BelowTransitive(key(x), key(y), key(z));
    }
    forall x, y, z | lt(x, z) ensures lt(x, y) || lt(y, z) {
      BelowTrichotomy(key(x), key(y));
      BelowTrichotomy(key(y), key(z));
      if Below(key(y), key(x)) {
        BelowTransitive(key(y), key(x), key(z));
      }
    }
    forall x, y ensures key(x) == key(y) <==> !lt(x, y) && !lt(y, x) {
      BelowTrichotomy(key(x), key(y));
    }
  }

  /******* Network endpoints *******/

  datatype NetworkEndpoint = NetworkEndpoint(addressType: string, address: string, portName: string, port: int, protocol: string)

  predicate ValidEndpoint(e: NetworkEndpoint) {
    && ValidExactText(e.addressType) && ValidExactText(e.address) && ValidExactText(e.portName)
    && 1 <= e.port <= 65535 && ValidExactText(e.protocol)
  }

  function CompareText(l: string, r: string): int {
    if l == r then 0 else if Below(l, r) then -1 else 1
  }

  function CompareEndpoints(l: NetworkEndpoint, r: NetworkEndpoint): int {
    if l.addressType != r.addressType then CompareText(l.addressType, r.addressType)
    else if l.address != r.address then CompareText(l.address, r.address)
    else if l.portName != r.portName then CompareText(l.portName, r.portName)
    else if l.port != r.port then if l.port < r.port then -1 else 1
    else CompareText(l.protocol, r.protocol)
  }

  predicate EndpointBelow(l: NetworkEndpoint, r: NetworkEndpoint) {
    CompareEndpoints(l, r) < 0
  }

  lemma CompareText3(a: string, b: string, c: string)
    ensures CompareText(a, b) == 0 <==> a == b
    ensures CompareText(a, b) == -CompareText(b, a)
    ensures CompareText(a, b) < 0 && CompareText(b, c) < 0 ==> CompareText(a, c) < 0
  {
    BelowTrichotomy(a, b);
    if Below(a, b) && Below(b, c) {
      BelowTransitive(a, b, c);
      BelowTrichotomy(a, c);
    }
  }

  lemma EndpointTransitive(a: NetworkEndpoint, b: NetworkEndpoint, c: NetworkEndpoint)
    requires EndpointBelow(a, b) && EndpointBelow(b, c)
    ensures EndpointBelow(a, c)
  {
    CompareText3(a.addressType, b.addressType, c.addressType);
    CompareText3(b.addressType, a.addressType, c.addressType);
    CompareText3(a.address, b.address, c.address);
    CompareText3(b.address, a.address, c.address);
    CompareText3(a.portName, b.portName, c.portName);
    CompareText3(b.portName, a.portName, c.portName);
    CompareText3(a.protocol, b.protocol, c.protocol);
  }

  lemma CompareReverses(a: NetworkEndpoint, b: NetworkEndpoint)
    ensures CompareEndpoints(a, b) == -CompareEndpoints(b, a)
    ensures CompareEndpoints(a, b) == 0 <==> a == b
  {
    CompareText3(a.addressType, b.addressType, "");
    CompareText3(a.address, b.address, "");
    CompareText3(a.portName, b.portName, "");
    CompareText3(a.protocol, b.protocol, "");
  }

  /** Comparing endpoints is a total order on tuples. */
  lemma EndpointOrder()
    ensures StrictOrder(EndpointBelow) && NegativelyTransitive(EndpointBelow)
    ensures forall a, b :: a != b ==> EndpointBelow(a, b) || EndpointBelow(b, a)
  {
    forall a ensures !EndpointBelow(a, a) {
      CompareReverses(a, a);
    }
    forall a, b ensures a != b ==> EndpointBelow(a, b) || EndpointBelow(b, a) {
      CompareReverses(a, b);
    }
    forall a, b, c | EndpointBelow(a, b) && EndpointBelow(b, c) ensures EndpointBelow(a, c) {
      EndpointTransitive(a, b, c);
    }
    forall a, b, c | EndpointBelow(a, c) ensures EndpointBelow(a, b) || EndpointBelow(b, c) {
      CompareReverses(a, b);
      if EndpointBelow(b, a) {
        EndpointTransitive(b, a, c);
      }
    }
  }

  predicate ValidEndpoints(es: seq<NetworkEndpoint>) {
    forall e | e in es :: ValidEndpoint(e)
  }

  function NormalizeEndpoints(es: seq<NetworkEndpoint>): Option<seq<NetworkEndpoint>> {
    if !ValidEndpoints(es) then None
    else
      var sorted := Sort(EndpointBelow, es);
      if exists i | 0 < i < |sorted| :: CompareEndpoints(sorted[i - 1], sorted[i]) == 0 then None else Some(sorted)
  }

  ghost predicate Distinct<T>(xs: seq<T>) {
    forall i, j | 0 <= i < j < |xs| :: xs[i] != xs[j]
  }

  lemma NeighboursDiffer(xs: seq<NetworkEndpoint>)
    requires WeaklyAscending(EndpointBelow, xs)
    ensures StrictNeighbours(EndpointBelow, xs) <==> forall i | 0 < i < |xs| :: CompareEndpoints(xs[i - 1], xs[i]) != 0
  {
    forall i | 0 < i < |xs|
      ensures EndpointBelow(xs[i - 1], xs[i]) <==> CompareEndpoints(xs[i - 1], xs[i]) != 0
    {
      CompareReverses(xs[i - 1], xs[i]);
      assert !EndpointBelow(xs[i], xs[i - 1]);
    }
  }

  /** Endpoints normalize exactly when each is valid and none repeats, to the ascending arrangement of the same tuples. */
  lemma NormalizeEndpointsExactly(es: seq<NetworkEndpoint>)
    ensures NormalizeEndpoints(es).Some? <==> ValidEndpoints(es) && Distinct(es)
    ensures NormalizeEndpoints(es).Some? ==>
              && NormalizeEndpoints(es).value == Sort(EndpointBelow, es)
              && Ascending(EndpointBelow, Sort(EndpointBelow, es))
              && (forall e :: e in Sort(EndpointBelow, es) <==> e in es)
              && |Sort(EndpointBelow, es)| == |es|
  {
    EndpointOrder();
    SortPermutes(EndpointBelow, es);
    SortWeakly(EndpointBelow, es);
    SortRejectsExactly(EndpointBelow, es);
    NeighboursDiffer(Sort(EndpointBelow, es));
  }

  lemma NormalizeAscendingEndpoints(es: seq<NetworkEndpoint>)
    requires Ascending(EndpointBelow, es) && ValidEndpoints(es)
    ensures NormalizeEndpoints(es) == Some(es)
  {
    EndpointOrder();
    SortOfAscending(EndpointBelow, es);
    NormalizeEndpointsExactly(es);
  }

  /******* Instances *******/

  datatype LifecycleState = Ready | Unavailable | Draining

  function DeriveState(ready: bool, serving: bool, terminating: bool): LifecycleState {
    if terminating && serving then Draining
    else if !terminating && serving && ready then Ready
    else Unavailable
  }

  datatype Instance = Instance(
    id: string, endpoints: seq<NetworkEndpoint>, ready: bool, serving: bool, terminating: bool, state: LifecycleState,
    zone: Option<string>, weight: Option<int>, metadata: map<string, string>)

  predicate ValidMetadata(m: map<string, string>) {
    forall k | k in m :: ValidExactText(k) && ValidExactText(m[k])
  }

  predicate ValidInstance(i: Instance) {
    && ValidExactText(i.id)
    && |i.endpoints| > 0
    && NormalizeEndpoints(i.endpoints) == Some(i.endpoints)
    && i.state == DeriveState(i.ready, i.serving, i.terminating)
    && (i.zone.Some? ==> ValidExactText(i.zone.value))
    && ValidMetadata(i.metadata)
  }

  lemma ValidInstanceExactly(i: Instance)
    ensures ValidInstance(i) <==>
              && ValidExactText(i.id)
              && |i.endpoints| > 0
              && Ascending(EndpointBelow, i.endpoints)
              && ValidEndpoints(i.endpoints)
              && i.state == DeriveState(i.ready, i.serving, i.terminating)
              && (i.zone.Some? ==> ValidExactText(i.zone.value))
              && ValidMetadata(i.metadata)
  {
    NormalizeEndpointsExactly(i.endpoints);
    if Ascending(EndpointBelow, i.endpoints) && ValidEndpoints(i.endpoints) {
      NormalizeAscendingEndpoints(i.endpoints);
    }
  }

  /** A new instance from its parts; a lifecycle state may be given, and must then be the derived one. */
  function NewInstance(id: string, endpoints: seq<NetworkEndpoint>, ready: bool, serving: bool, terminating: bool,
                       state: Option<LifecycleState>, zone: Option<string>, weight: Option<int>, metadata: map<string, string>): Option<Instance> {
    var normalized := NormalizeEndpoints(endpoints);
    if normalized.None? then None
    else
      var i := Instance(id, normalized.value, ready, serving, terminating, DeriveState(ready, serving, terminating), zone, weight, metadata);
      if (state.Some? ==> state.value == i.state) && ValidInstance(i) then Some(i) else None
  }

  /** Construction fails exactly on bad texts, a state that is not the derived one, or endpoints that are absent, invalid
      or repeated. */
  lemma NewInstanceExactly(id: string, endpoints: seq<NetworkEndpoint>, ready: bool, serving: bool, terminating: bool,
                           state: Option<LifecycleState>, zone: Option<string>, weight: Option<int>, metadata: map<string, string>)
    ensures NewInstance(id, endpoints, ready, serving, terminating, state, zone, weight, metadata).Some? <==>
              && ValidExactText(id) && endpoints != [] && Distinct(endpoints)
              && ValidEndpoints(endpoints) && (state.Some? ==> state.value == DeriveState(ready, serving, terminating))
              && (zone.Some? ==> ValidExactText(zone.value)) && ValidMetadata(metadata)
    ensures var r := NewInstance(id, endpoints, ready, serving, terminating, state, zone, weight, metadata);
            r.Some? ==>
              && ValidInstance(r.value) && Ascending(EndpointBelow, r.value.endpoints)
              && (forall e :: e in r.value.endpoints <==> e in endpoints)
              && r.value == Instance(id, r.value.endpoints, ready, serving, terminating,
                                     DeriveState(ready, serving, terminating), zone, weight, metadata)
  {
    NormalizeEndpointsExactly(endpoints);
    if NormalizeEndpoints(endpoints).Some? {
      var sorted := NormalizeEndpoints(endpoints).value;
      NormalizeAscendingEndpoints(sorted);
    }
  }

  /******* Equality *******/

  /** A missing key reads as the empty text. */
  function Lookup(m: map<string, string>, k: string): string {
    if k in m then m[k] else ""
  }

  predicate EqualMaps(l: map<string, string>, r: map<string, string>) {
    |l| == |r| && forall k | k in l :: Lookup(r, k) == l[k]
  }

  lemma SameSizeSubset<T>(a: set<T>, b: set<T>)
    requires a <= b && |a| == |b|
    ensures a == b
  {
    assert b == a + (b - a);
    assert |b| == |a| + |b - a|;
  }

  lemma {:induction false} LongerThanAll(s: set<string>) returns (bound: nat)
    ensures forall t | t in s :: |t| < bound
  {
    if s == {} {
      bound := 0;
    } else {
      var t :| t in s;
      var b := LongerThanAll(s - {t});
      bound := if b > |t| then b else |t| + 1;
      forall u | u in s ensures |u| < bound {
        assert u == t || u in s - {t};
      }
    }
  }

  /** The size-and-lookup comparison is equality for exactly those left maps that hold no empty text. */
  lemma EqualMapsExactly(l: map<string, string>)
    ensures (forall r :: EqualMaps(l, r) <==> l == r) <==> (forall k | k in l :: l[k] != "")
  {
    if forall k | k in l :: l[k] != "" {
      forall r ensures EqualMaps(l, r) <==> l == r {
        EqualMapsSound(l, r);
      }
    }
    if k :| k in l && l[k] == "" {
      var r := EqualMapsCounterexample(l, k);
      assert EqualMaps(l, r) && l != r;
    }
  }

  lemma EqualMapsSound(l: map<string, string>, r: map<string, string>)
    requires forall k | k in l :: l[k] != ""
    ensures EqualMaps(l, r) <==> l == r
  {
    if EqualMaps(l, r) {
      assert l.Keys <= r.Keys;
      SameSizeSubset(l.Keys, r.Keys);
    }
  }

  lemma EqualMapsCounterexample(l: map<string, string>, k: string) returns (r: map<string, string>)
    requires k in l && l[k] == ""
    ensures EqualMaps(l, r) && l != r
  {
    var bound := LongerThanAll(l.Keys);
    var unused := seq(bound, _ => 'x');
    assert unused !in l;
    r := (l - {k})[unused := "x"];
    assert r.Keys == (l.Keys - {k}) + {unused};
    assert |r| == |r.Keys| && |l| == |l.Keys|;
  }

  predicate EqualEndpoints(l: seq<NetworkEndpoint>, r: seq<NetworkEndpoint>) {
    |l| == |r| && forall i | 0 <= i < |l| :: l[i] == r[i]
  }

  predicate EqualInstances(l: Instance, r: Instance) {
    && l.id == r.id && l.ready == r.ready && l.serving == r.serving && l.terminating == r.terminating
    && l.state == r.state && l.zone == r.zone && l.weight == r.weight
    && EqualMaps(l.metadata, r.metadata) && EqualEndpoints(l.endpoints, r.endpoints)
  }

  /** A valid instance equals only itself. */
  lemma EqualInstancesExactly(l: Instance, r: Instance)
    requires ValidInstance(l)
    ensures EqualInstances(l, r) <==> l == r
  {
    EqualMapsSound(l.metadata, r.metadata);
  }

  predicate EqualAll(l: seq<Instance>, r: seq<Instance>) {
    |l| == |r| && forall i | 0 <= i < |l| :: EqualInstances(l[i], r[i])
  }

  predicate AllValid(xs: seq<Instance>) {
    forall i | i in xs :: ValidInstance(i)
  }

  lemma EqualAllExactly(l: seq<Instance>, r: seq<Instance>)
    requires AllValid(l)
    ensures EqualAll(l, r) <==> l == r
  {
    forall i | 0 <= i < |l| && i < |r| ensures EqualInstances(l[i], r[i]) <==> l[i] == r[i] {
      EqualInstancesExactly(l[i], r[i]);
    }
  }

  /******* Instance sets *******/

  predicate ById(l: Instance, r: Instance) {
    Below(l.id, r.id)
  }

  lemma IdOrder()
    ensures StrictOrder(ById) && NegativelyTransitive(ById)
    ensures forall l: Instance, r: Instance :: l.id == r.id <==> !ById(l, r) && !ById(r, l)
  {
    KeyOrder((i: Instance) => i.id, ById);
    var key := (i: Instance) => i.id;
    assert forall l: Instance, r: Instance :: key(l) == key(r) <==> l.id == r.id;
  }

  function NormalizeInstances(xs: seq<Instance>): Option<seq<Instance>> {
    if !AllValid(xs) then None
    else
      var sorted := Sort(ById, xs);
      if exists k | 0 < k < |sorted| :: sorted[k - 1].id == sorted[k].id then None else Some(sorted)
  }

  ghost predicate DistinctIds(xs: seq<Instance>) {
    forall i, j | 0 <= i < j < |xs| :: xs[i].id != xs[j].id
  }

  lemma IdNeighbours(xs: seq<Instance>)
    requires WeaklyAscending(ById, xs)
    ensures StrictNeighbours(ById, xs) <==> forall k | 0 < k < |xs| :: xs[k - 1].id != xs[k].id
  {
    IdOrder();
    forall k | 0 < k < |xs| ensures ById(xs[k - 1], xs[k]) <==> xs[k - 1].id != xs[k].id {
      assert !ById(xs[k], xs[k - 1]);
    }
  }

  lemma NormalizeInstancesExactly(xs: seq<Instance>)
    ensures NormalizeInstances(xs).Some? <==> AllValid(xs) && DistinctIds(xs)
    ensures NormalizeInstances(xs).Some? ==>
              && NormalizeInstances(xs).value == Sort(ById, xs)
              && Ascending(ById, Sort(ById, xs))
              && (forall i :: i in Sort(ById, xs) <==> i in xs)
              && |Sort(ById, xs)| == |xs|
  {
    IdOrder();
    SortPermutes(ById, xs);
    SortWeakly(ById, xs);
    SortRejectsExactly(ById, xs);
    IdNeighbours(Sort(ById, xs));
    assert Comparable(ById, xs) <==> DistinctIds(xs);
  }

  /** A list of valid instances in strictly ascending id order: what every snapshot and change holds. */
  ghost predicate Sorted(xs: seq<Instance>) {
    AllValid(xs) && Ascending(ById, xs)
  }

  /** Validators normalize again and compare: that accepts exactly the sorted lists. */
  lemma StaysNormalized(xs: seq<Instance>)
    ensures NormalizeInstances(xs).Some? && EqualAll(NormalizeInstances(xs).value, xs) <==> Sorted(xs)
  {
    NormalizeInstancesExactly(xs);
    IdOrder();
    if NormalizeInstances(xs).Some? {
      EqualAllExactly(NormalizeInstances(xs).value, xs);
    }
    if Sorted(xs) {
      SortOfAscending(ById, xs);
      AscendingDistinct(xs);
    }
  }

  lemma AscendingDistinct(xs: seq<Instance>)
    requires Ascending(ById, xs)
    ensures DistinctIds(xs)
  {
    forall i, j | 0 <= i < j < |xs| ensures xs[i].id != xs[j].id {
      BelowTrichotomy(xs[i].id, xs[j].id);
      assert ById(xs[i], xs[j]);
    }
  }

  /******* Revisions, snapshots and changes *******/

  const ORDERS := 0x1_0000_0000_0000_0000

  type LocalOrder = n: int | 0 <= n < ORDERS

  /** The 64-bit successor of a local order, which wraps to zero. */
  function NextOrder(order: LocalOrder): LocalOrder {
    if order + 1 == ORDERS then 0 else order + 1
  }

  datatype Revision = Revision(sourceTokens: seq<string>, localOrder: LocalOrder)

  predicate ValidRevision(r: Revision) {
    r.sourceTokens != [] && forall t | t in r.sourceTokens :: ValidExactText(t)
  }

  datatype Target = Target(agentId: string, agentCardVersion: string, releaseId: string, cardDigest: string, canonicalEndpoint: string, audience: string)

  datatype SnapshotState = Missing | Empty | Populated

  datatype Snapshot = Snapshot(target: Target, revision: Revision, state: SnapshotState, instances: seq<Instance>)

  predicate ValidSnapshot(s: Snapshot) {
    && ValidRevision(s.revision)
    && NormalizeInstances(s.instances).Some? && EqualAll(NormalizeInstances(s.instances).value, s.instances)
    && (s.state.Populated? <==> s.instances != [])
  }

  function NewSnapshot(target: Target, revision: Revision, state: SnapshotState, instances: seq<Instance>): Option<Snapshot> {
    var normalized := NormalizeInstances(instances);
    if normalized.None? then None
    else
      var s := Snapshot(target, revision, state, normalized.value);
      if ValidSnapshot(s) then Some(s) else None
  }

  lemma NewSnapshotExactly(target: Target, revision: Revision, state: SnapshotState, instances: seq<Instance>)
    ensures NewSnapshot(target, revision, state, instances).Some? <==>
              ValidRevision(revision) && AllValid(instances) && DistinctIds(instances) && (state.Populated? <==> instances != [])
    ensures var r := NewSnapshot(target, revision, state, instances);
            r.Some? ==>
              && ValidSnapshot(r.value) && Sorted(r.value.instances)
              && r.value == Snapshot(target, revision, state, Sort(ById, instances))
              && (forall i :: i in r.value.instances <==> i in instances)
  {
    NormalizeInstancesExactly(instances);
    if NormalizeInstances(instances).Some? {
      StaysNormalized(NormalizeInstances(instances).value);
    }
  }

  datatype ChangeKind = InstancesChanged | StateChanged | TargetDeleted

  datatype Change = Change(
    kind: ChangeKind, revision: Revision, upserts: seq<Instance>, deletedIds: seq<string>,
    previousState: Option<SnapshotState>, snapshot: Snapshot)

  function NormalizeIds(ids: seq<string>): Option<seq<string>> {
    if exists id | id in ids :: !ValidExactText(id) then None
    else
      var sorted := Sort(Below, ids);
      if exists k | 0 < k < |sorted| :: sorted[k - 1] == sorted[k] then None else Some(sorted)
  }

  lemma TextOrder()
    ensures StrictOrder(Below) && NegativelyTransitive(Below)
    ensures forall x, y :: x == y <==> !Below(x, y) && !Below(y, x)
  {
    var key := (x: string) => x;
    KeyOrder(key, Below);
    assert forall x, y :: key(x) == key(y) <==> x == y;
  }

  lemma NormalizeIdsExactly(ids: seq<string>)
    ensures NormalizeIds(ids).Some? <==> (forall id | id in ids :: ValidExactText(id)) && Distinct(ids)
    ensures NormalizeIds(ids).Some? ==>
              && NormalizeIds(ids).value == Sort(Below, ids)
              && Ascending(Below, Sort(Below, ids))
              && (forall id :: id in Sort(Below, ids) <==> id in ids)
              && |Sort(Below, ids)| == |ids|
  {
    TextOrder();
    SortPermutes(Below, ids);
    SortWeakly(Below, ids);
    SortRejectsExactly(Below, ids);
    var sorted := Sort(Below, ids);
    forall k | 0 < k < |sorted| ensures Below(sorted[k - 1], sorted[k]) <==> sorted[k - 1] != sorted[k] {
      assert !Below(sorted[k], sorted[k - 1]);
    }
    assert Comparable(Below, ids) <==> Distinct(ids);
  }

  /** The instance with an id, as the lookup table built from the list gives it. */
  function IdTable(xs: seq<Instance>): map<string, Instance> {
    if xs == [] then map[] else IdTable(xs[..|xs| - 1])[xs[|xs| - 1].id := xs[|xs| - 1]]
  }

  predicate ValidKind(c: Change) {
    match c.kind
    case InstancesChanged => (c.upserts != [] || c.deletedIds != []) && c.previousState.None?
    case StateChanged =>
      && c.previousState.Some? && c.previousState.value != c.snapshot.state
      && !c.previousState.value.Populated? && !c.snapshot.state.Populated?
      && c.upserts == [] && c.deletedIds == []
    case TargetDeleted =>
      c.previousState.None? && c.snapshot.state.Missing? && c.upserts == [] && c.deletedIds == []
  }

  predicate ValidChange(c: Change) {
    && ValidRevision(c.revision) && c.revision.localOrder != 0
    && ValidSnapshot(c.snapshot) && c.revision == c.snapshot.revision
    && NormalizeInstances(c.upserts).Some? && EqualAll(NormalizeInstances(c.upserts).value, c.upserts)
    && NormalizeIds(c.deletedIds) == Some(c.deletedIds)
    && (var table := IdTable(c.snapshot.instances);
        && (forall u | u in c.upserts :: u.id in table && EqualInstances(u, table[u.id]))
        && (forall id | id in c.deletedIds :: id !in table))
    && ValidKind(c)
  }

  function NewChange(kind: ChangeKind, revision: Revision, upserts: seq<Instance>, deletedIds: seq<string>,
                     previousState: Option<SnapshotState>, snapshot: Snapshot): Option<Change> {
    var u, d := NormalizeInstances(upserts), NormalizeIds(deletedIds);
    if u.None? || d.None? then None
    else
      var c := Change(kind, revision, u.value, d.value, previousState, snapshot);
      if ValidChange(c) then Some(c) else None
  }
}
