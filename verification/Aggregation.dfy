/**
 * EndpointSlices of one Service: normalizing them into records and merging
 * the records of every slice into the instances of a snapshot.
 */
module Aggregation {
  import opened Wrappers
  import opened Decimal
  import opened Ordering
  import opened RegistryModel

  /******* Wire values and their normalization *******/

  /** One Service and how its slices are recognized. */
  datatype Binding = Binding(
    namespace: string, serviceName: string, serviceUid: string, sliceLabels: map<string, string>,
    addressType: string, portName: string, protocol: string, sliceBound: nat, endpointBound: nat, pendingChanges: nat)

  datatype WirePort = WirePort(name: Option<string>, protocol: Option<string>, port: Option<int>)

  datatype WireEndpoint = WireEndpoint(
    addresses: seq<string>, ready: Option<bool>, serving: Option<bool>, terminating: Option<bool>,
    targetUid: Option<string>, zone: Option<string>)

  datatype EndpointRecord = EndpointRecord(
    id: string, endpoints: seq<NetworkEndpoint>, ready: bool, serving: bool, terminating: bool,
    zone: Option<string>, metadata: map<string, string>)

  datatype SliceRecord = SliceRecord(uid: string, endpoints: seq<EndpointRecord>)

  function Utf8Length(s: string): nat {
    if s == "" then 0
    else (if s[0] < '\U{80}' then 1 else if s[0] < '\U{800}' then 2 else if s[0] < '\U{10000}' then 3 else 4) + Utf8Length(s[1..])
  }

  predicate OpaqueIdentifier(s: string) {
    ValidExactText(s) && Utf8Length(s) <= 253 && forall i | 0 <= i < |s| :: !IsSpace(s[i])
  }

  predicate IsConfigured(p: WirePort, b: Binding) {
    p.name == Some(b.portName) && p.protocol == Some(b.protocol)
  }

  function Configured(ports: seq<WirePort>, b: Binding): seq<WirePort> {
    if ports == [] then []
    else
      var last := ports[|ports| - 1];
      Configured(ports[..|ports| - 1], b) + if IsConfigured(last, b) then [last] else []
  }

  predicate UsablePort(p: WirePort) {
    p.port.Some? && 1 <= p.port.value <= 65535
  }

  /** The port number is the one of the only configured port; none, several or an unusable one is refused. */
  function PortOf(ports: seq<WirePort>, b: Binding): Option<int> {
    var matching := Configured(ports, b);
    if |matching| == 1 && UsablePort(matching[0]) then matching[0].port else None
  }

  method ConfiguredPort(ports: seq<WirePort>, b: Binding) returns (r: Option<int>)
    ensures r == PortOf(ports, b)
  {
    var matchCount, port := 0, 0;
    for i := 0 to |ports|
      invariant matchCount == |Configured(ports[..i], b)|
      invariant forall p | p in Configured(ports[..i], b) :: UsablePort(p)
      invariant matchCount > 0 ==> Some(port) == Configured(ports[..i], b)[matchCount - 1].port
    {
      assert ports[..i + 1][..i] == ports[..i];
      if IsConfigured(ports[i], b) {
        if !UsablePort(ports[i]) {
          UnusableStays(ports, i, b);
          return None;
        }
        matchCount := matchCount + 1;
        port := ports[i].port.value;
      }
    }
    assert ports[..|ports|] == ports;
    return if matchCount == 1 then Some(port) else None;
  }

  lemma {:induction false} UnusableStays(ports: seq<WirePort>, i: nat, b: Binding)
    requires i < |ports| && IsConfigured(ports[i], b)
    ensures ports[i] in Configured(ports, b)
  {
    if i < |ports| - 1 {
      UnusableStays(ports[..|ports| - 1], i, b);
    }
  }

  function NetworkEndpoints(addresses: seq<string>, b: Binding, port: int, canonical: string -> bool): Option<seq<NetworkEndpoint>> {
    if addresses == [] then Some([])
    else
      var e := NetworkEndpoint(b.addressType, addresses[0], b.portName, port, b.protocol);
      if !canonical(addresses[0]) || !ValidEndpoint(e) then None
      else
        var rest := NetworkEndpoints(addresses[1..], b, port, canonical);
        if rest.None? then None else Some([e] + rest.value)
  }

  const TARGET_REF_UID := "kubernetes.target_ref_uid"
  const ADDRESS_TYPE := "kubernetes.address_type"

  /** One wire endpoint as a record: absent conditions read as ready, serving and not terminating. */
  function NormalizeEndpoint(w: WireEndpoint, b: Binding, port: int, canonical: string -> bool): Option<EndpointRecord> {
    if w.targetUid.None? || !OpaqueIdentifier(w.targetUid.value) || w.addresses == [] then None
    else if w.zone.Some? && !OpaqueIdentifier(w.zone.value) then None
    else
      var endpoints := NetworkEndpoints(w.addresses, b, port, canonical);
      if endpoints.None? then None
      else Some(EndpointRecord(
        w.targetUid.value, endpoints.value,
        w.ready.None? || w.ready.value, w.serving.None? || w.serving.value, w.terminating.Some? && w.terminating.value,
        w.zone, map[TARGET_REF_UID := w.targetUid.value, ADDRESS_TYPE := b.addressType]))
  }

  /** What normalization guarantees of every stored record. */
  predicate ValidRecord(r: EndpointRecord) {
    && ValidExactText(r.id) && r.endpoints != [] && ValidEndpoints(r.endpoints)
    && (r.zone.Some? ==> ValidExactText(r.zone.value)) && ValidMetadata(r.metadata)
  }

  lemma {:induction false} NetworkEndpointsValid(addresses: seq<string>, b: Binding, port: int, canonical: string -> bool)
    ensures var r := NetworkEndpoints(addresses, b, port, canonical);
            r.Some? ==> |r.value| == |addresses| && ValidEndpoints(r.value)
                        && forall i | 0 <= i < |addresses| :: r.value[i].address == addresses[i] && canonical(addresses[i])
  {
    if addresses != [] {
      NetworkEndpointsValid(addresses[1..], b, port, canonical);
    }
  }

  lemma MetadataKeysValid()
    ensures ValidExactText(TARGET_REF_UID) && ValidExactText(ADDRESS_TYPE)
  {
    assert TARGET_REF_UID[0] == 'k' && TARGET_REF_UID[|TARGET_REF_UID| - 1] == 'd';
    assert ADDRESS_TYPE[0] == 'k' && ADDRESS_TYPE[|ADDRESS_TYPE| - 1] == 'e';
  }

  /** Every record that normalization produces can later become an instance. */
  lemma NormalizedRecordIsValid(w: WireEndpoint, b: Binding, port: int, canonical: string -> bool)
    ensures var r := NormalizeEndpoint(w, b, port, canonical);
            r.Some? ==> ValidRecord(r.value) && r.value.id == w.targetUid.value && |r.value.endpoints| == |w.addresses|
  {
    var r := NormalizeEndpoint(w, b, port, canonical);
    if r.Some? {
      NetworkEndpointsValid(w.addresses, b, port, canonical);
      MetadataKeysValid();
      assert r.value.endpoints[0] in r.value.endpoints;
    }
  }

  datatype Owner = Owner(apiVersion: string, kind: string, name: string, uid: string)

  datatype ObjectMeta = ObjectMeta(
    name: string, namespace: string, uid: string, resourceVersion: string, labels: map<string, string>, owners: seq<Owner>)

  datatype WireSlice = WireSlice(meta: ObjectMeta, addressType: Option<string>, ports: seq<WirePort>, endpoints: seq<WireEndpoint>)

  /** An absent label reads as the empty text. */
  predicate HasLabels(actual: map<string, string>, required: map<string, string>) {
    forall k | k in required :: (if k in actual then actual[k] else "") == required[k]
  }

  predicate IsBoundService(o: Owner, b: Binding) {
    o.apiVersion == "v1" && o.name == b.serviceName && o.uid == b.serviceUid
  }

  /** A Service owns the slice, and no Service but the bound one does. */
  predicate OwnedByService(owners: seq<Owner>, b: Binding) {
    && (exists o | o in owners :: o.kind == "Service")
    && (forall o | o in owners && o.kind == "Service" :: IsBoundService(o, b))
  }

  /** Only objects from a watch must carry a resource version. */
  predicate ValidIdentity(w: WireSlice, b: Binding, versioned: bool) {
    && OpaqueIdentifier(w.meta.name) && w.meta.namespace == b.namespace && OpaqueIdentifier(w.meta.uid)
    && (versioned ==> OpaqueIdentifier(w.meta.resourceVersion))
    && HasLabels(w.meta.labels, b.sliceLabels)
    && (w.addressType.Some? ==> w.addressType.value == b.addressType)
    && OwnedByService(w.meta.owners, b)
  }

  method CheckLabels(actual: map<string, string>, required: map<string, string>) returns (ok: bool)
    ensures ok == HasLabels(actual, required)
  {
    var rest := required.Keys;
    while rest != {}
      invariant rest <= required.Keys
      invariant forall k | k in required && k !in rest :: (if k in actual then actual[k] else "") == required[k]
      decreases |rest|
    {
      var key :| key in rest;
      if (if key in actual then actual[key] else "") != required[key] {
        return false;
      }
      rest := rest - {key};
    }
    return true;
  }

  method CheckOwners(owners: seq<Owner>, b: Binding) returns (ok: bool)
    ensures ok == OwnedByService(owners, b)
  {
    var found := false;
    for i := 0 to |owners|
      invariant found <==> exists k | 0 <= k < i :: owners[k].kind == "Service"
      invariant forall k | 0 <= k < i && owners[k].kind == "Service" :: IsBoundService(owners[k], b)
    {
      if owners[i].kind == "Service" {
        if !IsBoundService(owners[i], b) {
          return false;
        }
        found := true;
      }
    }
    return found;
  }

  /** The checks shared by slices that are stored and slices that are deleted. */
  method CheckIdentity(w: WireSlice, b: Binding, versioned: bool) returns (ok: bool)
    ensures ok == ValidIdentity(w, b, versioned)
  {
    if !OpaqueIdentifier(w.meta.name) || w.meta.namespace != b.namespace || !OpaqueIdentifier(w.meta.uid)
       || (versioned && !OpaqueIdentifier(w.meta.resourceVersion)) {
      return false;
    }
    ok := CheckLabels(w.meta.labels, b.sliceLabels);
    if !ok || (w.addressType.Some? && w.addressType.value != b.addressType) {
      return false;
    }
    ok := CheckOwners(w.meta.owners, b);
  }

  function NormalizeAll(ws: seq<WireEndpoint>, b: Binding, port: int, canonical: string -> bool): Option<seq<EndpointRecord>> {
    if ws == [] then Some([])
    else
      var init := NormalizeAll(ws[..|ws| - 1], b, port, canonical);
      if init.None? then None
      else
        var last := NormalizeEndpoint(ws[|ws| - 1], b, port, canonical);
        if last.None? then None else Some(init.value + [last.value])
  }

  function NormalizeSlice(w: WireSlice, b: Binding, versioned: bool, canonical: string -> bool): Option<SliceRecord> {
    if !ValidIdentity(w, b, versioned) || w.addressType != Some(b.addressType) then None
    else
      var port := PortOf(w.ports, b);
      if port.None? then None
      else
        var endpoints := NormalizeAll(w.endpoints, b, port.value, canonical);
        if endpoints.None? then None else Some(SliceRecord(w.meta.uid, endpoints.value))
  }

  lemma {:induction false} NormalizedAllValid(ws: seq<WireEndpoint>, b: Binding, port: int, canonical: string -> bool)
    ensures var r := NormalizeAll(ws, b, port, canonical);
            r.Some? ==> |r.value| == |ws| && forall i | 0 <= i < |ws| :: ValidRecord(r.value[i])
    ensures NormalizeAll(ws, b, port, canonical).Some? <==> forall w | w in ws :: NormalizeEndpoint(w, b, port, canonical).Some?
  {
    if ws != [] {
      NormalizedAllValid(ws[..|ws| - 1], b, port, canonical);
      NormalizedRecordIsValid(ws[|ws| - 1], b, port, canonical);
    }
  }

  /** A slice is accepted exactly when its identity, address type, port and every endpoint are; it then holds one valid
      record per wire endpoint, so counting either gives the same bound. */
  lemma NormalizedSliceIsValid(w: WireSlice, b: Binding, versioned: bool, canonical: string -> bool)
    ensures NormalizeSlice(w, b, versioned, canonical).Some? <==>
              && ValidIdentity(w, b, versioned) && w.addressType == Some(b.addressType) && PortOf(w.ports, b).Some?
              && forall e | e in w.endpoints :: NormalizeEndpoint(e, b, PortOf(w.ports, b).value, canonical).Some?
    ensures var r := NormalizeSlice(w, b, versioned, canonical);
            r.Some? ==> ValidSlice(r.value) && |r.value.endpoints| == |w.endpoints| && r.value.uid == w.meta.uid
  {
    if PortOf(w.ports, b).Some? {
      NormalizedAllValid(w.endpoints, b, PortOf(w.ports, b).value, canonical);
    }
  }

  /******* Endpoint keys *******/

  const NUL := '\0'

  /** Fields separated by NUL characters. */
  function Join(fields: seq<string>): string {
    if fields == [] then "" else if |fields| == 1 then fields[0] else fields[0] + [NUL] + Join(fields[1..])
  }

  function Fields(e: NetworkEndpoint): seq<string>
    requires e.port >= 0
  {
    [e.addressType, e.address, e.portName, Itoa(e.port), e.protocol]
  }

  function Key(e: NetworkEndpoint): string
    requires e.port >= 0
  {
    Join(Fields(e))
  }

  lemma FirstField(a: string, x: string, b: string, y: string)
    requires NUL !in a && NUL !in b && a + [NUL] + x == b + [NUL] + y
    ensures a == b && x == y
  {
    var s := a + [NUL] + x;
    assert s[|a|] == NUL && s[|b|] == NUL;
    assert a == s[..|a|] && b == s[..|b|];
    assert x == s[|a| + 1..] && y == s[|b| + 1..];
  }

  lemma {:induction false} JoinInjective(a: seq<string>, b: seq<string>)
    requires |a| == |b| > 0 && Join(a) == Join(b)
    requires forall i | 0 <= i < |a| :: NUL !in a[i] && NUL !in b[i]
    ensures a == b
  {
    if |a| > 1 {
      FirstField(a[0], Join(a[1..]), b[0], Join(b[1..]));
      JoinInjective(a[1..], b[1..]);
      assert a == [a[0]] + a[1..] && b == [b[0]] + b[1..];
    }
  }

  /** Valid endpoints are told apart by their keys. */
  lemma KeyInjective(a: NetworkEndpoint, b: NetworkEndpoint)
    requires ValidEndpoint(a) && ValidEndpoint(b) && Key(a) == Key(b)
    ensures a == b
  {
    var x, y := Fields(a), Fields(b);
    JoinInjective(x, y);
    assert x[0] == y[0] && x[1] == y[1] && x[2] == y[2] && x[3] == y[3] && x[4] == y[4];
    ItoaInjective(a.port, b.port);
  }

  /******* What aggregation means *******/

  ghost function Records(slices: map<string, SliceRecord>): set<EndpointRecord> {
    set uid, i | uid in slices && 0 <= i < |slices[uid].endpoints| :: slices[uid].endpoints[i]
  }

  predicate SameConditions(a: EndpointRecord, b: EndpointRecord) {
    a.ready == b.ready && a.serving == b.serving && a.terminating == b.terminating && a.zone == b.zone && a.metadata == b.metadata
  }

  /** Two records with one id disagree, or two ids claim one endpoint tuple. */
  ghost predicate Conflict(a: EndpointRecord, b: EndpointRecord) {
    if a.id == b.id then !SameConditions(a, b) else exists e :: e in a.endpoints && e in b.endpoints
  }

  ghost predicate Consistent(recs: set<EndpointRecord>) {
    forall a, b {:trigger Conflict(a, b)} | a in recs && b in recs :: !Conflict(a, b)
  }

  ghost predicate AllRecordsValid(recs: set<EndpointRecord>) {
    forall r | r in recs :: ValidRecord(r)
  }

  ghost predicate HasId(recs: set<EndpointRecord>, id: string) {
    exists r :: r in recs && r.id == id
  }

  ghost predicate Claimed(recs: set<EndpointRecord>, id: string, e: NetworkEndpoint) {
    exists r :: r in recs && r.id == id && e in r.endpoints
  }

  /** The instance that a set of records describes for an id. */
  ghost predicate Describes(recs: set<EndpointRecord>, i: Instance) {
    && ValidInstance(i) && i.weight.None? && HasId(recs, i.id)
    && (forall r | r in recs && r.id == i.id ::
          i.ready == r.ready && i.serving == r.serving && i.terminating == r.terminating && i.zone == r.zone && i.metadata == r.metadata)
    && (forall e :: e in i.endpoints <==> Claimed(recs, i.id, e))
  }

  /** The aggregation of a set of records: one instance per id, in id order, each holding exactly the union of its records' tuples. */
  ghost predicate IsAggregation(recs: set<EndpointRecord>, xs: seq<Instance>) {
    && Sorted(xs)
    && (forall i | i in xs :: Describes(recs, i))
    && (forall r | r in recs :: exists i :: i in xs && i.id == r.id)
  }

  lemma DescribedOnce(recs: set<EndpointRecord>, a: Instance, b: Instance)
    requires Describes(recs, a) && Describes(recs, b) && a.id == b.id
    ensures a == b
  {
    ValidInstanceExactly(a);
    ValidInstanceExactly(b);
    EndpointOrder();
    AscendingUnique(EndpointBelow, a.endpoints, b.endpoints);
    var r :| r in recs && r.id == a.id;
  }

  /** At most one list of instances aggregates a set of records, so no iteration order can show. */
  lemma AggregationUnique(recs: set<EndpointRecord>, xs: seq<Instance>, ys: seq<Instance>)
    requires IsAggregation(recs, xs) && IsAggregation(recs, ys)
    ensures xs == ys
  {
    IdOrder();
    forall i ensures i in xs <==> i in ys {
      if i in xs {
        AggregationMember(recs, ys, i);
      }
      if i in ys {
        AggregationMember(recs, xs, i);
      }
    }
    AscendingUnique(ById, xs, ys);
  }

  lemma AggregationMember(recs: set<EndpointRecord>, xs: seq<Instance>, i: Instance)
    requires IsAggregation(recs, xs) && Describes(recs, i)
    ensures i in xs
  {
    var r :| r in recs && r.id == i.id;
    var j :| j in xs && j.id == r.id;
    DescribedOnce(recs, i, j);
  }

  /******* The merge loops *******/

  datatype Aggregate = Aggregate(
    id: string, ready: bool, serving: bool, terminating: bool, zone: Option<string>, metadata: map<string, string>,
    endpoints: map<string, NetworkEndpoint>)

  predicate Agrees(a: Aggregate, r: EndpointRecord) {
    a.ready == r.ready && a.serving == r.serving && a.terminating == r.terminating && a.zone == r.zone && EqualMaps(a.metadata, r.metadata)
  }

  ghost predicate OwnedBySome(owners: map<string, string>, recs: set<EndpointRecord>, k: string)
    requires k in owners
  {
    exists e :: ValidEndpoint(e) && Key(e) == k && Claimed(recs, owners[k], e)
  }

  ghost predicate OwnersTrack(owners: map<string, string>, recs: set<EndpointRecord>) {
    && (forall id, e | Claimed(recs, id, e) :: ValidEndpoint(e) && Key(e) in owners && owners[Key(e)] == id)
    && (forall k {:trigger OwnedBySome(owners, recs, k)} | k in owners :: OwnedBySome(owners, recs, k))
  }

  ghost predicate EndpointsTrack(a: Aggregate, recs: set<EndpointRecord>) {
    && (forall e | Claimed(recs, a.id, e) :: ValidEndpoint(e) && Key(e) in a.endpoints && a.endpoints[Key(e)] == e)
    && (forall k | k in a.endpoints :: ValidEndpoint(a.endpoints[k]) && Key(a.endpoints[k]) == k && Claimed(recs, a.id, a.endpoints[k]))
  }

  ghost predicate ConditionsTrack(a: Aggregate, recs: set<EndpointRecord>) {
    forall r | r in recs && r.id == a.id ::
      a.ready == r.ready && a.serving == r.serving && a.terminating == r.terminating && a.zone == r.zone && a.metadata == r.metadata
  }

  ghost predicate TableTracks(byId: map<string, Aggregate>, recs: set<EndpointRecord>) {
    && (forall id :: id in byId <==> HasId(recs, id))
    && (forall id | id in byId :: byId[id].id == id && EndpointsTrack(byId[id], recs) && ConditionsTrack(byId[id], recs))
  }

  lemma ClaimedAdd(recs: set<EndpointRecord>, r: EndpointRecord, id: string, e: NetworkEndpoint)
    ensures Claimed(recs + {r}, id, e) <==> Claimed(recs, id, e) || (id == r.id && e in r.endpoints)
  {
    if Claimed(recs, id, e) {
      var d :| d in recs && d.id == id && e in d.endpoints;
      assert d in recs + {r};
    }
    assert r in recs + {r};
  }

  /** A record cut off after its first endpoints: how far the claiming loop has come. */
  function Prefix(r: EndpointRecord, n: nat): EndpointRecord
    requires n <= |r.endpoints|
  {
    r.(endpoints := r.endpoints[..n])
  }

  lemma ClaimedNext(recs: set<EndpointRecord>, r: EndpointRecord, n: nat, id: string, e: NetworkEndpoint)
    requires n < |r.endpoints|
    ensures Claimed(recs + {Prefix(r, n + 1)}, id, e) <==>
              Claimed(recs + {Prefix(r, n)}, id, e) || (id == r.id && e == r.endpoints[n])
  {
    ClaimedAdd(recs, Prefix(r, n), id, e);
    ClaimedAdd(recs, Prefix(r, n + 1), id, e);
    assert r.endpoints[..n + 1] == r.endpoints[..n] + [r.endpoints[n]];
  }

  lemma OwnersNext(owners: map<string, string>, recs: set<EndpointRecord>, r: EndpointRecord, n: nat)
    requires n < |r.endpoints| && ValidEndpoint(r.endpoints[n])
    requires OwnersTrack(owners, recs + {Prefix(r, n)})
    requires Key(r.endpoints[n]) in owners ==> owners[Key(r.endpoints[n])] == r.id
    ensures OwnersTrack(owners[Key(r.endpoints[n]) := r.id], recs + {Prefix(r, n + 1)})
  {
    var e := r.endpoints[n];
    var now, before, after := owners[Key(e) := r.id], recs + {Prefix(r, n)}, recs + {Prefix(r, n + 1)};
    forall id, x | Claimed(after, id, x) ensures ValidEndpoint(x) && Key(x) in now && now[Key(x)] == id {
      ClaimedNext(recs, r, n, id, x);
      if Claimed(before, id, x) && Key(x) == Key(e) {
        KeyInjective(x, e);
      }
    }
    forall k | k in now ensures OwnedBySome(now, after, k) {
      if k == Key(e) {
        ClaimedNext(recs, r, n, r.id, e);
      } else {
        assert OwnedBySome(owners, before, k);
        var x :| ValidEndpoint(x) && Key(x) == k && Claimed(before, owners[k], x);
        ClaimedNext(recs, r, n, owners[k], x);
      }
    }
  }

  lemma EndpointsNext(a: Aggregate, recs: set<EndpointRecord>, r: EndpointRecord, n: nat)
    requires n < |r.endpoints| && ValidEndpoint(r.endpoints[n]) && a.id == r.id
    requires EndpointsTrack(a, recs + {Prefix(r, n)})
    ensures EndpointsTrack(a.(endpoints := a.endpoints[Key(r.endpoints[n]) := r.endpoints[n]]), recs + {Prefix(r, n + 1)})
  {
    var e := r.endpoints[n];
    var now, before, after := a.(endpoints := a.endpoints[Key(e) := e]), recs + {Prefix(r, n)}, recs + {Prefix(r, n + 1)};
    forall x | Claimed(after, a.id, x) ensures ValidEndpoint(x) && Key(x) in now.endpoints && now.endpoints[Key(x)] == x {
      ClaimedNext(recs, r, n, a.id, x);
      if Claimed(before, a.id, x) && Key(x) == Key(e) {
        KeyInjective(x, e);
      }
    }
    forall k | k in now.endpoints
      ensures ValidEndpoint(now.endpoints[k]) && Key(now.endpoints[k]) == k && Claimed(after, a.id, now.endpoints[k])
    {
      ClaimedNext(recs, r, n, a.id, now.endpoints[k]);
    }
  }

  /** Some other id already holds one of the record's tuples. */
  ghost predicate Contested(recs: set<EndpointRecord>, r: EndpointRecord) {
    exists id, e :: id != r.id && e in r.endpoints && Claimed(recs, id, e)
  }

  lemma OwnerContests(owners: map<string, string>, recs: set<EndpointRecord>, r: EndpointRecord, n: nat)
    requires n < |r.endpoints| && ValidEndpoint(r.endpoints[n])
    requires OwnersTrack(owners, recs + {Prefix(r, n)})
    requires Key(r.endpoints[n]) in owners && owners[Key(r.endpoints[n])] != r.id
    ensures Contested(recs, r)
  {
    var k := Key(r.endpoints[n]);
    assert OwnedBySome(owners, recs + {Prefix(r, n)}, k);
    var x :| ValidEndpoint(x) && Key(x) == k && Claimed(recs + {Prefix(r, n)}, owners[k], x);
    KeyInjective(x, r.endpoints[n]);
    ClaimedAdd(recs, Prefix(r, n), owners[k], x);
  }

  lemma EmptyPrefix(owners: map<string, string>, a: Aggregate, recs: set<EndpointRecord>, r: EndpointRecord)
    requires OwnersTrack(owners, recs) && EndpointsTrack(a, recs) && a.id == r.id
    ensures Claiming(owners, a, recs, r, 0)
  {
    forall id, e ensures Claimed(recs + {Prefix(r, 0)}, id, e) <==> Claimed(recs, id, e) {
      ClaimedAdd(recs, Prefix(r, 0), id, e);
    }
    forall k | k in owners ensures OwnedBySome(owners, recs + {Prefix(r, 0)}, k) {
      assert OwnedBySome(owners, recs, k);
      var e :| ValidEndpoint(e) && Key(e) == k && Claimed(recs, owners[k], e);
      assert Claimed(recs + {Prefix(r, 0)}, owners[k], e);
    }
  }

  /** No other id holds any of the record's first tuples. */
  ghost predicate Free(recs: set<EndpointRecord>, r: EndpointRecord, n: nat)
    requires n <= |r.endpoints|
  {
    forall id, i | id != r.id && 0 <= i < n :: !Claimed(recs, id, r.endpoints[i])
  }

  ghost predicate Claiming(owners: map<string, string>, a: Aggregate, recs: set<EndpointRecord>, r: EndpointRecord, n: nat)
    requires n <= |r.endpoints|
  {
    OwnersTrack(owners, recs + {Prefix(r, n)}) && EndpointsTrack(a, recs + {Prefix(r, n)}) && Free(recs, r, n)
  }

  lemma FreeNext(owners: map<string, string>, recs: set<EndpointRecord>, r: EndpointRecord, n: nat)
    requires n < |r.endpoints| && ValidEndpoint(r.endpoints[n]) && Free(recs, r, n)
    requires OwnersTrack(owners, recs + {Prefix(r, n)})
    requires Key(r.endpoints[n]) in owners ==> owners[Key(r.endpoints[n])] == r.id
    ensures Free(recs, r, n + 1)
  {
    forall id | id != r.id ensures !Claimed(recs, id, r.endpoints[n]) {
      ClaimedAdd(recs, Prefix(r, n), id, r.endpoints[n]);
    }
  }

  lemma ClaimingNext(owners: map<string, string>, a: Aggregate, recs: set<EndpointRecord>, r: EndpointRecord, n: nat)
    requires n < |r.endpoints| && ValidEndpoint(r.endpoints[n]) && a.id == r.id && Claiming(owners, a, recs, r, n)
    requires Key(r.endpoints[n]) in owners ==> owners[Key(r.endpoints[n])] == r.id
    ensures var e := r.endpoints[n];
            Claiming(owners[Key(e) := r.id], a.(endpoints := a.endpoints[Key(e) := e]), recs, r, n + 1)
  {
    FreeNext(owners, recs, r, n);
    OwnersNext(owners, recs, r, n);
    EndpointsNext(a, recs, r, n);
  }

  lemma ClaimingDone(owners: map<string, string>, a: Aggregate, recs: set<EndpointRecord>, r: EndpointRecord)
    requires Claiming(owners, a, recs, r, |r.endpoints|)
    ensures OwnersTrack(owners, recs + {r}) && EndpointsTrack(a, recs + {r}) && !Contested(recs, r)
  {
    assert r.endpoints[..|r.endpoints|] == r.endpoints;
    assert Prefix(r, |r.endpoints|) == r;
    forall id, e | id != r.id && e in r.endpoints ensures !Claimed(recs, id, e) {
      var i :| 0 <= i < |r.endpoints| && r.endpoints[i] == e;
    }
  }

  /** Claims the record's tuples one by one for its id, until another id is found to hold one of them. */
  method ClaimEndpoints(owners0: map<string, string>, a0: Aggregate, r: EndpointRecord, ghost recs: set<EndpointRecord>)
    returns (ok: bool, owners: map<string, string>, a: Aggregate)
    requires Claiming(owners0, a0, recs, r, 0)
    requires a0.id == r.id && ValidEndpoints(r.endpoints)
    ensures a == a0.(endpoints := a.endpoints)
    ensures if ok then Claiming(owners, a, recs, r, |r.endpoints|) else Contested(recs, r)
  {
    owners, a := owners0, a0;
    var n := 0;
    while n < |r.endpoints|
      invariant n <= |r.endpoints| && a == a0.(endpoints := a.endpoints)
      invariant Claiming(owners, a, recs, r, n)
    {
      var e := r.endpoints[n];
      assert ValidEndpoint(e);
      if Key(e) in owners && owners[Key(e)] != r.id {
        OwnerContests(owners, recs, r, n);
        return false, owners, a;
      }
      ClaimingNext(owners, a, recs, r, n);
      owners := owners[Key(e) := r.id];
      a := a.(endpoints := a.endpoints[Key(e) := e]);
      n := n + 1;
    }
    return true, owners, a;
  }

  /******* Adding a record *******/

  ghost predicate Tracks(byId: map<string, Aggregate>, owners: map<string, string>, recs: set<EndpointRecord>) {
    AllRecordsValid(recs) && OwnersTrack(owners, recs) && TableTracks(byId, recs)
  }

  lemma AddConflicts(recs: set<EndpointRecord>, r: EndpointRecord)
    ensures (exists d :: d in recs && Conflict(d, r)) <==>
              Contested(recs, r) || exists d :: d in recs && d.id == r.id && !SameConditions(d, r)
  {
    if Contested(recs, r) {
      var id, e :| id != r.id && e in r.endpoints && Claimed(recs, id, e);
      var d :| d in recs && d.id == id && e in d.endpoints;
      assert Conflict(d, r);
    }
    if d :| d in recs && Conflict(d, r) {
      if d.id != r.id {
        var e :| e in d.endpoints && e in r.endpoints;
        assert Claimed(recs, d.id, e);
      }
    }
    if d :| d in recs && d.id == r.id && !SameConditions(d, r) {
      assert Conflict(d, r);
    }
  }

  lemma TableAdd(byId: map<string, Aggregate>, a: Aggregate, recs: set<EndpointRecord>, r: EndpointRecord)
    requires TableTracks(byId, recs) && a.id == r.id
    requires EndpointsTrack(a, recs + {r}) && ConditionsTrack(a, recs + {r})
    ensures TableTracks(byId[r.id := a], recs + {r})
  {
    var now := byId[r.id := a];
    assert r in recs + {r};
    forall id ensures id in now <==> HasId(recs + {r}, id) {
      assert HasId(recs + {r}, id) <==> HasId(recs, id) || id == r.id;
    }
    forall id | id in now ensures now[id].id == id && EndpointsTrack(now[id], recs + {r}) && ConditionsTrack(now[id], recs + {r}) {
      if id != r.id {
        forall e ensures Claimed(recs + {r}, id, e) <==> Claimed(recs, id, e) {
          ClaimedAdd(recs, r, id, e);
        }
      }
    }
  }

  /** The comparison with the table entry is the comparison with every earlier record of that id. */
  lemma AgreesExactly(a: Aggregate, recs: set<EndpointRecord>, r: EndpointRecord)
    requires AllRecordsValid(recs) && HasId(recs, r.id) && a.id == r.id && ConditionsTrack(a, recs)
    ensures Agrees(a, r) <==> forall d | d in recs && d.id == r.id :: SameConditions(d, r)
    ensures Agrees(a, r) ==> ConditionsTrack(a, recs + {r})
  {
    var d :| d in recs && d.id == r.id;
    EqualMapsSound(a.metadata, r.metadata);
  }

  /** Adding a record is refused exactly when it conflicts with one already merged. */
  method AddRecord(byId0: map<string, Aggregate>, owners0: map<string, string>, r: EndpointRecord, ghost recs: set<EndpointRecord>)
    returns (ok: bool, byId: map<string, Aggregate>, owners: map<string, string>)
    requires Tracks(byId0, owners0, recs) && ValidRecord(r)
    ensures ok <==> !exists d :: d in recs && Conflict(d, r)
    ensures ok ==> Tracks(byId, owners, recs + {r})
  {
    byId, owners := byId0, owners0;
    AddConflicts(recs, r);
    var a: Aggregate;
    if r.id in byId {
      a := byId[r.id];
      AgreesExactly(a, recs, r);
      if !Agrees(a, r) {
        return false, byId, owners;
      }
    } else {
      a := Aggregate(r.id, r.ready, r.serving, r.terminating, r.zone, r.metadata, map[]);
    }
    EmptyPrefix(owners, a, recs, r);
    ok, owners, a := ClaimEndpoints(owners, a, r, recs);
    if ok {
      ClaimingDone(owners, a, recs, r);
      TableAdd(byId, a, recs, r);
      byId := byId[r.id := a];
    }
  }

  /******* Merging slices *******/

  lemma ConflictSymmetric(a: EndpointRecord, b: EndpointRecord)
    requires Conflict(a, b)
    ensures Conflict(b, a)
  {
  }

  lemma ConsistentAdd(recs: set<EndpointRecord>, r: EndpointRecord)
    ensures Consistent(recs + {r}) <==> Consistent(recs) && !exists d :: d in recs && Conflict(d, r)
  {
    if Consistent(recs + {r}) {
      forall d | d in recs ensures !Conflict(d, r) {
        assert d in recs + {r} && r in recs + {r};
      }
    }
    if Consistent(recs) && !exists d :: d in recs && Conflict(d, r) {
      forall a, b | a in recs + {r} && b in recs + {r} ensures !Conflict(a, b) {
        if a == r && b in recs && Conflict(a, b) {
          ConflictSymmetric(a, b);
        }
      }
    }
  }

  ghost predicate Merged(byId: map<string, Aggregate>, owners: map<string, string>, recs: set<EndpointRecord>) {
    Consistent(recs) && Tracks(byId, owners, recs)
  }

  ghost function FirstRecords(slice: SliceRecord, n: nat): set<EndpointRecord>
    requires n <= |slice.endpoints|
  {
    set i | 0 <= i < n :: slice.endpoints[i]
  }

  predicate ValidSlice(slice: SliceRecord) {
    forall i | 0 <= i < |slice.endpoints| :: ValidRecord(slice.endpoints[i])
  }

  lemma InconsistentGrows(small: set<EndpointRecord>, large: set<EndpointRecord>)
    requires small <= large && !Consistent(small)
    ensures !Consistent(large)
  {
  }

  lemma FirstRecordsNext(slice: SliceRecord, n: nat, recs: set<EndpointRecord>)
    requires n < |slice.endpoints|
    ensures recs + FirstRecords(slice, n + 1) == recs + FirstRecords(slice, n) + {slice.endpoints[n]}
    ensures recs + FirstRecords(slice, n + 1) <= recs + FirstRecords(slice, |slice.endpoints|)
  {
  }

  method MergeSlice(byId0: map<string, Aggregate>, owners0: map<string, string>, slice: SliceRecord, ghost recs: set<EndpointRecord>)
    returns (ok: bool, byId: map<string, Aggregate>, owners: map<string, string>)
    requires Merged(byId0, owners0, recs) && ValidSlice(slice)
    ensures var all := recs + FirstRecords(slice, |slice.endpoints|);
            if ok then Merged(byId, owners, all) else !Consistent(all)
  {
    byId, owners := byId0, owners0;
    ghost var done := recs;
    for n := 0 to |slice.endpoints|
      invariant done == recs + FirstRecords(slice, n) && Merged(byId, owners, done)
    {
      ConsistentAdd(done, slice.endpoints[n]);
      FirstRecordsNext(slice, n, recs);
      ok, byId, owners := AddRecord(byId, owners, slice.endpoints[n], done);
      done := done + {slice.endpoints[n]};
      if !ok {
        InconsistentGrows(done, recs + FirstRecords(slice, |slice.endpoints|));
        return false, byId, owners;
      }
    }
    ok := true;
  }

  ghost predicate AllSlicesValid(slices: map<string, SliceRecord>) {
    forall uid | uid in slices :: ValidSlice(slices[uid])
  }

  ghost function RecordsOf(slices: map<string, SliceRecord>, uids: set<string>): set<EndpointRecord> {
    set uid, i | uid in uids && uid in slices && 0 <= i < |slices[uid].endpoints| :: slices[uid].endpoints[i]
  }

  lemma RecordsOfNext(slices: map<string, SliceRecord>, done: set<string>, uid: string)
    requires uid in slices
    ensures RecordsOf(slices, done + {uid}) == RecordsOf(slices, done) + FirstRecords(slices[uid], |slices[uid].endpoints|)
    ensures RecordsOf(slices, done + {uid}) <= Records(slices)
  {
    var r := FirstRecords(slices[uid], |slices[uid].endpoints|);
    assert forall x :: x in RecordsOf(slices, done + {uid}) <==> x in RecordsOf(slices, done) + r;
  }

  /** Merges the slices in any order; succeeds exactly when all their records are consistent. */
  method MergeSlices(slices: map<string, SliceRecord>)
    returns (ok: bool, byId: map<string, Aggregate>, owners: map<string, string>)
    requires AllSlicesValid(slices)
    ensures if ok then Merged(byId, owners, Records(slices)) else !Consistent(Records(slices))
  {
    byId, owners := map[], map[];
    var rest := slices.Keys;
    ghost var uids: set<string> := {};
    ghost var done: set<EndpointRecord> := {};
    while rest != {}
      invariant uids + rest == slices.Keys && uids !! rest
      invariant done == RecordsOf(slices, uids) && Merged(byId, owners, done)
      decreases |rest|
    {
      var uid :| uid in rest;
      RecordsOfNext(slices, uids, uid);
      ok, byId, owners := MergeSlice(byId, owners, slices[uid], done);
      done := RecordsOf(slices, uids + {uid});
      if !ok {
        InconsistentGrows(done, Records(slices));
        return false, byId, owners;
      }
      rest, uids := rest - {uid}, uids + {uid};
    }
    assert RecordsOf(slices, uids) == Records(slices);
    ok := true;
  }

  /******* Building the instances *******/

  lemma {:induction false} SortSet<T(!new)>(lt: (T, T) -> bool, s: set<T>) returns (xs: seq<T>)
    requires StrictOrder(lt) && forall x, y :: x != y ==> lt(x, y) || lt(y, x)
    ensures Ascending(lt, xs) && forall x :: x in xs <==> x in s
  {
    if s == {} {
      xs := [];
    } else {
      var x :| x in s;
      var rest := SortSet(lt, s - {x});
      xs := Insert(lt, x, rest);
      forall y | y in rest ensures lt(x, y) || lt(y, x) {
        assert y in s - {x};
      }
      InsertAscends(lt, x, rest);
      InsertMembers(lt, x, rest);
    }
  }

  lemma DescribedInstance(recs: set<EndpointRecord>, id: string) returns (i: Instance)
    requires AllRecordsValid(recs) && Consistent(recs) && HasId(recs, id)
    ensures Describes(recs, i) && i.id == id
  {
    var r :| r in recs && r.id == id;
    var tuples := set d, k | d in recs && d.id == id && 0 <= k < |d.endpoints| :: d.endpoints[k];
    EndpointOrder();
    var endpoints := SortSet(EndpointBelow, tuples);
    forall e ensures e in tuples <==> Claimed(recs, id, e) {
      if Claimed(recs, id, e) {
        var d :| d in recs && d.id == id && e in d.endpoints;
        var k :| 0 <= k < |d.endpoints| && d.endpoints[k] == e;
      }
    }
    assert r.endpoints[0] in tuples;
    i := Instance(id, endpoints, r.ready, r.serving, r.terminating, DeriveState(r.ready, r.serving, r.terminating), r.zone, None, r.metadata);
    ValidInstanceExactly(i);
    forall d | d in recs && d.id == id ensures SameConditions(r, d) {
      assert !Conflict(r, d);
    }
  }

  lemma {:induction false} DescribedInstances(recs: set<EndpointRecord>, ids: seq<string>) returns (xs: seq<Instance>)
    requires AllRecordsValid(recs) && Consistent(recs) && forall id | id in ids :: HasId(recs, id)
    ensures |xs| == |ids| && forall k | 0 <= k < |ids| :: xs[k].id == ids[k] && Describes(recs, xs[k])
  {
    if ids == [] {
      xs := [];
    } else {
      var init := DescribedInstances(recs, ids[..|ids| - 1]);
      var last := DescribedInstance(recs, ids[|ids| - 1]);
      xs := init + [last];
    }
  }

  ghost predicate ListsIds(ids: seq<string>, recs: set<EndpointRecord>) {
    && Ascending(Below, ids)
    && (forall id | id in ids :: HasId(recs, id))
    && (forall r | r in recs :: r.id in ids)
  }

  lemma SortedIds(recs: set<EndpointRecord>) returns (ids: seq<string>)
    ensures ListsIds(ids, recs)
  {
    TextOrder();
    var idSet := set r | r in recs :: r.id;
    ids := SortSet(Below, idSet);
    forall r | r in recs ensures r.id in ids {
      assert r.id in idSet;
    }
  }

  lemma IdsAggregate(recs: set<EndpointRecord>, ids: seq<string>, xs: seq<Instance>)
    requires ListsIds(ids, recs)
    requires |xs| == |ids| && forall k | 0 <= k < |ids| :: xs[k].id == ids[k] && Describes(recs, xs[k])
    ensures IsAggregation(recs, xs)
  {
    forall i | i in xs ensures Describes(recs, i) && ValidInstance(i) {
      var k :| 0 <= k < |xs| && xs[k] == i;
    }
    forall j, k | 0 <= j < k < |xs| ensures ById(xs[j], xs[k]) {
      assert Below(ids[j], ids[k]);
    }
    forall r | r in recs ensures exists i :: i in xs && i.id == r.id {
      var k :| 0 <= k < |ids| && ids[k] == r.id;
      assert xs[k] in xs;
    }
  }

  lemma AggregationExists(recs: set<EndpointRecord>) returns (xs: seq<Instance>)
    requires AllRecordsValid(recs) && Consistent(recs)
    ensures IsAggregation(recs, xs)
  {
    var ids := SortedIds(recs);
    xs := DescribedInstances(recs, ids);
    IdsAggregate(recs, ids, xs);
  }

  /** The instances a consistent set of records stands for. */
  ghost function AggregationOf(recs: set<EndpointRecord>): (xs: seq<Instance>)
    requires AllRecordsValid(recs) && Consistent(recs)
    ensures IsAggregation(recs, xs)
  {
    assert exists xs :: IsAggregation(recs, xs) by {
      var xs := AggregationExists(recs);
    }
    var xs :| IsAggregation(recs, xs); xs
  }

  ghost predicate Lists(es: seq<NetworkEndpoint>, m: map<string, NetworkEndpoint>) {
    && Distinct(es)
    && (forall e :: e in es <==> exists k :: k in m && m[k] == e)
  }

  /** The values of a keyed set of endpoints, in any order. */
  method CollectEndpoints(m: map<string, NetworkEndpoint>) returns (es: seq<NetworkEndpoint>)
    requires forall k, l | k in m && l in m && k != l :: m[k] != m[l]
    ensures Lists(es, m)
  {
    es := [];
    var rest := m.Keys;
    while rest != {}
      invariant rest <= m.Keys && Distinct(es)
      invariant forall e :: e in es <==> exists k :: k in m && k !in rest && m[k] == e
      decreases |rest|
    {
      var k :| k in rest;
      assert m[k] !in es;
      es, rest := es + [m[k]], rest - {k};
    }
  }

  lemma AggregateBuilds(a: Aggregate, recs: set<EndpointRecord>, es: seq<NetworkEndpoint>)
    requires AllRecordsValid(recs) && HasId(recs, a.id) && EndpointsTrack(a, recs) && ConditionsTrack(a, recs)
    requires Lists(es, a.endpoints)
    ensures var r := NewInstance(a.id, es, a.ready, a.serving, a.terminating, None, a.zone, None, a.metadata);
            r.Some? && Describes(recs, r.value) && r.value.id == a.id
  {
    var r :| r in recs && r.id == a.id;
    assert ValidRecord(r) && Claimed(recs, a.id, r.endpoints[0]);
    forall e ensures e in es <==> Claimed(recs, a.id, e) {
    }
    assert ValidEndpoints(es) && r.endpoints[0] in es;
    NewInstanceExactly(a.id, es, a.ready, a.serving, a.terminating, None, a.zone, None, a.metadata);
  }

  ghost predicate Built(xs: seq<Instance>, byId: map<string, Aggregate>, rest: set<string>, recs: set<EndpointRecord>) {
    && DistinctIds(xs)
    && (forall i | i in xs :: Describes(recs, i) && i.id in byId && i.id !in rest)
    && (forall id | id in byId && id !in rest :: exists i :: i in xs && i.id == id)
  }

  lemma DistinctIdsNext(xs: seq<Instance>, i: Instance)
    requires DistinctIds(xs) && forall x | x in xs :: x.id != i.id
    ensures DistinctIds(xs + [i])
  {
    var ys := xs + [i];
    forall a, b | 0 <= a < b < |ys| ensures ys[a].id != ys[b].id {
      assert ys[a] in xs;
    }
  }

  lemma BuiltNext(xs: seq<Instance>, byId: map<string, Aggregate>, rest: set<string>, recs: set<EndpointRecord>, i: Instance)
    requires Built(xs, byId, rest, recs) && Describes(recs, i) && i.id in byId && i.id in rest
    ensures Built(xs + [i], byId, rest - {i.id}, recs)
  {
    DistinctIdsNext(xs, i);
    var ys := xs + [i];
    forall id | id in byId && id !in rest - {i.id} ensures exists j :: j in ys && j.id == id {
      if id == i.id {
        assert i in ys;
      } else {
        var j :| j in xs && j.id == id;
        assert j in ys;
      }
    }
  }

  lemma BuiltDone(xs: seq<Instance>, byId: map<string, Aggregate>, recs: set<EndpointRecord>)
    requires Built(xs, byId, {}, recs) && TableTracks(byId, recs)
    ensures IsAggregation(recs, Sort(ById, xs))
  {
    NormalizeInstancesExactly(xs);
    var sorted := Sort(ById, xs);
    forall r | r in recs ensures exists i :: i in sorted && i.id == r.id {
      assert HasId(recs, r.id);
      var i :| i in xs && i.id == r.id;
      assert i in sorted;
    }
  }

  method BuildInstances(byId: map<string, Aggregate>, ghost recs: set<EndpointRecord>) returns (r: Option<seq<Instance>>)
    requires AllRecordsValid(recs) && TableTracks(byId, recs)
    ensures r.Some? && IsAggregation(recs, r.value)
  {
    var xs: seq<Instance> := [];
    var rest := byId.Keys;
    while rest != {}
      invariant rest <= byId.Keys && Built(xs, byId, rest, recs)
      decreases |rest|
    {
      var id :| id in rest;
      var a := byId[id];
      var es := CollectEndpoints(a.endpoints);
      var i := NewInstance(a.id, es, a.ready, a.serving, a.terminating, None, a.zone, None, a.metadata);
      AggregateBuilds(a, recs, es);
      if i.None? {
        return None;
      }
      BuiltNext(xs, byId, rest, recs, i.value);
      xs, rest := xs + [i.value], rest - {id};
    }
    BuiltDone(xs, byId, recs);
    return Some(Sort(ById, xs));
  }

  /** What aggregating a Service and its slices must give. */
  ghost function Aggregated(servicePresent: bool, slices: map<string, SliceRecord>): Option<seq<Instance>>
    requires AllSlicesValid(slices)
  {
    RecordsValid(slices);
    if !Consistent(Records(slices)) then None
    else if !servicePresent then Some([])
    else Some(AggregationOf(Records(slices)))
  }

  lemma RecordsValid(slices: map<string, SliceRecord>)
    requires AllSlicesValid(slices)
    ensures AllRecordsValid(Records(slices))
  {
  }

  /** Aggregation fails exactly on a conflict; otherwise building cannot fail and the result does not depend on any iteration order. */
  method Instances(servicePresent: bool, slices: map<string, SliceRecord>) returns (r: Option<seq<Instance>>)
    requires AllSlicesValid(slices)
    ensures r == Aggregated(servicePresent, slices)
  {
    RecordsValid(slices);
    var ok, byId, owners := MergeSlices(slices);
    if !ok {
      return None;
    }
    if !servicePresent {
      return Some([]);
    }
    r := BuildInstances(byId, Records(slices));
    AggregationUnique(Records(slices), r.value, AggregationOf(Records(slices)));
  }
}
