/**
 * From the observed Service and slices to snapshots, and from one snapshot to
 * the change that leads to the next.
 */
module Topology {
  import opened Wrappers
  import opened Ordering
  import opened RegistryModel
  import opened Aggregation

  datatype TopologyState = TopologyState(
    servicePresent: bool, serviceVersion: string, endpointVersion: string, slices: map<string, SliceRecord>)

  /** What list decoding and event decoding guarantee of the stored state. */
  ghost predicate ValidState(s: TopologyState) {
    OpaqueIdentifier(s.serviceVersion) && OpaqueIdentifier(s.endpointVersion) && AllSlicesValid(s.slices)
  }

  function StateFor(servicePresent: bool, instances: seq<Instance>): SnapshotState {
    if !servicePresent then Missing else if instances != [] then Populated else Empty
  }

  /** The instances and state that direct aggregation gives. */
  ghost predicate AgreesWith(s: TopologyState, state: SnapshotState, instances: seq<Instance>)
    requires ValidState(s)
  {
    Aggregated(s.servicePresent, s.slices) == Some(instances) && state == StateFor(s.servicePresent, instances)
  }

  ghost function SnapshotOf(s: TopologyState, target: Target, order: LocalOrder): Option<Snapshot>
    requires ValidState(s)
  {
    var instances := Aggregated(s.servicePresent, s.slices);
    if instances.None? then None
    else Some(Snapshot(target, Revision([s.serviceVersion, s.endpointVersion], order),
                       StateFor(s.servicePresent, instances.value), instances.value))
  }

  lemma SnapshotOfValid(s: TopologyState, target: Target, order: LocalOrder)
    requires ValidState(s)
    ensures SnapshotOf(s, target, order).Some? <==> Consistent(Records(s.slices))
    ensures var r := SnapshotOf(s, target, order);
            r.Some? ==> ValidSnapshot(r.value) && Sorted(r.value.instances) && AgreesWith(s, r.value.state, r.value.instances)
  {
    var r := SnapshotOf(s, target, order);
    if r.Some? {
      RecordsValid(s.slices);
      AggregatedSorted(s.servicePresent, s.slices);
      StaysNormalized(r.value.instances);
    }
  }

  lemma AggregatedSorted(servicePresent: bool, slices: map<string, SliceRecord>)
    requires AllSlicesValid(slices) && Aggregated(servicePresent, slices).Some?
    ensures Sorted(Aggregated(servicePresent, slices).value)
  {
    RecordsValid(slices);
    assert servicePresent ==> IsAggregation(Records(slices), AggregationOf(Records(slices)));
  }

  /** Taking a snapshot of the state fails exactly when aggregation does. */
  method TakeSnapshot(s: TopologyState, target: Target, order: LocalOrder) returns (r: Option<Snapshot>)
    requires ValidState(s)
    ensures r == SnapshotOf(s, target, order)
  {
    var instances := Instances(s.servicePresent, s.slices);
    if instances.None? {
      return None;
    }
    var revision := Revision([s.serviceVersion, s.endpointVersion], order);
    var state := StateFor(s.servicePresent, instances.value);
    AggregatedSorted(s.servicePresent, s.slices);
    IdOrder();
    SortOfAscending(ById, instances.value);
    AscendingDistinct(instances.value);
    NewSnapshotExactly(target, revision, state, instances.value);
    if !ValidRevision(revision) {
      return None;
    }
    return NewSnapshot(target, revision, state, instances.value);
  }

  /******* Lookup tables *******/

  lemma {:induction false} TableMembers(xs: seq<Instance>, id: string)
    requires DistinctIds(xs)
    ensures id in IdTable(xs) ==> IdTable(xs)[id] in xs && IdTable(xs)[id].id == id
    ensures id !in IdTable(xs) ==> forall i | i in xs :: i.id != id
  {
    if xs != [] {
      TableMembers(xs[..|xs| - 1], id);
    }
  }

  lemma {:induction false} TableFinds(xs: seq<Instance>, i: Instance)
    requires DistinctIds(xs) && i in xs
    ensures i.id in IdTable(xs) && IdTable(xs)[i.id] == i
  {
    if i != xs[|xs| - 1] {
      var k :| 0 <= k < |xs| && xs[k] == i;
      assert xs[..|xs| - 1][k] == i;
      TableFinds(xs[..|xs| - 1], i);
      assert xs[k].id != xs[|xs| - 1].id;
    }
  }

  /** A sorted list is determined by its lookup table. */
  lemma TableDetermines(xs: seq<Instance>, ys: seq<Instance>)
    requires Ascending(ById, xs) && Ascending(ById, ys) && IdTable(xs) == IdTable(ys)
    ensures xs == ys
  {
    AscendingDistinct(xs);
    AscendingDistinct(ys);
    IdOrder();
    forall i ensures i in xs <==> i in ys {
      if i in xs {
        TableFinds(xs, i);
        TableMembers(ys, i.id);
      }
      if i in ys {
        TableFinds(ys, i);
        TableMembers(xs, i.id);
      }
    }
    AscendingUnique(ById, xs, ys);
  }

  /******* The delta of two snapshots *******/

  predicate SamePublicTopology(l: Snapshot, r: Snapshot) {
    l.state == r.state && EqualAll(l.instances, r.instances)
  }

  lemma SamePublicExactly(l: Snapshot, r: Snapshot)
    requires ValidSnapshot(l)
    ensures SamePublicTopology(l, r) <==> l.state == r.state && l.instances == r.instances
  {
    StaysNormalized(l.instances);
    EqualAllExactly(l.instances, r.instances);
  }

  predicate Unchanged(previous: map<string, Instance>, i: Instance) {
    i.id in previous && EqualInstances(previous[i.id], i)
  }

  function Upserts(previous: map<string, Instance>, next: seq<Instance>): seq<Instance> {
    if next == [] then []
    else
      var last := next[|next| - 1];
      Upserts(previous, next[..|next| - 1]) + if Unchanged(previous, last) then [] else [last]
  }

  function Deleted(previous: seq<Instance>, next: map<string, Instance>): seq<string> {
    if previous == [] then []
    else
      var last := previous[|previous| - 1];
      Deleted(previous[..|previous| - 1], next) + if last.id in next then [] else [last.id]
  }

  lemma {:induction false} UpsertsMembers(previous: map<string, Instance>, next: seq<Instance>, i: Instance)
    ensures i in Upserts(previous, next) <==> i in next && !Unchanged(previous, i)
  {
    if next != [] {
      UpsertsMembers(previous, next[..|next| - 1], i);
      assert next == next[..|next| - 1] + [next[|next| - 1]];
    }
  }

  lemma {:induction false} UpsertsAscend(previous: map<string, Instance>, next: seq<Instance>)
    requires Ascending(ById, next)
    ensures Ascending(ById, Upserts(previous, next))
  {
    if next != [] {
      var init, last := next[..|next| - 1], next[|next| - 1];
      UpsertsAscend(previous, init);
      var u := Upserts(previous, init);
      forall k | 0 <= k < |u| ensures ById(u[k], last) {
        UpsertsMembers(previous, init, u[k]);
        var j :| 0 <= j < |init| && init[j] == u[k];
        assert ById(next[j], next[|next| - 1]);
      }
    }
  }

  ghost predicate Lists(xs: seq<Instance>, id: string) {
    exists k :: 0 <= k < |xs| && xs[k].id == id
  }

  lemma {:induction false} DeletedMembers(previous: seq<Instance>, next: map<string, Instance>, id: string)
    ensures id in Deleted(previous, next) <==> id !in next && Lists(previous, id)
  {
    if previous != [] {
      var init, last := previous[..|previous| - 1], previous[|previous| - 1];
      DeletedMembers(init, next, id);
      assert previous == init + [last];
      assert Lists(previous, id) <==> Lists(init, id) || last.id == id by {
        if Lists(init, id) {
          var k :| 0 <= k < |init| && init[k].id == id;
          assert previous[k].id == id;
        }
        if last.id == id {
          assert previous[|previous| - 1].id == id;
        }
      }
    }
  }

  lemma {:induction false} DeletedAscend(previous: seq<Instance>, next: map<string, Instance>)
    requires Ascending(ById, previous)
    ensures Ascending(Below, Deleted(previous, next))
  {
    if previous != [] {
      var init, last := previous[..|previous| - 1], previous[|previous| - 1];
      DeletedAscend(init, next);
      var d := Deleted(init, next);
      forall k | 0 <= k < |d| ensures Below(d[k], last.id) {
        DeletedMembers(init, next, d[k]);
        var j :| 0 <= j < |init| && init[j].id == d[k];
        assert ById(previous[j], previous[|previous| - 1]);
      }
    }
  }

  /** The change from one snapshot to the next. */
  function ChangeTo(previous: Snapshot, next: Snapshot): Change {
    var upserts := Upserts(IdTable(previous.instances), next.instances);
    var deleted := Deleted(previous.instances, IdTable(next.instances));
    if upserts == [] && deleted == [] then Change(StateChanged, next.revision, [], [], Some(previous.state), next)
    else Change(InstancesChanged, next.revision, upserts, deleted, None, next)
  }

  /** The old instances with the deletions removed and the upserts put in place. */
  function Replay(instances: seq<Instance>, c: Change): map<string, Instance> {
    (IdTable(instances) - (set id | id in c.deletedIds)) + IdTable(c.upserts)
  }

  lemma UnchangedExactly(xs: seq<Instance>, i: Instance)
    requires Sorted(xs)
    ensures Unchanged(IdTable(xs), i) <==> i in xs
  {
    AscendingDistinct(xs);
    TableMembers(xs, i.id);
    if i.id in IdTable(xs) {
      EqualInstancesExactly(IdTable(xs)[i.id], i);
    }
    if i in xs {
      TableFinds(xs, i);
    }
  }

  lemma TableLists(xs: seq<Instance>, id: string)
    requires DistinctIds(xs)
    ensures Lists(xs, id) <==> id in IdTable(xs)
  {
    TableMembers(xs, id);
    if Lists(xs, id) {
      var k :| 0 <= k < |xs| && xs[k].id == id;
      TableFinds(xs, xs[k]);
    }
  }

  /** One id under the delta: deleted, upserted, or carried over as it was. */
  lemma DeltaAt(a: seq<Instance>, b: seq<Instance>, id: string)
    requires Sorted(a) && Sorted(b)
    ensures var u, d := IdTable(Upserts(IdTable(a), b)), Deleted(a, IdTable(b));
            && (id in IdTable(b) <==> id in u || (id in IdTable(a) && id !in d))
            && (id in IdTable(b) ==> IdTable(b)[id] == if id in u || id !in IdTable(a) then u[id] else IdTable(a)[id])
            && (id in IdTable(b) && id !in IdTable(a) ==> id in u)
  {
    var u := Upserts(IdTable(a), b);
    AscendingDistinct(a);
    AscendingDistinct(b);
    UpsertsAscend(IdTable(a), b);
    AscendingDistinct(u);
    TableMembers(a, id);
    TableMembers(b, id);
    TableMembers(u, id);
    TableLists(a, id);
    DeletedMembers(a, IdTable(b), id);
    if id in IdTable(u) {
      UpsertsMembers(IdTable(a), b, IdTable(u)[id]);
      TableFinds(b, IdTable(u)[id]);
    }
    if id in IdTable(b) {
      var i := IdTable(b)[id];
      UpsertsMembers(IdTable(a), b, i);
      UnchangedExactly(a, i);
      if i in u {
        TableFinds(u, i);
      } else {
        TableFinds(a, i);
      }
    }
  }

  lemma ChangeParts(previous: Snapshot, next: Snapshot)
    ensures ChangeTo(previous, next).upserts == Upserts(IdTable(previous.instances), next.instances)
    ensures ChangeTo(previous, next).deletedIds == Deleted(previous.instances, IdTable(next.instances))
    ensures ChangeTo(previous, next).snapshot == next && ChangeTo(previous, next).revision == next.revision
  {
  }

  /** Replaying the delta over the old instances gives exactly the new ones. */
  lemma ReplayGivesNext(previous: Snapshot, next: Snapshot)
    requires ValidSnapshot(previous) && ValidSnapshot(next)
    ensures Replay(previous.instances, ChangeTo(previous, next)) == IdTable(next.instances)
  {
    var a, b := previous.instances, next.instances;
    StaysNormalized(a);
    StaysNormalized(b);
    ChangeParts(previous, next);
    ReplayDelta(a, b, ChangeTo(previous, next));
  }

  lemma ReplayDelta(a: seq<Instance>, b: seq<Instance>, c: Change)
    requires Sorted(a) && Sorted(b) && c.upserts == Upserts(IdTable(a), b) && c.deletedIds == Deleted(a, IdTable(b))
    ensures Replay(a, c) == IdTable(b)
  {
    var r, t := Replay(a, c), IdTable(b);
    forall id ensures id in r <==> id in t {
      DeltaAt(a, b, id);
    }
    forall id | id in r ensures r[id] == t[id] {
      DeltaAt(a, b, id);
    }
  }

  lemma ReplayNothing(a: seq<Instance>, c: Change)
    requires c.upserts == [] && c.deletedIds == []
    ensures Replay(a, c) == IdTable(a)
  {
  }

  /** An empty delta means the instances did not change. */
  lemma EmptyDelta(previous: Snapshot, next: Snapshot)
    requires ValidSnapshot(previous) && ValidSnapshot(next) && ChangeTo(previous, next).kind == StateChanged
    ensures previous.instances == next.instances
  {
    var a, b := previous.instances, next.instances;
    StaysNormalized(a);
    StaysNormalized(b);
    ReplayGivesNext(previous, next);
    ReplayNothing(a, ChangeTo(previous, next));
    TableDetermines(a, b);
  }

  lemma UpsertsInSnapshot(previous: Snapshot, next: Snapshot)
    requires Sorted(previous.instances) && Sorted(next.instances)
    ensures var c := ChangeTo(previous, next);
            && Sorted(c.upserts)
            && (forall u | u in c.upserts :: u.id in IdTable(next.instances) && EqualInstances(u, IdTable(next.instances)[u.id]))
            && (forall id | id in c.deletedIds :: id !in IdTable(next.instances))
  {
    var c := ChangeTo(previous, next);
    ChangeParts(previous, next);
    AscendingDistinct(next.instances);
    UpsertsAscend(IdTable(previous.instances), next.instances);
    forall u | u in c.upserts ensures u in next.instances && u.id in IdTable(next.instances) && IdTable(next.instances)[u.id] == u {
      UpsertsMembers(IdTable(previous.instances), next.instances, u);
      TableFinds(next.instances, u);
    }
    forall u | u in c.upserts ensures EqualInstances(u, IdTable(next.instances)[u.id]) {
      EqualInstancesExactly(u, u);
    }
    forall id | id in c.deletedIds ensures id !in IdTable(next.instances) {
      DeletedMembers(previous.instances, IdTable(next.instances), id);
    }
  }

  lemma DeletedTexts(previous: seq<Instance>, next: map<string, Instance>, id: string)
    requires AllValid(previous) && id in Deleted(previous, next)
    ensures ValidExactText(id)
  {
    DeletedMembers(previous, next, id);
    var k :| 0 <= k < |previous| && previous[k].id == id;
    assert ValidInstance(previous[k]);
  }

  lemma AscendingIds(ids: seq<string>)
    requires Ascending(Below, ids) && forall id | id in ids :: ValidExactText(id)
    ensures NormalizeIds(ids) == Some(ids)
  {
    TextOrder();
    SortOfAscending(Below, ids);
    NormalizeIdsExactly(ids);
  }

  lemma DeletedNormalized(previous: seq<Instance>, next: map<string, Instance>)
    requires Sorted(previous)
    ensures NormalizeIds(Deleted(previous, next)) == Some(Deleted(previous, next))
  {
    DeletedAscend(previous, next);
    forall id | id in Deleted(previous, next) ensures ValidExactText(id) {
      DeletedTexts(previous, next, id);
    }
    AscendingIds(Deleted(previous, next));
  }

  /** An empty delta between different public topologies only ever means that missing and empty were swapped. */
  lemma StateOnlyFlips(previous: Snapshot, next: Snapshot)
    requires ValidSnapshot(previous) && ValidSnapshot(next) && !SamePublicTopology(previous, next)
    requires ChangeTo(previous, next).kind == StateChanged
    ensures previous.instances == next.instances == []
    ensures {previous.state, next.state} == {Missing, Empty}
  {
    SamePublicExactly(previous, next);
    EmptyDelta(previous, next);
  }

  lemma ChangeKindValid(previous: Snapshot, next: Snapshot)
    requires ValidSnapshot(previous) && ValidSnapshot(next) && !SamePublicTopology(previous, next)
    ensures ValidKind(ChangeTo(previous, next))
  {
    if ChangeTo(previous, next).kind == StateChanged {
      StateOnlyFlips(previous, next);
    }
  }

  /** Two valid snapshots either show the same topology, or the change between them is valid once its order is positive. */
  lemma ChangeIsValid(previous: Snapshot, next: Snapshot)
    requires ValidSnapshot(previous) && ValidSnapshot(next) && !SamePublicTopology(previous, next)
    ensures ValidChange(ChangeTo(previous, next)) <==> next.revision.localOrder != 0
  {
    var c := ChangeTo(previous, next);
    ChangeKindValid(previous, next);
    StaysNormalized(previous.instances);
    StaysNormalized(next.instances);
    ChangeParts(previous, next);
    UpsertsInSnapshot(previous, next);
    StaysNormalized(c.upserts);
    DeletedNormalized(previous.instances, IdTable(next.instances));
  }

  /******* Building the change *******/

  method CollectUpserts(previous: map<string, Instance>, next: seq<Instance>) returns (table: map<string, Instance>, upserts: seq<Instance>)
    ensures table == IdTable(next) && upserts == Upserts(previous, next)
  {
    table, upserts := map[], [];
    for k := 0 to |next|
      invariant table == IdTable(next[..k]) && upserts == Upserts(previous, next[..k])
    {
      assert next[..k + 1][..k] == next[..k];
      table := table[next[k].id := next[k]];
      if next[k].id !in previous || !EqualInstances(previous[next[k].id], next[k]) {
        upserts := upserts + [next[k]];
      }
    }
    assert next[..|next|] == next;
  }

  method IndexById(xs: seq<Instance>) returns (table: map<string, Instance>)
    ensures table == IdTable(xs)
  {
    table := map[];
    for k := 0 to |xs|
      invariant table == IdTable(xs[..k])
    {
      assert xs[..k + 1][..k] == xs[..k];
      table := table[xs[k].id := xs[k]];
    }
    assert xs[..|xs|] == xs;
  }

  /** The ids that disappeared, in any order. */
  method CollectDeleted(previous: map<string, Instance>, next: map<string, Instance>) returns (deleted: seq<string>)
    ensures Distinct(deleted) && forall id :: id in deleted <==> id in previous && id !in next
  {
    deleted := [];
    var rest := previous.Keys;
    while rest != {}
      invariant rest <= previous.Keys && Distinct(deleted)
      invariant forall id :: id in deleted <==> id in previous && id !in rest && id !in next
      decreases |rest|
    {
      var id :| id in rest;
      assert id !in deleted;
      if id !in next {
        deleted := deleted + [id];
      }
      rest := rest - {id};
    }
  }

  /** Whatever order the map was walked in, normalizing the deleted ids gives the same list. */
  lemma DeletedUnordered(previous: seq<Instance>, next: map<string, Instance>, deleted: seq<string>)
    requires Sorted(previous) && Distinct(deleted)
    requires forall id :: id in deleted <==> id in IdTable(previous) && id !in next
    ensures NormalizeIds(deleted) == Some(Deleted(previous, next)) && (deleted == [] <==> Deleted(previous, next) == [])
  {
    var d := Deleted(previous, next);
    TextOrder();
    AscendingDistinct(previous);
    DeletedAscend(previous, next);
    NormalizeIdsExactly(deleted);
    forall id ensures id in d <==> id in deleted {
      DeletedMembers(previous, next, id);
      TableLists(previous, id);
    }
    forall id | id in deleted ensures ValidExactText(id) {
      TableMembers(previous, id);
    }
    AscendingUnique(Below, Sort(Below, deleted), d);
    assert d != [] ==> d[0] in deleted;
    assert deleted != [] ==> deleted[0] in d;
  }

  lemma UpsertsNormalized(previous: Snapshot, next: Snapshot)
    requires Sorted(previous.instances) && Sorted(next.instances)
    ensures NormalizeInstances(ChangeTo(previous, next).upserts) == Some(ChangeTo(previous, next).upserts)
  {
    var u := ChangeTo(previous, next).upserts;
    UpsertsInSnapshot(previous, next);
    IdOrder();
    SortOfAscending(ById, u);
    AscendingDistinct(u);
    NormalizeInstancesExactly(u);
  }

  lemma NewChangeIsDelta(previous: Snapshot, next: Snapshot, upserts: seq<Instance>, deleted: seq<string>)
    requires ValidSnapshot(previous) && ValidSnapshot(next) && !SamePublicTopology(previous, next)
    requires upserts == ChangeTo(previous, next).upserts
    requires NormalizeIds(deleted) == Some(ChangeTo(previous, next).deletedIds)
    requires deleted == [] <==> ChangeTo(previous, next).deletedIds == []
    ensures var stateOnly := upserts == [] && deleted == [];
            NewChange(if stateOnly then StateChanged else InstancesChanged, next.revision, upserts, deleted,
                      if stateOnly then Some(previous.state) else None, next)
            == if next.revision.localOrder != 0 then Some(ChangeTo(previous, next)) else None
  {
    StaysNormalized(previous.instances);
    StaysNormalized(next.instances);
    UpsertsNormalized(previous, next);
    ChangeIsValid(previous, next);
  }

  /** The published change is the delta of the two snapshots; building it fails only when the 64-bit order has wrapped to zero. */
  method BuildChange(previous: Snapshot, next: Snapshot) returns (r: Option<Change>)
    requires ValidSnapshot(previous) && ValidSnapshot(next) && !SamePublicTopology(previous, next)
    ensures r == if next.revision.localOrder != 0 then Some(ChangeTo(previous, next)) else None
  {
    StaysNormalized(previous.instances);
    var previousById := IndexById(previous.instances);
    var nextById, upserts := CollectUpserts(previousById, next.instances);
    var deleted := CollectDeleted(previousById, nextById);
    DeletedUnordered(previous.instances, nextById, deleted);
    ChangeParts(previous, next);
    NewChangeIsDelta(previous, next, upserts, deleted);
    if upserts == [] && deleted == [] {
      r := NewChange(StateChanged, next.revision, upserts, deleted, Some(previous.state), next);
    } else {
      r := NewChange(InstancesChanged, next.revision, upserts, deleted, None, next);
    }
  }

  /** The change that announces the deletion of the Service. */
  function DeletionOf(next: Snapshot): Change {
    Change(TargetDeleted, next.revision, [], [], None, next)
  }

  lemma DeletionIsValid(next: Snapshot)
    requires ValidSnapshot(next)
    ensures ValidChange(DeletionOf(next)) <==> next.revision.localOrder != 0 && next.state.Missing?
    ensures NewChange(TargetDeleted, next.revision, [], [], None, next) ==
            if ValidChange(DeletionOf(next)) then Some(DeletionOf(next)) else None
  {
    StaysNormalized([]);
    NormalizeInstancesExactly([]);
    NormalizeIdsExactly([]);
  }
}
