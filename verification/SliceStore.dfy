/** The stored slices and the bounds kept on them. */
module SliceStore {
  import opened Wrappers
  import opened RegistryModel
  import opened Aggregation

  /******* Counting endpoints *******/

  ghost function TotalOver(slices: map<string, SliceRecord>, uids: set<string>): nat
    requires uids <= slices.Keys
  {
    if uids == {} then 0
    else
      var uid :| uid in uids;
      |slices[uid].endpoints| + TotalOver(slices, uids - {uid})
  }

  ghost function Total(slices: map<string, SliceRecord>): nat {
    TotalOver(slices, slices.Keys)
  }

  /** Any slice can be counted first. */
  lemma {:induction false} TotalTakes(slices: map<string, SliceRecord>, uids: set<string>, u: string)
    requires uids <= slices.Keys && u in uids
    ensures TotalOver(slices, uids) == |slices[u].endpoints| + TotalOver(slices, uids - {u})
  {
    var uid :| uid in uids && TotalOver(slices, uids) == |slices[uid].endpoints| + TotalOver(slices, uids - {uid});
    if uid != u {
      TotalTakes(slices, uids - {uid}, u);
      TotalTakes(slices, uids - {u}, uid);
      assert uids - {uid} - {u} == uids - {u} - {uid};
    }
  }

  lemma {:induction false} TotalAgrees(a: map<string, SliceRecord>, b: map<string, SliceRecord>, uids: set<string>)
    requires uids <= a.Keys && uids <= b.Keys && forall uid | uid in uids :: a[uid] == b[uid]
    ensures TotalOver(a, uids) == TotalOver(b, uids)
  {
    if uids != {} {
      var uid :| uid in uids;
      TotalTakes(a, uids, uid);
      TotalTakes(b, uids, uid);
      TotalAgrees(a, b, uids - {uid});
    }
  }

  function CountOf(slices: map<string, SliceRecord>, uid: string): nat {
    if uid in slices then |slices[uid].endpoints| else 0
  }

  lemma TotalSplit(slices: map<string, SliceRecord>, uid: string)
    ensures Total(slices) == CountOf(slices, uid) + TotalOver(slices, slices.Keys - {uid})
  {
    if uid in slices {
      TotalTakes(slices, slices.Keys, uid);
    } else {
      assert slices.Keys - {uid} == slices.Keys;
    }
  }

  /** Replacing a slice changes the total by the difference of the two. */
  lemma TotalPut(slices: map<string, SliceRecord>, uid: string, record: SliceRecord)
    ensures Total(slices[uid := record]) == Total(slices) - CountOf(slices, uid) + |record.endpoints|
  {
    var now := slices[uid := record];
    TotalSplit(slices, uid);
    TotalSplit(now, uid);
    assert now.Keys - {uid} == slices.Keys - {uid};
    TotalAgrees(slices, now, slices.Keys - {uid});
  }

  lemma TotalDrop(slices: map<string, SliceRecord>, uid: string)
    ensures Total(slices - {uid}) == Total(slices) - CountOf(slices, uid)
  {
    TotalSplit(slices, uid);
    TotalAgrees(slices, slices - {uid}, slices.Keys - {uid});
    assert (slices - {uid}).Keys == slices.Keys - {uid};
  }

  /** The sum over the slice map, walked in any order. */
  method CountEndpoints(slices: map<string, SliceRecord>) returns (count: nat)
    ensures count == Total(slices)
  {
    count := 0;
    var rest := slices.Keys;
    while rest != {}
      invariant rest <= slices.Keys && count + TotalOver(slices, rest) == Total(slices)
      decreases |rest|
    {
      var uid :| uid in rest;
      TotalTakes(slices, rest, uid);
      count, rest := count + |slices[uid].endpoints|, rest - {uid};
    }
  }

  /******* Bounds *******/

  ghost predicate Bounded(slices: map<string, SliceRecord>, b: Binding) {
    |slices| <= b.sliceBound && Total(slices) <= b.endpointBound
  }

  /** The slices after storing a record, unless a bound forbids it. */
  ghost function Stored(slices: map<string, SliceRecord>, record: SliceRecord, b: Binding): Option<map<string, SliceRecord>> {
    if |slices| >= b.sliceBound && record.uid !in slices then None
    else if Total(slices) - CountOf(slices, record.uid) + |record.endpoints| > b.endpointBound then None
    else Some(slices[record.uid := record])
  }

  lemma SizePut(slices: map<string, SliceRecord>, uid: string, record: SliceRecord)
    ensures |slices[uid := record]| == |slices| + if uid in slices then 0 else 1
  {
    var now := slices[uid := record];
    assert |now| == |now.Keys| && |slices| == |slices.Keys|;
    if uid in slices {
      assert now.Keys == slices.Keys;
    } else {
      assert now.Keys == slices.Keys + {uid};
    }
  }

  lemma StoredBounded(slices: map<string, SliceRecord>, record: SliceRecord, b: Binding)
    requires Bounded(slices, b)
    ensures Stored(slices, record, b).Some? <==> Bounded(slices[record.uid := record], b)
  {
    TotalPut(slices, record.uid, record);
    SizePut(slices, record.uid, record);
  }

  lemma DroppedBounded(slices: map<string, SliceRecord>, uid: string, b: Binding)
    requires Bounded(slices, b)
    ensures Bounded(slices - {uid}, b)
  {
    TotalDrop(slices, uid);
    var now := slices - {uid};
    assert now.Keys == slices.Keys - {uid};
    assert |now| == |now.Keys| && |slices| == |slices.Keys|;
    assert now.Keys <= slices.Keys && |slices.Keys| == |now.Keys| + |slices.Keys - now.Keys|;
  }

  /** Stores a record of a watch event; refused exactly when the result would exceed a bound. */
  method Store(slices: map<string, SliceRecord>, record: SliceRecord, b: Binding) returns (r: Option<map<string, SliceRecord>>)
    ensures r == Stored(slices, record, b)
  {
    if |slices| >= b.sliceBound {
      if record.uid !in slices {
        return None;
      }
    }
    var count := CountEndpoints(slices);
    var own := if record.uid in slices then |slices[record.uid].endpoints| else 0;
    if count - own + |record.endpoints| > b.endpointBound {
      return None;
    }
    return Some(slices[record.uid := record]);
  }

  /******* The initial list *******/

  ghost function SumTo(records: seq<SliceRecord>): nat {
    if records == [] then 0 else SumTo(records[..|records| - 1]) + |records[|records| - 1].endpoints|
  }

  ghost predicate DistinctUids(records: seq<SliceRecord>) {
    forall i, j | 0 <= i < j < |records| :: records[i].uid != records[j].uid
  }

  /** The map holds exactly the listed records under their uids. */
  ghost predicate Holds(slices: map<string, SliceRecord>, records: seq<SliceRecord>) {
    && (forall i | 0 <= i < |records| :: records[i].uid in slices && slices[records[i].uid] == records[i])
    && (forall uid | uid in slices :: exists i :: 0 <= i < |records| && records[i].uid == uid)
  }

  function NormalizedList(items: seq<WireSlice>, b: Binding, canonical: string -> bool): Option<seq<SliceRecord>> {
    if items == [] then Some([])
    else
      var init := NormalizedList(items[..|items| - 1], b, canonical);
      var last := NormalizeSlice(items[|items| - 1], b, false, canonical);
      if init.None? || last.None? then None else Some(init.value + [last.value])
  }

  /** Whether a list of slices may be stored: each normalizes, no uid repeats and the endpoints fit the bound. */
  ghost predicate Storable(items: seq<WireSlice>, b: Binding, canonical: string -> bool) {
    var records := NormalizedList(items, b, canonical);
    records.Some? && DistinctUids(records.value) && SumTo(records.value) <= b.endpointBound
  }

  lemma {:induction false} StorablePrefix(items: seq<WireSlice>, n: nat, b: Binding, canonical: string -> bool)
    requires n <= |items| && Storable(items, b, canonical)
    ensures Storable(items[..n], b, canonical)
  {
    if n == |items| {
      assert items[..n] == items;
    } else {
      var records := NormalizedList(items, b, canonical).value;
      var init := items[..|items| - 1];
      assert records[..|records| - 1] == NormalizedList(init, b, canonical).value;
      StorablePrefix(init, n, b, canonical);
      assert init[..n] == items[..n];
    }
  }

  /** The slice map and running count after some records. */
  ghost predicate Listed(slices: map<string, SliceRecord>, count: nat, records: seq<SliceRecord>, b: Binding) {
    && Holds(slices, records) && DistinctUids(records) && |slices| == |records|
    && count == SumTo(records) == Total(slices) <= b.endpointBound
    && AllSlicesValid(slices)
  }

  lemma HoldsNext(slices: map<string, SliceRecord>, records: seq<SliceRecord>, record: SliceRecord)
    requires Holds(slices, records) && DistinctUids(records) && record.uid !in slices
    ensures Holds(slices[record.uid := record], records + [record]) && DistinctUids(records + [record])
  {
    var now, after := slices[record.uid := record], records + [record];
    forall uid | uid in now ensures exists i :: 0 <= i < |after| && after[i].uid == uid {
      if uid == record.uid {
        assert after[|records|].uid == uid;
      } else {
        var i :| 0 <= i < |records| && records[i].uid == uid;
        assert after[i].uid == uid;
      }
    }
  }

  lemma SumNext(records: seq<SliceRecord>, record: SliceRecord)
    ensures SumTo(records + [record]) == SumTo(records) + |record.endpoints|
  {
    assert (records + [record])[..|records|] == records;
  }

  lemma ValidNext(slices: map<string, SliceRecord>, record: SliceRecord)
    requires AllSlicesValid(slices) && ValidSlice(record)
    ensures AllSlicesValid(slices[record.uid := record])
  {
  }

  lemma ListedNext(slices: map<string, SliceRecord>, count: nat, records: seq<SliceRecord>, record: SliceRecord, b: Binding)
    requires Listed(slices, count, records, b) && ValidSlice(record) && record.uid !in slices
    requires count + |record.endpoints| <= b.endpointBound
    ensures Listed(slices[record.uid := record], count + |record.endpoints|, records + [record], b)
  {
    TotalPut(slices, record.uid, record);
    HoldsNext(slices, records, record);
    SumNext(records, record);
    SizePut(slices, record.uid, record);
    ValidNext(slices, record);
  }

  /** The uid of the next record is already stored exactly when it repeats. */
  lemma RepeatedUid(slices: map<string, SliceRecord>, records: seq<SliceRecord>, record: SliceRecord)
    requires Holds(slices, records) && record.uid in slices
    ensures !DistinctUids(records + [record])
  {
    var i :| 0 <= i < |records| && records[i].uid == record.uid;
    var after := records + [record];
    assert after[i].uid == after[|records|].uid;
  }

  /** The first items of the list have been read into the map. */
  ghost predicate ListedTo(slices: map<string, SliceRecord>, count: nat, items: seq<WireSlice>, n: nat, b: Binding, canonical: string -> bool)
    requires n <= |items|
  {
    var records := NormalizedList(items[..n], b, canonical);
    records.Some? && |records.value| == n && Listed(slices, count, records.value, b)
  }

  lemma Refused(items: seq<WireSlice>, n: nat, b: Binding, canonical: string -> bool)
    requires n < |items| && !Storable(items[..n + 1], b, canonical)
    ensures !Storable(items, b, canonical)
  {
    if Storable(items, b, canonical) {
      StorablePrefix(items, n + 1, b, canonical);
    }
  }

  /** The next item is stored, or the list as a whole cannot be. */
  lemma ItemOutcome(slices: map<string, SliceRecord>, count: nat, items: seq<WireSlice>, n: nat, b: Binding, canonical: string -> bool)
    requires n < |items| && ListedTo(slices, count, items, n, b, canonical)
    ensures var r, total := NormalizeSlice(items[n], b, false, canonical), count + |items[n].endpoints|;
            if r.None? || total > b.endpointBound || r.value.uid in slices then !Storable(items, b, canonical)
            else ListedTo(slices[r.value.uid := r.value], total, items, n + 1, b, canonical)
  {
    var r, total := NormalizeSlice(items[n], b, false, canonical), count + |items[n].endpoints|;
    var records := NormalizedList(items[..n], b, canonical).value;
    assert items[..n + 1][..n] == items[..n];
    if r.Some? {
      NormalizedSliceIsValid(items[n], b, false, canonical);
      assert NormalizedList(items[..n + 1], b, canonical) == Some(records + [r.value]);
      assert (records + [r.value])[..n] == records;
      if r.value.uid in slices {
        RepeatedUid(slices, records, r.value);
      } else if total <= b.endpointBound {
        ListedNext(slices, count, records, r.value, b);
      }
    }
    if r.None? || total > b.endpointBound || r.value.uid in slices {
      Refused(items, n, b, canonical);
    }
  }

  /** Reads the initial list; refused exactly when it is too long, malformed, repeats a uid or holds too many endpoints. */
  method DecodeList(items: seq<WireSlice>, b: Binding, canonical: string -> bool) returns (r: Option<map<string, SliceRecord>>)
    ensures r.Some? <==> |items| <= b.sliceBound && Storable(items, b, canonical)
    ensures r.Some? ==> Holds(r.value, NormalizedList(items, b, canonical).value) && Bounded(r.value, b) && AllSlicesValid(r.value)
  {
    if |items| > b.sliceBound {
      return None;
    }
    var slices: map<string, SliceRecord>, count: nat := map[], 0;
    for n := 0 to |items|
      invariant ListedTo(slices, count, items, n, b, canonical)
    {
      ItemOutcome(slices, count, items, n, b, canonical);
      var record := NormalizeSlice(items[n], b, false, canonical);
      if record.None? {
        return None;
      }
      count := count + |items[n].endpoints|;
      if count > b.endpointBound {
        return None;
      }
      if record.value.uid in slices {
        return None;
      }
      slices := slices[record.value.uid := record.value];
    }
    assert items[..|items|] == items;
    return Some(slices);
  }
}
