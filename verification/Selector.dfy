/** The Router's view of one observed release, and the endpoint it selects. */
module Selector {
  import opened Wrappers
  import opened RegistryModel

  /******* The cached snapshot *******/

  datatype ObservationState = Initializing | MissingRelease | EmptyRelease | PopulatedRelease | UnavailableRelease

  function StateShown(s: SnapshotState): ObservationState {
    match s
    case Missing => MissingRelease
    case Empty => EmptyRelease
    case Populated => PopulatedRelease
  }

  /** The snapshot is present exactly while the observation is available. */
  datatype SelectorState = SelectorState(snapshot: Option<Snapshot>, shown: ObservationState, revision: nat)

  function Initialized(s: SelectorState, target: Target, initial: Snapshot): (SelectorState, bool) {
    if !ValidSnapshot(initial) || initial.target != target || initial.revision.localOrder != 0 then (s.(shown := UnavailableRelease), false)
    else (SelectorState(Some(initial), StateShown(initial.state), 0), true)
  }

  function Applied(s: SelectorState, target: Target, c: Change): (SelectorState, bool) {
    if !ValidChange(c) || s.snapshot.None? || c.snapshot.target != target
       || c.snapshot.revision.localOrder != NextOrder(s.snapshot.value.revision.localOrder) then (s, false)
    else (SelectorState(Some(c.snapshot), StateShown(c.snapshot.state), c.snapshot.revision.localOrder), true)
  }

  function Failed(s: SelectorState): SelectorState {
    s.(snapshot := None, shown := UnavailableRelease)
  }

  class ObservedRelease {
    const target: Target
    var snapshot: Snapshot
    var available: bool
    var shown: ObservationState
    var revision: nat

    ghost function View(): SelectorState
      reads this
    {
      SelectorState(if available then Some(snapshot) else None, shown, revision)
    }

    constructor (target: Target, zero: Snapshot)
      ensures this.target == target && View() == SelectorState(None, Initializing, 0)
    {
      this.target := target;
      snapshot, available, shown, revision := zero, false, Initializing, 0;
    }

    method Initialize(initial: Snapshot) returns (ok: bool)
      modifies this
      ensures (View(), ok) == Initialized(old(View()), target, initial)
    {
      if !ValidSnapshot(initial) || initial.target != target || initial.revision.localOrder != 0 {
        shown := UnavailableRelease;
        return false;
      }
      snapshot, available := initial, true;
      shown, revision := StateShown(initial.state), initial.revision.localOrder;
      return true;
    }

    method Apply(c: Change) returns (ok: bool)
      modifies this
      ensures (View(), ok) == Applied(old(View()), target, c)
    {
      if !ValidChange(c) {
        return false;
      }
      var next := c.snapshot;
      if !available || next.target != target || next.revision.localOrder != NextOrder(snapshot.revision.localOrder) {
        return false;
      }
      snapshot, shown, revision := next, StateShown(next.state), next.revision.localOrder;
      return true;
    }

    method Fail(zero: Snapshot)
      modifies this
      ensures View() == Failed(old(View()))
    {
      snapshot, available, shown := zero, false, UnavailableRelease;
    }
  }

  /******* Selecting the endpoint *******/

  const TCP := "TCP"

  predicate Usable(e: NetworkEndpoint, portName: string) {
    e.portName == portName && e.protocol == TCP
  }

  /** Endpoint k of instance i serves the port on a ready instance. */
  predicate Serves(xs: seq<Instance>, portName: string, i: nat, k: nat) {
    i < |xs| && xs[i].state.Ready? && k < |xs[i].endpoints| && Usable(xs[i].endpoints[k], portName)
  }

  /** The serving positions of one instance, among its first n endpoints. */
  function PositionsIn(xs: seq<Instance>, portName: string, i: nat, n: nat): seq<(nat, nat)>
    requires i < |xs| && n <= |xs[i].endpoints|
  {
    if n == 0 then []
    else PositionsIn(xs, portName, i, n - 1) + if Serves(xs, portName, i, n - 1) then [(i, n - 1)] else []
  }

  /** The serving positions of the first m instances. */
  function Positions(xs: seq<Instance>, portName: string, m: nat): seq<(nat, nat)>
    requires m <= |xs|
  {
    if m == 0 then [] else Positions(xs, portName, m - 1) + PositionsIn(xs, portName, m - 1, |xs[m - 1].endpoints|)
  }

  lemma {:induction false} PositionsInExactly(xs: seq<Instance>, portName: string, i: nat, n: nat)
    requires i < |xs| && n <= |xs[i].endpoints|
    ensures forall p :: p in PositionsIn(xs, portName, i, n) <==> p.0 == i && p.1 < n && Serves(xs, portName, i, p.1)
    ensures Distinct(PositionsIn(xs, portName, i, n))
  {
    if n > 0 {
      PositionsInExactly(xs, portName, i, n - 1);
      var before := PositionsIn(xs, portName, i, n - 1);
      assert forall k | 0 <= k < |before| :: before[k] in before;
    }
  }

  lemma {:induction false} PositionsExactly(xs: seq<Instance>, portName: string, m: nat)
    requires m <= |xs|
    ensures forall p :: p in Positions(xs, portName, m) <==> p.0 < m && Serves(xs, portName, p.0, p.1)
    ensures Distinct(Positions(xs, portName, m))
  {
    if m > 0 {
      PositionsExactly(xs, portName, m - 1);
      PositionsInExactly(xs, portName, m - 1, |xs[m - 1].endpoints|);
      var before, here := Positions(xs, portName, m - 1), PositionsIn(xs, portName, m - 1, |xs[m - 1].endpoints|);
      assert forall k | 0 <= k < |before| :: before[k] in before;
      assert forall k | 0 <= k < |here| :: here[k] in here;
    }
  }

  /** The endpoint at the only serving position, if there is exactly one. */
  function OnlyServing(xs: seq<Instance>, portName: string): Option<NetworkEndpoint> {
    var ps := Positions(xs, portName, |xs|);
    if |ps| != 1 then None
    else
      PositionsExactly(xs, portName, |xs|);
      assert ps[0] in ps;
      Some(xs[ps[0].0].endpoints[ps[0].1])
  }

  /** Endpoint k of instance i is the only one that serves. */
  ghost predicate ServesAlone(xs: seq<Instance>, portName: string, i: nat, k: nat) {
    Serves(xs, portName, i, k) && forall j: nat, l: nat | Serves(xs, portName, j, l) :: j == i && l == k
  }

  lemma AloneIsOnly(xs: seq<Instance>, portName: string, i: nat, k: nat)
    requires ServesAlone(xs, portName, i, k)
    ensures Positions(xs, portName, |xs|) == [(i, k)]
  {
    var ps := Positions(xs, portName, |xs|);
    PositionsExactly(xs, portName, |xs|);
    assert (i, k) in ps;
    assert |ps| > 1 ==> ps[0] != ps[1];
    forall n | 0 <= n < |ps| ensures ps[n] == (i, k) {
      assert ps[n] in ps;
      assert Serves(xs, portName, ps[n].0, ps[n].1);
    }
  }

  /** An endpoint is selected exactly when it stands at a serving position and no other position serves. */
  lemma SelectedExactly(xs: seq<Instance>, portName: string, e: NetworkEndpoint)
    ensures OnlyServing(xs, portName) == Some(e) <==>
              exists i: nat, k: nat :: ServesAlone(xs, portName, i, k) && xs[i].endpoints[k] == e
  {
    if OnlyServing(xs, portName) == Some(e) {
      var ps := Positions(xs, portName, |xs|);
      PositionsExactly(xs, portName, |xs|);
      assert ps[0] in ps;
      forall j: nat, l: nat | Serves(xs, portName, j, l) ensures j == ps[0].0 && l == ps[0].1 {
        assert (j, l) in ps;
      }
      assert ServesAlone(xs, portName, ps[0].0, ps[0].1);
    }
    if i: nat, k: nat :| ServesAlone(xs, portName, i, k) && xs[i].endpoints[k] == e {
      AloneIsOnly(xs, portName, i, k);
    }
  }

  ghost predicate SelectedSo(selected: Option<NetworkEndpoint>, ps: seq<(nat, nat)>, xs: seq<Instance>) {
    && |ps| <= 1
    && (ps == [] ==> selected.None?)
    && (ps != [] ==> ps[0].0 < |xs| && ps[0].1 < |xs[ps[0].0].endpoints| && selected == Some(xs[ps[0].0].endpoints[ps[0].1]))
  }

  lemma {:induction false} InGrows(xs: seq<Instance>, portName: string, i: nat, n: nat)
    requires i < |xs| && n <= |xs[i].endpoints|
    ensures |PositionsIn(xs, portName, i, n)| <= |PositionsIn(xs, portName, i, |xs[i].endpoints|)|
    decreases |xs[i].endpoints| - n
  {
    if n < |xs[i].endpoints| {
      InGrows(xs, portName, i, n + 1);
    }
  }

  lemma {:induction false} Grows(xs: seq<Instance>, portName: string, m: nat, n: nat)
    requires m <= n <= |xs|
    ensures |Positions(xs, portName, m)| <= |Positions(xs, portName, n)|
    decreases n - m
  {
    if m < n {
      Grows(xs, portName, m, n - 1);
    }
  }

  /** The inner loop, over the endpoints of one ready instance. */
  method SelectIn(xs: seq<Instance>, portName: string, i: nat, found: Option<NetworkEndpoint>, ghost ps: seq<(nat, nat)>)
    returns (several: bool, selected: Option<NetworkEndpoint>)
    requires i < |xs| && xs[i].state.Ready? && SelectedSo(found, ps, xs)
    ensures var all := ps + PositionsIn(xs, portName, i, |xs[i].endpoints|);
            if several then |all| > 1 else SelectedSo(selected, all, xs)
  {
    selected := found;
    ghost var all := ps;
    for k := 0 to |xs[i].endpoints|
      invariant all == ps + PositionsIn(xs, portName, i, k) && SelectedSo(selected, all, xs)
    {
      var e := xs[i].endpoints[k];
      if Usable(e, portName) {
        if selected.Some? {
          InGrows(xs, portName, i, k + 1);
          return true, selected;
        }
        selected := Some(e);
        all := all + [(i, k)];
      }
    }
    return false, selected;
  }

  method SelectEndpoint(xs: seq<Instance>, portName: string) returns (r: Option<NetworkEndpoint>)
    ensures r == OnlyServing(xs, portName)
  {
    var selected: Option<NetworkEndpoint> := None;
    for i := 0 to |xs|
      invariant SelectedSo(selected, Positions(xs, portName, i), xs)
    {
      if !xs[i].state.Ready? {
        NotReady(xs, portName, i, |xs[i].endpoints|);
        continue;
      }
      var several;
      several, selected := SelectIn(xs, portName, i, selected, Positions(xs, portName, i));
      if several {
        Grows(xs, portName, i + 1, |xs|);
        return None;
      }
    }
    return selected;
  }

  lemma {:induction false} NotReady(xs: seq<Instance>, portName: string, i: nat, n: nat)
    requires i < |xs| && n <= |xs[i].endpoints| && !xs[i].state.Ready?
    ensures PositionsIn(xs, portName, i, n) == []
  {
    if n > 0 {
      NotReady(xs, portName, i, n - 1);
    }
  }
}
