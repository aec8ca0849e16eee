/**
 * A provider session: events of the Service and its slices update the stored
 * topology, and what changed for observers is published to the watch.
 */
module Observation {
  import opened Wrappers
  import opened RegistryModel
  import opened Aggregation
  import opened SliceStore
  import opened Topology
  import opened Watch

  datatype EventKind = AddedEvent | ModifiedEvent | DeletedEvent | UnknownEvent

  /** One decoded source event; an object that did not decode or match the binding is absent. */
  datatype SourceEvent =
    | ServiceEvent(kind: EventKind, service: Option<string>)
    | SliceEvent(kind: EventKind, slice: Option<SliceRecord>, version: string)

  /** What decoding guarantees of an event. */
  ghost predicate ValidEvent(e: SourceEvent) {
    match e
    case ServiceEvent(_, service) => service.Some? ==> OpaqueIdentifier(service.value)
    case SliceEvent(kind, slice, version) =>
      slice.Some? ==> OpaqueIdentifier(version) && (kind.AddedEvent? || kind.ModifiedEvent? ==> ValidSlice(slice.value))
  }

  /** The fields guarded by the session's mutex, and whether it was stopped. */
  datatype SessionState = SessionState(
    state: TopologyState, current: Snapshot, terminal: Option<Outcome>, targetDeleted: bool, stopped: bool)

  /******* The critical sections *******/

  /** The topology after the event, unless the event is refused. */
  ghost function Updated(t: TopologyState, b: Binding, e: SourceEvent): Option<TopologyState> {
    match e
    case ServiceEvent(kind, service) =>
      if kind.UnknownEvent? || service.None? then None
      else Some(t.(servicePresent := !kind.DeletedEvent?, serviceVersion := service.value))
    case SliceEvent(kind, slice, version) =>
      if kind.UnknownEvent? || slice.None? then None
      else if kind.DeletedEvent? then Some(t.(slices := t.slices - {slice.value.uid}, endpointVersion := version))
      else
        var slices := Stored(t.slices, slice.value, b);
        if slices.None? then None else Some(t.(slices := slices.value, endpointVersion := version))
  }

  datatype Emission = Refused | Suppressed | Offered(change: Change)

  /** What the session tells observers about its topology: nothing when the public topology is unchanged. */
  ghost function CurrentEmission(t: TopologyState, current: Snapshot): Emission
    requires ValidState(t)
  {
    var next := SnapshotOf(t, current.target, NextOrder(current.revision.localOrder));
    if next.None? then Refused
    else if SamePublicTopology(current, next.value) then Suppressed
    else if next.value.revision.localOrder == 0 then Refused
    else Offered(ChangeTo(current, next.value))
  }

  ghost function DeletionEmission(t: TopologyState, current: Snapshot): Emission
    requires ValidState(t)
  {
    var next := SnapshotOf(t, current.target, NextOrder(current.revision.localOrder));
    if next.None? || next.value.revision.localOrder == 0 || !next.value.state.Missing? then Refused
    else Offered(DeletionOf(next.value))
  }

  predicate DeletesTarget(e: SourceEvent) {
    e.ServiceEvent? && e.kind.DeletedEvent?
  }

  lemma UpdatedValid(t: TopologyState, b: Binding, e: SourceEvent)
    requires ValidState(t) && Bounded(t.slices, b) && ValidEvent(e)
    ensures Updated(t, b, e).Some? ==> ValidState(Updated(t, b, e).value) && Bounded(Updated(t, b, e).value.slices, b)
  {
    if e.SliceEvent? && e.slice.Some? {
      DroppedBounded(t.slices, e.slice.value.uid, b);
      StoredBounded(t.slices, e.slice.value, b);
    }
  }

  /** Whatever is offered leads to a valid snapshot of the same target, with the next order. */
  lemma EmissionValid(t: TopologyState, current: Snapshot)
    requires ValidState(t) && ValidSnapshot(current)
    ensures forall em | em == CurrentEmission(t, current) || em == DeletionEmission(t, current) ::
              em.Offered? ==>
                && ValidChange(em.change) && ValidSnapshot(em.change.snapshot)
                && em.change.snapshot.target == current.target
                && em.change.snapshot.revision.localOrder == NextOrder(current.revision.localOrder) != 0
                && AgreesWith(t, em.change.snapshot.state, em.change.snapshot.instances)
    ensures CurrentEmission(t, current).Suppressed? ==> AgreesWith(t, current.state, current.instances)
    ensures CurrentEmission(t, current).Offered? ==> !CurrentEmission(t, current).change.kind.TargetDeleted?
  {
    var order := NextOrder(current.revision.localOrder);
    var next := SnapshotOf(t, current.target, order);
    SnapshotOfValid(t, current.target, order);
    if next.Some? {
      SamePublicExactly(current, next.value);
      DeletionIsValid(next.value);
      if !SamePublicTopology(current, next.value) {
        ChangeIsValid(current, next.value);
        ChangeParts(current, next.value);
      }
    }
  }

  /** The state once an event has been taken in, and what is then to be told. */
  ghost function Taking(s: SessionState, b: Binding, e: SourceEvent): (SessionState, Emission)
    requires ValidState(s.state) && Bounded(s.state.slices, b) && ValidEvent(e)
  {
    if s.terminal.Some? || s.targetDeleted then (s, Suppressed)
    else
      UpdatedValid(s.state, b, e);
      var t := Updated(s.state, b, e);
      if t.None? then (s, Refused)
      else (s.(state := t.value), if DeletesTarget(e) then DeletionEmission(t.value, s.current) else CurrentEmission(t.value, s.current))
  }

  /** Publishing what is to be told; the session advances only when the watch accepts it. */
  function Emitting(s: SessionState, w: WatchState, em: Emission): (SessionState, WatchState, bool) {
    match em
    case Refused => (s, w, false)
    case Suppressed => (s, w, true)
    case Offered(c) =>
      var (now, error) := Publishing(w, c);
      if error.Some? then (s, now, false)
      else (s.(current := c.snapshot, targetDeleted := c.kind.TargetDeleted?), now, true)
  }

  function Marking(s: SessionState, o: Outcome): SessionState {
    if s.targetDeleted || s.terminal.Some? then s else s.(terminal := Some(o))
  }

  function Stopping(s: SessionState, w: WatchState): (SessionState, WatchState) {
    if s.stopped then (s, w)
    else (s.(stopped := true), if s.terminal.Some? then Terminating(w, s.terminal.value) else w)
  }

  class ObservationSession {
    const binding: Binding
    const watch: LocalWatch
    var state: TopologyState
    var current: Snapshot
    var terminal: Option<Outcome>
    var targetDeleted: bool
    var stopped: bool

    ghost predicate Valid()
      reads this
    {
      ValidState(state) && Bounded(state.slices, binding) && ValidSnapshot(current) && !(terminal.Some? && targetDeleted)
    }

    ghost function View(): SessionState
      reads this
    {
      SessionState(state, current, terminal, targetDeleted, stopped)
    }

    constructor (binding: Binding, watch: LocalWatch, state: TopologyState, initial: Snapshot)
      requires ValidState(state) && Bounded(state.slices, binding) && ValidSnapshot(initial)
      ensures Valid() && this.binding == binding && this.watch == watch
      ensures View() == SessionState(state, initial, None, false, false)
    {
      this.binding, this.watch, this.state, this.current := binding, watch, state, initial;
      terminal, targetDeleted, stopped := None, false, false;
    }

    /** What to tell observers now that the topology is as it is. */
    method Assess() returns (em: Emission)
      requires Valid()
      ensures em == CurrentEmission(state, current)
      ensures em.Offered? ==> ValidSnapshot(em.change.snapshot)
    {
      EmissionValid(state, current);
      var next := TakeSnapshot(state, current.target, NextOrder(current.revision.localOrder));
      if next.None? {
        return Refused;
      }
      SnapshotOfValid(state, current.target, NextOrder(current.revision.localOrder));
      if SamePublicTopology(current, next.value) {
        return Suppressed;
      }
      var change := BuildChange(current, next.value);
      if change.None? {
        return Refused;
      }
      return Offered(change.value);
    }

    method AssessDeletion() returns (em: Emission)
      requires Valid()
      ensures em == DeletionEmission(state, current)
      ensures em.Offered? ==> ValidSnapshot(em.change.snapshot)
    {
      EmissionValid(state, current);
      var next := TakeSnapshot(state, current.target, NextOrder(current.revision.localOrder));
      if next.None? {
        return Refused;
      }
      SnapshotOfValid(state, current.target, NextOrder(current.revision.localOrder));
      DeletionIsValid(next.value);
      var change := NewChange(TargetDeleted, next.value.revision, [], [], None, next.value);
      if change.None? {
        return Refused;
      }
      return Offered(change.value);
    }

    method Emit(em: Emission) returns (ok: bool)
      requires Valid() && terminal.None? && !targetDeleted
      requires em.Offered? ==> ValidSnapshot(em.change.snapshot)
      modifies this, watch
      ensures Valid()
      ensures (View(), watch.State(), ok) == Emitting(old(View()), old(watch.State()), em)
    {
      if em.Refused? {
        return false;
      }
      if em.Suppressed? {
        return true;
      }
      var error := watch.Publish(em.change);
      if error.Some? {
        return false;
      }
      current := em.change.snapshot;
      if em.change.kind.TargetDeleted? {
        targetDeleted := true;
      }
      return true;
    }

    /** Takes the event into the topology, unless it is malformed or would exceed a bound. */
    method Update(e: SourceEvent) returns (ok: bool)
      requires Valid() && ValidEvent(e)
      modifies this
      ensures Valid() && ok == Updated(old(state), binding, e).Some?
      ensures View() == old(View()).(state := if ok then Updated(old(state), binding, e).value else old(state))
    {
      UpdatedValid(state, binding, e);
      match e {
        case ServiceEvent(kind, service) =>
          if kind.UnknownEvent? || service.None? {
            return false;
          }
          state := state.(servicePresent := !kind.DeletedEvent?, serviceVersion := service.value);
        case SliceEvent(kind, slice, version) =>
          if kind.UnknownEvent? || slice.None? {
            return false;
          }
          if kind.DeletedEvent? {
            state := state.(slices := state.slices - {slice.value.uid}, endpointVersion := version);
          } else {
            var slices := Store(state.slices, slice.value, binding);
            if slices.None? {
              return false;
            }
            state := state.(slices := slices.value, endpointVersion := version);
          }
      }
      return true;
    }

    /** Takes in one event under the lock and tells observers what it changed. */
    method AcceptEvent(e: SourceEvent) returns (ok: bool)
      requires Valid() && ValidEvent(e)
      modifies this, watch
      ensures Valid()
      ensures var (s, em) := Taking(old(View()), binding, e);
              (View(), watch.State(), ok) == Emitting(s, old(watch.State()), em)
    {
      if terminal.Some? || targetDeleted {
        return true;
      }
      ok := Update(e);
      if !ok {
        return false;
      }
      var em: Emission;
      if DeletesTarget(e) {
        em := AssessDeletion();
      } else {
        em := Assess();
      }
      ok := Emit(em);
    }

    /** The first half of fail, and of close with the closed outcome. */
    method Mark(o: Outcome)
      requires Valid()
      modifies this
      ensures Valid() && View() == Marking(old(View()), o)
    {
      if targetDeleted {
        return;
      }
      if terminal.None? {
        terminal := Some(o);
      }
    }

    /** The second half, run once: after a deletion it leaves the watch alone. */
    method Stop()
      requires Valid()
      modifies this, watch
      ensures Valid() && (View(), watch.State()) == Stopping(old(View()), old(watch.State()))
    {
      if stopped {
        return;
      }
      stopped := true;
      if terminal.Some? {
        watch.Terminate(terminal.value);
      }
    }
  }
}
