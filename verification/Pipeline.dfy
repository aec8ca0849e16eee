/**
 * The whole observation pipeline as one step system: source events, session
 * failures and closes, pulls by the selector's observer and applied changes,
 * interleaved in any order.
 */
module Pipeline {
  import opened Wrappers
  import opened RegistryModel
  import opened Aggregation
  import opened SliceStore
  import opened Topology
  import W = Watch
  import opened Observation
  import opened Selector

  /** Where the goroutine that feeds the selector stands. */
  datatype Observer = Starting | Idle | Holding(change: Change) | Failing | Stopped

  /**
   * The session, its watch with the accepted and delivered changes, the
   * selector's state, whether any source event was refused, and how many changes
   * the selector has applied.
   */
  datatype Pipeline = Pipeline(
    target: Target, binding: Binding, initial: Snapshot,
    session: SessionState, run: W.Run, selector: SelectorState, observer: Observer, refused: bool, applied: nat)

  datatype Step =
    | Source(event: SourceEvent)
    | Mark(outcome: W.Outcome)
    | Stop
    | Initialize
    | Pull(canceled: bool)
    | Apply
    | FailSelector

  /** A pipeline whose session was opened on a listed topology. */
  ghost predicate Opened(p: Pipeline, t: TopologyState) {
    && ValidState(t) && Bounded(t.slices, p.binding) && p.binding.pendingChanges > 0
    && SnapshotOf(t, p.target, 0) == Some(p.initial)
    && p.session == SessionState(t, p.initial, None, false, false)
    && p.run == W.Start(p.binding.pendingChanges)
    && p.selector == SelectorState(None, Initializing, 0)
    && p.observer == Starting && !p.refused && p.applied == 0
  }

  /******* Steps *******/

  ghost predicate Ready(p: Pipeline) {
    ValidState(p.session.state) && Bounded(p.session.state.slices, p.binding)
  }

  /** One pull: entering, one pass of the loop and leaving. */
  function Pulled(r: W.Run, canceled: bool): W.Run {
    W.Step(W.Step(W.Step(r, W.BeginEvent), W.PollEvent(canceled)), W.EndEvent)
  }

  /** What the observer does with the outcome of a pull. */
  function ObserverAfter(before: W.Run, after: W.Run): Observer {
    if |after.delivered| > |before.delivered| then Holding(after.delivered[|after.delivered| - 1])
    else if |after.ended| > |before.ended| then Failing
    else Idle
  }

  ghost function Taken(p: Pipeline, e: SourceEvent): Pipeline
    requires Ready(p) && ValidEvent(e)
  {
    var (s, em) := Taking(p.session, p.binding, e);
    var (session, w, ok) := Emitting(s, p.run.watch, em);
    p.(session := session,
       run := if em.Offered? then W.Step(p.run, W.PublishEvent(em.change)) else p.run,
       refused := p.refused || !ok)
  }

  ghost function Next(p: Pipeline, step: Step): Pipeline
    requires Ready(p)
  {
    match step
    case Source(e) => if ValidEvent(e) then Taken(p, e) else p
    case Mark(o) => p.(session := Marking(p.session, o))
    case Stop =>
      var (session, _) := Stopping(p.session, p.run.watch);
      p.(session := session,
         run := if !p.session.stopped && p.session.terminal.Some? then W.Step(p.run, W.TerminateEvent(p.session.terminal.value)) else p.run)
    case Initialize =>
      if !p.observer.Starting? then p
      else
        var (s, ok) := Initialized(p.selector, p.target, p.initial);
        p.(selector := s, observer := if ok then Idle else Stopped)
    case Pull(canceled) =>
      if !p.observer.Idle? then p
      else
        var run := Pulled(p.run, canceled);
        p.(run := run,
           observer := ObserverAfter(p.run, run))
    case Apply =>
      if !p.observer.Holding? then p
      else
        var (s, ok) := Applied(p.selector, p.target, p.observer.change);
        p.(selector := s, observer := if ok then Idle else Failing, applied := if ok then p.applied + 1 else p.applied)
    case FailSelector => if !p.observer.Failing? then p else p.(selector := Failed(p.selector), observer := Stopped)
  }

  /******* The invariant *******/

  /** The snapshot after the first n accepted changes. */
  function SnapshotAfter(initial: Snapshot, accepted: seq<Change>, n: nat): Snapshot
    requires n <= |accepted|
  {
    if n == 0 then initial else accepted[n - 1].snapshot
  }

  predicate GoodSnapshot(s: Snapshot, target: Target, order: nat) {
    ValidSnapshot(s) && s.target == target && s.revision.localOrder == order
  }

  /** The change published n-th, counting from zero, is valid and leads to the snapshot of order n + 1. */
  predicate PublishedAt(target: Target, c: Change, n: nat) {
    ValidChange(c) && GoodSnapshot(c.snapshot, target, n + 1)
  }

  predicate PublishedWell(initial: Snapshot, target: Target, accepted: seq<Change>) {
    && GoodSnapshot(initial, target, 0)
    && |accepted| < ORDERS
    && forall n: nat {:trigger PublishedAt(target, accepted[n], n)} | n < |accepted| :: PublishedAt(target, accepted[n], n)
  }

  /**
   * The selector holds the snapshot of the changes it has applied, in every
   * phase of the observer; it has applied all those delivered but one in hand.
   */
  predicate ObserverInv(initial: Snapshot, accepted: seq<Change>, delivered: seq<Change>, held: Option<Snapshot>, observer: Observer, applied: nat) {
    && delivered <= accepted
    && |delivered| == (if observer.Holding? then applied + 1 else applied)
    && match observer
       case Starting => delivered == [] && held.None?
       case Idle => held == Some(SnapshotAfter(initial, accepted, |delivered|))
       case Holding(c) =>
         && delivered != [] && c == delivered[|delivered| - 1]
         && held == Some(SnapshotAfter(initial, accepted, |delivered| - 1))
       case Failing => held == Some(SnapshotAfter(initial, accepted, |delivered|))
       case Stopped => held.None?
  }

  ghost predicate SessionInv(p: Pipeline) {
    && Ready(p)
    && p.session.current == SnapshotAfter(p.initial, p.run.accepted, |p.run.accepted|)
    && (p.session.targetDeleted <==> W.Deleted(p.run))
    && (p.session.terminal.Some? ==> !p.session.targetDeleted)
    && (!p.refused ==> AgreesWith(p.session.state, p.session.current.state, p.session.current.instances))
  }

  ghost predicate Inv(p: Pipeline) {
    && W.Inv(p.run)
    && PublishedWell(p.initial, p.target, p.run.accepted)
    && ObserverInv(p.initial, p.run.accepted, p.run.delivered, p.selector.snapshot, p.observer, p.applied)
    && (p.observer.Failing? || p.observer.Stopped? ==> p.run.ended != [])
    && SessionInv(p)
  }

  lemma OpenedInv(p: Pipeline, t: TopologyState)
    requires Opened(p, t)
    ensures Inv(p)
  {
    SnapshotOfValid(t, p.target, 0);
  }

  /******* Every step keeps it *******/

  /** Publishing on the run is publishing on its watch. */
  lemma PublishedRun(r: W.Run, c: Change)
    ensures var (w, error) := W.Publishing(r.watch, c);
            var q := W.Step(r, W.PublishEvent(c));
            q.watch == w && q.accepted == (if error.None? then r.accepted + [c] else r.accepted)
            && q.delivered == r.delivered && q.ended == r.ended
  {
  }

  lemma AfterGood(initial: Snapshot, target: Target, accepted: seq<Change>, n: nat)
    requires PublishedWell(initial, target, accepted) && n <= |accepted|
    ensures GoodSnapshot(SnapshotAfter(initial, accepted, n), target, n)
  {
    if n > 0 {
      assert PublishedAt(target, accepted[n - 1], n - 1);
    }
  }

  /** A change that can follow a snapshot of the given order. */
  predicate PublishedNext(target: Target, c: Change, order: LocalOrder) {
    ValidChange(c) && GoodSnapshot(c.snapshot, target, NextOrder(order)) && NextOrder(order) != 0
  }

  lemma AcceptedWell(initial: Snapshot, target: Target, accepted: seq<Change>, c: Change)
    requires PublishedWell(initial, target, accepted) && PublishedNext(target, c, |accepted|)
    ensures PublishedWell(initial, target, accepted + [c])
  {
    assert NextOrder(|accepted|) == |accepted| + 1;
    var now := accepted + [c];
    forall n: nat | n < |now| ensures PublishedAt(target, now[n], n) {
      if n < |accepted| {
        assert PublishedAt(target, accepted[n], n);
      }
    }
  }

  /** What an event may do: change the stored topology only, and offer observers the change that makes them agree with it. */
  ghost predicate TakenWell(session: SessionState, b: Binding, refused: bool, order: LocalOrder, s: SessionState, em: Emission) {
    && s == session.(state := s.state) && ValidState(s.state) && Bounded(s.state.slices, b)
    && (em.Suppressed? && !refused ==> AgreesWith(s.state, s.current.state, s.current.instances))
    && (em.Offered? ==>
          && session.terminal.None? && !session.targetDeleted
          && PublishedNext(session.current.target, em.change, order)
          && AgreesWith(s.state, em.change.snapshot.state, em.change.snapshot.instances))
  }

  lemma UpdateTakenWell(session: SessionState, b: Binding, refused: bool, order: LocalOrder, t: TopologyState, em: Emission)
    requires session.terminal.None? && !session.targetDeleted && ValidState(t) && Bounded(t.slices, b)
    requires GoodSnapshot(session.current, session.current.target, order)
    requires em == CurrentEmission(t, session.current) || em == DeletionEmission(t, session.current)
    ensures TakenWell(session, b, refused, order, session.(state := t), em)
  {
    EmissionPublishable(t, session.current);
  }

  lemma TakingOffers(session: SessionState, b: Binding, e: SourceEvent, refused: bool, order: LocalOrder)
    requires ValidState(session.state) && Bounded(session.state.slices, b) && ValidEvent(e)
    requires GoodSnapshot(session.current, session.current.target, order)
    requires !refused ==> AgreesWith(session.state, session.current.state, session.current.instances)
    ensures TakenWell(session, b, refused, order, Taking(session, b, e).0, Taking(session, b, e).1)
  {
    if session.terminal.None? && !session.targetDeleted {
      UpdatedValid(session.state, b, e);
      var t := Updated(session.state, b, e);
      if t.Some? {
        UpdateTakenWell(session, b, refused, order, t.value, Taking(session, b, e).1);
      }
    }
  }

  lemma EmissionPublishable(t: TopologyState, current: Snapshot)
    requires ValidState(t) && ValidSnapshot(current)
    ensures forall em | em == CurrentEmission(t, current) || em == DeletionEmission(t, current) ::
              && (em.Suppressed? ==> AgreesWith(t, current.state, current.instances))
              && (em.Offered? ==> PublishedNext(current.target, em.change, current.revision.localOrder)
                                  && AgreesWith(t, em.change.snapshot.state, em.change.snapshot.instances))
  {
    EmissionValid(t, current);
    DeletionNotSuppressed(t, current);
  }

  lemma DeletionNotSuppressed(t: TopologyState, current: Snapshot)
    requires ValidState(t)
    ensures !DeletionEmission(t, current).Suppressed?
  {
  }

  /** The watch accepted what the event offered. */
  lemma AcceptedKeeps(p: Pipeline, s: SessionState, run: W.Run, c: Change)
    requires Inv(p) && s == p.session.(state := s.state) && ValidState(s.state) && Bounded(s.state.slices, p.binding)
    requires s.terminal.None? && AgreesWith(s.state, c.snapshot.state, c.snapshot.instances)
    requires PublishedNext(p.target, c, |p.run.accepted|)
    requires W.Inv(run) && run.accepted == p.run.accepted + [c] && run.delivered == p.run.delivered && run.ended == p.run.ended
    ensures Inv(p.(session := s.(current := c.snapshot, targetDeleted := c.kind.TargetDeleted?), run := run))
  {
    AcceptedWell(p.initial, p.target, p.run.accepted, c);
  }

  /** The watch refused it: the session keeps its snapshot and will be failed. */
  lemma RejectedKeeps(p: Pipeline, s: SessionState, run: W.Run)
    requires Inv(p) && s == p.session.(state := s.state) && ValidState(s.state) && Bounded(s.state.slices, p.binding)
    requires W.Inv(run) && run.accepted == p.run.accepted && run.delivered == p.run.delivered && run.ended == p.run.ended
    ensures Inv(p.(session := s, run := run, refused := true))
  {
  }

  lemma UnchangedKeeps(p: Pipeline, s: SessionState)
    requires Inv(p) && s == p.session.(state := s.state) && ValidState(s.state) && Bounded(s.state.slices, p.binding)
    requires !p.refused ==> AgreesWith(s.state, s.current.state, s.current.instances)
    ensures Inv(p.(session := s))
  {
  }

  lemma TakenParts(p: Pipeline, e: SourceEvent)
    requires Ready(p) && ValidEvent(e)
    ensures var (s, em) := Taking(p.session, p.binding, e);
            Taken(p, e) ==
              match em
              case Refused => p.(session := s, refused := true)
              case Suppressed => p.(session := s)
              case Offered(c) =>
                var run := W.Step(p.run, W.PublishEvent(c));
                if W.Publishing(p.run.watch, c).1.None?
                then p.(session := s.(current := c.snapshot, targetDeleted := c.kind.TargetDeleted?), run := run)
                else p.(session := s, run := run, refused := true)
  {
  }

  lemma TakenKeeps(p: Pipeline, e: SourceEvent)
    requires Inv(p) && ValidEvent(e)
    ensures Inv(Taken(p, e))
  {
    var (s, em) := Taking(p.session, p.binding, e);
    AfterGood(p.initial, p.target, p.run.accepted, |p.run.accepted|);
    TakingOffers(p.session, p.binding, e, p.refused, |p.run.accepted|);
    TakenParts(p, e);
    match em
    case Refused => RejectedKeeps(p, s, p.run);
    case Suppressed => UnchangedKeeps(p, s);
    case Offered(c) =>
      var run := W.Step(p.run, W.PublishEvent(c));
      PublishedRun(p.run, c);
      W.PublishKeeps(p.run, c);
      if W.Publishing(p.run.watch, c).1.None? {
        AcceptedKeeps(p, s, run, c);
      } else {
        RejectedKeeps(p, s, run);
      }
  }

  lemma PulledKeeps(r: W.Run, canceled: bool)
    requires W.Inv(r)
    ensures var q := Pulled(r, canceled);
            && W.Inv(q) && q.accepted == r.accepted
            && (q.delivered == r.delivered || (q.ended == r.ended && q.delivered != [] && q.delivered[..|q.delivered| - 1] == r.delivered))
  {
    var begun := W.Step(r, W.BeginEvent);
    var polled := W.Step(begun, W.PollEvent(canceled));
    W.StepKeeps(r, W.BeginEvent);
    W.StepKeeps(begun, W.PollEvent(canceled));
    W.StepKeeps(polled, W.EndEvent);
  }

  lemma DeliveredPrefix(delivered: seq<Change>, queue: seq<Change>, accepted: seq<Change>)
    requires delivered + queue <= accepted
    ensures delivered <= accepted
  {
  }

  /** Pulling moves the observer, never the selector. */
  lemma PullObserved(initial: Snapshot, accepted: seq<Change>, before: seq<Change>, after: seq<Change>, held: Option<Snapshot>, observer: Observer, applied: nat)
    requires ObserverInv(initial, accepted, before, held, Idle, applied) && after <= accepted
    requires PulledTo(before, after, observer)
    ensures ObserverInv(initial, accepted, after, held, observer, applied)
  {
  }

  predicate PulledTo(before: seq<Change>, after: seq<Change>, observer: Observer) {
    if observer.Holding? then after != [] && after[..|after| - 1] == before && observer.change == after[|after| - 1]
    else after == before && (observer.Idle? || observer.Failing?)
  }

  lemma PulledInv(p: Pipeline, run: W.Run, observer: Observer)
    requires Inv(p) && p.observer.Idle? && W.Inv(run) && run.accepted == p.run.accepted
    requires PulledTo(p.run.delivered, run.delivered, observer) && (observer.Failing? ==> run.ended != [])
    ensures Inv(p.(run := run, observer := observer))
  {
    DeliveredPrefix(run.delivered, run.watch.queue, run.accepted);
    PullObserved(p.initial, run.accepted, p.run.delivered, run.delivered, p.selector.snapshot, observer, p.applied);
  }

  lemma PullKeeps(p: Pipeline, canceled: bool)
    requires Inv(p) && p.observer.Idle?
    ensures Inv(Next(p, Pull(canceled)))
  {
    PulledKeeps(p.run, canceled);
    var run := Pulled(p.run, canceled);
    PulledInv(p, run, ObserverAfter(p.run, run));
  }

  /** The change an observer holds is the last one delivered, and the selector holds the snapshot before it. */
  lemma HeldIsNext(initial: Snapshot, accepted: seq<Change>, delivered: seq<Change>, held: Option<Snapshot>, c: Change, applied: nat)
    requires ObserverInv(initial, accepted, delivered, held, Holding(c), applied)
    ensures 0 < |delivered| <= |accepted| && c == accepted[|delivered| - 1]
    ensures held == Some(SnapshotAfter(initial, accepted, |delivered| - 1))
  {
    assert delivered[|delivered| - 1] == accepted[|delivered| - 1];
  }

  /** The selector's state once it holds a snapshot. */
  function Showing(s: Snapshot): SelectorState {
    SelectorState(Some(s), StateShown(s.state), s.revision.localOrder)
  }

  lemma NextIsApplied(s: SelectorState, target: Target, c: Change, n: nat)
    requires PublishedAt(target, c, n) && n + 1 < ORDERS
    requires s.snapshot.Some? && s.snapshot.value.revision.localOrder == n
    ensures Applied(s, target, c) == (Showing(c.snapshot), true)
  {
  }

  lemma HeldOrder(initial: Snapshot, target: Target, accepted: seq<Change>, n: nat)
    requires PublishedWell(initial, target, accepted) && n < |accepted|
    ensures PublishedAt(target, accepted[n], n) && n + 1 < ORDERS
    ensures SnapshotAfter(initial, accepted, n).revision.localOrder == n
  {
    AfterGood(initial, target, accepted, n);
  }

  lemma HeldApplies(initial: Snapshot, target: Target, accepted: seq<Change>, delivered: seq<Change>, s: SelectorState, c: Change, applied: nat)
    requires PublishedWell(initial, target, accepted) && ObserverInv(initial, accepted, delivered, s.snapshot, Holding(c), applied)
    ensures Applied(s, target, c) == (Showing(c.snapshot), true) && c.snapshot == SnapshotAfter(initial, accepted, |delivered|)
  {
    HeldIsNext(initial, accepted, delivered, s.snapshot, c, applied);
    HeldOrder(initial, target, accepted, applied);
    NextIsApplied(s, target, c, applied);
  }

  /** A change pulled from the watch is always the next one for the selector. */
  lemma ApplySucceeds(p: Pipeline)
    requires Inv(p) && p.observer.Holding?
    ensures Applied(p.selector, p.target, p.observer.change) == (Showing(p.observer.change.snapshot), true)
    ensures p.observer.change.snapshot == SnapshotAfter(p.initial, p.run.accepted, |p.run.delivered|)
  {
    HeldApplies(p.initial, p.target, p.run.accepted, p.run.delivered, p.selector, p.observer.change, p.applied);
  }

  lemma AppliedInv(p: Pipeline, selector: SelectorState)
    requires Inv(p) && p.observer.Holding?
    requires selector.snapshot == Some(SnapshotAfter(p.initial, p.run.accepted, |p.run.delivered|))
    ensures Inv(p.(selector := selector, observer := Idle, applied := p.applied + 1))
  {
  }

  lemma ApplyNext(p: Pipeline, s: SelectorState)
    requires Ready(p) && p.observer.Holding? && Applied(p.selector, p.target, p.observer.change) == (s, true)
    ensures Next(p, Apply) == p.(selector := s, observer := Idle, applied := p.applied + 1)
  {
  }

  lemma ApplyResult(p: Pipeline)
    requires Inv(p) && p.observer.Holding?
    ensures Next(p, Apply) == p.(selector := Showing(p.observer.change.snapshot), observer := Idle, applied := p.applied + 1)
  {
    ApplySucceeds(p);
    ApplyNext(p, Showing(p.observer.change.snapshot));
  }

  lemma ApplyKeeps(p: Pipeline)
    requires Inv(p) && p.observer.Holding?
    ensures Inv(Next(p, Apply))
  {
    ApplyResult(p);
    HeldIsNext(p.initial, p.run.accepted, p.run.delivered, p.selector.snapshot, p.observer.change, p.applied);
    AppliedInv(p, Showing(p.observer.change.snapshot));
  }

  lemma StopKeeps(p: Pipeline)
    requires Inv(p)
    ensures Inv(Next(p, Stop))
  {
    if !p.session.stopped && p.session.terminal.Some? {
      W.StepKeeps(p.run, W.TerminateEvent(p.session.terminal.value));
    }
  }

  predicate SameObservation(p: Pipeline, q: Pipeline) {
    q.target == p.target && q.binding == p.binding && q.initial == p.initial
  }

  lemma NextKeeps(p: Pipeline, step: Step)
    requires Inv(p)
    ensures Inv(Next(p, step)) && SameObservation(p, Next(p, step))
  {
    match step
    case Source(e) =>
      if ValidEvent(e) {
        TakenKeeps(p, e);
      }
    case Stop => StopKeeps(p);
    case Pull(canceled) =>
      if p.observer.Idle? {
        PullKeeps(p, canceled);
      }
    case Apply =>
      if p.observer.Holding? {
        ApplyKeeps(p);
      }
    case _ =>
  }

  /******* Every run *******/

  ghost function After(p: Pipeline, steps: seq<Step>): (q: Pipeline)
    requires Inv(p)
    ensures Inv(q) && SameObservation(p, q)
  {
    if steps == [] then p
    else
      var before := After(p, steps[..|steps| - 1]);
      NextKeeps(before, steps[|steps| - 1]);
      Next(before, steps[|steps| - 1])
  }

  lemma HeldIsApplied(initial: Snapshot, target: Target, accepted: seq<Change>, delivered: seq<Change>, held: Option<Snapshot>, observer: Observer, applied: nat)
    requires PublishedWell(initial, target, accepted) && ObserverInv(initial, accepted, delivered, held, observer, applied) && held.Some?
    ensures applied <= |accepted| && held.value == SnapshotAfter(initial, accepted, applied) && held.value.revision.localOrder == applied
  {
    AfterGood(initial, target, accepted, applied);
  }

  /**
   * Whatever interleaving led here, an available selector holds the initial
   * snapshot or the snapshot of a published change, its order counts the
   * changes applied, and the stored slices stay within their bounds.
   */
  lemma SelectorHoldsPublished(p: Pipeline, t: TopologyState, steps: seq<Step>)
    requires Opened(p, t)
    ensures Inv(p)
    ensures var q := After(p, steps);
            && Bounded(q.session.state.slices, p.binding)
            && (q.selector.snapshot.Some? ==>
                  && q.applied <= |q.run.accepted|
                  && q.selector.snapshot.value == SnapshotAfter(p.initial, q.run.accepted, q.applied)
                  && q.selector.snapshot.value.revision.localOrder == q.applied)
  {
    OpenedInv(p, t);
    var q := After(p, steps);
    if q.selector.snapshot.Some? {
      HeldIsApplied(q.initial, q.target, q.run.accepted, q.run.delivered, q.selector.snapshot, q.observer, q.applied);
    }
  }

  /** Nothing failed: no event was refused and the watch did not end early. */
  predicate Healthy(p: Pipeline) {
    !p.refused && (p.run.watch.terminal.None? || W.Deleted(p.run))
  }

  /** Everything published has been applied. */
  predicate Drained(p: Pipeline) {
    p.run.watch.queue == [] && p.observer.Idle?
  }

  /** With the queue drained and nothing failed, the selector's snapshot is the direct aggregation of the current topology. */
  lemma DrainedSelectorAgrees(p: Pipeline, t: TopologyState, steps: seq<Step>)
    requires Opened(p, t)
    ensures Inv(p)
    ensures var q := After(p, steps);
            Drained(q) && Healthy(q) ==>
              && q.selector.snapshot.Some?
              && AgreesWith(q.session.state, q.selector.snapshot.value.state, q.selector.snapshot.value.instances)
              && q.selector.snapshot.value == q.session.current
  {
    OpenedInv(p, t);
    var q := After(p, steps);
    if Drained(q) && Healthy(q) {
      assert q.run.delivered + [] == q.run.delivered;
      assert q.run.delivered == q.run.accepted;
    }
  }

  /** A selection made then uses the only ready TCP endpoint on the port among the instances that direct aggregation gives. */
  lemma SelectionUsesCurrentTopology(p: Pipeline, t: TopologyState, steps: seq<Step>, portName: string, e: NetworkEndpoint)
    requires Opened(p, t)
    ensures Inv(p)
    ensures var q := After(p, steps);
            Drained(q) && Healthy(q) && OnlyServing(q.selector.snapshot.value.instances, portName) == Some(e) ==>
              var xs := Aggregated(q.session.state.servicePresent, q.session.state.slices);
              xs.Some? && exists i: nat, k: nat :: ServesAlone(xs.value, portName, i, k) && xs.value[i].endpoints[k] == e
  {
    DrainedSelectorAgrees(p, t, steps);
    var q := After(p, steps);
    if Drained(q) && Healthy(q) {
      SelectedExactly(q.selector.snapshot.value.instances, portName, e);
    }
  }

  /**
   * Initializing and applying never fail, so that only a pull that returned an
   * error, for a canceled call or an ended watch, makes the release unavailable.
   */
  lemma SelectorNeverRejects(p: Pipeline, t: TopologyState, steps: seq<Step>)
    requires Opened(p, t)
    ensures Inv(p)
    ensures var q := After(p, steps);
            && Initialized(q.selector, q.target, q.initial).1
            && (q.observer.Holding? ==> Applied(q.selector, q.target, q.observer.change).1)
            && (q.selector.snapshot.None? ==>
                  q.observer.Starting? || exists o | o in q.run.ended :: o == W.Canceled || q.run.watch.terminal == Some(o))
  {
    OpenedInv(p, t);
    var q := After(p, steps);
    assert q.run.ended != [] ==> q.run.ended[0] in q.run.ended;
    if q.observer.Holding? {
      ApplySucceeds(q);
    }
  }
}
