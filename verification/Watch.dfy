/** The bounded single-consumer queue between a provider and its observer. */
module Watch {
  import opened Wrappers
  import opened RegistryModel

  datatype Outcome = Closed | Interrupted(cause: string) | Canceled | Invalid(cause: string) | Other(code: string, cause: string)

  const OVERFLOW := Interrupted("delivery_overflow")
  const INVALID_INPUT := Invalid("invalid_input")

  /** The fields guarded by the watch's mutex. */
  datatype WatchState = WatchState(
    capacity: nat, queue: seq<Change>, terminal: Option<Outcome>, deletionPending: bool, nextActive: bool)

  /** What one pass of the pull loop finds. */
  datatype Pull = Delivered(change: Change) | Ended(outcome: Outcome) | Waiting

  /******* The critical sections *******/

  function Publishing(w: WatchState, c: Change): (WatchState, Option<Outcome>) {
    if !ValidChange(c) then (w, Some(INVALID_INPUT))
    else if w.deletionPending then (w, Some(Closed))
    else if w.terminal.Some? then (w, w.terminal)
    else if |w.queue| >= w.capacity then (w.(terminal := Some(OVERFLOW), queue := []), Some(OVERFLOW))
    else (w.(queue := w.queue + [c], deletionPending := c.kind.TargetDeleted?), None)
  }

  function Terminating(w: WatchState, o: Outcome): WatchState {
    if w.terminal.Some? || w.deletionPending then w else w.(terminal := Some(o), queue := [])
  }

  function Pulling(w: WatchState, canceled: bool): (WatchState, Pull) {
    if canceled then (w, Ended(Canceled))
    else if w.queue != [] then
      var rest := w.(queue := w.queue[1..]);
      (if w.queue[0].kind.TargetDeleted? && w.deletionPending && rest.queue == []
       then rest.(deletionPending := false, terminal := Some(Closed)) else rest,
       Delivered(w.queue[0]))
    else if w.terminal.Some? then (w, Ended(w.terminal.value))
    else (w, Waiting)
  }

  class LocalWatch {
    const capacity: nat
    var queue: seq<Change>
    var terminal: Option<Outcome>
    var deletionPending: bool
    var nextActive: bool

    ghost function State(): WatchState
      reads this
    {
      WatchState(capacity, queue, terminal, deletionPending, nextActive)
    }

    constructor (capacity: nat)
      requires capacity > 0
      ensures State() == WatchState(capacity, [], None, false, false)
    {
      this.capacity := capacity;
      queue, terminal, deletionPending, nextActive := [], None, false, false;
    }

    method Publish(c: Change) returns (error: Option<Outcome>)
      modifies this
      ensures (State(), error) == Publishing(old(State()), c)
    {
      if !ValidChange(c) {
        return Some(INVALID_INPUT);
      }
      if deletionPending {
        return Some(Closed);
      }
      if terminal.Some? {
        return terminal;
      }
      if |queue| >= capacity {
        terminal := Some(OVERFLOW);
        queue := [];
        return terminal;
      }
      queue := queue + [c];
      if c.kind.TargetDeleted? {
        deletionPending := true;
      }
      return None;
    }

    method Terminate(o: Outcome)
      modifies this
      ensures State() == Terminating(old(State()), o)
    {
      if terminal.Some? || deletionPending {
        return;
      }
      terminal := Some(o);
      queue := [];
    }

    method Close()
      modifies this
      ensures State() == Terminating(old(State()), Closed)
    {
      Terminate(Closed);
    }

    /** The entry of Next: a second pull beside an active one is refused and changes nothing. */
    method BeginNext() returns (admitted: bool)
      modifies this
      ensures admitted == !old(nextActive) && State() == old(State()).(nextActive := true)
    {
      if nextActive {
        return false;
      }
      nextActive := true;
      return true;
    }

    /** One pass of the loop of Next, under the lock. */
    method PollNext(canceled: bool) returns (pull: Pull)
      modifies this
      ensures (State(), pull) == Pulling(old(State()), canceled)
    {
      if canceled {
        return Ended(Canceled);
      }
      if |queue| > 0 {
        var change := queue[0];
        queue := queue[1..];
        if change.kind.TargetDeleted? && deletionPending && |queue| == 0 {
          deletionPending := false;
          terminal := Some(Closed);
        }
        return Delivered(change);
      }
      if terminal.Some? {
        return Ended(terminal.value);
      }
      return Waiting;
    }

    method EndNext()
      modifies this
      ensures State() == old(State()).(nextActive := false)
    {
      nextActive := false;
    }
  }

  /******* Runs *******/

  /** One critical section of some caller. A wait that its context ends is a cancelled poll. */
  datatype Event = PublishEvent(change: Change) | TerminateEvent(outcome: Outcome) | BeginEvent | PollEvent(canceled: bool) | EndEvent

  /** A watch with the changes accepted and delivered so far and the errors its pulls returned. */
  datatype Run = Run(watch: WatchState, accepted: seq<Change>, delivered: seq<Change>, ended: seq<Outcome>)

  function Start(capacity: nat): Run {
    Run(WatchState(capacity, [], None, false, false), [], [], [])
  }

  function Step(r: Run, e: Event): Run {
    match e
    case PublishEvent(c) =>
      var (w, error) := Publishing(r.watch, c);
      r.(watch := w, accepted := if error.None? then r.accepted + [c] else r.accepted)
    case TerminateEvent(o) => r.(watch := Terminating(r.watch, o))
    case BeginEvent => r.(watch := r.watch.(nextActive := true))
    case PollEvent(canceled) =>
      if !r.watch.nextActive then r
      else
        var (w, pull) := Pulling(r.watch, canceled);
        r.(watch := w,
           delivered := if pull.Delivered? then r.delivered + [pull.change] else r.delivered,
           ended := if pull.Ended? then r.ended + [pull.outcome] else r.ended)
    case EndEvent => r.(watch := r.watch.(nextActive := false))
  }

  function Steps(r: Run, es: seq<Event>): Run {
    if es == [] then r else Step(Steps(r, es[..|es| - 1]), es[|es| - 1])
  }

  /** The deletion of the target was accepted. */
  predicate Deleted(r: Run) {
    r.accepted != [] && r.accepted[|r.accepted| - 1].kind.TargetDeleted?
  }

  predicate OnlyLastDeletes(changes: seq<Change>) {
    forall i | 0 <= i < |changes| - 1 :: !changes[i].kind.TargetDeleted?
  }

  /** What holds between any two critical sections. */
  predicate Inv(r: Run) {
    && |r.watch.queue| <= r.watch.capacity
    && r.delivered + r.watch.queue <= r.accepted
    && (r.watch.terminal.None? ==> r.delivered + r.watch.queue == r.accepted)
    && (r.watch.terminal.Some? ==> r.watch.queue == [] && !r.watch.deletionPending)
    && OnlyLastDeletes(r.accepted)
    && (r.watch.deletionPending ==> Deleted(r) && r.watch.queue != [])
    && (Deleted(r) ==> r.watch.deletionPending || (r.watch.terminal == Some(Closed) && r.delivered == r.accepted))
    && (forall o | o in r.ended :: o == Canceled || r.watch.terminal == Some(o))
  }

  /** What a step may not undo: accepted, delivered and returned things stay, and the first terminal outcome is permanent. */
  predicate Extends(r: Run, q: Run) {
    && q.watch.capacity == r.watch.capacity
    && r.accepted <= q.accepted && r.delivered <= q.delivered && r.ended <= q.ended
    && (r.watch.terminal.Some? ==> q.watch.terminal == r.watch.terminal)
    && (Deleted(r) ==> q.accepted == r.accepted)
  }

  lemma EnqueueKeeps(r: Run, c: Change)
    requires Inv(r) && r.watch.terminal.None? && !r.watch.deletionPending && |r.watch.queue| < r.watch.capacity
    ensures var q := r.(watch := r.watch.(queue := r.watch.queue + [c], deletionPending := c.kind.TargetDeleted?), accepted := r.accepted + [c]);
            Inv(q) && Extends(r, q)
  {
  }

  /** What publishing a valid change does to the run. */
  function Admitting(r: Run, c: Change): Run {
    if r.watch.deletionPending || r.watch.terminal.Some? then r
    else if |r.watch.queue| >= r.watch.capacity then r.(watch := r.watch.(terminal := Some(OVERFLOW), queue := []))
    else r.(watch := r.watch.(queue := r.watch.queue + [c], deletionPending := c.kind.TargetDeleted?), accepted := r.accepted + [c])
  }

  lemma PublishCases(r: Run, c: Change)
    ensures Step(r, PublishEvent(c)) == if ValidChange(c) then Admitting(r, c) else r
  {
  }

  lemma AdmittingKeeps(r: Run, c: Change)
    requires Inv(r)
    ensures Inv(Admitting(r, c)) && Extends(r, Admitting(r, c))
  {
    if !r.watch.deletionPending && r.watch.terminal.None? && |r.watch.queue| < r.watch.capacity {
      EnqueueKeeps(r, c);
    }
  }

  lemma PublishKeeps(r: Run, c: Change)
    requires Inv(r)
    ensures Inv(Step(r, PublishEvent(c))) && Extends(r, Step(r, PublishEvent(c)))
  {
    PublishCases(r, c);
    AdmittingKeeps(r, c);
  }

  lemma DequeueKeeps(r: Run)
    requires Inv(r) && r.watch.queue != []
    ensures var (w, pull) := Pulling(r.watch, false);
            var q := r.(watch := w, delivered := r.delivered + [r.watch.queue[0]]);
            pull == Delivered(r.watch.queue[0]) && Inv(q) && Extends(r, q)
  {
    var rest := r.watch.queue[1..];
    assert r.watch.queue == [r.watch.queue[0]] + rest;
    assert r.delivered + [r.watch.queue[0]] + rest == r.delivered + r.watch.queue;
    assert r.accepted[|r.delivered|] == r.watch.queue[0];
  }

  lemma PollKeeps(r: Run, canceled: bool)
    requires Inv(r)
    ensures Inv(Step(r, PollEvent(canceled))) && Extends(r, Step(r, PollEvent(canceled)))
  {
    if r.watch.nextActive && !canceled && r.watch.queue != [] {
      DequeueKeeps(r);
    }
  }

  lemma StepKeeps(r: Run, e: Event)
    requires Inv(r)
    ensures Inv(Step(r, e)) && Extends(r, Step(r, e))
  {
    match e
    case PublishEvent(c) => PublishKeeps(r, c);
    case PollEvent(canceled) => PollKeeps(r, canceled);
    case _ =>
  }

  lemma {:induction false} StepsKeep(r: Run, es: seq<Event>)
    requires Inv(r)
    ensures Inv(Steps(r, es)) && Extends(r, Steps(r, es))
  {
    if es != [] {
      StepsKeep(r, es[..|es| - 1]);
      StepKeeps(Steps(r, es[..|es| - 1]), es[|es| - 1]);
    }
  }

  /** If the next poll ends in cancellation, that is all it does. */
  predicate CancelKeeps(r: Run, canceled: bool) {
    var q := Step(r, PollEvent(canceled));
    q.ended == r.ended + [Canceled] ==> q == r.(ended := q.ended)
  }

  /**
   * Every run of a watch: the queue stays within its capacity, deliveries are
   * a prefix of the accepted changes, a terminal outcome empties the queue, and
   * a pull that ends in cancellation consumes nothing.
   */
  lemma EveryRun(capacity: nat, es: seq<Event>)
    requires capacity > 0
    ensures var r := Steps(Start(capacity), es);
            && |r.watch.queue| <= capacity
            && r.delivered <= r.accepted
            && (r.watch.terminal.None? ==> r.delivered + r.watch.queue == r.accepted)
            && (r.watch.terminal.Some? ==> r.watch.queue == [])
            && (forall o | o in r.ended :: o == Canceled || r.watch.terminal == Some(o))
            && (r.watch.terminal != Some(Canceled) ==> forall canceled :: CancelKeeps(r, canceled))
  {
    StepsKeep(Start(capacity), es);
  }

  /** After the first terminal outcome nothing is accepted or delivered any more, and the outcome stays. */
  lemma {:induction false} TerminalPermanent(r: Run, es: seq<Event>)
    requires Inv(r) && r.watch.terminal.Some?
    ensures var q := Steps(r, es);
            q.watch.terminal == r.watch.terminal && q.watch.queue == [] && q.accepted == r.accepted && q.delivered == r.delivered
  {
    if es != [] {
      TerminalPermanent(r, es[..|es| - 1]);
      StepsKeep(r, es[..|es| - 1]);
      StepKeeps(Steps(r, es[..|es| - 1]), es[|es| - 1]);
    }
  }

  /**
   * Once the deletion of the target is accepted nothing is accepted after it
   * and nothing displaces it: whatever else happens, the watch ends closed, and
   * only after every accepted change was delivered.
   */
  lemma DeletionIsLast(r: Run, es: seq<Event>)
    requires Inv(r) && Deleted(r)
    ensures var q := Steps(r, es);
            && q.accepted == r.accepted
            && (forall i | 0 <= i < |q.accepted| - 1 :: !q.accepted[i].kind.TargetDeleted?)
            && (q.watch.terminal.Some? ==> q.watch.terminal == Some(Closed) && q.delivered == q.accepted)
            && (q.watch.terminal.None? ==> q.delivered + q.watch.queue == q.accepted)
            && (forall o | o in q.ended :: o == Canceled || o == Closed)
  {
    StepsKeep(r, es);
  }
}
