/**
 * The Nacos registrar: Register, the heartbeat loop, lease Close and registrar
 * Close as one step system whose steps are the critical sections and the
 * remote requests of the source.
 */
module Registrar {
  import opened Wrappers

  /******* The lease *******/

  datatype Outcome = Closed | Canceled | Unavailable | Unauthorized | Invalid

  function Latch(terminal: Option<Outcome>, o: Outcome): Option<Outcome> {
    if terminal.Some? then terminal else Some(o)
  }

  /** An error that carries a registry outcome under any wrapping, or none. */
  datatype Cause = Typed(outcome: Outcome) | Untyped

  /** A missing error means closed; one without an outcome is invalid. */
  function TypedTerminal(err: Option<Cause>): Outcome {
    match err
    case None => Closed
    case Some(Typed(outcome)) => outcome
    case Some(Untyped) => Invalid
  }

  class Lease {
    var terminal: Option<Outcome>
    var done: bool

    ghost predicate Valid()
      reads this
    {
      done <==> terminal.Some?
    }

    constructor ()
      ensures Valid() && terminal.None?
    {
      terminal, done := None, false;
    }

    /** The first outcome wins. */
    method Terminate(err: Option<Cause>)
      requires Valid()
      modifies this
      ensures Valid() && done && terminal == Latch(old(terminal), TypedTerminal(err))
    {
      if !done {
        terminal := Some(TypedTerminal(err));
        done := true;
      }
    }
  }

  /******* One registration *******/

  datatype Request = Post | Beat | Delete

  /** Where the Register call of a session stands; Cleaning undoes a registration that Close overtook. */
  datatype Phase = Posting | Posted(ok: bool) | Refused | Cleaning | Cleaned(ok: bool) | Active

  datatype Loop = NotStarted | Selecting | Beating | BeatFailed(outcome: Outcome) | LoopEnding | LoopEnded

  datatype Ending = TimedOut | Deleted(ok: bool)

  /** Where the once-guarded close of a session stands. */
  datatype Closing = NotClosing | Stopping | Deleting | Ending(how: Ending, outcome: Outcome) | Removing(how: Ending) | Gone(how: Ending)

  /**
   * A session with the requests it has sent, and whether the remote registry
   * has acted on its POST and on its DELETE.
   */
  datatype Session = Session(
    phase: Phase, loop: Loop, stop: bool, closing: Closing, terminal: Option<Outcome>,
    sent: seq<Request>, postEffect: bool, deleteEffect: bool)

  const FRESH := Session(Posting, NotStarted, false, NotClosing, None, [], false, false)

  /** The remote registry still lists the session. */
  predicate Present(s: Session) {
    s.postEffect && !s.deleteEffect
  }

  /** A step of one session that touches nothing of the registrar. */
  datatype Event =
    | PostSends
    | RemoteActs
    | PostReturns(ok: bool)
    | CleanupReturns(ok: bool)
    | Tick
    | BeatReturns(ok: bool, outcome: Outcome)
    | BeatTerminates
    | LoopReturns
    | StopSeen
    | CloseBegins
    | CloseTimesOut
    | CloseDeletes
    | DeleteReturns(ok: bool, outcome: Outcome)
    | CloseTerminates

  /** A POST that was sent and has not been answered with success. */
  predicate PostOpen(s: Session) {
    s.sent != [] && (s.phase.Posting? || s.phase == Posted(false) || s.phase.Refused?)
  }

  /** A DELETE that was sent and has not been answered with success. */
  predicate DeleteOpen(s: Session) {
    s.phase.Cleaning? || s.phase == Cleaned(false) || s.closing.Deleting? || Ends(s.closing, Deleted(false))
  }

  /**
   * The remote registry may act on a request at any time after it was sent,
   * even after an error was reported for it, and answers a success only after
   * acting. A registration with unusable metadata fails before its POST is sent.
   */
  function SessionNext(s: Session, e: Event): Session {
    match e
    case PostSends => if s.phase.Posting? && s.sent == [] then s.(sent := [Post]) else s
    case RemoteActs =>
      if PostOpen(s) then s.(postEffect := true) else if DeleteOpen(s) then s.(deleteEffect := true) else s
    case PostReturns(ok) => if s.phase.Posting? && (ok ==> s.postEffect) then s.(phase := Posted(ok)) else s
    case CleanupReturns(ok) =>
      if s.phase.Cleaning? && (ok ==> s.deleteEffect) then s.(phase := Cleaned(ok), terminal := Latch(s.terminal, Closed)) else s
    case Tick => if s.loop.Selecting? then s.(loop := Beating, sent := s.sent + [Beat]) else s
    case BeatReturns(ok, o) => if s.loop.Beating? then s.(loop := if ok then Selecting else BeatFailed(o)) else s
    case BeatTerminates => if s.loop.BeatFailed? then s.(loop := LoopEnding, terminal := Latch(s.terminal, s.loop.outcome)) else s
    case LoopReturns => if s.loop.LoopEnding? then s.(loop := LoopEnded, stop := true) else s
    case StopSeen => if s.loop.Selecting? && s.stop then s.(loop := LoopEnded) else s
    case CloseBegins => if s.phase.Active? && s.closing.NotClosing? then s.(closing := Stopping, stop := true) else s
    case CloseTimesOut => if s.closing.Stopping? then s.(closing := Ending(TimedOut, Canceled)) else s
    case CloseDeletes => if s.closing.Stopping? && s.loop.LoopEnded? then s.(closing := Deleting, sent := s.sent + [Delete]) else s
    case DeleteReturns(ok, o) =>
      if s.closing.Deleting? && (ok ==> s.deleteEffect) then s.(closing := Ending(Deleted(ok), if ok then Closed else o)) else s
    case CloseTerminates =>
      if s.closing.Ending? then s.(closing := Removing(s.closing.how), terminal := Latch(s.terminal, s.closing.outcome)) else s
  }

  predicate Ends(c: Closing, how: Ending) {
    (c.Ending? || c.Removing? || c.Gone?) && c.how == how
  }

  predicate SentDelete(s: Session) {
    s.phase.Cleaning? || s.phase.Cleaned? || s.closing.Deleting? || Ends(s.closing, Deleted(true)) || Ends(s.closing, Deleted(false))
  }

  /** No heartbeat, and nothing else, follows a DELETE. */
  predicate DeleteLast(sent: seq<Request>) {
    forall i | 0 <= i < |sent| - 1 :: !sent[i].Delete?
  }

  predicate SessionInv(s: Session) {
    && (if s.sent == [] then s.phase.Posting? || s.phase == Posted(false) || s.phase.Refused? else s.sent[0] == Post)
    && DeleteLast(s.sent) && (s.sent != [] && s.sent[|s.sent| - 1].Delete? <==> SentDelete(s))
    && (s.postEffect ==> s.sent != [])
    && (s.deleteEffect ==> SentDelete(s))
    && (!s.phase.Active? ==> s.loop.NotStarted? && s.closing.NotClosing?)
    && (s.phase.Active? || s.phase.Cleaning? || s.phase.Cleaned? ==> s.postEffect)
    && (s.phase == Posted(true) ==> s.postEffect)
    && (s.phase.Active? ==> !s.loop.NotStarted?)
    && (s.phase == Cleaned(true) || Ends(s.closing, Deleted(true)) ==> s.deleteEffect)
    && (s.phase.Active? && SentDelete(s) ==> s.loop.LoopEnded?)
  }

  lemma SessionNextKeeps(s: Session, e: Event)
    requires SessionInv(s)
    ensures SessionInv(SessionNext(s, e))
    ensures s.sent <= SessionNext(s, e).sent
    ensures s.terminal.Some? ==> SessionNext(s, e).terminal == s.terminal
  {
  }

  /******* The registrar *******/

  /** Where the first registrar Close stands, with the sessions it still has to close. */
  datatype Closer = NotCalled | AwaitingRegistrations(sessions: set<nat>) | ClosingSessions(sessions: set<nat>) | Returned

  datatype State = State(closed: bool, registering: bool, live: set<nat>, all: seq<Session>, closer: Closer)

  const START := State(false, false, {}, [], NotCalled)

  datatype Step =
    | Register
    | RegisterEnds(id: nat)
    | SessionStep(id: nat, event: Event)
    | Remove(id: nat)
    | CloseCalled
    | RegistrationsDone
    | SessionClosed(id: nat)
    | CloseReturns

  /** The Register call of the session has been admitted and not returned. */
  predicate Pending(s: Session) {
    s.phase.Posting? || s.phase.Posted? || s.phase.Cleaning?
  }

  function Next(st: State, step: Step): State {
    match step
    case Register =>
      if st.closed || st.registering || st.live != {} then st
      else st.(registering := true, all := st.all + [FRESH])
    case RegisterEnds(id) =>
      if id >= |st.all| || !st.all[id].phase.Posted? then st
      else
        var s := st.all[id];
        if !s.phase.ok then st.(registering := false, all := st.all[id := s.(phase := Refused)])
        else if st.closed then st.(registering := false, all := st.all[id := s.(phase := Cleaning, sent := s.sent + [Delete])])
        else st.(registering := false, live := st.live + {id}, all := st.all[id := s.(phase := Active, loop := Selecting)])
    case SessionStep(id, e) => if id >= |st.all| then st else st.(all := st.all[id := SessionNext(st.all[id], e)])
    case Remove(id) =>
      if id >= |st.all| || !st.all[id].closing.Removing? then st
      else st.(live := st.live - {id}, all := st.all[id := st.all[id].(closing := Gone(st.all[id].closing.how))])
    case CloseCalled => if st.closed then st else st.(closed := true, closer := AwaitingRegistrations(st.live))
    case RegistrationsDone =>
      if !st.closer.AwaitingRegistrations? || exists i | 0 <= i < |st.all| :: Pending(st.all[i]) then st
      else st.(closer := ClosingSessions(st.closer.sessions))
    case SessionClosed(id) =>
      if !st.closer.ClosingSessions? || id !in st.closer.sessions || id >= |st.all| || !st.all[id].closing.Gone? then st
      else st.(closer := ClosingSessions(st.closer.sessions - {id}))
    case CloseReturns => if st.closer == ClosingSessions({}) then st.(closer := Returned) else st
  }

  /** The registrar's own fields; each method is one critical section. */
  class Table {
    var closed: bool
    var registering: bool
    var sessions: set<nat>

    ghost predicate Matches(st: State)
      reads this
    {
      closed == st.closed && registering == st.registering && sessions == st.live
    }

    constructor ()
      ensures Matches(START)
    {
      closed, registering, sessions := false, false, {};
    }

    method Admit(ghost st: State) returns (refusal: Option<Outcome>)
      requires Matches(st)
      modifies this
      ensures Matches(Next(st, Register))
      ensures refusal.None? <==> Next(st, Register).all == st.all + [FRESH]
      ensures refusal.Some? ==> Next(st, Register) == st && refusal.value == if st.closed then Closed else Invalid
    {
      if closed {
        return Some(Closed);
      }
      if registering || sessions != {} {
        return Some(Invalid);
      }
      registering := true;
      return None;
    }

    /** The end of Register once its POST succeeded: to be cleaned up, or live. */
    method Settle(id: nat, ghost st: State) returns (cleanUp: bool)
      requires Matches(st) && id < |st.all| && st.all[id].phase == Posted(true)
      modifies this
      ensures Matches(Next(st, RegisterEnds(id)))
      ensures cleanUp <==> Next(st, RegisterEnds(id)).all[id].phase.Cleaning?
    {
      registering := false;
      if closed {
        return true;
      }
      sessions := sessions + {id};
      return false;
    }

    method SettleRefused(id: nat, ghost st: State)
      requires Matches(st) && id < |st.all| && st.all[id].phase == Posted(false)
      modifies this
      ensures Matches(Next(st, RegisterEnds(id)))
    {
      registering := false;
    }

    method BeginClose(ghost st: State) returns (first: bool, toClose: set<nat>)
      requires Matches(st)
      modifies this
      ensures Matches(Next(st, CloseCalled)) && first == !st.closed
      ensures first ==> Next(st, CloseCalled).closer == AwaitingRegistrations(toClose)
    {
      if closed {
        return false, {};
      }
      closed := true;
      return true, sessions;
    }

    method Drop(id: nat, ghost st: State)
      requires Matches(st) && id < |st.all| && st.all[id].closing.Removing?
      modifies this
      ensures Matches(Next(st, Remove(id)))
    {
      sessions := sessions - {id};
    }
  }

  predicate InFlight(s: Session) {
    s.phase.Posting? || s.phase.Posted?
  }

  predicate IsLive(s: Session) {
    s.phase.Active? && !s.closing.Gone?
  }

  /** A session occupies the registrar while it is being registered or is live. */
  predicate Occupies(s: Session) {
    InFlight(s) || IsLive(s)
  }

  predicate AtMostOne(all: seq<Session>) {
    forall i, j | 0 <= i < j < |all| :: !(Occupies(all[i]) && Occupies(all[j]))
  }

  ghost predicate NoPending(all: seq<Session>) {
    forall i | 0 <= i < |all| :: !Pending(all[i])
  }

  ghost predicate CloserInv(st: State) {
    match st.closer
    case NotCalled => !st.closed
    case AwaitingRegistrations(sessions) => st.closed && st.live <= sessions
    case ClosingSessions(sessions) => st.closed && st.live <= sessions && NoPending(st.all)
    case Returned => st.closed && st.live == {} && NoPending(st.all)
  }

  ghost predicate Inv(st: State) {
    && (forall i | 0 <= i < |st.all| :: SessionInv(st.all[i]))
    && (forall i: nat :: i in st.live <==> i < |st.all| && IsLive(st.all[i]))
    && (st.registering <==> exists i :: 0 <= i < |st.all| && InFlight(st.all[i]))
    && AtMostOne(st.all)
    && CloserInv(st)
  }

  /******* Every step keeps the invariant *******/

  /** A session step that does not change what the session occupies. */
  lemma UpdateKeeps(st: State, id: nat, s: Session)
    requires Inv(st) && id < |st.all| && SessionInv(s)
    requires InFlight(s) == InFlight(st.all[id]) && IsLive(s) == IsLive(st.all[id]) && (Pending(s) ==> Pending(st.all[id]))
    ensures Inv(st.(all := st.all[id := s]))
  {
    var now := st.all[id := s];
    assert st.registering ==> exists i :: 0 <= i < |now| && InFlight(now[i]) by {
      if st.registering {
        var i :| 0 <= i < |st.all| && InFlight(st.all[i]);
        assert InFlight(now[i]);
      }
    }
  }

  lemma RegisterKeeps(st: State)
    requires Inv(st) && !st.closed && !st.registering && st.live == {}
    ensures Inv(Next(st, Register))
  {
    var now := st.all + [FRESH];
    forall i: nat | i < |st.all| ensures !Occupies(now[i]) {
      assert i !in st.live;
    }
    assert InFlight(now[|st.all|]);
  }

  /** Only one session can be in flight. */
  lemma OnlyInFlight(st: State, id: nat)
    requires Inv(st) && id < |st.all| && InFlight(st.all[id])
    ensures st.registering && st.live == {} && forall i | 0 <= i < |st.all| && i != id :: !Occupies(st.all[i])
  {
    forall i: nat | i < |st.all| && i != id ensures !Occupies(st.all[i]) {
      assert Occupies(st.all[id]);
    }
    forall i ensures i !in st.live {
    }
  }

  /** The session in flight becomes something else, and the registrar is free or holds it live. */
  lemma SettledKeeps(st: State, id: nat, s: Session)
    requires Inv(st) && id < |st.all| && InFlight(st.all[id]) && SessionInv(s) && !InFlight(s)
    requires IsLive(s) ==> !st.closed
    requires Pending(s) ==> st.closer.AwaitingRegistrations? || st.closer.NotCalled?
    ensures Inv(st.(registering := false, live := if IsLive(s) then st.live + {id} else st.live, all := st.all[id := s]))
  {
    OnlyInFlight(st, id);
    assert Pending(st.all[id]);
  }

  lemma RegisterEndsKeeps(st: State, id: nat)
    requires Inv(st) && id < |st.all| && st.all[id].phase.Posted?
    ensures Inv(Next(st, RegisterEnds(id)))
  {
    var s := st.all[id];
    assert SessionInv(s) && Pending(s);
    if !s.phase.ok {
      SettledKeeps(st, id, s.(phase := Refused));
    } else if st.closed {
      SettledKeeps(st, id, s.(phase := Cleaning, sent := s.sent + [Delete]));
    } else {
      SettledKeeps(st, id, s.(phase := Active, loop := Selecting));
    }
  }

  lemma RemoveKeeps(st: State, id: nat)
    requires Inv(st) && id < |st.all| && st.all[id].closing.Removing?
    ensures Inv(Next(st, Remove(id)))
  {
    assert SessionInv(st.all[id]) && Occupies(st.all[id]);
    forall i | 0 <= i < |st.all| ensures !InFlight(st.all[i]) {
      assert i != id ==> !Occupies(st.all[i]);
    }
  }

  lemma SessionStepKeeps(st: State, id: nat, e: Event)
    requires Inv(st) && id < |st.all|
    ensures Inv(Next(st, SessionStep(id, e)))
  {
    SessionNextKeeps(st.all[id], e);
    UpdateKeeps(st, id, SessionNext(st.all[id], e));
  }

  lemma CloserKeeps(st: State, step: Step)
    requires Inv(st) && (step.CloseCalled? || step.RegistrationsDone? || step.SessionClosed? || step.CloseReturns?)
    ensures Inv(Next(st, step))
  {
  }

  lemma NextKeeps(st: State, step: Step)
    requires Inv(st)
    ensures Inv(Next(st, step))
  {
    match step
    case Register =>
      if !st.closed && !st.registering && st.live == {} {
        RegisterKeeps(st);
      }
    case RegisterEnds(id) =>
      if id < |st.all| && st.all[id].phase.Posted? {
        RegisterEndsKeeps(st, id);
      }
    case SessionStep(id, e) =>
      if id < |st.all| {
        SessionStepKeeps(st, id, e);
      }
    case Remove(id) =>
      if id < |st.all| && st.all[id].closing.Removing? {
        RemoveKeeps(st, id);
      }
    case _ => CloserKeeps(st, step);
  }

  function Run(steps: seq<Step>): State {
    if steps == [] then START else Next(Run(steps[..|steps| - 1]), steps[|steps| - 1])
  }

  lemma {:induction false} RunInv(steps: seq<Step>)
    ensures Inv(Run(steps))
  {
    if steps != [] {
      RunInv(steps[..|steps| - 1]);
      NextKeeps(Run(steps[..|steps| - 1]), steps[|steps| - 1]);
    }
  }

  /******* What every interleaving guarantees *******/

  /** At most one registration is in flight or live. */
  lemma OneRegistration(steps: seq<Step>)
    ensures var st := Run(steps);
            && AtMostOne(st.all) && |st.live| <= 1
            && !(st.registering && st.live != {})
  {
    RunInv(steps);
    var st := Run(steps);
    if st.registering {
      var i :| 0 <= i < |st.all| && InFlight(st.all[i]);
      OnlyInFlight(st, i);
    }
    if i :| i in st.live {
      forall j | j in st.live ensures j == i {
        assert Occupies(st.all[i]) && Occupies(st.all[j]);
      }
      assert st.live == {i};
    }
  }

  /** Each session sends its POST first, and nothing after its DELETE. */
  lemma NothingAfterDelete(steps: seq<Step>, id: nat)
    requires id < |Run(steps).all|
    ensures var sent := Run(steps).all[id].sent;
            (sent != [] ==> sent[0] == Post) && forall i | 0 <= i < |sent| - 1 :: !sent[i].Delete?
  {
    RunInv(steps);
    var st := Run(steps);
    assert SessionInv(st.all[id]);
  }

  /** The terminal outcome of a lease, once set, is never replaced. */
  lemma TerminalFirstWins(steps: seq<Step>, step: Step, id: nat)
    requires id < |Run(steps).all| && Run(steps).all[id].terminal.Some?
    ensures id < |Next(Run(steps), step).all|
    ensures Next(Run(steps), step).all[id].terminal == Run(steps).all[id].terminal
  {
    RunInv(steps);
    var st := Run(steps);
    if step.SessionStep? && step.id < |st.all| {
      assert SessionInv(st.all[step.id]);
      SessionNextKeeps(st.all[step.id], step.event);
    }
  }

  /** The ways in which a registration can outlive the registrar. */
  predicate Outlives(s: Session) {
    || (s.phase.Refused? && s.postEffect)
    || s.closing == Gone(TimedOut)
    || ((s.phase == Cleaned(false) || s.closing == Gone(Deleted(false))) && !s.deleteEffect)
  }

  /**
   * When the first Close has returned, a registration remains at the remote
   * registry exactly when its POST took effect although it was answered with an
   * error, its close timed out, or its DELETE was answered with an error and
   * did not take effect.
   */
  lemma RemainsExactly(steps: seq<Step>, id: nat)
    requires Run(steps).closer.Returned? && id < |Run(steps).all|
    ensures Present(Run(steps).all[id]) <==> Outlives(Run(steps).all[id])
  {
    RunInv(steps);
    var st := Run(steps);
    assert SessionInv(st.all[id]) && !Pending(st.all[id]) && id !in st.live;
  }

  /** A DELETE that was answered with an error. */
  predicate DeleteFailed(s: Session) {
    s.phase == Cleaned(false) || Ends(s.closing, Deleted(false))
  }

  /** Hence nothing remains once every DELETE succeeded, no close timed out and no refused POST took effect. */
  lemma NothingRemains(steps: seq<Step>)
    requires Run(steps).closer.Returned?
    requires forall s | s in Run(steps).all :: !DeleteFailed(s) && !Ends(s.closing, TimedOut) && !(s.phase.Refused? && s.postEffect)
    ensures forall s | s in Run(steps).all :: !Present(s)
  {
    var st := Run(steps);
    forall s | s in st.all ensures !Present(s) {
      var id :| 0 <= id < |st.all| && st.all[id] == s;
      RemainsExactly(steps, id);
    }
  }

  /** The remote registry lists the session or can still come to list it: its close timed out, its POST was sent and
      refused, or its DELETE failed and has not taken effect. */
  predicate CanShow(s: Session) {
    Ends(s.closing, TimedOut) || (s.phase.Refused? && s.sent != []) || (DeleteFailed(s) && !s.deleteEffect)
  }

  ghost predicate Hidden(st: State, id: nat) {
    st.closer.Returned? && id < |st.all| && !CanShow(st.all[id])
  }

  lemma HiddenStays(st: State, step: Step, id: nat)
    requires Inv(st) && Hidden(st, id)
    ensures Hidden(Next(st, step), id)
  {
    var s := st.all[id];
    assert SessionInv(s) && !Pending(s) && id !in st.live;
  }

  lemma RunNext(steps: seq<Step>, step: Step)
    ensures Run(steps + [step]) == Next(Run(steps), step)
  {
    assert (steps + [step])[..|steps|] == steps;
  }

  lemma HiddenNext(steps: seq<Step>, step: Step, id: nat)
    requires Hidden(Run(steps), id)
    ensures Hidden(Run(steps + [step]), id)
  {
    RunInv(steps);
    HiddenStays(Run(steps), step, id);
    RunNext(steps, step);
  }

  lemma {:induction false} HiddenRun(steps: seq<Step>, more: seq<Step>, id: nat)
    requires Hidden(Run(steps), id)
    ensures Hidden(Run(steps + more), id)
  {
    if more == [] {
      assert steps + more == steps;
    } else {
      var init, last := more[..|more| - 1], more[|more| - 1];
      HiddenRun(steps, init, id);
      HiddenNext(steps + init, last, id);
      assert steps + more == (steps + init) + [last];
    }
  }

  lemma ShownCanShow(s: Session)
    requires Outlives(s)
    ensures SessionInv(s) ==> CanShow(s)
  {
  }

  /** Otherwise nothing of it remains, and nothing comes back however late the remote registry acts. */
  lemma NothingReturns(steps: seq<Step>, more: seq<Step>, id: nat)
    requires Run(steps).closer.Returned? && id < |Run(steps).all| && !CanShow(Run(steps).all[id])
    ensures id < |Run(steps + more).all| && !Present(Run(steps + more).all[id])
  {
    HiddenRun(steps, more, id);
    RunInv(steps + more);
    var s := Run(steps + more).all[id];
    assert SessionInv(s);
    RemainsExactly(steps + more, id);
    if Outlives(s) {
      ShownCanShow(s);
    }
  }

  ghost predicate ShownAfter(steps: seq<Step>, more: seq<Step>, id: nat) {
    id < |Run(steps + more).all| && Present(Run(steps + more).all[id])
  }

  /** A refused POST that was sent can take effect next. */
  lemma RefusedCanAct(steps: seq<Step>, id: nat)
    requires id < |Run(steps).all| && Run(steps).all[id].phase.Refused? && Run(steps).all[id].sent != []
    ensures ShownAfter(steps, [SessionStep(id, RemoteActs)], id)
  {
    RunInv(steps);
    assert SessionInv(Run(steps).all[id]);
    RunNext(steps, SessionStep(id, RemoteActs));
  }

  /** After the first Close has returned, some continuation shows the registration exactly under that condition. */
  lemma ShowsAgainExactly(steps: seq<Step>, id: nat)
    requires Run(steps).closer.Returned? && id < |Run(steps).all|
    ensures CanShow(Run(steps).all[id]) <==> exists more :: ShownAfter(steps, more, id)
  {
    RunInv(steps);
    var st := Run(steps);
    var s := st.all[id];
    assert SessionInv(s) && !Pending(s) && id !in st.live;
    if !CanShow(s) {
      forall more ensures !ShownAfter(steps, more, id) {
        NothingReturns(steps, more, id);
      }
    } else if s.phase.Refused? && s.sent != [] {
      RefusedCanAct(steps, id);
    } else {
      RemainsExactly(steps, id);
      assert steps + [] == steps;
      assert ShownAfter(steps, [], id);
    }
  }

  /** The run of a registration whose POST takes effect after it was answered with an error and the registrar closed. */
  function LostPost(n: nat): seq<Step> {
    if n == 0 then [] else LostPost(n - 1) + [
      if n == 1 then Register
      else if n == 2 then SessionStep(0, PostSends)
      else if n == 3 then SessionStep(0, PostReturns(false))
      else if n == 4 then RegisterEnds(0)
      else if n == 5 then CloseCalled
      else if n == 6 then RegistrationsDone
      else if n == 7 then CloseReturns
      else SessionStep(0, RemoteActs)]
  }

  lemma LostPostNext(n: nat, st: State)
    requires n > 0 && Run(LostPost(n - 1)) == st
    ensures Run(LostPost(n)) == Next(st, LostPost(n)[|LostPost(n)| - 1])
  {
    assert LostPost(n)[..|LostPost(n)| - 1] == LostPost(n - 1);
  }

  const REFUSED := FRESH.(sent := [Post], phase := Refused)
  const LOST := REFUSED.(postEffect := true)

  lemma LostPostRefused()
    ensures Run(LostPost(4)) == State(false, false, {}, [REFUSED], NotCalled)
  {
    LostPostNext(1, START);
    LostPostNext(2, State(false, true, {}, [FRESH], NotCalled));
    LostPostNext(3, State(false, true, {}, [FRESH.(sent := [Post])], NotCalled));
    LostPostNext(4, State(false, true, {}, [FRESH.(sent := [Post], phase := Posted(false))], NotCalled));
  }

  /** Successful DELETEs and prompt closes alone do not suffice: a POST whose answer was lost registers after Close. */
  lemma LostPostRemains()
    ensures Run(LostPost(7)) == State(true, false, {}, [REFUSED], Returned) && !Present(REFUSED)
    ensures Run(LostPost(8)) == State(true, false, {}, [LOST], Returned) && Present(LOST)
    ensures !DeleteFailed(LOST) && !Ends(LOST.closing, TimedOut)
  {
    LostPostRefused();
    LostPostNext(5, State(false, false, {}, [REFUSED], NotCalled));
    LostPostNext(6, State(true, false, {}, [REFUSED], AwaitingRegistrations({})));
    LostPostNext(7, State(true, false, {}, [REFUSED], ClosingSessions({})));
    LostPostNext(8, State(true, false, {}, [REFUSED], Returned));
  }
}
