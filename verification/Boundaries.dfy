/** A dispatch against the store: its commits replay there, and the inputs at which the code and its promise differ. */
module Boundaries {
  import opened Wrappers
  import opened Decimal
  import opened RuntimeContracts
  import opened LedgerStore
  import opened LedgerInvariants
  import opened DispatchLog
  import opened Attempts
  import opened Dispatch

  /******* What a dispatch commits, the store commits *******/

  lemma OwnHistorySnoc(before: seq<Event>, h: seq<Event>, e: Event, id: string)
    requires History(before + h, id) == History(before, id) + h && e.context.invocationId == id
    ensures History(before + (h + [e]), id) == History(before, id) + (h + [e])
  {
    HistorySnoc(before + h, e, id);
    assert before + (h + [e]) == (before + h) + [e];
    assert History(before, id) + (h + [e]) == (History(before, id) + h) + [e];
  }

  lemma {:induction false} OwnHistory(before: seq<Event>, h: seq<Event>, id: string)
    requires forall i | 0 <= i < |h| :: h[i].context.invocationId == id
    ensures History(before + h, id) == History(before, id) + h
  {
    if h == [] {
      assert before + h == before && History(before, id) + h == History(before, id);
    } else {
      OwnHistory(before, h[..|h| - 1], id);
      OwnHistorySnoc(before, h[..|h| - 1], h[|h| - 1], id);
      assert h == h[..|h| - 1] + [h[|h| - 1]];
    }
  }

  lemma WholeHistory(h: seq<Event>, id: string)
    requires forall i | 0 <= i < |h| :: h[i].context.invocationId == id
    ensures History(h, id) == h
  {
    OwnHistory([], h, id);
    assert [] + h == h && History([], id) == [];
  }

  lemma {:induction false} OwnContext(f: Formats, c: Context, actions: seq<Action>)
    requires SoundLog(f, c, actions)
    ensures forall e | e in Commits(actions) :: e.context == c
  {
    if actions != [] {
      var n := |actions| - 1;
      SoundPrefix(f, c, actions, n);
      OwnContext(f, c, actions[..n]);
      assert SoundAt(f, c, actions, n);
    }
  }

  lemma RunSnoc(f: Formats, candidates: seq<Event>, e: Event)
    requires AppendTo(f, Run(f, candidates).0, e).Success?
    ensures Run(f, candidates + [e]).1 == Run(f, candidates).1 + [e]
  {
    assert (candidates + [e])[..|candidates|] == candidates;
  }

  /** The events of one dispatch have different ids, since each id ends in the event's own position. */
  lemma {:induction false} OwnIdsNumbered(f: Formats, c: Context, actions: seq<Action>, i: nat)
    requires SoundLog(f, c, actions) && i < |Commits(actions)|
    ensures EndsInNumber(Commits(actions)[i].eventId, i)
  {
    var n := |actions| - 1;
    SoundPrefix(f, c, actions, n);
    assert SoundAt(f, c, actions, n);
    if i < |Commits(actions[..n])| {
      OwnIdsNumbered(f, c, actions[..n], i);
    }
  }

  lemma OwnIdFresh(f: Formats, c: Context, actions: seq<Action>, n: nat)
    requires SoundLog(f, c, actions) && n < |actions| && actions[n].Appended?
    ensures FreshEventId(Commits(actions[..n]), actions[n].event)
  {
    var h, e := Commits(actions[..n]), actions[n].event;
    SoundPrefix(f, c, actions, n);
    assert SoundAt(f, c, actions, n);
    forall prior | prior in h ensures prior.eventId != e.eventId {
      var i: nat :| i < |h| && h[i] == prior;
      OwnIdsNumbered(f, c, actions[..n], i);
      if prior.eventId == e.eventId {
        EndsInOneNumber(e.eventId, i, |h|);
      }
    }
  }

  lemma FreshInBoth(a: seq<Event>, b: seq<Event>, e: Event)
    requires FreshEventId(a, e) && FreshEventId(b, e)
    ensures FreshEventId(a + b, e)
  {
  }

  lemma ReplayStep(f: Formats, ran: seq<Event>, before: seq<Event>, c: Context, actions: seq<Action>, n: nat)
    requires SoundLog(f, c, actions) && n < |actions| && actions[n].Appended? && actions[n].committed
    requires Run(f, ran).1 == before + Commits(actions[..n]) && History(before, c.invocationId) == []
    requires FreshEventId(before, actions[n].event)
    requires Commits(actions[..n]) == [] ==> ParentAdmits(before, actions[n].event)
    ensures Run(f, ran + [actions[n].event]).1 == Run(f, ran).1 + [actions[n].event]
  {
    var init := Commits(actions[..n]);
    SoundPrefix(f, c, actions, n);
    OwnContext(f, c, actions[..n]);
    OwnHistory(before, init, c.invocationId);
    assert [] + init == init;
    assert init == [] ==> before + init == before;
    RunInvariant(f, ran);
    OwnIdFresh(f, c, actions, n);
    FreshInBoth(before, init, actions[n].event);
    OwnEventsAdmitted(f, c, actions, n, Run(f, ran).0, before + init);
    RunSnoc(f, ran, actions[n].event);
  }

  ghost predicate SharesNoId(log: seq<Event>, h: seq<Event>) {
    forall e | e in h :: FreshEventId(log, e)
  }

  /** In any reachable store that does not know the Invocation, admits its parent and holds none of its event ids, the
      events that the dispatch took for committed are all committed, in order. */
  lemma {:induction false} DispatchReplays(f: Formats, candidates: seq<Event>, c: Context, actions: seq<Action>)
    requires SoundLog(f, c, actions) && History(Run(f, candidates).1, c.invocationId) == []
    requires SharesNoId(Run(f, candidates).1, Commits(actions))
    requires Commits(actions) != [] ==> ParentAdmits(Run(f, candidates).1, Commits(actions)[0])
    ensures Run(f, candidates + Commits(actions)).1 == Run(f, candidates).1 + Commits(actions)
  {
    var before, h := Run(f, candidates).1, Commits(actions);
    if h == [] {
      assert candidates + h == candidates && before + h == before;
    } else {
      var n := |actions| - 1;
      var init := Commits(actions[..n]);
      SoundPrefix(f, c, actions, n);
      if !(actions[n].Appended? && actions[n].committed) {
        assert h == init + [] == init;
        DispatchReplays(f, candidates, c, actions[..n]);
      } else {
        var e := actions[n].event;
        assert h == init + [e];
        assert before + h == (before + init) + [e] && candidates + h == (candidates + init) + [e];
        assert e in h;
        DispatchReplays(f, candidates, c, actions[..n]);
        ReplayStep(f, candidates + init, before, c, actions, n);
      }
    }
  }

  /******* A sample dispatch *******/

  const ANY_TEXT := Formats(_ => true, _ => true, _ => true)

  function SampleContext(version: string): Context {
    Context("i", "r", "", "t", Caller(User, "u"), "w", "a", version, "", "", "cap")
  }

  const SAMPLE := SampleContext("1.0.0")

  /** Nothing fails. */
  const QUIET := World(_ => false, _ => None, _ => Written, _ => 1000, _ => 0, (_, _) => "0123456789abcdef")

  function SampleStart(n: nat): seq<Event>
    requires n <= 3
  {
    InitialEvents(QUIET, SAMPLE, 1000, n)
  }

  lemma {:induction false} SampleEvents(n: nat)
    requires n <= 3
    ensures |SampleStart(n)| == n && forall i: nat | i < n :: SampleStart(n)[i] == InitialEvent(QUIET, SAMPLE, 1000, i)
  {
    if n > 0 {
      SampleEvents(n - 1);
    }
  }

  lemma SampleFresh(h: seq<Event>, e: Event)
    requires |h| <= 3 && e.eventId == EventId(QUIET, |h|, e.kind)
    requires forall i: nat | i < |h| :: h[i] == InitialEvent(QUIET, SAMPLE, 1000, i)
    ensures FreshEventId(h, e) && forall prior | prior in h :: prior.context == SAMPLE
  {
    EventIdNumbered(QUIET, |h|, e.kind);
    forall prior | prior in h ensures prior.context == SAMPLE && prior.eventId != e.eventId {
      var i: nat :| i < |h| && h[i] == prior;
      EventIdNumbered(QUIET, i, prior.kind);
      if prior.eventId == e.eventId {
        EndsInOneNumber(e.eventId, i, |h|);
      }
    }
  }

  /** What a store that holds only this parentless Invocation answers to an event that continues it. */
  lemma NextAnswered(f: Formats, db: Db, c: Context, h: seq<Event>, e: Event)
    requires Inv(f, db, h) && NonzeroEnds(h) && FitsColumns(c) && c.parentInvocationId == ""
    requires WellPlaced(c, h, e) && FreshEventId(h, e) && forall prior | prior in h :: prior.context == c
    ensures AppendTo(f, db, e).Success? <==> ValidEvent(f, e) && StorableError(e)
  {
    WholeHistory(h, c.invocationId);
    assert h != [] ==> h[0] in h;
    StoreAdmitsExactly(f, db, h, c, e);
  }

  /** The sample dispatch commits its first three events. */
  lemma {:induction false} SampleRuns(n: nat)
    requires n <= 3
    ensures Run(ANY_TEXT, SampleStart(n)).1 == SampleStart(n)
  {
    if n > 0 {
      SampleRuns(n - 1);
      SampleStep(n - 1);
      RunSnoc(ANY_TEXT, SampleStart(n - 1), InitialEvent(QUIET, SAMPLE, 1000, n - 1));
    }
  }

  lemma InitialIsValid(w: World, c: Context, start: int, i: nat)
    requires i < 3 && ValidContext(ANY_TEXT, c)
    ensures ValidEvent(ANY_TEXT, InitialEvent(w, c, start, i)) && StorableError(InitialEvent(w, c, start, i))
  {
  }

  /** The sample up to position `n`, as the store that holds exactly it sees the next event. */
  lemma SampleReady(n: nat, e: Event)
    requires n <= 3 && WellPlaced(SAMPLE, SampleStart(n), e) && e.eventId == EventId(QUIET, n, e.kind)
    requires Run(ANY_TEXT, SampleStart(n)).1 == SampleStart(n)
    ensures AppendTo(ANY_TEXT, Run(ANY_TEXT, SampleStart(n)).0, e).Success? <==> ValidEvent(ANY_TEXT, e) && StorableError(e)
  {
    var h := SampleStart(n);
    RunInvariant(ANY_TEXT, h);
    SampleEvents(n);
    SampleFresh(h, e);
    InitialContinues(QUIET, SAMPLE, 1000, n);
    NextAnswered(ANY_TEXT, Run(ANY_TEXT, h).0, SAMPLE, h, e);
  }

  lemma SampleStep(n: nat)
    requires n < 3 && Run(ANY_TEXT, SampleStart(n)).1 == SampleStart(n)
    ensures AppendTo(ANY_TEXT, Run(ANY_TEXT, SampleStart(n)).0, InitialEvent(QUIET, SAMPLE, 1000, n)).Success?
  {
    InitialPlaced(QUIET, SAMPLE, 1000, n);
    InitialIsValid(QUIET, SAMPLE, 1000, n);
    SampleReady(n, InitialEvent(QUIET, SAMPLE, 1000, n));
  }

  /** The store after the sample dispatch has started. */
  function RunningStore(): Db {
    Run(ANY_TEXT, SampleStart(3)).0
  }

  function FailureOf(kind: FrameKind, latency: int, code: ErrorCode): Event
    requires KnownCode(code)
  {
    TerminalEvent(QUIET, SAMPLE, 3, EventKindOf(kind), 4000, latency, code).value
  }

  lemma FailureAnswered(kind: FrameKind, latency: int, code: ErrorCode)
    requires KnownCode(code) && IsFailure(kind)
    ensures AppendTo(ANY_TEXT, RunningStore(), FailureOf(kind, latency, code)).Success? <==>
            latency >= 0 && CodeFits(kind, code) && StorableCode(code)
  {
    var e := FailureOf(kind, latency, code);
    SampleRuns(3);
    InitialShape(QUIET, SAMPLE, 1000, 3);
    InitialMayEnd(QUIET, SAMPLE, 1000, 3, e.kind);
    TerminalPlaced(SAMPLE, 1000, SampleStart(3), e);
    SampleReady(3, e);
    FailureDecided(ANY_TEXT, QUIET, SAMPLE, 3, kind, 4000, latency, code);
  }

  /******* Where the code and its promise differ *******/

  /** A timeout recorded as a plain failure is refused, so an Invocation whose first frame could not be written after
      the caller's deadline has no terminal event; as a timeout it would be accepted. */
  lemma TimeoutAsFailureRefused()
    ensures !Taken(ANY_TEXT, QUIET, 1000, UnsentAttempt(7, TimeoutCode))
    ensures !AppendTo(ANY_TEXT, RunningStore(), FailureOf(FailedFrame, 0, TimeoutCode)).Success?
    ensures AppendTo(ANY_TEXT, RunningStore(), FailureOf(TimedOutFrame, 0, TimeoutCode)).Success?
  {
    FailureAnswered(FailedFrame, 0, TimeoutCode);
    FailureAnswered(TimedOutFrame, 0, TimeoutCode);
  }

  /** A clock that went back between start and end leaves the Invocation without a terminal event. */
  lemma NegativeLatencyRefused()
    ensures !Taken(ANY_TEXT, QUIET, 1000, Attempt(3, 7, FailedFrame, Some(Dependency), -1))
    ensures !AppendTo(ANY_TEXT, RunningStore(), FailureOf(FailedFrame, -1, Dependency)).Success?
    ensures AppendTo(ANY_TEXT, RunningStore(), FailureOf(FailedFrame, 0, Dependency)).Success?
  {
    FailureAnswered(FailedFrame, -1, Dependency);
    FailureAnswered(FailedFrame, 0, Dependency);
  }

  lemma FailureIsValid(code: ErrorCode)
    requires KnownCode(code) && CodeFits(FailedFrame, code)
    ensures ValidCandidate(ANY_TEXT, FailureOf(FailedFrame, 0, code))
  {
  }

  /** Three listed codes make valid events that the event table does not hold. */
  lemma ReleaseCodeRefused(code: ErrorCode)
    requires code.AgentReleaseUnpublished? || code.AgentReleaseSuspended? || code.AgentReleaseRevoked?
    ensures ValidCandidate(ANY_TEXT, FailureOf(FailedFrame, 0, code))
    ensures !AppendTo(ANY_TEXT, RunningStore(), FailureOf(FailedFrame, 0, code)).Success?
  {
    FailureAnswered(FailedFrame, 0, code);
    FailureIsValid(code);
  }

  /** A created event that differs from an accepted one only in a version of 129 characters is a dependency failure. */
  lemma WideVersionRefused(version: string)
    requires |version| == 129
    ensures var e := InitialEvent(QUIET, SAMPLE, 1000, 0);
            && AppendTo(ANY_TEXT, EMPTY, e).Success?
            && ValidCandidate(ANY_TEXT, e.(context := SampleContext(version)))
            && AppendTo(ANY_TEXT, EMPTY, e.(context := SampleContext(version))) == Failure(WidthFailure)
  {
    var e := InitialEvent(QUIET, SAMPLE, 1000, 0);
    RunInvariant(ANY_TEXT, []);
    FirstLegal(ANY_TEXT, [], e);
    AppendExactly(ANY_TEXT, EMPTY, [], e);
    AppendExactly(ANY_TEXT, EMPTY, [], e.(context := SampleContext(version)));
  }

  /** An Invocation may be created at the zero instant. */
  lemma ZeroInstantAccepted()
    ensures AppendTo(ANY_TEXT, EMPTY, InitialEvent(QUIET, SAMPLE, 0, 0)).Success?
  {
    var e := InitialEvent(QUIET, SAMPLE, 0, 0);
    RunInvariant(ANY_TEXT, []);
    FirstLegal(ANY_TEXT, [], e);
    AppendExactly(ANY_TEXT, EMPTY, [], e);
  }

  /** It can then never be continued: each later event in order fails an integrity check. */
  lemma ZeroInstantBlocks(f: Formats, db: Db, log: seq<Event>, e: Event)
    requires Inv(f, db, log)
    requires var h := History(log, e.context.invocationId); h != [] && h[0].occurredAt == 0 && h[|h| - 1].occurredAt <= e.occurredAt
    requires ValidCandidate(f, e) && e.sequence != 0
    ensures AppendTo(f, db, e) == Failure(IntegrityFailure)
  {
    AppendExactly(f, db, log, e);
  }
}
