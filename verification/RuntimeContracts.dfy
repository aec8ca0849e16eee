/** The Invocation contracts shared by the Ledger and the dispatcher: events, projections,
    the lifecycle sequence validator, and what a legal lifecycle is. */
module RuntimeContracts {
  import opened Wrappers

  /******* Text formats checked by libraries (semantic versions, identifiers) *******/

  /** The text checks performed by schema and version libraries.  Every theorem holds for all of them. */
  datatype Formats = Formats(
    identifier: string -> bool,
    traceId: string -> bool,
    semver: string -> bool)

  /******* Entities *******/

  datatype CallerType = User | Agent | Service
  datatype Caller = Caller(kind: CallerType, id: string)

  datatype EventType = Created | Routing | Started | Stream | Succeeded | Failed | Canceled | TimedOut
  datatype Status = Pending | InRouting | Running | HasSucceeded | HasFailed | WasCanceled | HasTimedOut

  datatype ErrorCode =
    | ValidationError | Unauthenticated | Forbidden | NotFound | Conflict | NotAcceptable | PayloadTooLarge
    | AgentNotInstalled | InstallationDisabled | AgentDisabled
    | AgentReleaseUnpublished | AgentReleaseSuspended | AgentReleaseRevoked
    | CapabilityNotAllowed | RouteNotFound | AgentAuthUnsupported | AgentResponseTooLarge | A2AProtocol
    | AgentUnavailable | AgentExecutionFailed | Dependency | TimeoutCode | CanceledCode | Internal
    | Unlisted(text: string)

  /** A Platform Error correlated with one Invocation; its message is determined by its code. */
  datatype PlatformError = PlatformError(code: ErrorCode, traceId: string, invocationId: string, rootTaskId: string)

  /** The eleven fields that stay constant through one Invocation.  An empty parent means "no parent". */
  datatype Context = Context(
    invocationId: string,
    rootTaskId: string,
    parentInvocationId: string,
    traceId: string,
    caller: Caller,
    workspaceId: string,
    targetAgentId: string,
    agentCardVersion: string,
    agentReleaseId: string,
    agentCardDigest: string,
    capability: string)

  /** `occurredAt` is an instant in nanoseconds counted from the zero instant of the clock. */
  datatype Event = Event(
    eventId: string,
    sequence: int,
    occurredAt: int,
    kind: EventType,
    status: Status,
    context: Context,
    chunkIndex: Option<int>,
    chunkBytes: Option<int>,
    latencyMs: Option<int>,
    error: Option<PlatformError>)

  datatype Record = Record(
    context: Context,
    status: Status,
    latencyMs: Option<int>,
    errorCode: Option<ErrorCode>,
    createdAt: int,
    updatedAt: int)

  predicate KnownCode(code: ErrorCode) {
    !code.Unlisted?
  }

  predicate IsTerminal(status: Status) {
    status.HasSucceeded? || status.HasFailed? || status.WasCanceled? || status.HasTimedOut?
  }

  function StatusOf(kind: EventType): Status {
    match kind
    case Created => Pending
    case Routing => InRouting
    case Started => Running
    case Stream => Running
    case Succeeded => HasSucceeded
    case Failed => HasFailed
    case Canceled => WasCanceled
    case TimedOut => HasTimedOut
  }

  /******* Validity of single values *******/

  predicate ValidContext(f: Formats, c: Context) {
    && f.identifier(c.invocationId) && f.identifier(c.rootTaskId)
    && (c.parentInvocationId != "" ==> f.identifier(c.parentInvocationId))
    && f.traceId(c.traceId) && f.identifier(c.caller.id)
    && f.identifier(c.workspaceId) && f.identifier(c.targetAgentId)
    && f.semver(c.agentCardVersion) && f.identifier(c.capability)
    && ValidProvenance(f, c.agentReleaseId, c.agentCardDigest)
  }

  predicate IsHexDigit(c: char) {
    '0' <= c <= '9' || 'a' <= c <= 'f'
  }

  /** A card digest is 64 lower-case hexadecimal digits. */
  predicate IsCardDigest(s: string) {
    |s| == 64 && forall i | 0 <= i < |s| :: IsHexDigit(s[i])
  }

  predicate ValidProvenance(f: Formats, releaseId: string, cardDigest: string) {
    && (releaseId == "") == (cardDigest == "")
    && (releaseId != "" ==> f.identifier(releaseId) && IsCardDigest(cardDigest))
  }

  predicate NonNegative(value: Option<int>) {
    value.Some? ==> value.value >= 0
  }

  /** Which optional fields an event of each type carries, and which error codes. */
  predicate ValidShape(e: Event) {
    && e.status == StatusOf(e.kind)
    && (e.kind.Stream? <==> e.chunkIndex.Some?) && (e.kind.Stream? <==> e.chunkBytes.Some?)
    && (e.latencyMs.Some? <==> IsTerminal(e.status))
    && (e.error.Some? <==> e.kind.Failed? || e.kind.Canceled? || e.kind.TimedOut?)
    && (e.kind.Failed? ==> e.error.value.code != CanceledCode && e.error.value.code != TimeoutCode)
    && (e.kind.Canceled? ==> e.error.value.code == CanceledCode)
    && (e.kind.TimedOut? ==> e.error.value.code == TimeoutCode)
  }

  predicate Correlated(error: PlatformError, c: Context) {
    && KnownCode(error.code)
    && error.invocationId == c.invocationId && error.rootTaskId == c.rootTaskId && error.traceId == c.traceId
  }

  predicate ValidEvent(f: Formats, e: Event) {
    && f.identifier(e.eventId) && e.sequence >= 0 && ValidContext(f, e.context)
    && NonNegative(e.chunkIndex) && NonNegative(e.chunkBytes) && NonNegative(e.latencyMs)
    && ValidShape(e)
    && (e.error.Some? ==> Correlated(e.error.value, e.context))
  }

  predicate ValidRecord(f: Formats, r: Record) {
    && ValidContext(f, r.context)
    && NonNegative(r.latencyMs)
    && (r.errorCode.Some? ==> KnownCode(r.errorCode.value))
    && r.createdAt != 0 && r.updatedAt != 0
  }

  predicate ValidTransition(from: Status, kind: EventType, to: Status) {
    match from
    case Pending =>
      (kind.Routing? && to.InRouting?) || ((kind.Canceled? || kind.TimedOut?) && to == StatusOf(kind))
    case InRouting =>
      (kind.Started? && to.Running?) || ((kind.Failed? || kind.Canceled? || kind.TimedOut?) && to == StatusOf(kind))
    case Running =>
      || (kind.Stream? && to.Running?)
      || ((kind.Succeeded? || kind.Failed? || kind.Canceled? || kind.TimedOut?) && to == StatusOf(kind))
    case _ => false
  }

  /******* The lifecycle sequence validator *******/

  datatype Progress = Progress(last: Option<Event>, nextSequence: int, nextChunkIndex: int, terminal: bool)

  datatype SequenceError = AlreadyTerminal | InvalidEvent | WrongSequence | WrongStart | ContextChanged
                         | WrongTransition | WrongChunkIndex

  const START := Progress(None, 0, 0, false)

  function Advance(f: Formats, p: Progress, e: Event): Result<Progress, SequenceError> {
    if p.terminal then Failure(AlreadyTerminal)
    else if !ValidEvent(f, e) then Failure(InvalidEvent)
    else if e.sequence != p.nextSequence then Failure(WrongSequence)
    else if p.last.None? && !(e.kind.Created? && e.status.Pending?) then Failure(WrongStart)
    else if p.last.Some? && p.last.value.context != e.context then Failure(ContextChanged)
    else if p.last.Some? && !ValidTransition(p.last.value.status, e.kind, e.status) then Failure(WrongTransition)
    else if e.kind.Stream? && e.chunkIndex != Some(p.nextChunkIndex) then Failure(WrongChunkIndex)
    else
      Success(Progress(Some(e), p.nextSequence + 1,
                       p.nextChunkIndex + (if e.kind.Stream? then 1 else 0), IsTerminal(e.status)))
  }

  /** The validator as the dispatcher and the Ledger hold it: its fields change with each accepted event. */
  class SequenceValidator {
    const formats: Formats
    var last: Option<Event>
    var nextSequence: int
    var nextChunkIndex: int
    var terminal: bool

    constructor (f: Formats)
      ensures formats == f && State() == START
    {
      formats := f;
      last, nextSequence, nextChunkIndex, terminal := None, 0, 0, false;
    }

    function State(): Progress
      reads this
    {
      Progress(last, nextSequence, nextChunkIndex, terminal)
    }

    /** An accepted event advances the validator; a rejected one leaves it exactly as it was. */
    method Accept(e: Event) returns (failure: Option<SequenceError>)
      modifies this
      ensures match Advance(formats, old(State()), e) {
                case Success(next) => failure.None? && State() == next
                case Failure(error) => failure == Some(error) && State() == old(State())
              }
    {
      if terminal {
        return Some(AlreadyTerminal);
      }
      if !ValidEvent(formats, e) {
        return Some(InvalidEvent);
      }
      if e.sequence != nextSequence {
        return Some(WrongSequence);
      }
      if last.None? {
        if !(e.kind.Created? && e.status.Pending?) {
          return Some(WrongStart);
        }
      } else {
        if last.value.context != e.context {
          return Some(ContextChanged);
        }
        if !ValidTransition(last.value.status, e.kind, e.status) {
          return Some(WrongTransition);
        }
      }
      if e.kind.Stream? {
        if e.chunkIndex != Some(nextChunkIndex) {
          return Some(WrongChunkIndex);
        }
        nextChunkIndex := nextChunkIndex + 1;
      }
      nextSequence := nextSequence + 1;
      last := Some(e);
      terminal := IsTerminal(e.status);
      return None;
    }
  }

  /** Replays a whole history, oldest event first. */
  function Replay(f: Formats, h: seq<Event>): Result<Progress, SequenceError> {
    if h == [] then Success(START)
    else
      var p :- Replay(f, h[..|h| - 1]);
      Advance(f, p, h[|h| - 1])
  }

  /******* Legal lifecycles, independently of the validator *******/

  function ChunkCount(h: seq<Event>): nat {
    if h == [] then 0 else ChunkCount(h[..|h| - 1]) + (if h[|h| - 1].kind.Stream? then 1 else 0)
  }

  ghost predicate LegalAt(f: Formats, h: seq<Event>, i: nat)
    requires i < |h|
  {
    && ValidEvent(f, h[i])
    && h[i].sequence == i
    && h[i].context == h[0].context
    && (i == 0 ==> h[i].kind.Created?)
    && (i > 0 ==> ValidTransition(h[i - 1].status, h[i].kind, h[i].status))
    && (h[i].kind.Stream? ==> h[i].chunkIndex == Some(ChunkCount(h[..i])))
  }

  /** Sequences 0..n-1, one context, contiguous chunk indices, and only legal transitions. */
  ghost predicate LegalHistory(f: Formats, h: seq<Event>) {
    forall i: nat | i < |h| :: LegalAt(f, h, i)
  }

  function ProgressOf(h: seq<Event>): Progress {
    if h == [] then START
    else Progress(Some(h[|h| - 1]), |h|, ChunkCount(h), IsTerminal(h[|h| - 1].status))
  }

  lemma LegalPrefix(f: Formats, h: seq<Event>, n: nat)
    requires LegalHistory(f, h) && n <= |h|
    ensures LegalHistory(f, h[..n])
  {
    forall i: nat | i < n ensures LegalAt(f, h[..n], i) {
      assert LegalAt(f, h, i);
      assert h[..n][..i] == h[..i];
    }
  }

  lemma ProgressSnoc(h: seq<Event>, e: Event)
    ensures ProgressOf(h + [e]) ==
            Progress(Some(e), |h| + 1, ChunkCount(h) + (if e.kind.Stream? then 1 else 0), IsTerminal(e.status))
  {
    assert (h + [e])[..|h + [e]| - 1] == h;
  }

  /** Appending to a legal history only asks whether its new last position is legal. */
  lemma LegalAtLast(f: Formats, h: seq<Event>, e: Event)
    requires LegalHistory(f, h)
    ensures LegalHistory(f, h + [e]) <==> LegalAt(f, h + [e], |h|)
  {
    var g := h + [e];
    if LegalAt(f, g, |h|) {
      forall i: nat | i < |g| ensures LegalAt(f, g, i) {
        if i < |h| {
          assert LegalAt(f, h, i);
          assert g[..i] == h[..i];
        }
      }
    }
  }

  /** Whether one more event keeps a history legal, in the validator's own terms. */
  lemma LegalSnoc(f: Formats, h: seq<Event>, e: Event)
    requires LegalHistory(f, h)
    ensures LegalHistory(f, h + [e]) <==> Advance(f, ProgressOf(h), e).Success?
    ensures Advance(f, ProgressOf(h), e).Success? ==> Advance(f, ProgressOf(h), e).value == ProgressOf(h + [e])
  {
    LegalAtLast(f, h, e);
    ProgressSnoc(h, e);
    assert (h + [e])[..|h|] == h;
    if h != [] {
      assert LegalAt(f, h, |h| - 1);
    }
  }

  /** The validator accepts exactly the legal lifecycles, and ends in the state they determine. */
  lemma {:induction false} ReplayAcceptsExactlyLegal(f: Formats, h: seq<Event>)
    ensures Replay(f, h).Success? <==> LegalHistory(f, h)
    ensures LegalHistory(f, h) ==> Replay(f, h) == Success(ProgressOf(h))
  {
    if h != [] {
      var init, e := h[..|h| - 1], h[|h| - 1];
      assert init + [e] == h;
      ReplayAcceptsExactlyLegal(f, init);
      if LegalHistory(f, init) {
        LegalSnoc(f, init, e);
      } else if LegalHistory(f, h) {
        LegalPrefix(f, h, |h| - 1);
      }
    }
  }

  /** Nothing follows a terminal event. */
  lemma NothingAfterTerminal(f: Formats, h: seq<Event>, i: nat, j: nat)
    requires LegalHistory(f, h) && i < j < |h|
    ensures !IsTerminal(h[i].status)
  {
    assert LegalAt(f, h, i + 1);
  }

  /** The status at a position of a legal lifecycle: pending, then routing, then running, unless it has ended. */
  lemma {:induction false} StatusAtPosition(f: Formats, h: seq<Event>, i: nat)
    requires LegalHistory(f, h) && i < |h|
    ensures i == 0 ==> h[i].status.Pending?
    ensures i == 1 ==> h[i].status.InRouting? || IsTerminal(h[i].status)
    ensures i >= 2 ==> h[i].status.Running? || IsTerminal(h[i].status)
    ensures h[i].kind.Stream? <==> i >= 3 && !IsTerminal(h[i].status)
  {
    assert LegalAt(f, h, i);
    if i > 0 {
      StatusAtPosition(f, h, i - 1);
    }
  }

  lemma {:induction false} ChunksBefore(f: Formats, h: seq<Event>, n: nat)
    requires LegalHistory(f, h) && n <= |h|
    ensures forall i | 3 <= i < n :: !IsTerminal(h[i].status) ==> h[i].kind.Stream?
    ensures n <= 3 ==> ChunkCount(h[..n]) == 0
    ensures n > 3 && !IsTerminal(h[n - 1].status) ==> ChunkCount(h[..n]) == n - 3
  {
    if n > 0 {
      ChunksBefore(f, h, n - 1);
      assert h[..n][..n - 1] == h[..n - 1];
      StatusAtPosition(f, h, n - 1);
      if n > 1 {
        NothingAfterTerminal(f, h, n - 2, n - 1);
      }
    }
  }

  /** Chunks are the non-terminal events from position three on, so a chunk's index is its sequence minus three. */
  lemma ChunkPositions(f: Formats, h: seq<Event>, i: nat)
    requires LegalHistory(f, h) && i < |h|
    ensures h[i].kind.Stream? <==> i >= 3 && !IsTerminal(h[i].status)
    ensures h[i].kind.Stream? ==> h[i].chunkIndex == Some(i - 3)
  {
    StatusAtPosition(f, h, i);
    if h[i].kind.Stream? {
      assert LegalAt(f, h, i);
      ChunksBefore(f, h, i);
      NothingAfterTerminal(f, h, i - 1, i);
    }
  }
}
