/** What a dispatch last asks the Ledger to commit, as a function of the world alone, and when the Ledger takes it. */
module Attempts {
  import opened Wrappers
  import opened Decimal
  import opened RuntimeContracts
  import opened LedgerStore
  import opened DispatchLog

  /******* The world outside: every answer may differ at every tick *******/

  datatype ContextError = DeadlineExceeded | Canceled
  datatype WriteResult = Written | TooLarge | Unencodable | TransportBroken

  datatype World = World(
    appendFails: nat -> bool,
    contextError: nat -> Option<ContextError>,
    write: nat -> WriteResult,
    clock: nat -> int,
    latency: nat -> int,
    digest: (nat, EventType) -> string)

  datatype UpstreamError = Interrupted | UpstreamDeadline | UpstreamCanceled | Coded(code: ErrorCode) | Opaque

  /** One upstream event; an absent terminal kind means the stream goes on. */
  datatype Upstream =
    | Broken(error: UpstreamError)
    | Item(size: nat, wellFormed: bool, terminal: Option<FrameKind>, canceledStatus: bool, code: ErrorCode)

  const EMPTY_CODE := Unlisted("")

  function EventId(w: World, sequence: nat, kind: EventType): string {
    "evt-" + w.digest(sequence, kind) + "-" + Itoa(sequence)
  }

  lemma EventIdNumbered(w: World, sequence: nat, kind: EventType)
    ensures EndsInNumber(EventId(w, sequence, kind), sequence)
  {
    NumberAppended("evt-" + w.digest(sequence, kind), sequence);
  }

  function TruncateToMicros(instant: int): int {
    instant - instant % 1000
  }

  /******* Classification *******/

  function FailureKind(code: ErrorCode): FrameKind {
    match code
    case TimeoutCode => TimedOutFrame
    case CanceledCode => CanceledFrame
    case _ => FailedFrame
  }

  function EventKindOf(kind: FrameKind): EventType {
    match kind
    case TimedOutFrame => TimedOut
    case CanceledFrame => EventType.Canceled
    case CompletedFrame => Succeeded
    case _ => Failed
  }

  function UpstreamTerminal(kind: FrameKind, canceledStatus: bool): FrameKind {
    match kind
    case CompletedFrame => CompletedFrame
    case CanceledFrame => CanceledFrame
    case TimedOutFrame => TimedOutFrame
    case _ => if canceledStatus then CanceledFrame else FailedFrame
  }

  function ContextCode(error: ContextError): (code: ErrorCode)
    ensures KnownCode(code)
  {
    match error
    case DeadlineExceeded => TimeoutCode
    case Canceled => CanceledCode
  }

  function DispatchErrorCode(error: UpstreamError): ErrorCode {
    match error
    case UpstreamDeadline => TimeoutCode
    case Coded(code) => code
    case _ => Dependency
  }

  function StreamErrorCode(context: Option<ContextError>, error: UpstreamError): ErrorCode {
    if error.Interrupted? then A2AProtocol
    else if context == Some(DeadlineExceeded) || error.UpstreamDeadline? then TimeoutCode
    else if context == Some(ContextError.Canceled) || error.UpstreamCanceled? then CanceledCode
    else DispatchErrorCode(error)
  }

  function WriteErrorCode(context: Option<ContextError>, result: WriteResult): (code: ErrorCode)
    ensures KnownCode(code)
  {
    if context.Some? then ContextCode(context.value)
    else if result.TooLarge? then AgentResponseTooLarge
    else Dependency
  }

  predicate IsFailure(kind: FrameKind) {
    kind.FailedFrame? || kind.CanceledFrame? || kind.TimedOutFrame?
  }

  function InitialKind(i: nat): EventType {
    match i
    case 0 => Created
    case 1 => Routing
    case _ => Started
  }

  predicate GoesOn(u: Upstream) {
    u.Item? && u.wellFormed && u.terminal.None?
  }

  /** The first `n` upstream events let the stream go on. */
  predicate GoOn(upstream: seq<Upstream>, n: nat) {
    n <= |upstream| && forall k | 0 <= k < n :: GoesOn(upstream[k])
  }

  predicate Completing(u: Upstream) {
    u.Item? && u.wellFormed && u.terminal == Some(CompletedFrame)
  }

  /** Upstream delivers well-formed payloads and then completes at position `m`. */
  predicate Completes(upstream: seq<Upstream>, m: nat) {
    m < |upstream| && GoOn(upstream, m) && Completing(upstream[m])
  }

  datatype Answer = Answered | AnswerFailed(error: UpstreamError)

  /** What ended the Invocation after it was sent: the answer, or the caller's context before a good answer counts. */
  function SendFailure(context: Option<ContextError>, answer: Answer): Option<UpstreamError> {
    if answer.AnswerFailed? then Some(answer.error)
    else if context.Some? then Some(if context.value.DeadlineExceeded? then UpstreamDeadline else UpstreamCanceled)
    else None
  }

  /******* Terminal events *******/

  /** A history of `n` events, a microsecond apart from `start` on, has no end at the zero instant. */
  predicate Continues(start: int, n: int) {
    n == 0 || (start != 0 && start + 1000 * (n - 1) != 0)
  }

  /** An Append of a terminal event after `position` others. */
  datatype Attempt = Attempt(position: nat, tick: nat, kind: FrameKind, code: Option<ErrorCode>, latency: int)

  /** The Ledger takes it: it is reachable, the event has an identifier, a latency that is not negative and a code that
      suits its kind and its column, and the history can be continued. */
  predicate Taken(f: Formats, w: World, start: int, a: Attempt) {
    && !w.appendFails(a.tick) && f.identifier(EventId(w, a.position, EventKindOf(a.kind)))
    && a.latency >= 0 && Continues(start, a.position)
    && (a.code.Some? ==> CodeFits(a.kind, a.code.value) && StorableCode(a.code.value))
  }

  /** After `a.position` events the history has ended exactly when the Ledger takes this event, and then with it. */
  predicate EndsExactly(f: Formats, w: World, start: int, h: seq<Event>, a: Attempt) {
    && (Ended(h) <==> Taken(f, w, start, a))
    && (Ended(h) ==>
          && |h| == a.position + 1 && h[a.position].kind == EventKindOf(a.kind)
          && CodeOf(h[a.position]) == a.code && h[a.position].latencyMs == Some(a.latency))
    && (!Ended(h) ==> |h| == a.position)
  }

  /** The history has ended exactly when there was an attempt and the Ledger took it. */
  predicate Decided(f: Formats, w: World, start: int, h: seq<Event>, attempt: Option<Attempt>) {
    match attempt
    case None => !Ended(h)
    case Some(a) => EndsExactly(f, w, start, h, a)
  }

  /******* The last attempt of each way to end *******/

  /** A failure; an unlisted code cannot be built into an event. */
  function FailureAttempt(w: World, tick: nat, position: nat, code: ErrorCode): Option<Attempt> {
    if KnownCode(code) then Some(Attempt(position, tick, FailureKind(code), Some(code), w.latency(tick))) else None
  }

  /** The end of the caller's context, if it has ended at this tick. */
  function ContextAttempt(w: World, tick: nat, position: nat): Option<Attempt> {
    if w.contextError(tick).Some? then FailureAttempt(w, tick + 1, position, ContextCode(w.contextError(tick).value)) else None
  }

  /** The failure upstream reported; a missing code counts as a protocol failure. */
  function ReportedAttempt(w: World, tick: nat, position: nat, kind: FrameKind, code: ErrorCode): Option<Attempt> {
    if code == EMPTY_CODE then FailureAttempt(w, tick, position, A2AProtocol)
    else if KnownCode(code) then Some(Attempt(position, tick, kind, Some(code), w.latency(tick)))
    else None
  }

  /** What a terminal upstream event asks for, unless the caller's context has ended. */
  function UpstreamAttempt(w: World, tick: nat, position: nat, event: Upstream): Option<Attempt>
    requires event.Item? && event.terminal.Some?
  {
    var kind := UpstreamTerminal(event.terminal.value, event.canceledStatus);
    if w.contextError(tick).Some? then ContextAttempt(w, tick, position)
    else if kind.CompletedFrame? then Some(Attempt(position, tick + 1, kind, None, w.latency(tick + 1)))
    else ReportedAttempt(w, tick + 1, position, kind, event.code)
  }

  datatype Fate = GoesAhead | IsOver(attempt: Option<Attempt>)

  /** What happened is what the fate says: it goes ahead, or is over and decided. */
  predicate Meets(f: Formats, w: World, start: int, fate: Fate, over: bool, h: seq<Event>) {
    match fate
    case GoesAhead => !over
    case IsOver(attempt) => over && Decided(f, w, start, h, attempt)
  }

  predicate ChunkTaken(f: Formats, w: World, start: int, tick: nat, position: nat) {
    !w.appendFails(tick) && f.identifier(EventId(w, position, Stream)) && Continues(start, position)
  }

  /** A failed write ends the stream after the chunk it could not send. */
  function WriteAttempt(w: World, tick: nat, position: nat): Option<Attempt> {
    FailureAttempt(w, tick + 1, position, WriteErrorCode(w.contextError(tick), w.write(tick)))
  }

  function ChunkFate(f: Formats, w: World, start: int, tick: nat, position: nat): Fate {
    if !ChunkTaken(f, w, start, tick, position) then IsOver(ContextAttempt(w, tick, position))
    else if !w.write(tick + 3).Written? then IsOver(WriteAttempt(w, tick + 3, position + 1))
    else GoesAhead
  }

  function BrokenCode(w: World, tick: nat, event: Upstream): ErrorCode {
    if event.Broken? then StreamErrorCode(w.contextError(tick), event.error) else A2AProtocol
  }

  function StepFate(f: Formats, w: World, start: int, tick: nat, position: nat, event: Upstream): Fate {
    if event.Broken? || !event.wellFormed then IsOver(FailureAttempt(w, tick, position, BrokenCode(w, tick, event)))
    else
      var chunk := ChunkFate(f, w, start, tick, position);
      if chunk.IsOver? || event.terminal.None? then chunk else IsOver(UpstreamAttempt(w, tick + 6, position + 1, event))
  }

  function DrainedCode(w: World): ErrorCode {
    if w.contextError(9).Some? then ContextCode(w.contextError(9).value) else A2AProtocol
  }

  /** The rest of a stream whose first `n` events went on. */
  function StreamAttempt(f: Formats, w: World, start: int, upstream: seq<Upstream>, n: nat): Option<Attempt>
    requires n <= |upstream|
    decreases |upstream| - n
  {
    if n == |upstream| then FailureAttempt(w, 9, n + 3, DrainedCode(w))
    else
      match StepFate(f, w, start, 10 + 10 * n, n + 3, upstream[n])
      case IsOver(attempt) => attempt
      case GoesAhead => StreamAttempt(f, w, start, upstream, n + 1)
  }

  predicate InitialTaken(f: Formats, w: World, c: Context, start: int, i: nat) {
    && !w.appendFails(i) && f.identifier(EventId(w, i, InitialKind(i))) && Continues(start, i)
    && ValidContext(f, c) && FitsColumns(c)
  }

  /** After a failed lifecycle Append only the end of the caller's context is committed, and not before creation. */
  function RefusedAttempt(w: World, i: nat): Option<Attempt> {
    if i > 0 && w.contextError(i).Some? then
      var code := ContextCode(w.contextError(i).value);
      Some(Attempt(i, i + 3, FailureKind(code), Some(code), w.latency(i)))
    else None
  }

  /** The lifecycle events from the `i`-th to the `n`-th. */
  function StartFate(f: Formats, w: World, c: Context, start: int, i: nat, n: nat): Fate
    requires i <= n
    decreases n - i
  {
    if i == n then GoesAhead
    else if !InitialTaken(f, w, c, start, i) then IsOver(RefusedAttempt(w, i))
    else StartFate(f, w, c, start, i + 1, n)
  }

  /** Before a frame was sent every failure is recorded as such, also the end of the caller's context. */
  function UnsentAttempt(tick: nat, code: ErrorCode): Attempt {
    Attempt(3, tick, FailedFrame, Some(code), 0)
  }

  /** The stream from its first frame on. */
  function SentAttempt(f: Formats, w: World, start: int, upstream: seq<Upstream>): Option<Attempt> {
    var code := WriteErrorCode(w.contextError(7), w.write(6));
    match w.write(6)
    case Written => StreamAttempt(f, w, start, upstream, 0)
    case TransportBroken => FailureAttempt(w, 7, 3, code)
    case _ => Some(UnsentAttempt(7, code))
  }

  /** The last attempt of a whole streaming dispatch. */
  function StreamingAttempt(f: Formats, w: World, c: Context, flushable: bool, upstream: seq<Upstream>): Option<Attempt> {
    var start := TruncateToMicros(w.clock(0));
    match StartFate(f, w, c, start, 0, 3)
    case IsOver(attempt) => attempt
    case GoesAhead => if flushable then SentAttempt(f, w, start, upstream) else Some(UnsentAttempt(6, Dependency))
  }

  /** An unusable target ends the Invocation while it is still routing. */
  function UnusableAttempt(target: UpstreamError): Option<Attempt> {
    var code := DispatchErrorCode(target);
    if KnownCode(code) then Some(Attempt(2, 6, FailedFrame, Some(code), 0)) else None
  }

  function AnswerAttempt(w: World, answer: Answer): Option<Attempt> {
    var failed := SendFailure(w.contextError(6), answer);
    if failed.Some? then FailureAttempt(w, 6, 3, DispatchErrorCode(failed.value))
    else Some(Attempt(3, 6, CompletedFrame, None, w.latency(6)))
  }

  /** The last attempt of a whole non-streaming dispatch. */
  function AnsweringAttempt(f: Formats, w: World, c: Context, target: Option<UpstreamError>, answer: Answer): Option<Attempt> {
    var start := TruncateToMicros(w.clock(0));
    match StartFate(f, w, c, start, 0, if target.None? then 3 else 2)
    case IsOver(attempt) => attempt
    case GoesAhead => if target.Some? then UnusableAttempt(target.value) else AnswerAttempt(w, answer)
  }

  /******* A Ledger that takes every event it should *******/

  /** It is always reachable, and no clock or identifier stands in the way. */
  ghost predicate LedgerUp(f: Formats, w: World, c: Context, start: int) {
    && ValidContext(f, c) && FitsColumns(c) && start > 0
    && (forall sequence: nat, kind :: f.identifier(EventId(w, sequence, kind)))
    && (forall t :: !w.appendFails(t)) && (forall t :: w.latency(t) >= 0)
  }

  /** The Ledger can hold this code in an event of this kind. */
  predicate Recordable(kind: FrameKind, code: ErrorCode) {
    KnownCode(code) && CodeFits(kind, code) && StorableCode(code)
  }

  /** Upstream reports only what can be recorded. */
  predicate Reportable(event: Upstream) {
    if event.Broken? then event.error.Coded? ==> Recordable(FailureKind(event.error.code), event.error.code)
    else
      event.terminal.Some? && !event.terminal.value.CompletedFrame? ==>
        event.code == EMPTY_CODE || Recordable(UpstreamTerminal(event.terminal.value, event.canceledStatus), event.code)
  }

  /** There is an attempt, and the Ledger takes it. */
  predicate Ends(f: Formats, w: World, start: int, attempt: Option<Attempt>) {
    attempt.Some? && Taken(f, w, start, attempt.value)
  }

  lemma FailureEnds(f: Formats, w: World, c: Context, start: int, tick: nat, position: nat, code: ErrorCode)
    requires LedgerUp(f, w, c, start)
    ensures Ends(f, w, start, FailureAttempt(w, tick, position, code)) <==> KnownCode(code) && StorableCode(code)
  {
  }

  lemma UpstreamEnds(f: Formats, w: World, c: Context, start: int, tick: nat, position: nat, event: Upstream)
    requires LedgerUp(f, w, c, start) && event.Item? && event.terminal.Some? && Reportable(event)
    ensures Ends(f, w, start, UpstreamAttempt(w, tick, position, event))
  {
    if w.contextError(tick).Some? {
      FailureEnds(f, w, c, start, tick + 1, position, ContextCode(w.contextError(tick).value));
    } else {
      FailureEnds(f, w, c, start, tick + 1, position, A2AProtocol);
    }
  }

  lemma BrokenEnds(f: Formats, w: World, c: Context, start: int, tick: nat, position: nat, event: Upstream)
    requires LedgerUp(f, w, c, start) && Reportable(event) && (event.Broken? || !event.wellFormed)
    ensures Ends(f, w, start, FailureAttempt(w, tick, position, BrokenCode(w, tick, event)))
  {
    FailureEnds(f, w, c, start, tick, position, BrokenCode(w, tick, event));
  }

  lemma ChunkEnds(f: Formats, w: World, c: Context, start: int, tick: nat, position: nat)
    requires LedgerUp(f, w, c, start)
    ensures var fate := ChunkFate(f, w, start, tick, position); fate.IsOver? ==> Ends(f, w, start, fate.attempt)
  {
    FailureEnds(f, w, c, start, tick + 4, position + 1, WriteErrorCode(w.contextError(tick + 3), w.write(tick + 3)));
  }

  lemma StepEnds(f: Formats, w: World, c: Context, start: int, tick: nat, position: nat, event: Upstream)
    requires LedgerUp(f, w, c, start) && Reportable(event)
    ensures var fate := StepFate(f, w, start, tick, position, event); fate.IsOver? ==> Ends(f, w, start, fate.attempt)
  {
    if event.Broken? || !event.wellFormed {
      BrokenEnds(f, w, c, start, tick, position, event);
    } else {
      ChunkEnds(f, w, c, start, tick, position);
      if event.terminal.Some? {
        UpstreamEnds(f, w, c, start, tick + 6, position + 1, event);
      }
    }
  }

  lemma {:induction false} StreamEnds(f: Formats, w: World, c: Context, start: int, upstream: seq<Upstream>, n: nat)
    requires LedgerUp(f, w, c, start) && n <= |upstream| && forall k | 0 <= k < |upstream| :: Reportable(upstream[k])
    ensures Ends(f, w, start, StreamAttempt(f, w, start, upstream, n))
    decreases |upstream| - n
  {
    if n == |upstream| {
      FailureEnds(f, w, c, start, 9, n + 3, DrainedCode(w));
    } else {
      StepEnds(f, w, c, start, 10 + 10 * n, n + 3, upstream[n]);
      StreamEnds(f, w, c, start, upstream, n + 1);
    }
  }

  lemma StartGoesAhead(f: Formats, w: World, c: Context, start: int, i: nat, n: nat)
    requires LedgerUp(f, w, c, start) && i <= n
    ensures StartFate(f, w, c, start, i, n).GoesAhead?
    decreases n - i
  {
  }

  /** With the Ledger up and an upstream that reports only what can be recorded, a streaming dispatch lacks a terminal
      event exactly when its first frame could not be built and the caller's context had ended. */
  lemma StreamingEndsExactly(f: Formats, w: World, c: Context, flushable: bool, upstream: seq<Upstream>)
    requires LedgerUp(f, w, c, TruncateToMicros(w.clock(0))) && forall k | 0 <= k < |upstream| :: Reportable(upstream[k])
    ensures Ends(f, w, TruncateToMicros(w.clock(0)), StreamingAttempt(f, w, c, flushable, upstream)) <==>
            !(flushable && (w.write(6).TooLarge? || w.write(6).Unencodable?) && w.contextError(7).Some?)
  {
    var start := TruncateToMicros(w.clock(0));
    StartGoesAhead(f, w, c, start, 0, 3);
    StreamEnds(f, w, c, start, upstream, 0);
    FailureEnds(f, w, c, start, 7, 3, WriteErrorCode(w.contextError(7), w.write(6)));
  }

  /** With the Ledger up, a non-streaming dispatch lacks a terminal event exactly when a code is unlisted or not stored,
      or when an unusable target is reported as a timeout or cancellation. */
  lemma AnsweringEndsExactly(f: Formats, w: World, c: Context, target: Option<UpstreamError>, answer: Answer)
    requires LedgerUp(f, w, c, TruncateToMicros(w.clock(0)))
    ensures var failed := if target.Some? then target else SendFailure(w.contextError(6), answer);
            Ends(f, w, TruncateToMicros(w.clock(0)), AnsweringAttempt(f, w, c, target, answer)) <==>
            failed.Some? ==>
              var code := DispatchErrorCode(failed.value);
              Recordable(if target.Some? then FailedFrame else FailureKind(code), code)
  {
    StartGoesAhead(f, w, c, TruncateToMicros(w.clock(0)), 0, if target.None? then 3 else 2);
  }

  /******* A world in which nothing fails *******/

  ghost predicate Benign(f: Formats, w: World, c: Context, start: int) {
    LedgerUp(f, w, c, start) && (forall t :: w.contextError(t).None?) && (forall t :: w.write(t).Written?)
  }

  lemma {:induction false} BenignStream(f: Formats, w: World, c: Context, start: int, upstream: seq<Upstream>, n: nat, m: nat)
    requires Benign(f, w, c, start) && Completes(upstream, m) && n <= m
    ensures StreamAttempt(f, w, start, upstream, n) == Some(Attempt(m + 4, 10 * m + 17, CompletedFrame, None, w.latency(10 * m + 17)))
    decreases m - n
  {
    if n < m {
      assert GoesOn(upstream[n]);
      BenignStream(f, w, c, start, upstream, n + 1, m);
    }
  }
}
