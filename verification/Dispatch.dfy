/** Streaming and non-streaming dispatch over any upstream, clock, Ledger outage, write failure and cancellation. */
module Dispatch {
  import opened Wrappers
  import opened RuntimeContracts
  import opened LedgerStore
  import opened LedgerInvariants
  import opened DispatchLog
  import opened Attempts

  /******* Timestamps *******/

  lemma MicrosLater(start: int, n: nat)
    requires WholeMicros(start)
    ensures WholeMicros(start + 1000 * n)
  {
  }

  /** The clock in whole microseconds, but never before the time reserved for this sequence. */
  method TerminalOccurredAt(start: int, sequence: nat, now: int) returns (occurredAt: int)
    requires WholeMicros(start)
    ensures WholeMicros(occurredAt) && occurredAt >= start + 1000 * sequence
    ensures now < start + 1000 * sequence ==> occurredAt == start + 1000 * sequence
    ensures now >= start + 1000 * sequence ==> occurredAt <= now < occurredAt + 1000
  {
    occurredAt := TruncateToMicros(now);
    var minimum := start + 1000 * sequence;
    if occurredAt < minimum {
      occurredAt := minimum;
    }
  }

  /******* Event and frame builders *******/

  function LifecycleEvent(w: World, c: Context, sequence: nat, kind: EventType, occurredAt: int): Event {
    Event(EventId(w, sequence, kind), sequence, occurredAt, kind, StatusOf(kind), c, None, None, None, None)
  }

  function ChunkEvent(w: World, c: Context, start: int, sequence: nat, index: int, size: nat): Event {
    LifecycleEvent(w, c, sequence, Stream, start + 1000 * sequence).(chunkIndex := Some(index), chunkBytes := Some(size as int))
  }

  /** A terminal event that carries an error; an unlisted code cannot be built into one. */
  function TerminalEvent(w: World, c: Context, sequence: nat, kind: EventType, occurredAt: int, latency: int, code: ErrorCode): Option<Event> {
    if KnownCode(code) then
      Some(LifecycleEvent(w, c, sequence, kind, occurredAt)
           .(latencyMs := Some(latency), error := Some(PlatformError(code, c.traceId, c.invocationId, c.rootTaskId))))
    else None
  }

  function BareFrame(c: Context, sequence: int, kind: FrameKind): Frame {
    Frame(sequence, kind, FrameStatus(kind), c.invocationId, c.rootTaskId, c.traceId, None, None, None)
  }

  function ErrorFrame(c: Context, sequence: int, kind: FrameKind, code: ErrorCode): Option<Frame> {
    if KnownCode(code) then
      Some(BareFrame(c, sequence, kind).(error := Some(PlatformError(code, c.traceId, c.invocationId, c.rootTaskId))))
    else None
  }

  /******* One Append, one Offer *******/

  /** One Append: it commits unless the Ledger fails for its own reasons or refuses the event. */
  method TryAppend(f: Formats, w: World, c: Context, log: seq<Action>, tick: nat, e: Event) returns (ok: bool, log': seq<Action>)
    requires SoundLog(f, c, log) && WellPlaced(c, Commits(log), e) && !StreamOf(Frames(log)).terminal
    requires e.eventId == EventId(w, |Commits(log)|, e.kind)
    ensures log' == log + [Appended(e, ok)] && SoundLog(f, c, log')
    ensures Frames(log') == Frames(log)
    ensures Commits(log') == Commits(log) + (if ok then [e] else [])
    ensures ok <==> !w.appendFails(tick) && ValidEvent(f, e) && StorableError(e) && FitsColumns(c) && NonzeroEnds(Commits(log))
  {
    ok := !w.appendFails(tick) && ValidEvent(f, e) && StorableError(e) && FitsColumns(c) && NonzeroEnds(Commits(log));
    CommittedIsLegal(f, c, log);
    AdmittedExactly(f, c, Commits(log), e);
    EventIdNumbered(w, |Commits(log)|, e.kind);
    log' := log + [Appended(e, ok)];
    LogSnoc(log, Appended(e, ok));
    SoundSnoc(f, c, log, Appended(e, ok));
    assert Frames(log) + [] == Frames(log);
  }

  /** Offers a frame to the validator and, once accepted, to the writer. */
  method Offer(f: Formats, w: World, c: Context, log: seq<Action>, tick: nat, fr: Frame) returns (accepted: bool, result: WriteResult, log': seq<Action>)
    requires SoundLog(f, c, log)
    requires FrameFits(f, c, StreamOf(Frames(log)), fr) ==> Sound(f, c, log, Offered(fr))
    ensures accepted <==> FrameFits(f, c, StreamOf(Frames(log)), fr)
    ensures log' == if accepted then log + [Offered(fr)] else log
    ensures SoundLog(f, c, log') && Commits(log') == Commits(log)
    ensures accepted ==> Frames(log') == Frames(log) + [fr] && StreamOf(Frames(log')) == AfterFrame(StreamOf(Frames(log)), fr)
    ensures result == w.write(tick)
  {
    result := w.write(tick);
    accepted := FrameFits(f, c, StreamOf(Frames(log)), fr);
    if !accepted {
      return accepted, result, log;
    }
    log' := log + [Offered(fr)];
    LogSnoc(log, Offered(fr));
    StreamSnoc(Frames(log), fr);
    SoundSnoc(f, c, log, Offered(fr));
    assert Commits(log) + [] == Commits(log);
  }

  /******* Where a dispatch stands *******/

  datatype Response = PreError(code: ErrorCode) | CorrelatedError(code: ErrorCode) | InvocationResult

  /** A result means success was committed; an error other than a dependency failure means exactly it was committed. */
  predicate Truthful(h: seq<Event>, response: Response) {
    match response
    case InvocationResult => h != [] && h[|h| - 1].kind.Succeeded?
    case PreError(_) => h == []
    case CorrelatedError(code) =>
      code == Dependency || (Ended(h) && h[|h| - 1].error.Some? && h[|h| - 1].error.value.code == code)
  }

  function InitialEvent(w: World, c: Context, start: int, i: nat): Event
    requires i < 3
  {
    LifecycleEvent(w, c, i, InitialKind(i), start + 1000 * i)
  }

  function InitialEvents(w: World, c: Context, start: int, n: nat): seq<Event>
    requires n <= 3
  {
    if n == 0 then [] else InitialEvents(w, c, start, n - 1) + [InitialEvent(w, c, start, n - 1)]
  }

  /** The Ledger events of a dispatch that has streamed these payload sizes. */
  function StreamedEvents(w: World, c: Context, start: int, sizes: seq<nat>): seq<Event> {
    if sizes == [] then InitialEvents(w, c, start, 3)
    else
      var n := |sizes| - 1;
      StreamedEvents(w, c, start, sizes[..n]) + [ChunkEvent(w, c, start, n + 3, n, sizes[n])]
  }

  function ChunkOf(c: Context, index: nat, size: nat): Frame {
    BareFrame(c, index + 1, ChunkFrame).(chunkIndex := Some(index as int), chunk := Some(size))
  }

  /** The frames of a dispatch that has streamed these payload sizes. */
  function StreamedFrames(c: Context, sizes: seq<nat>): seq<Frame> {
    if sizes == [] then [BareFrame(c, 0, AcceptedFrame)]
    else
      var n := |sizes| - 1;
      StreamedFrames(c, sizes[..n]) + [ChunkOf(c, n, sizes[n])]
  }

  /** Both logs hold exactly the same streamed payloads, and neither has ended. */
  ghost predicate Streaming(f: Formats, w: World, c: Context, start: int, log: seq<Action>, sizes: seq<nat>) {
    && SoundLog(f, c, log) && WholeMicros(start) && ValidContext(f, c) && FitsColumns(c)
    && Commits(log) == StreamedEvents(w, c, start, sizes)
    && Frames(log) == StreamedFrames(c, sizes)
  }

  lemma {:induction false} InitialShape(w: World, c: Context, start: int, n: nat)
    requires n <= 3
    ensures var h := InitialEvents(w, c, start, n);
            && |h| == n && ChunkCount(h) == 0
            && (n > 0 ==> h[n - 1] == InitialEvent(w, c, start, n - 1))
  {
    if n > 0 {
      InitialShape(w, c, start, n - 1);
      ProgressSnoc(InitialEvents(w, c, start, n - 1), InitialEvent(w, c, start, n - 1));
    }
  }

  lemma {:induction false} InitialContinues(w: World, c: Context, start: int, n: nat)
    requires n <= 3
    ensures var h := InitialEvents(w, c, start, n);
            |h| == n && (n > 0 ==> h[0].occurredAt == start) && (NonzeroEnds(h) <==> Continues(start, n))
  {
    if n > 0 {
      InitialContinues(w, c, start, n - 1);
    }
  }

  lemma {:induction false} InitialLength(w: World, c: Context, start: int, n: nat)
    requires n <= 3
    ensures |InitialEvents(w, c, start, n)| == n
  {
    if n > 0 {
      InitialLength(w, c, start, n - 1);
    }
  }

  lemma InitialOpen(w: World, c: Context, start: int, n: nat)
    requires n <= 3
    ensures var h := InitialEvents(w, c, start, n); |h| == n && !Ended(h)
  {
    InitialLength(w, c, start, n);
  }

  lemma {:induction false} StreamedShape(w: World, c: Context, start: int, sizes: seq<nat>)
    ensures var h := StreamedEvents(w, c, start, sizes);
            && |h| == |sizes| + 3 && ChunkCount(h) == |sizes|
            && h[|h| - 1].status.Running? && h[|h| - 1].occurredAt == start + 1000 * (|h| - 1)
            && h[0].occurredAt == start && (NonzeroEnds(h) <==> Continues(start, |h|))
  {
    if sizes == [] {
      InitialShape(w, c, start, 3);
      InitialContinues(w, c, start, 3);
    } else {
      var n := |sizes| - 1;
      StreamedShape(w, c, start, sizes[..n]);
      ProgressSnoc(StreamedEvents(w, c, start, sizes[..n]), ChunkEvent(w, c, start, n + 3, n, sizes[n]));
    }
  }

  lemma {:induction false} FramesShape(c: Context, sizes: seq<nat>)
    ensures |StreamedFrames(c, sizes)| == |sizes| + 1
    ensures StreamOf(StreamedFrames(c, sizes)) == StreamProgress(|sizes| + 1, |sizes|, false)
  {
    if sizes == [] {
      assert StreamedFrames(c, sizes) == [] + [BareFrame(c, 0, AcceptedFrame)];
      StreamSnoc([], BareFrame(c, 0, AcceptedFrame));
    } else {
      var n := |sizes| - 1;
      FramesShape(c, sizes[..n]);
      StreamSnoc(StreamedFrames(c, sizes[..n]), ChunkOf(c, n, sizes[n]));
    }
  }

  /** A history a microsecond apart from `start` on, which the lifecycle lets an event of this kind end. */
  predicate MayEndWith(start: int, h: seq<Event>, kind: EventType) {
    && h != [] && IsTerminal(StatusOf(kind)) && ValidTransition(h[|h| - 1].status, kind, StatusOf(kind))
    && h[|h| - 1].occurredAt == start + 1000 * (|h| - 1) && (NonzeroEnds(h) <==> Continues(start, |h|))
  }

  /** The streamed events may end in any way. */
  lemma StreamedMayEnd(w: World, c: Context, start: int, sizes: seq<nat>, kind: EventType)
    requires IsTerminal(StatusOf(kind))
    ensures MayEndWith(start, StreamedEvents(w, c, start, sizes), kind)
  {
    StreamedShape(w, c, start, sizes);
  }

  lemma MayEndAfter(start: int, h: seq<Event>, kind: EventType)
    requires h != [] && IsTerminal(StatusOf(kind)) && ValidTransition(h[|h| - 1].status, kind, StatusOf(kind))
    requires h[0].occurredAt == start && h[|h| - 1].occurredAt == start + 1000 * (|h| - 1)
    ensures MayEndWith(start, h, kind)
  {
  }

  /** Cancellation and timeout may end the Invocation before it runs, a failure from routing on. */
  lemma InitialMayEnd(w: World, c: Context, start: int, n: nat, kind: EventType)
    requires 0 < n <= 3 && (kind.Canceled? || kind.TimedOut? || (n > 1 && kind.Failed?) || (n > 2 && kind.Succeeded?))
    ensures MayEndWith(start, InitialEvents(w, c, start, n), kind)
  {
    InitialShape(w, c, start, n);
    InitialContinues(w, c, start, n);
    MayEndAfter(start, InitialEvents(w, c, start, n), kind);
  }

  /** A terminal event stamped after its reserved time is where the Ledger expects it. */
  lemma TerminalPlaced(c: Context, start: int, h: seq<Event>, e: Event)
    requires MayEndWith(start, h, e.kind) && e.status == StatusOf(e.kind) && e.sequence == |h| && e.context == c
    requires WholeMicros(e.occurredAt) && e.occurredAt >= start + 1000 * |h|
    ensures WellPlaced(c, h, e)
  {
  }

  /** An error frame with a listed code is valid in a valid context, whenever the code fits its kind. */
  lemma ErrorFrameValid(f: Formats, c: Context, sequence: nat, kind: FrameKind, code: ErrorCode)
    requires ValidContext(f, c) && KnownCode(code) && CodeFits(kind, code)
    requires kind.FailedFrame? || kind.CanceledFrame? || kind.TimedOutFrame?
    ensures EndingFrame(f, c, sequence, ErrorFrame(c, sequence, kind, code).value)
  {
  }

  lemma CompletedFrameValid(f: Formats, c: Context, sequence: nat)
    requires ValidContext(f, c)
    ensures EndingFrame(f, c, sequence, BareFrame(c, sequence, CompletedFrame))
  {
  }

  function SuccessEvent(w: World, c: Context, sequence: nat, occurredAt: int, latency: int): Event {
    LifecycleEvent(w, c, sequence, Succeeded, occurredAt).(latencyMs := Some(latency))
  }

  /******* Ending a stream *******/

  predicate EndingFrame(f: Formats, c: Context, sequence: int, fr: Frame) {
    && EndsStream(fr.kind) && ValidFrame(f, c, fr) && fr.sequence == sequence
    && fr.invocationId == c.invocationId && fr.rootTaskId == c.rootTaskId && fr.traceId == c.traceId
  }

  /** The streamed part is in both logs and at most one Ledger event follows it. */
  ghost predicate Streamed(f: Formats, w: World, c: Context, start: int, log: seq<Action>, sizes: seq<nat>) {
    && SoundLog(f, c, log)
    && |sizes| + 3 <= |Commits(log)| <= |sizes| + 4 && Commits(log)[..|sizes| + 3] == StreamedEvents(w, c, start, sizes)
  }

  /** The streamed part is unchanged and exactly one terminal frame follows it. */
  ghost predicate Settled(f: Formats, w: World, c: Context, start: int, log: seq<Action>, sizes: seq<nat>) {
    && Streamed(f, w, c, start, log, sizes)
    && |Frames(log)| == |sizes| + 2 && Frames(log)[..|sizes| + 1] == StreamedFrames(c, sizes)
    && EndsStream(Frames(log)[|sizes| + 1].kind)
  }

  lemma StreamingIsStreamed(f: Formats, w: World, c: Context, start: int, log: seq<Action>, sizes: seq<nat>)
    requires Streaming(f, w, c, start, log, sizes)
    ensures Streamed(f, w, c, start, log, sizes) && !Ended(Commits(log))
    ensures StreamOf(Frames(log)) == StreamProgress(|sizes| + 1, |sizes|, false)
    ensures |Commits(log)| == |sizes| + 3 && ChunkCount(Commits(log)) == |sizes|
  {
    StreamedShape(w, c, start, sizes);
    FramesShape(c, sizes);
  }

  /** The two sequence numbers a caller passes are the next of their logs. */
  ghost predicate InStep(log: seq<Action>, sequence: int, ledgerSequence: int) {
    sequence == StreamOf(Frames(log)).nextSequence && ledgerSequence == |Commits(log)|
  }

  ghost predicate Counted(log: seq<Action>, sequence: int, chunkIndex: int, ledgerSequence: int) {
    InStep(log, sequence, ledgerSequence) && chunkIndex == ChunkCount(Commits(log))
  }

  /** Offers the frame that ends a stream; in an open stream it is always accepted. */
  method OfferTerminal(f: Formats, w: World, c: Context, start: int, log: seq<Action>, tick: nat, ghost sizes: seq<nat>, fr: Frame)
    returns (log': seq<Action>)
    requires Streamed(f, w, c, start, log, sizes) && Frames(log) == StreamedFrames(c, sizes)
    requires EndingFrame(f, c, StreamOf(Frames(log)).nextSequence, fr) && Agrees(Commits(log), fr)
    ensures Settled(f, w, c, start, log', sizes) && Commits(log') == Commits(log)
    ensures Frames(log') == Frames(log) + [fr]
  {
    FramesShape(c, sizes);
    var accepted, _, offered := Offer(f, w, c, log, tick, fr);
    assert accepted;
    return offered;
  }

  /** Ends the stream with a failure frame and no Ledger terminal. */
  method FinishWithoutLedger(f: Formats, w: World, c: Context, start: int, log: seq<Action>, tick: nat, ghost sizes: seq<nat>,
                             sequence: nat, code: ErrorCode)
    returns (log': seq<Action>)
    requires Streaming(f, w, c, start, log, sizes) && InStep(log, sequence, |Commits(log)|) && KnownCode(code)
    ensures Settled(f, w, c, start, log', sizes) && Commits(log') == Commits(log)
    ensures Frames(log') == Frames(log) + [ErrorFrame(c, sequence, FailureKind(code), code).value]
  {
    StreamingIsStreamed(f, w, c, start, log, sizes);
    ErrorFrameValid(f, c, sequence, FailureKind(code), code);
    var frame := ErrorFrame(c, sequence, FailureKind(code), code);
    log' := OfferTerminal(f, w, c, start, log, tick, sizes, frame.value);
  }

  lemma TerminalIsStreamed(f: Formats, w: World, c: Context, start: int, log: seq<Action>, log': seq<Action>, sizes: seq<nat>, event: Event, frame: Frame)
    requires Streaming(f, w, c, start, log, sizes) && SoundLog(f, c, log') && Commits(log') == Commits(log) + [event]
    requires IsTerminal(event.status) && frame.kind == TerminalKind(event.status) && frame.error == event.error
    ensures Streamed(f, w, c, start, log', sizes) && Agrees(Commits(log'), frame)
  {
    StreamedShape(w, c, start, sizes);
  }

  /** Appends a terminal event; a refused or failed Append ends the stream without one. */
  method CommitTerminal(f: Formats, w: World, c: Context, start: int, log: seq<Action>, tick: nat, ghost sizes: seq<nat>,
                        sequence: nat, event: Event, frame: Frame)
    returns (log': seq<Action>)
    requires Streaming(f, w, c, start, log, sizes) && InStep(log, sequence, |Commits(log)|)
    requires WellPlaced(c, Commits(log), event) && IsTerminal(event.status)
    requires event.eventId == EventId(w, |Commits(log)|, event.kind)
    requires EndingFrame(f, c, sequence, frame) || !ValidEvent(f, event)
    requires frame.kind == TerminalKind(event.status) && frame.error == event.error
    ensures Settled(f, w, c, start, log', sizes)
    ensures var taken := !w.appendFails(tick) && ValidEvent(f, event) && StorableError(event) && NonzeroEnds(Commits(log));
            && Commits(log') == Commits(log) + (if taken then [event] else [])
            && Frames(log') == Frames(log) + [if taken then frame else ErrorFrame(c, sequence, FailedFrame, Dependency).value]
  {
    StreamingIsStreamed(f, w, c, start, log, sizes);
    var ok, appended := TryAppend(f, w, c, log, tick, event);
    if !ok {
      assert Commits(log) + [] == Commits(log);
      log' := FinishWithoutLedger(f, w, c, start, appended, tick + 1, sizes, sequence, Dependency);
      return;
    }
    TerminalIsStreamed(f, w, c, start, log, appended, sizes, event, frame);
    log' := OfferTerminal(f, w, c, start, appended, tick + 1, sizes, frame);
  }

  /******* When a terminal event is committed *******/

  lemma FailureDecided(f: Formats, w: World, c: Context, position: nat, kind: FrameKind, occurredAt: int, latency: int, code: ErrorCode)
    requires ValidContext(f, c) && KnownCode(code) && IsFailure(kind)
    ensures var e := TerminalEvent(w, c, position, EventKindOf(kind), occurredAt, latency, code).value;
            ValidEvent(f, e) && StorableError(e) <==>
            f.identifier(EventId(w, position, EventKindOf(kind))) && latency >= 0 && CodeFits(kind, code) && StorableCode(code)
  {
  }

  lemma SuccessDecided(f: Formats, w: World, c: Context, position: nat, occurredAt: int, latency: int)
    requires ValidContext(f, c)
    ensures var e := SuccessEvent(w, c, position, occurredAt, latency);
            ValidEvent(f, e) && StorableError(e) <==> f.identifier(EventId(w, position, Succeeded)) && latency >= 0
  {
  }

  /** One Append of a terminal event, seen from the history it continues. */
  lemma EndsFromAppend(f: Formats, w: World, start: int, h: seq<Event>, h': seq<Event>, e: Event, a: Attempt)
    requires !Ended(h) && a.position == |h| && EndsStream(a.kind) && e.kind == EventKindOf(a.kind) && e.status == StatusOf(e.kind)
    requires CodeOf(e) == a.code && e.latencyMs == Some(a.latency)
    requires h' == h + (if Taken(f, w, start, a) then [e] else [])
    ensures EndsExactly(f, w, start, h', a)
  {
    assert h + [] == h;
  }

  /** Appends the terminal event of a failure outside a stream. */
  method AppendFailure(f: Formats, w: World, c: Context, start: int, log: seq<Action>, tick: nat, now: int, ledgerSequence: nat,
                       kind: FrameKind, latency: int, code: ErrorCode)
    returns (committed: bool, log': seq<Action>)
    requires SoundLog(f, c, log) && !StreamOf(Frames(log)).terminal && WholeMicros(start) && ValidContext(f, c) && FitsColumns(c)
    requires KnownCode(code) && IsFailure(kind)
    requires ledgerSequence == |Commits(log)| && MayEndWith(start, Commits(log), EventKindOf(kind))
    ensures SoundLog(f, c, log') && Frames(log') == Frames(log)
    ensures committed <==> Ended(Commits(log'))
    ensures EndsExactly(f, w, start, Commits(log'), Attempt(ledgerSequence, tick, kind, Some(code), latency))
  {
    var occurredAt := TerminalOccurredAt(start, ledgerSequence, now);
    var event := TerminalEvent(w, c, ledgerSequence, EventKindOf(kind), occurredAt, latency, code).value;
    TerminalPlaced(c, start, Commits(log), event);
    FailureDecided(f, w, c, ledgerSequence, kind, occurredAt, latency, code);
    committed, log' := TryAppend(f, w, c, log, tick, event);
    EndsFromAppend(f, w, start, Commits(log), Commits(log'), event, Attempt(ledgerSequence, tick, kind, Some(code), latency));
  }

  /** The terminal event and the terminal frame of a failure fit each other, if the event is valid. */
  lemma FailureReady(f: Formats, w: World, c: Context, sequence: nat, ledgerSequence: nat, kind: FrameKind, occurredAt: int, latency: int, code: ErrorCode)
    requires ValidContext(f, c) && KnownCode(code) && IsFailure(kind)
    ensures var event := TerminalEvent(w, c, ledgerSequence, EventKindOf(kind), occurredAt, latency, code).value;
            var frame := ErrorFrame(c, sequence, kind, code).value;
            && (EndingFrame(f, c, sequence, frame) || !ValidEvent(f, event))
            && frame.kind == TerminalKind(event.status) && frame.error == event.error
  {
    if CodeFits(kind, code) {
      ErrorFrameValid(f, c, sequence, kind, code);
    }
  }

  lemma FailurePlaced(w: World, c: Context, start: int, sizes: seq<nat>, kind: FrameKind, occurredAt: int, latency: int, code: ErrorCode)
    requires KnownCode(code) && IsFailure(kind) && WholeMicros(occurredAt) && occurredAt >= start + 1000 * (|sizes| + 3)
    ensures var h := StreamedEvents(w, c, start, sizes);
            var event := TerminalEvent(w, c, |sizes| + 3, EventKindOf(kind), occurredAt, latency, code).value;
            WellPlaced(c, h, event) && IsTerminal(event.status) && (NonzeroEnds(h) <==> Continues(start, |h|))
  {
    StreamedShape(w, c, start, sizes);
    StreamedMayEnd(w, c, start, sizes, EventKindOf(kind));
    TerminalPlaced(c, start, StreamedEvents(w, c, start, sizes),
                   TerminalEvent(w, c, |sizes| + 3, EventKindOf(kind), occurredAt, latency, code).value);
  }

  /** Commits the failure of this kind and code and ends the stream with it; when the Ledger does not take it, the
      stream ends with a dependency failure and the Invocation has no terminal event. */
  method CommitFailure(f: Formats, w: World, c: Context, start: int, log: seq<Action>, tick: nat, ghost sizes: seq<nat>,
                       sequence: nat, ledgerSequence: nat, kind: FrameKind, code: ErrorCode)
    returns (log': seq<Action>)
    requires Streaming(f, w, c, start, log, sizes) && InStep(log, sequence, ledgerSequence)
    requires KnownCode(code) && IsFailure(kind)
    ensures Settled(f, w, c, start, log', sizes)
    ensures EndsExactly(f, w, start, Commits(log'), Attempt(ledgerSequence, tick, kind, Some(code), w.latency(tick)))
  {
    StreamingIsStreamed(f, w, c, start, log, sizes);
    var occurredAt := TerminalOccurredAt(start, ledgerSequence, w.clock(tick));
    var event := TerminalEvent(w, c, ledgerSequence, EventKindOf(kind), occurredAt, w.latency(tick), code).value;
    FailurePlaced(w, c, start, sizes, kind, occurredAt, w.latency(tick), code);
    FailureReady(f, w, c, sequence, ledgerSequence, kind, occurredAt, w.latency(tick), code);
    FailureDecided(f, w, c, ledgerSequence, kind, occurredAt, w.latency(tick), code);
    log' := CommitTerminal(f, w, c, start, log, tick, sizes, sequence, event, ErrorFrame(c, sequence, kind, code).value);
    EndsFromAppend(f, w, start, Commits(log), Commits(log'), event, Attempt(ledgerSequence, tick, kind, Some(code), w.latency(tick)));
  }

  /** Commits a failure to the Ledger, then ends the stream with the same failure; an unlisted code ends neither. */
  method FinishFailure(f: Formats, w: World, c: Context, start: int, log: seq<Action>, tick: nat, ghost sizes: seq<nat>,
                       sequence: nat, ledgerSequence: nat, code: ErrorCode)
    returns (log': seq<Action>)
    requires Streaming(f, w, c, start, log, sizes) && InStep(log, sequence, ledgerSequence)
    ensures if KnownCode(code) then Settled(f, w, c, start, log', sizes) else log' == log
    ensures Decided(f, w, start, Commits(log'), FailureAttempt(w, tick, ledgerSequence, code))
  {
    if ErrorFrame(c, sequence, FailureKind(code), code).None? {
      StreamingIsStreamed(f, w, c, start, log, sizes);
      return log;
    }
    log' := CommitFailure(f, w, c, start, log, tick, sizes, sequence, ledgerSequence, FailureKind(code), code);
  }

  /******* Starting *******/

  /** The dispatch stands after its first `n` lifecycle events. */
  ghost predicate Begun(f: Formats, w: World, c: Context, start: int, log: seq<Action>, n: nat)
    requires n <= 3
  {
    && SoundLog(f, c, log) && Frames(log) == [] && WholeMicros(start)
    && Commits(log) == InitialEvents(w, c, start, n)
    && (n > 0 ==> ValidContext(f, c) && FitsColumns(c))
  }

  ghost predicate Refused(f: Formats, c: Context, log: seq<Action>, response: Response) {
    && SoundLog(f, c, log) && Frames(log) == []
    && Truthful(Commits(log), response)
    && (response.PreError? ==> c.parentInvocationId != "") && !response.InvocationResult?
  }

  lemma InitialPlaced(w: World, c: Context, start: int, i: nat)
    requires WholeMicros(start) && i < 3
    ensures WellPlaced(c, InitialEvents(w, c, start, i), InitialEvent(w, c, start, i))
  {
    MicrosLater(start, i);
    match i {
      case 0 =>
      case 1 => InitialShape(w, c, start, 1);
      case 2 => InitialShape(w, c, start, 2);
    }
  }

  lemma InitialDecided(f: Formats, w: World, c: Context, start: int, i: nat)
    requires i < 3
    ensures var e, h := InitialEvent(w, c, start, i), InitialEvents(w, c, start, i);
            !w.appendFails(i) && ValidEvent(f, e) && StorableError(e) && FitsColumns(c) && NonzeroEnds(h) <==> InitialTaken(f, w, c, start, i)
  {
    InitialContinues(w, c, start, i);
  }

  /** The first events may be followed by the end of the caller's context, once there is one. */
  lemma EarlyMayEnd(w: World, c: Context, start: int, i: nat, code: ErrorCode)
    requires 0 < i < 3 && (code.TimeoutCode? || code.CanceledCode?)
    ensures var h := InitialEvents(w, c, start, i); |h| == i && MayEndWith(start, h, EventKindOf(FailureKind(code)))
  {
    InitialLength(w, c, start, i);
    InitialMayEnd(w, c, start, i, EventKindOf(FailureKind(code)));
  }

  /** Commits the end of the caller's context while the Invocation is pending or routing. */
  method EndEarly(f: Formats, w: World, c: Context, start: int, log: seq<Action>, i: nat, code: ErrorCode) returns (committed: bool, log': seq<Action>)
    requires 0 < i < 3 && Begun(f, w, c, start, log, i) && (code.TimeoutCode? || code.CanceledCode?)
    ensures SoundLog(f, c, log') && Frames(log') == [] && (committed <==> Ended(Commits(log')))
    ensures EndsExactly(f, w, start, Commits(log'), Attempt(i, i + 3, FailureKind(code), Some(code), w.latency(i)))
  {
    EarlyMayEnd(w, c, start, i, code);
    committed, log' := AppendFailure(f, w, c, start, log, i + 3, w.clock(i), i, FailureKind(code), w.latency(i), code);
  }

  /** After a failed lifecycle Append: commit the end of the caller's context if it has ended, and answer. */
  method RefuseInitial(f: Formats, w: World, c: Context, start: int, log: seq<Action>, i: nat) returns (log': seq<Action>, response: Response)
    requires i < 3 && Begun(f, w, c, start, log, i)
    ensures Refused(f, c, log', response)
    ensures Decided(f, w, start, Commits(log'), RefusedAttempt(w, i))
  {
    InitialOpen(w, c, start, i);
    var context := w.contextError(i);
    log' := log;
    if i > 0 && context.Some? {
      var committed;
      committed, log' := EndEarly(f, w, c, start, log, i, ContextCode(context.value));
      if committed {
        return log', CorrelatedError(ContextCode(context.value));
      }
    }
    return log', if c.parentInvocationId != "" && i == 0 then PreError(Dependency) else CorrelatedError(Dependency);
  }

  /** Appends the first `n` lifecycle events in order, stopping at the first that fails. */
  method AppendInitial(f: Formats, w: World, c: Context, start: int, n: nat) returns (log: seq<Action>, failure: Option<Response>)
    requires WholeMicros(start) && n <= 3
    ensures failure.None? ==> Begun(f, w, c, start, log, n) && StartFate(f, w, c, start, 0, n).GoesAhead?
    ensures failure.Some? ==>
              && Refused(f, c, log, failure.value)
              && StartFate(f, w, c, start, 0, n).IsOver? && Decided(f, w, start, Commits(log), StartFate(f, w, c, start, 0, n).attempt)
  {
    log := [];
    for i := 0 to n
      invariant Begun(f, w, c, start, log, i)
      invariant StartFate(f, w, c, start, 0, n) == StartFate(f, w, c, start, i, n)
    {
      InitialPlaced(w, c, start, i);
      InitialLength(w, c, start, i);
      InitialDecided(f, w, c, start, i);
      var ok, next := TryAppend(f, w, c, log, i, InitialEvent(w, c, start, i));
      if !ok {
        assert Commits(log) + [] == Commits(log);
        var refused, response := RefuseInitial(f, w, c, start, next, i);
        return refused, Some(response);
      }
      log := next;
    }
    return log, None;
  }

  /******* One upstream event *******/

  lemma ChunkFollows(c: Context, h: seq<Event>, e: Event)
    requires h != [] && h[|h| - 1].status.Running? && h[|h| - 1].occurredAt < e.occurredAt && WholeMicros(e.occurredAt)
    requires e.sequence == |h| && e.context == c && e.kind.Stream? && e.status.Running? && e.chunkIndex == Some(ChunkCount(h))
    ensures WellPlaced(c, h, e)
  {
  }

  lemma ChunkPlaced(w: World, c: Context, start: int, sizes: seq<nat>, size: nat)
    requires WholeMicros(start)
    ensures WellPlaced(c, StreamedEvents(w, c, start, sizes), ChunkEvent(w, c, start, |sizes| + 3, |sizes|, size))
  {
    StreamedShape(w, c, start, sizes);
    MicrosLater(start, |sizes| + 3);
    ChunkFollows(c, StreamedEvents(w, c, start, sizes), ChunkEvent(w, c, start, |sizes| + 3, |sizes|, size));
  }

  lemma StreamedSnoc(w: World, c: Context, start: int, sizes: seq<nat>, size: nat)
    ensures StreamedEvents(w, c, start, sizes + [size]) ==
            StreamedEvents(w, c, start, sizes) + [ChunkEvent(w, c, start, |sizes| + 3, |sizes|, size)]
    ensures StreamedFrames(c, sizes + [size]) == StreamedFrames(c, sizes) + [ChunkOf(c, |sizes|, size)]
  {
    assert (sizes + [size])[..|sizes|] == sizes;
  }

  /** The chunk is committed and its frame is next. */
  ghost predicate ChunkReady(f: Formats, w: World, c: Context, start: int, log: seq<Action>, sizes: seq<nat>, size: nat) {
    && SoundLog(f, c, log) && WholeMicros(start) && ValidContext(f, c) && FitsColumns(c)
    && Commits(log) == StreamedEvents(w, c, start, sizes + [size])
    && Frames(log) == StreamedFrames(c, sizes)
    && JustCommitted(log, ChunkOf(c, |sizes|, size))
  }

  lemma ChunkDecided(f: Formats, w: World, c: Context, start: int, sequence: nat, index: nat, size: nat)
    requires ValidContext(f, c)
    ensures var e := ChunkEvent(w, c, start, sequence, index, size);
            ValidEvent(f, e) && StorableError(e) <==> f.identifier(EventId(w, sequence, Stream))
  {
  }

  /** Ends the stream after a chunk that was not committed. */
  method FinishUncommitted(f: Formats, w: World, c: Context, start: int, log: seq<Action>, tick: nat, ghost sizes: seq<nat>,
                           sequence: nat, ledgerSequence: nat)
    returns (log': seq<Action>)
    requires Streaming(f, w, c, start, log, sizes) && InStep(log, sequence, ledgerSequence)
    ensures Settled(f, w, c, start, log', sizes)
    ensures Decided(f, w, start, Commits(log'), ContextAttempt(w, tick, ledgerSequence))
  {
    var context := w.contextError(tick);
    if context.Some? {
      log' := FinishFailure(f, w, c, start, log, tick + 1, sizes, sequence, ledgerSequence, ContextCode(context.value));
    } else {
      StreamingIsStreamed(f, w, c, start, log, sizes);
      log' := FinishWithoutLedger(f, w, c, start, log, tick + 1, sizes, sequence, Dependency);
    }
  }

  lemma ChunkReadyCounters(f: Formats, w: World, c: Context, start: int, log: seq<Action>, sizes: seq<nat>, size: nat)
    requires ChunkReady(f, w, c, start, log, sizes, size)
    ensures Counted(log, |sizes| + 1, |sizes| + 1, |sizes| + 4)
  {
    StreamedShape(w, c, start, sizes + [size]);
    FramesShape(c, sizes);
  }

  /** Commits one chunk under the caller's counters; a failed Append ends the stream. */
  method CommitChunk(f: Formats, w: World, c: Context, start: int, log: seq<Action>, tick: nat, ghost sizes: seq<nat>,
                     sequence: nat, chunkIndex: nat, ledgerSequence: nat, size: nat)
    returns (ok: bool, log': seq<Action>)
    requires Streaming(f, w, c, start, log, sizes)
    requires Counted(log, sequence, chunkIndex, ledgerSequence)
    ensures ok <==> ChunkTaken(f, w, start, tick, ledgerSequence)
    ensures ok ==> ChunkReady(f, w, c, start, log', sizes, size) && Counted(log', sequence, chunkIndex + 1, ledgerSequence + 1)
    ensures !ok ==> Settled(f, w, c, start, log', sizes) && Decided(f, w, start, Commits(log'), ContextAttempt(w, tick, ledgerSequence))
  {
    StreamingIsStreamed(f, w, c, start, log, sizes);
    StreamedShape(w, c, start, sizes);
    ChunkPlaced(w, c, start, sizes, size);
    ChunkDecided(f, w, c, start, ledgerSequence, chunkIndex, size);
    var appended;
    ok, appended := TryAppend(f, w, c, log, tick, ChunkEvent(w, c, start, ledgerSequence, chunkIndex, size));
    if ok {
      StreamedSnoc(w, c, start, sizes, size);
      ChunkReadyCounters(f, w, c, start, appended, sizes, size);
      return true, appended;
    }
    assert Commits(log) + [] == Commits(log);
    log' := FinishUncommitted(f, w, c, start, appended, tick, sizes, sequence, ledgerSequence);
  }

  /** A chunk just committed is always accepted by the frame validator, under the same index. */
  lemma ChunkAccepted(f: Formats, w: World, c: Context, start: int, log: seq<Action>, sizes: seq<nat>, size: nat)
    requires ChunkReady(f, w, c, start, log, sizes, size)
    ensures FrameFits(f, c, StreamOf(Frames(log)), ChunkOf(c, |sizes|, size))
    ensures Sound(f, c, log, Offered(ChunkOf(c, |sizes|, size)))
    ensures StreamOf(Frames(log)) == StreamProgress(|sizes| + 1, |sizes|, false) && |Commits(log)| == |sizes| + 4
  {
    FramesShape(c, sizes);
    StreamedShape(w, c, start, sizes + [size]);
  }

  /** Offers a committed chunk under the counters it was committed with; a failed write ends the stream after it,
      one position further in both logs. */
  method OfferChunk(f: Formats, w: World, c: Context, start: int, log: seq<Action>, tick: nat, ghost sizes: seq<nat>,
                    sequence: nat, chunkIndex: nat, ledgerSequence: nat, size: nat)
    returns (ok: bool, log': seq<Action>)
    requires ChunkReady(f, w, c, start, log, sizes, size)
    requires Counted(log, sequence, chunkIndex + 1, ledgerSequence + 1)
    ensures ok <==> w.write(tick).Written?
    ensures ok ==> Streaming(f, w, c, start, log', sizes + [size]) && Counted(log', sequence + 1, chunkIndex + 1, ledgerSequence + 1)
    ensures !ok ==> Settled(f, w, c, start, log', sizes + [size]) && Decided(f, w, start, Commits(log'), WriteAttempt(w, tick, ledgerSequence + 1))
  {
    ChunkAccepted(f, w, c, start, log, sizes, size);
    StreamedShape(w, c, start, sizes + [size]);
    StreamedSnoc(w, c, start, sizes, size);
    var chunk := BareFrame(c, sequence, ChunkFrame).(chunkIndex := Some(chunkIndex as int), chunk := Some(size));
    var accepted, result, offered := Offer(f, w, c, log, tick, chunk);
    assert accepted;
    if result.Written? {
      StreamingIsStreamed(f, w, c, start, offered, sizes + [size]);
      return true, offered;
    }
    log' := FinishFailure(f, w, c, start, offered, tick + 1, sizes + [size], sequence + 1, ledgerSequence + 1,
                          WriteErrorCode(w.contextError(tick), result));
    return false, log';
  }

  /** Commits success and completes the stream, unless the Append fails. */
  method FinishSuccess(f: Formats, w: World, c: Context, start: int, log: seq<Action>, tick: nat, ghost sizes: seq<nat>,
                       sequence: nat, ledgerSequence: nat)
    returns (log': seq<Action>)
    requires Streaming(f, w, c, start, log, sizes) && InStep(log, sequence, ledgerSequence)
    ensures Settled(f, w, c, start, log', sizes)
    ensures EndsExactly(f, w, start, Commits(log'), Attempt(ledgerSequence, tick, CompletedFrame, None, w.latency(tick)))
    ensures Ended(Commits(log')) <==> Frames(log')[|sizes| + 1].kind.CompletedFrame?
  {
    StreamingIsStreamed(f, w, c, start, log, sizes);
    var occurredAt := TerminalOccurredAt(start, ledgerSequence, w.clock(tick));
    var event := SuccessEvent(w, c, ledgerSequence, occurredAt, w.latency(tick));
    StreamedMayEnd(w, c, start, sizes, Succeeded);
    TerminalPlaced(c, start, Commits(log), event);
    FramesShape(c, sizes);
    CompletedFrameValid(f, c, sequence);
    SuccessDecided(f, w, c, ledgerSequence, occurredAt, w.latency(tick));
    log' := CommitTerminal(f, w, c, start, log, tick, sizes, sequence, event, BareFrame(c, sequence, CompletedFrame));
    EndsFromAppend(f, w, start, Commits(log), Commits(log'), event, Attempt(ledgerSequence, tick, CompletedFrame, None, w.latency(tick)));
  }

  /** Ends the stream with the failure upstream reported.  A missing code counts as a protocol failure; an unlisted one,
      like one that does not suit its kind, leaves the Invocation without a terminal event. */
  method FinishUpstreamFailure(f: Formats, w: World, c: Context, start: int, log: seq<Action>, tick: nat, ghost sizes: seq<nat>,
                               sequence: nat, ledgerSequence: nat, kind: FrameKind, code: ErrorCode)
    returns (log': seq<Action>)
    requires Streaming(f, w, c, start, log, sizes) && InStep(log, sequence, ledgerSequence) && IsFailure(kind)
    ensures Settled(f, w, c, start, log', sizes)
    ensures Decided(f, w, start, Commits(log'), ReportedAttempt(w, tick, ledgerSequence, kind, code))
  {
    if code == EMPTY_CODE {
      log' := FinishFailure(f, w, c, start, log, tick, sizes, sequence, ledgerSequence, A2AProtocol);
      return;
    }
    if ErrorFrame(c, sequence, kind, code).None? {
      StreamingIsStreamed(f, w, c, start, log, sizes);
      log' := FinishWithoutLedger(f, w, c, start, log, tick, sizes, sequence, Internal);
      return;
    }
    log' := CommitFailure(f, w, c, start, log, tick, sizes, sequence, ledgerSequence, kind, code);
  }

  /******* Streaming dispatch *******/

  datatype Ending = NotStarted | AcceptedUnsent | Unbuildable | Finished

  /** These are the payload sizes of the first upstream events, in order. */
  ghost predicate Carries(upstream: seq<Upstream>, sizes: seq<nat>) {
    && |sizes| <= |upstream|
    && forall k | 0 <= k < |sizes| :: upstream[k].Item? && upstream[k].size == sizes[k]
  }

  /** How a dispatch can end, and what both logs then hold. */
  ghost predicate StreamOutcome(f: Formats, w: World, c: Context, start: int, upstream: seq<Upstream>, log: seq<Action>, sizes: seq<nat>, end: Ending) {
    && SoundLog(f, c, log)
    && Carries(upstream, sizes)
    && match end {
         case NotStarted => Frames(log) == []
         case AcceptedUnsent => Frames(log) == StreamedFrames(c, [])
         case Unbuildable =>
           && Streaming(f, w, c, start, log, sizes) && |sizes| < |upstream|
           && upstream[|sizes|].Broken? && upstream[|sizes|].error.Coded? && !KnownCode(upstream[|sizes|].error.code)
         case Finished => Settled(f, w, c, start, log, sizes)
       }
  }

  /** Ends the stream as the terminal upstream event asks, unless the caller's context has ended. */
  method FinishUpstream(f: Formats, w: World, c: Context, start: int, log: seq<Action>, tick: nat, ghost sizes: seq<nat>,
                        sequence: nat, ledgerSequence: nat, event: Upstream)
    returns (log': seq<Action>)
    requires Streaming(f, w, c, start, log, sizes) && InStep(log, sequence, ledgerSequence)
    requires event.Item? && event.terminal.Some?
    ensures Settled(f, w, c, start, log', sizes)
    ensures Decided(f, w, start, Commits(log'), UpstreamAttempt(w, tick, ledgerSequence, event))
  {
    var context := w.contextError(tick);
    if context.Some? {
      log' := FinishFailure(f, w, c, start, log, tick + 1, sizes, sequence, ledgerSequence, ContextCode(context.value));
      return;
    }
    var kind := UpstreamTerminal(event.terminal.value, event.canceledStatus);
    if kind.CompletedFrame? {
      log' := FinishSuccess(f, w, c, start, log, tick + 1, sizes, sequence, ledgerSequence);
    } else {
      log' := FinishUpstreamFailure(f, w, c, start, log, tick + 1, sizes, sequence, ledgerSequence, kind, event.code);
    }
  }

  /** Commits one payload and then offers it, and counts it in both logs. */
  method StreamChunk(f: Formats, w: World, c: Context, start: int, log: seq<Action>, tick: nat, ghost sizes: seq<nat>,
                     sequence: nat, chunkIndex: nat, ledgerSequence: nat, size: nat)
    returns (ok: bool, log': seq<Action>, ghost sizes': seq<nat>, sequence': nat, chunkIndex': nat, ledgerSequence': nat)
    requires Streaming(f, w, c, start, log, sizes) && Counted(log, sequence, chunkIndex, ledgerSequence)
    ensures sizes' == sizes || sizes' == sizes + [size]
    ensures Meets(f, w, start, ChunkFate(f, w, start, tick, ledgerSequence), !ok, Commits(log'))
    ensures ok ==>
              && sizes' == sizes + [size] && Streaming(f, w, c, start, log', sizes')
              && Counted(log', sequence', chunkIndex', ledgerSequence') && ledgerSequence' == ledgerSequence + 1
    ensures !ok ==> Settled(f, w, c, start, log', sizes')
  {
    sequence', chunkIndex', ledgerSequence', sizes' := sequence, chunkIndex, ledgerSequence, sizes;
    ok, log' := CommitChunk(f, w, c, start, log, tick, sizes, sequence, chunkIndex, ledgerSequence, size);
    if !ok {
      return;
    }
    ok, log' := OfferChunk(f, w, c, start, log', tick + 3, sizes, sequence, chunkIndex, ledgerSequence, size);
    sizes' := sizes + [size];
    if !ok {
      return;
    }
    sequence', chunkIndex', ledgerSequence' := sequence + 1, chunkIndex + 1, ledgerSequence + 1;
  }

  /** Success was committed and the stream completed after the payload at this position. */
  ghost predicate CompletedAt(log: seq<Action>, sizes: seq<nat>, end: Ending, m: nat) {
    && end.Finished? && |sizes| == m + 1 && Ended(Commits(log))
    && |Frames(log)| == m + 3 && Frames(log)[m + 2].kind.CompletedFrame?
  }

  /** How one upstream event can end the dispatch. */
  ghost predicate EndedBy(f: Formats, w: World, c: Context, start: int, event: Upstream, sizes: seq<nat>, end: Ending, log': seq<Action>, sizes': seq<nat>) {
    && (sizes' == sizes || (event.Item? && sizes' == sizes + [event.size]))
    && match end {
         case Finished => Settled(f, w, c, start, log', sizes')
         case Unbuildable =>
           && Streaming(f, w, c, start, log', sizes') && sizes' == sizes
           && event.Broken? && event.error.Coded? && !KnownCode(event.error.code)
         case _ => false
       }
  }

  /** Ends the stream after an upstream error or a payload that is not JSON. */
  method FailOne(f: Formats, w: World, c: Context, start: int, log: seq<Action>, tick: nat, ghost sizes: seq<nat>,
                 sequence: nat, ledgerSequence: nat, event: Upstream)
    returns (end: Ending, log': seq<Action>)
    requires Streaming(f, w, c, start, log, sizes) && InStep(log, sequence, ledgerSequence)
    requires event.Broken? || !event.wellFormed
    ensures EndedBy(f, w, c, start, event, sizes, end, log', sizes)
    ensures Decided(f, w, start, Commits(log'), FailureAttempt(w, tick, ledgerSequence, BrokenCode(w, tick, event)))
  {
    var code := BrokenCode(w, tick, event);
    log' := FinishFailure(f, w, c, start, log, tick, sizes, sequence, ledgerSequence, code);
    end := if KnownCode(code) then Finished else Unbuildable;
  }

  /** Streams the payload of an upstream event and, if it is the last, ends the stream as it asks. */
  method StreamItem(f: Formats, w: World, c: Context, start: int, log: seq<Action>, tick: nat, ghost sizes: seq<nat>,
                    sequence: nat, chunkIndex: nat, ledgerSequence: nat, event: Upstream)
    returns (over: bool, log': seq<Action>, ghost sizes': seq<nat>, sequence': nat, chunkIndex': nat, ledgerSequence': nat)
    requires Streaming(f, w, c, start, log, sizes) && Counted(log, sequence, chunkIndex, ledgerSequence)
    requires event.Item? && event.wellFormed
    ensures sizes' == sizes || sizes' == sizes + [event.size]
    ensures over ==> Settled(f, w, c, start, log', sizes')
    ensures !over ==>
              && event.terminal.None? && sizes' == sizes + [event.size] && Streaming(f, w, c, start, log', sizes')
              && Counted(log', sequence', chunkIndex', ledgerSequence') && ledgerSequence' == ledgerSequence + 1
    ensures Meets(f, w, start, StepFate(f, w, start, tick, ledgerSequence, event), over, Commits(log'))
  {
    var ok;
    ok, log', sizes', sequence', chunkIndex', ledgerSequence' :=
      StreamChunk(f, w, c, start, log, tick, sizes, sequence, chunkIndex, ledgerSequence, event.size);
    over := !ok || event.terminal.Some?;
    if ok && event.terminal.Some? {
      log' := FinishUpstream(f, w, c, start, log', tick + 6, sizes', sequence', ledgerSequence', event);
    }
  }

  /** Handles one upstream event; when the stream goes on, all three counters are one further. */
  method StreamOne(f: Formats, w: World, c: Context, start: int, log: seq<Action>, tick: nat, ghost sizes: seq<nat>,
                   sequence: nat, chunkIndex: nat, ledgerSequence: nat, event: Upstream)
    returns (end: Option<Ending>, log': seq<Action>, ghost sizes': seq<nat>, sequence': nat, chunkIndex': nat, ledgerSequence': nat)
    requires Streaming(f, w, c, start, log, sizes) && Counted(log, sequence, chunkIndex, ledgerSequence)
    ensures end.Some? ==> EndedBy(f, w, c, start, event, sizes, end.value, log', sizes')
    ensures end.None? ==>
              && GoesOn(event) && sizes' == sizes + [event.size] && Streaming(f, w, c, start, log', sizes')
              && Counted(log', sequence', chunkIndex', ledgerSequence') && ledgerSequence' == ledgerSequence + 1
    ensures Meets(f, w, start, StepFate(f, w, start, tick, ledgerSequence, event), end.Some?, Commits(log'))
  {
    if event.Broken? || !event.wellFormed {
      sequence', chunkIndex', ledgerSequence', sizes' := sequence, chunkIndex, ledgerSequence, sizes;
      var failed;
      failed, log' := FailOne(f, w, c, start, log, tick, sizes, sequence, ledgerSequence, event);
      end := Some(failed);
    } else {
      var over;
      over, log', sizes', sequence', chunkIndex', ledgerSequence' :=
        StreamItem(f, w, c, start, log, tick, sizes, sequence, chunkIndex, ledgerSequence, event);
      end := if over then Some(Finished) else None;
    }
  }

  /** Ends a stream that upstream closed without a terminal event. */
  method FinishDrained(f: Formats, w: World, c: Context, start: int, log: seq<Action>, ghost sizes: seq<nat>, sequence: nat, ledgerSequence: nat)
    returns (log': seq<Action>)
    requires Streaming(f, w, c, start, log, sizes) && InStep(log, sequence, ledgerSequence)
    ensures Settled(f, w, c, start, log', sizes)
    ensures Decided(f, w, start, Commits(log'), FailureAttempt(w, 9, ledgerSequence, DrainedCode(w)))
  {
    log' := FinishFailure(f, w, c, start, log, 9, sizes, sequence, ledgerSequence, DrainedCode(w));
  }

  lemma StepCarries(upstream: seq<Upstream>, sizes: seq<nat>, sizes': seq<nat>)
    requires Carries(upstream, sizes) && |sizes| < |upstream|
    requires sizes' == sizes || (upstream[|sizes|].Item? && sizes' == sizes + [upstream[|sizes|].size])
    ensures Carries(upstream, sizes')
  {
  }

  lemma StepOutcome(f: Formats, w: World, c: Context, start: int, upstream: seq<Upstream>, sizes: seq<nat>, end: Ending, log': seq<Action>, sizes': seq<nat>)
    requires Carries(upstream, sizes) && |sizes| < |upstream|
    requires EndedBy(f, w, c, start, upstream[|sizes|], sizes, end, log', sizes')
    ensures StreamOutcome(f, w, c, start, upstream, log', sizes', end) && (end.Finished? || end.Unbuildable?)
  {
    StepCarries(upstream, sizes, sizes');
  }

  /** Consumes upstream events until one of them, or a failure, ends the dispatch. */
  method StreamEach(f: Formats, w: World, c: Context, start: int, before: seq<Action>, upstream: seq<Upstream>)
    returns (log: seq<Action>, ghost sizes: seq<nat>, end: Option<Ending>, sequence: nat, ledgerSequence: nat)
    requires Streaming(f, w, c, start, before, [])
    ensures end.None? ==>
              && Streaming(f, w, c, start, log, sizes) && Carries(upstream, sizes) && InStep(log, sequence, ledgerSequence)
              && ledgerSequence == |upstream| + 3
              && StreamAttempt(f, w, start, upstream, 0) == StreamAttempt(f, w, start, upstream, |upstream|)
    ensures end.Some? ==>
              && StreamOutcome(f, w, c, start, upstream, log, sizes, end.value) && (end.value.Finished? || end.value.Unbuildable?)
              && Decided(f, w, start, Commits(log), StreamAttempt(f, w, start, upstream, 0))
  {
    log, sizes := before, [];
    var chunkIndex, n := 0, 0;
    sequence, ledgerSequence := 1, 3;
    StreamingIsStreamed(f, w, c, start, before, []);
    while n < |upstream|
      invariant n <= |upstream| && Carries(upstream, sizes) && |sizes| == n && ledgerSequence == n + 3
      invariant Streaming(f, w, c, start, log, sizes) && Counted(log, sequence, chunkIndex, ledgerSequence)
      invariant StreamAttempt(f, w, start, upstream, 0) == StreamAttempt(f, w, start, upstream, n)
    {
      ghost var was := sizes;
      end, log, sizes, sequence, chunkIndex, ledgerSequence :=
        StreamOne(f, w, c, start, log, 10 + 10 * n, sizes, sequence, chunkIndex, ledgerSequence, upstream[n]);
      if end.Some? {
        StepOutcome(f, w, c, start, upstream, was, end.value, log, sizes);
        return;
      }
      StepCarries(upstream, was, sizes);
      n := n + 1;
    }
    end := None;
  }

  /** The whole stream: its events, and its end if none of them ended the dispatch. */
  method StreamAll(f: Formats, w: World, c: Context, start: int, before: seq<Action>, upstream: seq<Upstream>)
    returns (log: seq<Action>, ghost sizes: seq<nat>, end: Ending)
    requires Streaming(f, w, c, start, before, [])
    ensures StreamOutcome(f, w, c, start, upstream, log, sizes, end) && (end.Finished? || end.Unbuildable?)
    ensures Decided(f, w, start, Commits(log), StreamAttempt(f, w, start, upstream, 0))
  {
    var ended, sequence, ledgerSequence;
    log, sizes, ended, sequence, ledgerSequence := StreamEach(f, w, c, start, before, upstream);
    if ended.Some? {
      end := ended.value;
    } else {
      log := FinishDrained(f, w, c, start, log, sizes, sequence, ledgerSequence);
      end := Finished;
    }
  }

  /** Commits a failure before any frame was sent and answers with it, or with a dependency error.  The event is always
      of the failed kind, so a timeout or a cancellation is never committed. */
  method FailUnsent(f: Formats, w: World, c: Context, start: int, log: seq<Action>, tick: nat, code: ErrorCode) returns (log': seq<Action>, response: Response)
    requires SoundLog(f, c, log) && WholeMicros(start) && KnownCode(code) && ValidContext(f, c) && FitsColumns(c)
    requires Commits(log) == StreamedEvents(w, c, start, []) && !StreamOf(Frames(log)).terminal
    ensures SoundLog(f, c, log') && Frames(log') == Frames(log) && Truthful(Commits(log'), response)
    ensures EndsExactly(f, w, start, Commits(log'), UnsentAttempt(tick, code))
    ensures response == CorrelatedError(if Ended(Commits(log')) then code else Dependency)
  {
    StreamedMayEnd(w, c, start, [], Failed);
    StreamedShape(w, c, start, []);
    var committed;
    committed, log' := AppendFailure(f, w, c, start, log, tick, w.clock(tick), 3, FailedFrame, 0, code);
    response := CorrelatedError(if committed then code else Dependency);
  }

  lemma AcceptedFits(f: Formats, w: World, c: Context, start: int, log: seq<Action>)
    requires Begun(f, w, c, start, log, 3)
    ensures FrameFits(f, c, StreamOf(Frames(log)), BareFrame(c, 0, AcceptedFrame))
    ensures Frames(log) + [BareFrame(c, 0, AcceptedFrame)] == StreamedFrames(c, [])
  {
  }

  /** Ends a dispatch whose first frame could not be sent: in the stream once it is under way, and outside it before. */
  method FinishUnwritten(f: Formats, w: World, c: Context, start: int, before: seq<Action>, result: WriteResult)
    returns (log: seq<Action>, end: Ending, response: Option<Response>)
    requires Streaming(f, w, c, start, before, []) && !result.Written?
    ensures end == if result.TransportBroken? then Finished else AcceptedUnsent
    ensures end.Finished? ==> Settled(f, w, c, start, log, []) && response.None?
    ensures end.AcceptedUnsent? ==>
              SoundLog(f, c, log) && Frames(log) == Frames(before) && response.Some? && Truthful(Commits(log), response.value)
    ensures var code := WriteErrorCode(w.contextError(7), result);
            Decided(f, w, start, Commits(log), if result.TransportBroken? then FailureAttempt(w, 7, 3, code) else Some(UnsentAttempt(7, code)))
  {
    StreamingIsStreamed(f, w, c, start, before, []);
    var code := WriteErrorCode(w.contextError(7), result);
    if result.TransportBroken? {
      log := FinishFailure(f, w, c, start, before, 7, [], 1, 3, code);
      end, response := Finished, None;
    } else {
      var answer;
      log, answer := FailUnsent(f, w, c, start, before, 7, code);
      end, response := AcceptedUnsent, Some(answer);
    }
  }

  /** Offers the frame that opens the stream; it is always accepted. */
  method SendAccepted(f: Formats, w: World, c: Context, start: int, before: seq<Action>) returns (result: WriteResult, log: seq<Action>)
    requires Begun(f, w, c, start, before, 3)
    ensures Streaming(f, w, c, start, log, []) && result == w.write(6)
  {
    AcceptedFits(f, w, c, start, before);
    var accepted;
    accepted, result, log := Offer(f, w, c, before, 6, BareFrame(c, 0, AcceptedFrame));
    assert accepted;
  }

  lemma StreamingFrames(f: Formats, w: World, c: Context, start: int, log: seq<Action>)
    requires Streaming(f, w, c, start, log, [])
    ensures Frames(log) == StreamedFrames(c, [])
  {
  }

  /** Sends the first frame and then the stream. */
  method SendStream(f: Formats, w: World, c: Context, start: int, before: seq<Action>, upstream: seq<Upstream>)
    returns (log: seq<Action>, ghost sizes: seq<nat>, end: Ending, response: Option<Response>)
    requires Begun(f, w, c, start, before, 3)
    ensures StreamOutcome(f, w, c, start, upstream, log, sizes, end)
    ensures response.Some? ==> Truthful(Commits(log), response.value)
    ensures w.write(6).Written? ==> end.Finished? || end.Unbuildable?
    ensures Decided(f, w, start, Commits(log), SentAttempt(f, w, start, upstream))
  {
    var result, offered := SendAccepted(f, w, c, start, before);
    StreamingFrames(f, w, c, start, offered);
    sizes, response := [], None;
    if result.Written? {
      log, sizes, end := StreamAll(f, w, c, start, offered, upstream);
    } else {
      log, end, response := FinishUnwritten(f, w, c, start, offered, result);
    }
    assert Carries(upstream, sizes);
  }

  /** A stream that committed success after the payload at position `m` completed there. */
  lemma CompletedThere(f: Formats, w: World, c: Context, start: int, log: seq<Action>, sizes: seq<nat>, m: nat)
    requires Settled(f, w, c, start, log, sizes) && Ended(Commits(log))
    requires |Commits(log)| == m + 5 && Commits(log)[m + 4].kind.Succeeded?
    ensures CompletedAt(log, sizes, Finished, m)
  {
    StreamedShape(w, c, start, sizes);
    var h, frames := Commits(log), Frames(log);
    assert h[..|h|] == h;
    assert frames[|sizes| + 1] == frames[|frames| - 1];
    assert StreamOf(frames).terminal;
    TerminalFrameLast(f, c, log);
    TerminalFrameAgrees(f, c, log);
    assert frames[|frames| - 1] == log[|log| - 1].frame;
    CommittedIsLegal(f, c, log);
    assert LegalAt(f, h, m + 4);
  }

  /** In a world in which nothing fails, a stream that upstream completes is completed. */
  lemma BenignCompletes(f: Formats, w: World, c: Context, start: int, upstream: seq<Upstream>, log: seq<Action>, sizes: seq<nat>, end: Ending, m: nat)
    requires Benign(f, w, c, start) && Completes(upstream, m)
    requires StreamOutcome(f, w, c, start, upstream, log, sizes, end) && (end.Finished? || end.Unbuildable?)
    requires Decided(f, w, start, Commits(log), StreamAttempt(f, w, start, upstream, 0))
    ensures CompletedAt(log, sizes, end, m)
  {
    BenignStream(f, w, c, start, upstream, 0, m);
    assert Ended(Commits(log));
    if end.Unbuildable? {
      StreamingIsStreamed(f, w, c, start, log, sizes);
    } else {
      CompletedThere(f, w, c, start, log, sizes, m);
    }
  }

  /** Streaming dispatch from its first Append to the end of the stream.  The Invocation has a terminal event exactly
      when the last attempt, which the inputs determine, is one that the Ledger takes. */
  method DispatchStreaming(f: Formats, w: World, c: Context, flushable: bool, upstream: seq<Upstream>)
    returns (log: seq<Action>, ghost sizes: seq<nat>, end: Ending, response: Option<Response>)
    ensures StreamOutcome(f, w, c, TruncateToMicros(w.clock(0)), upstream, log, sizes, end)
    ensures response.Some? ==> Truthful(Commits(log), response.value)
    ensures Decided(f, w, TruncateToMicros(w.clock(0)), Commits(log), StreamingAttempt(f, w, c, flushable, upstream))
    ensures Benign(f, w, c, TruncateToMicros(w.clock(0))) && flushable ==>
              forall m: nat | Completes(upstream, m) :: CompletedAt(log, sizes, end, m)
  {
    var start := TruncateToMicros(w.clock(0));
    sizes, end := [], NotStarted;
    log, response := AppendInitial(f, w, c, start, 3);
    if Benign(f, w, c, start) {
      StartGoesAhead(f, w, c, start, 0, 3);
    }
    if response.Some? {
      return;
    }
    if !flushable {
      var failed, answer := FailUnsent(f, w, c, start, log, 6, Dependency);
      return failed, sizes, end, Some(answer);
    }
    log, sizes, end, response := SendStream(f, w, c, start, log, upstream);
    if Benign(f, w, c, start) {
      forall m: nat | Completes(upstream, m) ensures CompletedAt(log, sizes, end, m) {
        BenignCompletes(f, w, c, start, upstream, log, sizes, end, m);
      }
    }
  }

  /******* Non-streaming dispatch *******/

  /** The Invocation was answered as the Ledger says: success only when committed, and each later event strictly later. */
  ghost predicate Answers(f: Formats, c: Context, log: seq<Action>, response: Response) {
    SoundLog(f, c, log) && Frames(log) == [] && Truthful(Commits(log), response)
  }

  /** Ends an Invocation with an error and answers with it if it was committed. */
  method AnswerFailure(f: Formats, w: World, c: Context, start: int, log: seq<Action>, ledgerSequence: nat, kind: FrameKind, latency: int, code: ErrorCode)
    returns (log': seq<Action>, response: Response)
    requires SoundLog(f, c, log) && Frames(log) == [] && WholeMicros(start) && ValidContext(f, c) && FitsColumns(c)
    requires ledgerSequence == |Commits(log)| && MayEndWith(start, Commits(log), EventKindOf(kind)) && IsFailure(kind)
    ensures Answers(f, c, log', response)
    ensures Decided(f, w, start, Commits(log'), if KnownCode(code) then Some(Attempt(ledgerSequence, 6, kind, Some(code), latency)) else None)
    ensures response == CorrelatedError(if Ended(Commits(log')) then code else Dependency)
  {
    if TerminalEvent(w, c, ledgerSequence, EventKindOf(kind), start, latency, code).None? {
      return log, CorrelatedError(Dependency);
    }
    var committed;
    committed, log' := AppendFailure(f, w, c, start, log, 6, w.clock(6), ledgerSequence, kind, latency, code);
    response := CorrelatedError(if committed then code else Dependency);
  }

  /** Commits success and answers with the result, or with a dependency error. */
  method AnswerSuccess(f: Formats, w: World, c: Context, start: int, log: seq<Action>) returns (log': seq<Action>, response: Response)
    requires Begun(f, w, c, start, log, 3)
    ensures Answers(f, c, log', response)
    ensures EndsExactly(f, w, start, Commits(log'), Attempt(3, 6, CompletedFrame, None, w.latency(6)))
    ensures response == if Ended(Commits(log')) then InvocationResult else CorrelatedError(Dependency)
  {
    InitialShape(w, c, start, 3);
    InitialMayEnd(w, c, start, 3, Succeeded);
    var occurredAt := TerminalOccurredAt(start, 3, w.clock(6));
    var event := SuccessEvent(w, c, 3, occurredAt, w.latency(6));
    TerminalPlaced(c, start, Commits(log), event);
    SuccessDecided(f, w, c, 3, occurredAt, w.latency(6));
    var ok;
    ok, log' := TryAppend(f, w, c, log, 6, event);
    EndsFromAppend(f, w, start, Commits(log), Commits(log'), event, Attempt(3, 6, CompletedFrame, None, w.latency(6)));
    response := if ok then InvocationResult else CorrelatedError(Dependency);
  }

  /** Ends an Invocation whose target cannot be used. */
  method AnswerUnusable(f: Formats, w: World, c: Context, start: int, log: seq<Action>, target: UpstreamError) returns (log': seq<Action>, response: Response)
    requires Begun(f, w, c, start, log, 2)
    ensures Answers(f, c, log', response) && !response.InvocationResult?
    ensures Decided(f, w, start, Commits(log'), UnusableAttempt(target))
  {
    InitialLength(w, c, start, 2);
    InitialMayEnd(w, c, start, 2, Failed);
    log', response := AnswerFailure(f, w, c, start, log, 2, FailedFrame, 0, DispatchErrorCode(target));
  }

  /** Ends an Invocation that was sent. */
  method AnswerSent(f: Formats, w: World, c: Context, start: int, log: seq<Action>, answer: Answer) returns (log': seq<Action>, response: Response)
    requires Begun(f, w, c, start, log, 3)
    ensures Answers(f, c, log', response)
    ensures Decided(f, w, start, Commits(log'), AnswerAttempt(w, answer))
    ensures response.InvocationResult? <==> SendFailure(w.contextError(6), answer).None? && Ended(Commits(log'))
  {
    var failed := SendFailure(w.contextError(6), answer);
    if failed.Some? {
      var code := DispatchErrorCode(failed.value);
      InitialLength(w, c, start, 3);
      InitialMayEnd(w, c, start, 3, EventKindOf(FailureKind(code)));
      log', response := AnswerFailure(f, w, c, start, log, 3, FailureKind(code), w.latency(6), code);
    } else {
      log', response := AnswerSuccess(f, w, c, start, log);
    }
  }

  /** Non-streaming dispatch; an unusable target ends the Invocation while it is still routing.  The Invocation has a
      terminal event exactly when the last attempt, which the inputs determine, is one that the Ledger takes. */
  method DispatchNonStreaming(f: Formats, w: World, c: Context, target: Option<UpstreamError>, answer: Answer) returns (log: seq<Action>, response: Response)
    ensures Answers(f, c, log, response)
    ensures Decided(f, w, TruncateToMicros(w.clock(0)), Commits(log), AnsweringAttempt(f, w, c, target, answer))
    ensures Benign(f, w, c, TruncateToMicros(w.clock(0))) && target.None? && answer.Answered? ==> response.InvocationResult?
    ensures response.InvocationResult? ==> target.None? && answer.Answered?
  {
    var start := TruncateToMicros(w.clock(0));
    var n := if target.None? then 3 else 2;
    var failure;
    log, failure := AppendInitial(f, w, c, start, n);
    if Benign(f, w, c, start) {
      StartGoesAhead(f, w, c, start, 0, n);
    }
    if failure.Some? {
      return log, failure.value;
    }
    if target.Some? {
      log, response := AnswerUnusable(f, w, c, start, log, target.value);
    } else {
      log, response := AnswerSent(f, w, c, start, log, answer);
    }
  }
}
