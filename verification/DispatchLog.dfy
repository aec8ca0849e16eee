/** The two logs a dispatch keeps in step: committed Ledger events and result-stream frames. */
module DispatchLog {
  import opened Wrappers
  import opened Decimal
  import opened RuntimeContracts
  import opened LedgerStore
  import opened LedgerInvariants

  /******* Result-stream frames and their server-side validator *******/

  datatype FrameKind = AcceptedFrame | ChunkFrame | CompletedFrame | FailedFrame | CanceledFrame | TimedOutFrame

  /** `chunk` is the size in bytes of the payload a chunk frame carries. */
  datatype Frame = Frame(
    sequence: int, kind: FrameKind, status: Status, invocationId: string, rootTaskId: string, traceId: string,
    chunkIndex: Option<int>, chunk: Option<nat>, error: Option<PlatformError>)

  predicate EndsStream(kind: FrameKind) {
    kind.CompletedFrame? || kind.FailedFrame? || kind.CanceledFrame? || kind.TimedOutFrame?
  }

  function FrameStatus(kind: FrameKind): Status {
    match kind
    case AcceptedFrame => Pending
    case ChunkFrame => Running
    case CompletedFrame => HasSucceeded
    case FailedFrame => HasFailed
    case CanceledFrame => WasCanceled
    case TimedOutFrame => HasTimedOut
  }

  /** The code an error frame of each kind may carry. */
  predicate CodeFits(kind: FrameKind, code: ErrorCode) {
    match kind
    case FailedFrame => code != CanceledCode && code != TimeoutCode
    case CanceledFrame => code == CanceledCode
    case TimedOutFrame => code == TimeoutCode
    case _ => true
  }

  predicate ValidFrame(f: Formats, c: Context, fr: Frame) {
    && fr.sequence >= 0 && fr.status == FrameStatus(fr.kind)
    && f.identifier(fr.invocationId) && f.identifier(fr.rootTaskId) && f.traceId(fr.traceId)
    && (fr.kind.ChunkFrame? <==> fr.chunkIndex.Some?) && (fr.kind.ChunkFrame? <==> fr.chunk.Some?) && NonNegative(fr.chunkIndex)
    && (fr.error.Some? <==> fr.kind.FailedFrame? || fr.kind.CanceledFrame? || fr.kind.TimedOutFrame?)
    && (fr.error.Some? ==> CodeFits(fr.kind, fr.error.value.code) && Correlated(fr.error.value, c))
  }

  datatype StreamProgress = StreamProgress(nextSequence: int, nextChunkIndex: int, terminal: bool)

  const STREAM_START := StreamProgress(0, 0, false)

  predicate FrameFits(f: Formats, c: Context, p: StreamProgress, fr: Frame) {
    && !p.terminal
    && ValidFrame(f, c, fr)
    && fr.invocationId == c.invocationId && fr.rootTaskId == c.rootTaskId && fr.traceId == c.traceId
    && fr.sequence == p.nextSequence
    && (p.nextSequence == 0 <==> fr.kind.AcceptedFrame?)
    && (fr.kind.ChunkFrame? ==> fr.chunkIndex == Some(p.nextChunkIndex))
  }

  function AfterFrame(p: StreamProgress, fr: Frame): StreamProgress {
    StreamProgress(p.nextSequence + 1, p.nextChunkIndex + (if fr.kind.ChunkFrame? then 1 else 0), EndsStream(fr.kind))
  }

  function StreamOf(frames: seq<Frame>): StreamProgress {
    if frames == [] then STREAM_START else AfterFrame(StreamOf(frames[..|frames| - 1]), frames[|frames| - 1])
  }

  /******* What a dispatch does, in order *******/

  /** An Append attempt with its result, or a frame the validator accepted and the writer was given. */
  datatype Action = Appended(event: Event, committed: bool) | Offered(frame: Frame)

  function Commits(log: seq<Action>): seq<Event> {
    if log == [] then []
    else
      var a := log[|log| - 1];
      Commits(log[..|log| - 1]) + (if a.Appended? && a.committed then [a.event] else [])
  }

  function Frames(log: seq<Action>): seq<Frame> {
    if log == [] then []
    else
      var a := log[|log| - 1];
      Frames(log[..|log| - 1]) + (if a.Offered? then [a.frame] else [])
  }

  lemma LogSnoc(log: seq<Action>, a: Action)
    ensures Commits(log + [a]) == Commits(log) + (if a.Appended? && a.committed then [a.event] else [])
    ensures Frames(log + [a]) == Frames(log) + (if a.Offered? then [a.frame] else [])
  {
    assert (log + [a])[..|log|] == log;
  }

  lemma StreamSnoc(frames: seq<Frame>, fr: Frame)
    ensures StreamOf(frames + [fr]) == AfterFrame(StreamOf(frames), fr)
  {
    assert (frames + [fr])[..|frames|] == frames;
  }

  /******* What every action keeps *******/

  /** The Ledger's own conditions on the next event of one Invocation, besides conflicts and outages. */
  ghost predicate LedgerAdmits(f: Formats, h: seq<Event>, e: Event) {
    && LegalHistory(f, h + [e])
    && WholeMicros(e.occurredAt) && StorableError(e) && FitsColumns(e.context)
    && (h != [] ==> h[|h| - 1].occurredAt <= e.occurredAt) && NonzeroEnds(h)
  }

  /** Everything the Ledger asks of an event except that its own fields are valid:
      order, context, transition, chunk index, precision, and a time strictly after the last. */
  predicate WellPlaced(c: Context, h: seq<Event>, e: Event) {
    && e.sequence == |h| && e.context == c && WholeMicros(e.occurredAt)
    && (h == [] ==> e.kind.Created? && e.status.Pending?)
    && (h != [] ==> ValidTransition(h[|h| - 1].status, e.kind, e.status) && h[|h| - 1].occurredAt < e.occurredAt)
    && (e.kind.Stream? ==> e.chunkIndex == Some(ChunkCount(h)))
  }

  predicate Ended(h: seq<Event>) {
    h != [] && IsTerminal(h[|h| - 1].status)
  }

  function TerminalKind(status: Status): FrameKind
    requires IsTerminal(status)
  {
    match status
    case HasSucceeded => CompletedFrame
    case HasFailed => FailedFrame
    case WasCanceled => CanceledFrame
    case HasTimedOut => TimedOutFrame
  }

  /** A terminal frame repeats the committed terminal event, or reports a failure when none was committed. */
  predicate Agrees(h: seq<Event>, fr: Frame) {
    if Ended(h) then fr.kind == TerminalKind(h[|h| - 1].status) && fr.error == h[|h| - 1].error
    else !fr.kind.CompletedFrame?
  }

  /** The last action committed exactly the chunk this frame carries. */
  predicate JustCommitted(log: seq<Action>, fr: Frame) {
    && log != [] && log[|log| - 1].Appended? && log[|log| - 1].committed
    && log[|log| - 1].event.kind.Stream?
    && log[|log| - 1].event.chunkIndex == fr.chunkIndex
    && fr.chunk.Some? && log[|log| - 1].event.chunkBytes == Some(fr.chunk.value as int)
  }

  ghost predicate Sound(f: Formats, c: Context, log: seq<Action>, a: Action) {
    var h := Commits(log);
    var p := StreamOf(Frames(log));
    match a
    case Appended(e, committed) =>
      !p.terminal && WellPlaced(c, h, e) && EndsInNumber(e.eventId, |h|) && (committed ==> LedgerAdmits(f, h, e))
    case Offered(fr) =>
      && FrameFits(f, c, p, fr)
      && (fr.kind.ChunkFrame? ==> JustCommitted(log, fr))
      && (EndsStream(fr.kind) ==> Agrees(h, fr))
  }

  ghost predicate SoundAt(f: Formats, c: Context, log: seq<Action>, k: nat)
    requires k < |log|
  {
    Sound(f, c, log[..k], log[k])
  }

  ghost predicate SoundLog(f: Formats, c: Context, log: seq<Action>) {
    forall k: nat | k < |log| :: SoundAt(f, c, log, k)
  }

  lemma SoundSnoc(f: Formats, c: Context, log: seq<Action>, a: Action)
    requires SoundLog(f, c, log) && Sound(f, c, log, a)
    ensures SoundLog(f, c, log + [a])
  {
    var g := log + [a];
    forall k: nat | k < |g| ensures SoundAt(f, c, g, k) {
      if k < |log| {
        assert SoundAt(f, c, log, k);
        assert g[..k] == log[..k];
      } else {
        assert g[..k] == log;
      }
    }
  }

  lemma SoundPrefix(f: Formats, c: Context, log: seq<Action>, n: nat)
    requires SoundLog(f, c, log) && n <= |log|
    ensures SoundLog(f, c, log[..n])
  {
    forall k: nat | k < n ensures SoundAt(f, c, log[..n], k) {
      assert SoundAt(f, c, log, k);
      assert log[..n][..k] == log[..k];
    }
  }

  /** A well-placed event is admitted by the Ledger exactly when its own fields are valid and storable, and the
      history it continues has no end at the zero instant. */
  lemma AdmittedExactly(f: Formats, c: Context, h: seq<Event>, e: Event)
    requires LegalHistory(f, h) && WellPlaced(c, h, e) && (h != [] ==> h[0].context == c)
    ensures LedgerAdmits(f, h, e) <==> ValidEvent(f, e) && StorableError(e) && FitsColumns(c) && NonzeroEnds(h)
  {
    LegalAtLast(f, h, e);
    assert (h + [e])[..|h|] == h;
  }

  /** Of a well-placed event the store asks what the one-Invocation view does, a fresh id and, at first, a parent. */
  lemma StoreAdmitsExactly(f: Formats, db: Db, log: seq<Event>, c: Context, e: Event)
    requires Inv(f, db, log) && WellPlaced(c, History(log, c.invocationId), e)
    requires var h := History(log, c.invocationId); h != [] ==> h[0].context == c
    ensures var h := History(log, c.invocationId);
            AppendTo(f, db, e).Success? <==>
            && ValidEvent(f, e) && StorableError(e) && FitsColumns(c) && NonzeroEnds(h)
            && FreshEventId(log, e) && (h == [] ==> ParentAdmits(log, e))
  {
    assert GoodHistory(f, History(log, c.invocationId));
    AdmittedExactly(f, c, History(log, c.invocationId), e);
    AppendExactly(f, db, log, e);
  }

  /******* What follows for the two logs *******/

  ghost predicate TimesIncrease(h: seq<Event>) {
    forall i, j | 0 <= i < j < |h| :: h[i].occurredAt < h[j].occurredAt
  }

  /** Committed events form a legal lifecycle of the dispatched context with strictly increasing times. */
  lemma {:induction false} CommittedIsLegal(f: Formats, c: Context, log: seq<Action>)
    requires SoundLog(f, c, log)
    ensures LegalHistory(f, Commits(log)) && TimesIncrease(Commits(log))
    ensures Commits(log) != [] ==> Commits(log)[0].context == c
  {
    if log != [] {
      var n := |log| - 1;
      SoundPrefix(f, c, log, n);
      CommittedIsLegal(f, c, log[..n]);
      assert SoundAt(f, c, log, n);
      var h := Commits(log[..n]);
      if !(log[n].Appended? && log[n].committed) {
        assert Commits(log) == h + [] == h;
      }
    }
  }

  /** The store commits the k-th action's event exactly when the view does, unless an event id or the parent conflicts:
      a dispatch whose earlier commits are the Invocation's history is never refused its own next event. */
  lemma OwnEventsAdmitted(f: Formats, c: Context, actions: seq<Action>, k: nat, db: Db, log: seq<Event>)
    requires SoundLog(f, c, actions) && k < |actions| && actions[k].Appended?
    requires Inv(f, db, log) && History(log, c.invocationId) == Commits(actions[..k])
    ensures var e, h := actions[k].event, Commits(actions[..k]);
            AppendTo(f, db, e).Success? <==>
            && ValidEvent(f, e) && StorableError(e) && FitsColumns(c) && NonzeroEnds(h)
            && FreshEventId(log, e) && (h == [] ==> ParentAdmits(log, e))
    ensures var e, h := actions[k].event, Commits(actions[..k]);
            actions[k].committed && FreshEventId(log, e) && (h == [] ==> ParentAdmits(log, e)) ==> AppendTo(f, db, e).Success?
  {
    assert SoundAt(f, c, actions, k);
    SoundPrefix(f, c, actions, k);
    CommittedIsLegal(f, c, actions[..k]);
    AdmittedExactly(f, c, Commits(actions[..k]), actions[k].event);
    StoreAdmitsExactly(f, db, log, c, actions[k].event);
  }

  ghost predicate FrameAt(f: Formats, c: Context, frames: seq<Frame>, i: nat)
    requires i < |frames|
  {
    FrameFits(f, c, StreamOf(frames[..i]), frames[i])
  }

  /** Every frame is one the validator accepts after the frames before it. */
  ghost predicate LegalFrames(f: Formats, c: Context, frames: seq<Frame>) {
    forall i: nat | i < |frames| :: FrameAt(f, c, frames, i)
  }

  lemma FramesSnoc(f: Formats, c: Context, frames: seq<Frame>, fr: Frame)
    requires LegalFrames(f, c, frames) && FrameFits(f, c, StreamOf(frames), fr)
    ensures LegalFrames(f, c, frames + [fr])
  {
    var g := frames + [fr];
    forall i: nat | i < |g| ensures FrameAt(f, c, g, i) {
      if i < |frames| {
        assert FrameAt(f, c, frames, i);
        assert g[..i] == frames[..i];
      } else {
        assert g[..i] == frames;
      }
    }
  }

  lemma {:induction false} FramesAreLegal(f: Formats, c: Context, log: seq<Action>)
    requires SoundLog(f, c, log)
    ensures LegalFrames(f, c, Frames(log))
  {
    if log != [] {
      var n := |log| - 1;
      SoundPrefix(f, c, log, n);
      FramesAreLegal(f, c, log[..n]);
      assert SoundAt(f, c, log, n);
      if log[n].Offered? {
        FramesSnoc(f, c, Frames(log[..n]), log[n].frame);
      } else {
        assert Frames(log) == Frames(log[..n]) + [] == Frames(log[..n]);
      }
    }
  }

  /** The validator's counters after a legal stream. */
  lemma {:induction false} StreamCounters(f: Formats, c: Context, frames: seq<Frame>, n: nat)
    requires LegalFrames(f, c, frames) && n <= |frames|
    ensures StreamOf(frames[..n]).nextSequence == n
    ensures StreamOf(frames[..n]).terminal <==> n > 0 && EndsStream(frames[n - 1].kind)
  {
    if n > 0 {
      StreamCounters(f, c, frames, n - 1);
      assert frames[..n][..n - 1] == frames[..n - 1];
    }
  }

  /** Accepted frames are numbered from zero; only the first is "accepted" and only the last can end the stream. */
  lemma FrameNumbering(f: Formats, c: Context, frames: seq<Frame>, i: nat)
    requires LegalFrames(f, c, frames) && i < |frames|
    ensures frames[i].sequence == i
    ensures i == 0 <==> frames[i].kind.AcceptedFrame?
    ensures i + 1 < |frames| ==> !EndsStream(frames[i].kind)
  {
    assert FrameAt(f, c, frames, i);
    StreamCounters(f, c, frames, i);
    if i + 1 < |frames| {
      assert FrameAt(f, c, frames, i + 1);
      StreamCounters(f, c, frames, i + 1);
    }
  }

  /** A stream's terminal frame is the last thing a dispatch does. */
  lemma TerminalFrameLast(f: Formats, c: Context, log: seq<Action>)
    requires SoundLog(f, c, log) && StreamOf(Frames(log)).terminal
    ensures log != [] && log[|log| - 1].Offered? && EndsStream(log[|log| - 1].frame.kind)
  {
    var n := |log| - 1;
    assert SoundAt(f, c, log, n);
    assert Frames(log[..n]) + [] == Frames(log[..n]);
  }

  /** The terminal frame agrees with everything committed; "completed" means success was committed. */
  lemma TerminalFrameAgrees(f: Formats, c: Context, log: seq<Action>)
    requires SoundLog(f, c, log) && log != [] && log[|log| - 1].Offered? && EndsStream(log[|log| - 1].frame.kind)
    ensures Agrees(Commits(log), log[|log| - 1].frame)
    ensures log[|log| - 1].frame.kind.CompletedFrame? ==> Ended(Commits(log)) && Commits(log)[|Commits(log)| - 1].status.HasSucceeded?
  {
    var n := |log| - 1;
    assert SoundAt(f, c, log, n);
    assert Commits(log) == Commits(log[..n]) + [] == Commits(log[..n]);
  }

  /** Every chunk frame offered carries the payload of the Ledger event three positions after its index. */
  lemma {:induction false} ChunkFrameCommitted(f: Formats, c: Context, log: seq<Action>, fr: Frame)
    requires SoundLog(f, c, log) && fr in Frames(log) && fr.kind.ChunkFrame?
    ensures fr.chunkIndex.Some? && fr.chunk.Some? && 0 <= fr.chunkIndex.value && fr.chunkIndex.value + 3 < |Commits(log)|
    ensures var e := Commits(log)[fr.chunkIndex.value + 3];
            e.kind.Stream? && e.chunkIndex == fr.chunkIndex && e.chunkBytes == Some(fr.chunk.value as int)
  {
    var n := |log| - 1;
    SoundPrefix(f, c, log, n);
    assert SoundAt(f, c, log, n);
    if fr in Frames(log[..n]) {
      ChunkFrameCommitted(f, c, log[..n], fr);
    } else {
      var before := log[..n];
      assert log[n] == Offered(fr);
      CommittedIsLegal(f, c, before);
      assert JustCommitted(before, fr);
      var h := Commits(before);
      assert h[|h| - 1] == before[n - 1].event;
      ChunkPositions(f, h, |h| - 1);
      assert Commits(log) == h + [] == h;
    }
  }
}
