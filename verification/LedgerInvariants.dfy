/** What every store reachable by Append satisfies. */
module LedgerInvariants {
  import opened Wrappers
  import opened RuntimeContracts
  import opened LedgerStore

  /******* The log of committed events, and one Invocation's part of it *******/

  function History(log: seq<Event>, id: string): seq<Event> {
    if log == [] then []
    else
      var last := log[|log| - 1];
      History(log[..|log| - 1], id) + (if last.context.invocationId == id then [last] else [])
  }

  /** The projection a history determines: context and creation from its first event, the rest from its last. */
  function Project(h: seq<Event>): Record
    requires h != []
  {
    var last := h[|h| - 1];
    Record(h[0].context, last.status, last.latencyMs, CodeOf(last), h[0].occurredAt, last.occurredAt)
  }

  ghost predicate TimesAscend(h: seq<Event>) {
    forall i, j | 0 <= i <= j < |h| :: h[i].occurredAt <= h[j].occurredAt
  }

  ghost predicate GoodHistory(f: Formats, h: seq<Event>) {
    LegalHistory(f, h) && TimesAscend(h)
  }

  /** The child's context is inherited from the parent's. */
  predicate Inherits(parent: Context, child: Context) {
    && child.parentInvocationId == parent.invocationId
    && child.invocationId != parent.invocationId
    && child.rootTaskId == parent.rootTaskId
    && child.traceId == parent.traceId
    && child.workspaceId == parent.workspaceId
    && child.caller == Caller(Agent, parent.targetAgentId)
  }

  /** The parent's created event was committed before position `i`, no later in time, with an inheritable context. */
  ghost predicate ParentCommitted(log: seq<Event>, i: nat)
    requires i < |log|
  {
    exists j: nat :: j < i && log[j].sequence == 0 && Inherits(log[j].context, log[i].context)
                     && log[j].occurredAt <= log[i].occurredAt
  }

  /** Every nested Invocation's parent was committed before it. */
  ghost predicate LineageCommitted(log: seq<Event>) {
    forall i: nat | i < |log| && log[i].sequence == 0 && log[i].context.parentInvocationId != "" :: ParentCommitted(log, i)
  }

  ghost predicate Stored(f: Formats, db: Db, log: seq<Event>) {
    && |db.events| == |log|
    && forall i | 0 <= i < |log| ::
         db.events[i] == RowOf(log[i]) && ValidEvent(f, log[i]) && WholeMicros(log[i].occurredAt) && StorableError(log[i])
         && FitsColumns(log[i].context)
  }

  ghost predicate UniqueEventIds(log: seq<Event>) {
    forall i, j | 0 <= i < j < |log| :: log[i].eventId != log[j].eventId
  }

  ghost predicate ProjectionMatches(db: Db, log: seq<Event>, id: string) {
    && (id in db.invocations <==> History(log, id) != [])
    && (id in db.invocations ==> db.invocations[id] == RecordRowOf(Project(History(log, id))))
  }

  /** The store invariant, with the log of events committed so far. */
  ghost predicate Inv(f: Formats, db: Db, log: seq<Event>) {
    && Stored(f, db, log)
    && UniqueEventIds(log)
    && (forall id :: GoodHistory(f, History(log, id)))
    && (forall id :: ProjectionMatches(db, log, id))
    && LineageCommitted(log)
  }

  /******* Histories *******/

  lemma HistorySnoc(log: seq<Event>, e: Event, id: string)
    ensures History(log + [e], id) == History(log, id) + (if e.context.invocationId == id then [e] else [])
  {
    assert (log + [e])[..|log|] == log;
  }

  lemma {:induction false} HistoryMembers(log: seq<Event>, id: string)
    ensures forall e :: e in History(log, id) <==> e in log && e.context.invocationId == id
  {
    if log != [] {
      var init, last := log[..|log| - 1], log[|log| - 1];
      HistoryMembers(init, id);
      assert log == init + [last];
    }
  }

  /** The first event of a known Invocation is its created event, with sequence zero. */
  lemma HistoryStart(f: Formats, db: Db, log: seq<Event>, id: string)
    requires Inv(f, db, log) && History(log, id) != []
    ensures var h := History(log, id);
            h[0] in log && h[0].sequence == 0 && h[0].context.invocationId == id && h[0].kind.Created?
    ensures forall e | e in log && e.context.invocationId == id :: e.context == History(log, id)[0].context
  {
    var h := History(log, id);
    HistoryMembers(log, id);
    assert GoodHistory(f, h);
    assert LegalAt(f, h, 0);
    forall e | e in log && e.context.invocationId == id ensures e.context == h[0].context {
      assert e in h;
      var k :| 0 <= k < |h| && h[k] == e;
      assert LegalAt(f, h, k);
    }
  }

  /******* Reading back *******/

  function Rows(h: seq<Event>): seq<EventRow> {
    seq(|h|, i requires 0 <= i < |h| => RowOf(h[i]))
  }

  lemma {:induction false} RowsOfHistory(log: seq<Event>, id: string)
    ensures RowsOf(Rows(log), id) == Rows(History(log, id))
  {
    if log != [] {
      RowsOfHistory(log[..|log| - 1], id);
      assert Rows(log)[..|log| - 1] == Rows(log[..|log| - 1]);
    }
  }

  lemma {:induction false} OrderOfAscending(rows: seq<EventRow>)
    requires forall i, j | 0 <= i < j < |rows| :: rows[i].sequence <= rows[j].sequence
    ensures OrderBySequence(rows) == rows
  {
    if rows != [] {
      OrderOfAscending(rows[..|rows| - 1]);
    }
  }

  predicate ReadsBack(f: Formats, e: Event) {
    ScanEvent(f, RowOf(e)) == Some(e)
  }

  lemma {:induction false} ScanRows(f: Formats, h: seq<Event>)
    requires forall e | e in h :: ReadsBack(f, e)
    ensures ScanAll(f, Rows(h)) == Some(h)
  {
    if h != [] {
      var init, last := h[..|h| - 1], h[|h| - 1];
      assert h == init + [last];
      ScanRows(f, init);
      assert Rows(h)[..|h| - 1] == Rows(init);
      assert ReadsBack(f, last);
    }
  }

  /** Reading an Invocation returns exactly the events that were appended to it, in order. */
  lemma ReadsHistory(f: Formats, db: Db, log: seq<Event>, id: string)
    requires Inv(f, db, log)
    ensures ReadEvents(f, db, id) == Some(History(log, id))
  {
    var h := History(log, id);
    assert db.events == Rows(log);
    RowsOfHistory(log, id);
    assert GoodHistory(f, h);
    forall i, j | 0 <= i < j < |h| ensures Rows(h)[i].sequence <= Rows(h)[j].sequence {
      assert LegalAt(f, h, i) && LegalAt(f, h, j);
    }
    OrderOfAscending(Rows(h));
    HistoryMembers(log, id);
    forall e | e in h ensures ReadsBack(f, e) { EventRoundTrip(f, e); }
    ScanRows(f, h);
  }

  lemma ReadsRecord(f: Formats, db: Db, log: seq<Event>, id: string)
    requires Inv(f, db, log) && id in db.invocations
    ensures History(log, id) != []
    ensures ScanRecord(f, db.invocations[id]) == Some(Project(History(log, id)))
    ensures ValidContext(f, Project(History(log, id)).context)
    ensures Project(History(log, id)).context.invocationId == id
  {
    var h := History(log, id);
    assert ProjectionMatches(db, log, id);
    HistoryMembers(log, id);
    assert h[0] in h && h[|h| - 1] in h;
    RecordRoundTrip(f, Project(h));
  }

  /** Both ends of the history are away from the zero instant, which record validation refuses. */
  predicate NonzeroEnds(h: seq<Event>) {
    h != [] ==> h[0].occurredAt != 0 && h[|h| - 1].occurredAt != 0
  }

  /** A stored detail passes every integrity check exactly when neither end of its history is at the zero instant. */
  lemma IntegrityExactly(f: Formats, db: Db, log: seq<Event>, id: string)
    requires Inv(f, db, log) && id in db.invocations
    ensures var h := History(log, id);
            && h != []
            && SameProjectionState(Project(h), h)
            && Replay(f, h) == Success(ProgressOf(h))
            && (ValidDetail(f, Project(h).context.workspaceId, Project(h), h) <==> NonzeroEnds(h))
  {
    var h := History(log, id);
    ReadsRecord(f, db, log, id);
    assert GoodHistory(f, h);
    ReplayAcceptsExactlyLegal(f, h);
    HistoryStart(f, db, log, id);
    HistoryMembers(log, id);
    var last := h[|h| - 1];
    assert last in h;
  }

  /******* Append, decided on the log alone *******/

  ghost predicate ParentAdmits(log: seq<Event>, e: Event) {
    e.context.parentInvocationId != "" ==>
      var h := History(log, e.context.parentInvocationId);
      h != [] && NestedUnder(Project(h), e) && h[|h| - 1].occurredAt <= e.occurredAt
  }

  ghost predicate FreshEventId(log: seq<Event>, e: Event) {
    forall prior | prior in log :: prior.eventId != e.eventId
  }

  /** The exact condition under which an event may join the log. */
  ghost predicate Admissible(f: Formats, log: seq<Event>, e: Event) {
    var h := History(log, e.context.invocationId);
    && WholeMicros(e.occurredAt) && StorableError(e) && FitsColumns(e.context) && FreshEventId(log, e)
    && LegalHistory(f, h + [e])
    && (h == [] ==> ParentAdmits(log, e))
    && (h != [] ==> h[|h| - 1].occurredAt <= e.occurredAt && NonzeroEnds(h))
  }

  lemma FirstEventLegal(f: Formats, e: Event)
    ensures LegalHistory(f, [e]) <==> Advance(f, START, e).Success?
  {
    LegalSnoc(f, [], e);
    assert [] + [e] == [e];
  }

  ghost predicate FreshKeys(log: seq<Event>, e: Event) {
    && FreshEventId(log, e)
    && forall prior | prior in History(log, e.context.invocationId) :: prior.sequence != e.sequence
  }

  lemma EventInsertExactly(f: Formats, db: Db, log: seq<Event>, e: Event)
    requires Stored(f, db, log)
    ensures CheckEventInsert(db, e).None? <==> FitsColumns(e.context) && StorableError(e) && FreshKeys(log, e)
    ensures CheckEventInsert(db, e) == Some(WidthFailure) <==> !FitsColumns(e.context)
    ensures CheckEventInsert(db, e) != Some(IntegrityFailure)
  {
    HistoryMembers(log, e.context.invocationId);
    if row :| row in db.events && SameKey(row, e) {
      var k :| 0 <= k < |db.events| && db.events[k] == row;
      assert log[k] in log && row == RowOf(log[k]);
    } else {
      forall prior | prior in log ensures !SameKey(RowOf(prior), e) {
        var k :| 0 <= k < |log| && log[k] == prior;
        assert db.events[k] in db.events;
      }
    }
  }

  lemma ParentCheckExactly(f: Formats, db: Db, log: seq<Event>, e: Event)
    requires Inv(f, db, log)
    ensures CheckParent(f, db, e).None? <==> ParentAdmits(log, e)
    ensures CheckParent(f, db, e) != Some(IntegrityFailure) && CheckParent(f, db, e) != Some(WidthFailure)
  {
    var parent := e.context.parentInvocationId;
    assert ProjectionMatches(db, log, parent);
    if parent in db.invocations {
      ReadsRecord(f, db, log, parent);
    }
  }

  lemma LegalKeysFresh(f: Formats, h: seq<Event>, e: Event)
    requires LegalHistory(f, h + [e])
    ensures e.sequence == |h|
    ensures forall prior | prior in h :: prior.sequence != e.sequence
  {
    var g := h + [e];
    assert LegalAt(f, g, |h|);
    forall prior | prior in h ensures prior.sequence != e.sequence {
      var k :| 0 <= k < |h| && h[k] == prior;
      assert LegalAt(f, g, k);
    }
  }

  /** A first event keeps its history legal exactly when the Invocation is new and the validator starts with it. */
  lemma FirstLegal(f: Formats, h: seq<Event>, e: Event)
    requires e.sequence == 0
    ensures LegalHistory(f, h + [e]) <==> h == [] && Advance(f, START, e).Success?
  {
    if h == [] {
      FirstEventLegal(f, e);
      assert h + [e] == [e];
    } else if LegalHistory(f, h + [e]) {
      LegalKeysFresh(f, h, e);
    }
  }

  lemma FirstAppendExactly(f: Formats, db: Db, log: seq<Event>, e: Event)
    requires Inv(f, db, log) && e.sequence == 0
    ensures AppendTo(f, db, e).Success? <==> Admissible(f, log, e)
    ensures AppendTo(f, db, e) != Failure(IntegrityFailure)
    ensures AppendTo(f, db, e) == Failure(WidthFailure) <==>
            ValidCandidate(f, e) && ParentAdmits(log, e) && !FitsColumns(e.context)
  {
    var h := History(log, e.context.invocationId);
    FirstLegal(f, h, e);
    EventInsertExactly(f, db, log, e);
    ParentCheckExactly(f, db, log, e);
    assert ProjectionMatches(db, log, e.context.invocationId);
    assert ValidCandidate(f, e) <==> WholeMicros(e.occurredAt) && Advance(f, START, e).Success?;
    assert CheckFirst(f, db, e).None? <==> ParentAdmits(log, e) && FitsColumns(e.context) && h == [];
    assert h == [] ==> (FreshKeys(log, e) <==> FreshEventId(log, e));
  }

  /** The checks made on the committed state, decided on the log. */
  lemma CommittedCheckExactly(f: Formats, db: Db, log: seq<Event>, e: Event)
    requires Inv(f, db, log) && ValidCandidate(f, e)
    ensures var h := History(log, e.context.invocationId);
            && (CheckCommitted(f, db, e).None? <==>
                h != [] && h[|h| - 1].occurredAt <= e.occurredAt && NonzeroEnds(h) && LegalHistory(f, h + [e]))
            && (CheckCommitted(f, db, e) == Some(IntegrityFailure) <==>
                h != [] && h[|h| - 1].occurredAt <= e.occurredAt && !NonzeroEnds(h))
            && CheckCommitted(f, db, e) != Some(WidthFailure)
  {
    var id := e.context.invocationId;
    var h := History(log, id);
    assert ProjectionMatches(db, log, id);
    if h != [] {
      ReadsRecord(f, db, log, id);
      ReadsHistory(f, db, log, id);
      IntegrityExactly(f, db, log, id);
      assert GoodHistory(f, h);
      LegalSnoc(f, h, e);
    }
  }

  /** A later event carries the context that was stored with the first, which fits its columns. */
  lemma LaterFits(f: Formats, db: Db, log: seq<Event>, e: Event)
    requires Inv(f, db, log)
    requires var h := History(log, e.context.invocationId); h != [] && LegalHistory(f, h + [e])
    ensures FitsColumns(e.context)
  {
    var h := History(log, e.context.invocationId);
    HistoryMembers(log, e.context.invocationId);
    assert h[0] in h;
    assert LegalAt(f, h + [e], |h|);
    var k :| 0 <= k < |log| && log[k] == h[0];
  }

  lemma LaterAppendExactly(f: Formats, db: Db, log: seq<Event>, e: Event)
    requires Inv(f, db, log) && e.sequence != 0
    ensures AppendTo(f, db, e).Success? <==> Admissible(f, log, e)
    ensures var h := History(log, e.context.invocationId);
            AppendTo(f, db, e) == Failure(IntegrityFailure) <==>
            ValidCandidate(f, e) && h != [] && h[|h| - 1].occurredAt <= e.occurredAt && !NonzeroEnds(h)
    ensures AppendTo(f, db, e) != Failure(WidthFailure)
  {
    var id := e.context.invocationId;
    var h := History(log, id);
    EventInsertExactly(f, db, log, e);
    assert ProjectionMatches(db, log, id);
    if LegalHistory(f, h + [e]) {
      LegalKeysFresh(f, h, e);
      assert LegalAt(f, h + [e], |h|);
      LaterFits(f, db, log, e);
    }
    if ValidCandidate(f, e) {
      CommittedCheckExactly(f, db, log, e);
    }
  }

  /** Append succeeds exactly on the admissible events. Its integrity checks fail exactly on a history that begins
      or ends at the zero instant, and a column is too narrow exactly for the version of a first event. */
  lemma AppendExactly(f: Formats, db: Db, log: seq<Event>, e: Event)
    requires Inv(f, db, log)
    ensures AppendTo(f, db, e).Success? <==> Admissible(f, log, e)
    ensures var h := History(log, e.context.invocationId);
            AppendTo(f, db, e) == Failure(IntegrityFailure) <==>
            ValidCandidate(f, e) && e.sequence != 0 && h != [] && h[|h| - 1].occurredAt <= e.occurredAt && !NonzeroEnds(h)
    ensures AppendTo(f, db, e) == Failure(WidthFailure) <==>
            ValidCandidate(f, e) && e.sequence == 0 && ParentAdmits(log, e) && !FitsColumns(e.context)
  {
    if e.sequence == 0 {
      FirstAppendExactly(f, db, log, e);
    } else {
      LaterAppendExactly(f, db, log, e);
    }
  }

  /******* Every Append keeps the invariant *******/

  lemma ParentStaysCommitted(log: seq<Event>, e: Event)
    requires LineageCommitted(log)
    requires e.sequence == 0 && e.context.parentInvocationId != "" ==> ParentCommitted(log + [e], |log|)
    ensures LineageCommitted(log + [e])
  {
    var g := log + [e];
    forall i: nat | i < |g| && g[i].sequence == 0 && g[i].context.parentInvocationId != "" ensures ParentCommitted(g, i) {
      if i < |log| {
        assert ParentCommitted(log, i);
        var j: nat :| j < i && log[j].sequence == 0 && Inherits(log[j].context, log[i].context)
                      && log[j].occurredAt <= log[i].occurredAt;
        assert g[j] == log[j];
      }
    }
  }

  /** A nested event joins after its parent's created event, whose context it inherits. */
  lemma ParentIsCommitted(f: Formats, db: Db, log: seq<Event>, e: Event)
    requires Inv(f, db, log) && ParentAdmits(log, e) && e.context.parentInvocationId != ""
    ensures ParentCommitted(log + [e], |log|)
  {
    var g := log + [e];
    var h := History(log, e.context.parentInvocationId);
    HistoryStart(f, db, log, e.context.parentInvocationId);
    assert GoodHistory(f, h);
    var j :| 0 <= j < |log| && log[j] == h[0];
    assert g[j] == log[j] && Inherits(g[j].context, g[|log|].context);
  }

  lemma HistoriesStayGood(f: Formats, log: seq<Event>, e: Event, id: string)
    requires GoodHistory(f, History(log, id))
    requires var h := History(log, e.context.invocationId);
             LegalHistory(f, h + [e]) && (h != [] ==> h[|h| - 1].occurredAt <= e.occurredAt)
    ensures GoodHistory(f, History(log + [e], id))
  {
    HistorySnoc(log, e, id);
    var h := History(log, id);
    if e.context.invocationId != id {
      assert h + [] == h;
    }
  }

  /** The row an Append writes is the projection of the grown history. */
  lemma WrittenRow(f: Formats, h: seq<Event>, e: Event)
    requires LegalHistory(f, h + [e])
    ensures h == [] ==> RecordRowOf(FirstRecord(e)) == RecordRowOf(Project(h + [e]))
    ensures h != [] ==> Updated(RecordRowOf(Project(h)), e) == RecordRowOf(Project(h + [e]))
  {
    assert LegalAt(f, h + [e], |h|);
  }

  lemma ProjectionsStayMatched(f: Formats, db: Db, log: seq<Event>, e: Event, id: string)
    requires ProjectionMatches(db, log, id)
    requires LegalHistory(f, History(log, e.context.invocationId) + [e])
    ensures ProjectionMatches(Written(db, e), log + [e], id)
  {
    HistorySnoc(log, e, id);
    var h := History(log, id);
    if e.context.invocationId == id {
      LegalKeysFresh(f, h, e);
      WrittenRow(f, h, e);
    } else {
      assert h + [] == h;
    }
  }

  lemma RowsStayStored(f: Formats, db: Db, log: seq<Event>, e: Event)
    requires Stored(f, db, log) && UniqueEventIds(log)
    requires ValidEvent(f, e) && WholeMicros(e.occurredAt) && StorableError(e) && FitsColumns(e.context) && FreshEventId(log, e)
    ensures Stored(f, Written(db, e), log + [e]) && UniqueEventIds(log + [e])
  {
    assert Written(db, e).events == db.events + [RowOf(e)];
  }

  lemma LineageStays(f: Formats, db: Db, log: seq<Event>, e: Event)
    requires Inv(f, db, log) && Admissible(f, log, e)
    ensures LineageCommitted(log + [e])
  {
    if e.sequence == 0 && e.context.parentInvocationId != "" {
      LegalKeysFresh(f, History(log, e.context.invocationId), e);
      ParentIsCommitted(f, db, log, e);
    }
    ParentStaysCommitted(log, e);
  }

  lemma AppendPreserves(f: Formats, db: Db, log: seq<Event>, e: Event)
    requires Inv(f, db, log) && AppendTo(f, db, e).Success?
    ensures Inv(f, AppendTo(f, db, e).value, log + [e])
  {
    AppendExactly(f, db, log, e);
    RowsStayStored(f, db, log, e);
    LineageStays(f, db, log, e);
    forall id ensures GoodHistory(f, History(log + [e], id)) { HistoriesStayGood(f, log, e, id); }
    forall id ensures ProjectionMatches(Written(db, e), log + [e], id) { ProjectionsStayMatched(f, db, log, e, id); }
  }

  /******* Runs *******/

  /** The tables and the log after offering the candidates to Append in turn; a refused one changes nothing. */
  function Run(f: Formats, candidates: seq<Event>): (r: (Db, seq<Event>)) {
    if candidates == [] then (EMPTY, [])
    else
      var (db, log) := Run(f, candidates[..|candidates| - 1]);
      var e := candidates[|candidates| - 1];
      match AppendTo(f, db, e)
      case Success(next) => (next, log + [e])
      case Failure(_) => (db, log)
  }

  lemma {:induction false} RunInvariant(f: Formats, candidates: seq<Event>)
    ensures Inv(f, Run(f, candidates).0, Run(f, candidates).1)
  {
    if candidates != [] {
      var init := candidates[..|candidates| - 1];
      RunInvariant(f, init);
      var (db, log) := Run(f, init);
      if AppendTo(f, db, candidates[|candidates| - 1]).Success? {
        AppendPreserves(f, db, log, candidates[|candidates| - 1]);
      }
    }
  }

  ghost predicate LifecycleEvent(h: seq<Event>, id: string, i: nat)
    requires i < |h|
  {
    && h[i].sequence == i && h[i].context == h[0].context && h[i].context.invocationId == id
    && (i == 0 <==> h[i].kind.Created?)
    && (i + 1 < |h| ==> !IsTerminal(h[i].status))
    && (h[i].kind.Stream? ==> h[i].chunkIndex == Some(i - 3))
  }

  lemma HistoryIsLifecycle(f: Formats, log: seq<Event>, id: string, i: nat)
    requires LegalHistory(f, History(log, id)) && i < |History(log, id)|
    ensures LifecycleEvent(History(log, id), id, i)
  {
    var h := History(log, id);
    HistoryMembers(log, id);
    assert LegalAt(f, h, i) && h[i] in h;
    StatusAtPosition(f, h, i);
    ChunkPositions(f, h, i);
    if i + 1 < |h| {
      NothingAfterTerminal(f, h, i, i + 1);
    }
  }

  /** In every reachable store each known Invocation has a legal lifecycle read back exactly as appended, and its
      projection is the fold of that lifecycle. */
  lemma EveryReachableHistory(f: Formats, candidates: seq<Event>, id: string)
    ensures var (db, log) := Run(f, candidates); var h := History(log, id);
            && (id in db.invocations <==> h != [])
            && ReadEvents(f, db, id) == Some(h)
            && (id in db.invocations ==> ScanRecord(f, db.invocations[id]) == Some(Project(h)))
            && TimesAscend(h)
            && forall i: nat | i < |h| :: LifecycleEvent(h, id, i)
  {
    RunInvariant(f, candidates);
    var (db, log) := Run(f, candidates);
    var h := History(log, id);
    ReadsHistory(f, db, log, id);
    assert ProjectionMatches(db, log, id) && GoodHistory(f, h);
    if id in db.invocations {
      ReadsRecord(f, db, log, id);
    }
    forall i: nat | i < |h| ensures LifecycleEvent(h, id, i) { HistoryIsLifecycle(f, log, id, i); }
  }

  /** If no candidate is at the zero instant, no Append of any run ever fails an integrity check. */
  lemma IntegrityChecksUnreachable(f: Formats, candidates: seq<Event>, e: Event)
    requires forall c | c in candidates :: c.occurredAt != 0
    ensures AppendTo(f, Run(f, candidates).0, e) != Failure(IntegrityFailure)
  {
    RunInvariant(f, candidates);
    var (db, log) := Run(f, candidates);
    LogFromCandidates(f, candidates);
    HistoryMembers(log, e.context.invocationId);
    AppendExactly(f, db, log, e);
    var h := History(log, e.context.invocationId);
    if h != [] {
      assert h[0] in h && h[|h| - 1] in h;
    }
  }

  lemma {:induction false} LogFromCandidates(f: Formats, candidates: seq<Event>)
    ensures forall e | e in Run(f, candidates).1 :: e in candidates
  {
    if candidates != [] {
      LogFromCandidates(f, candidates[..|candidates| - 1]);
    }
  }
}
