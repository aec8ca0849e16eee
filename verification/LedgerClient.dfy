/** The Ledger store as its callers use it: two tables changed by transactions. */
module LedgerClient {
  import opened Wrappers
  import opened RuntimeContracts
  import opened LedgerStore
  import opened Ordering
  import opened TraceOrder
  import opened Lineage
  import Invariants = LedgerInvariants

  /** Replays a history through a fresh validator and compares each event with the record. */
  method ValidateDetail(f: Formats, workspaceId: string, r: Record, h: seq<Event>) returns (ok: bool)
    ensures ok <==> ValidDetail(f, workspaceId, r, h)
  {
    if !ValidRecord(f, r) || r.context.workspaceId != workspaceId || h == [] {
      return false;
    }
    var validator := new SequenceValidator(f);
    for i := 0 to |h|
      invariant fresh(validator) && validator.formats == f
      invariant Replay(f, h[..i]) == Success(validator.State())
      invariant forall e | e in h[..i] :: e.context == r.context
    {
      var failure := validator.Accept(h[i]);
      ReplayStep(f, h, i);
      if failure.Some? {
        ReplayFailsOnward(f, h, i + 1);
        return false;
      }
      if h[i].context != r.context {
        assert h[i] in h;
        return false;
      }
    }
    assert h[..|h|] == h;
    return r.status == h[|h| - 1].status;
  }

  lemma ReplayStep(f: Formats, h: seq<Event>, i: nat)
    requires i < |h|
    ensures Replay(f, h[..i]).Success? ==> Replay(f, h[..i + 1]) == Advance(f, Replay(f, h[..i]).value, h[i])
  {
    assert h[..i + 1][..i] == h[..i];
  }

  /** Once a prefix is refused the whole history is. */
  lemma {:induction false} ReplayFailsOnward(f: Formats, h: seq<Event>, n: nat)
    requires n <= |h| && Replay(f, h[..n]).Failure?
    ensures Replay(f, h).Failure?
    decreases |h| - n
  {
    if n == |h| {
      assert h[..n] == h;
    } else {
      assert h[..n + 1][..n] == h[..n];
      ReplayFailsOnward(f, h, n + 1);
    }
  }

  /** Replays a committed history and then offers one more event. */
  method ReplayThen(f: Formats, h: seq<Event>, e: Event) returns (committed: bool, accepted: bool)
    ensures committed <==> Replay(f, h).Success?
    ensures committed ==> (accepted <==> Advance(f, Replay(f, h).value, e).Success?)
  {
    var validator := new SequenceValidator(f);
    for i := 0 to |h|
      invariant fresh(validator) && validator.formats == f
      invariant Replay(f, h[..i]) == Success(validator.State())
    {
      var failure := validator.Accept(h[i]);
      ReplayStep(f, h, i);
      if failure.Some? {
        ReplayFailsOnward(f, h, i + 1);
        return false, false;
      }
    }
    assert h[..|h|] == h;
    var failure := validator.Accept(e);
    return true, failure.None?;
  }

  /******* Reading one Trace *******/

  predicate InTrace(row: RecordRow, workspaceId: string, traceId: string) {
    row.columns.context.workspaceId == workspaceId && row.columns.context.traceId == traceId
  }

  /** Rows are keyed by their own Invocation id, as the primary key demands. */
  ghost predicate Keyed(db: Db) {
    forall id | id in db.invocations :: db.invocations[id].columns.context.invocationId == id
  }

  ghost predicate IsTraceRow(f: Formats, db: Db, workspaceId: string, traceId: string, r: Record) {
    && Id(r) in db.invocations
    && InTrace(db.invocations[Id(r)], workspaceId, traceId)
    && ScanRecord(f, db.invocations[Id(r)]) == Some(r)
  }

  /** The rows of one Trace, each once, by creation time and then by id. */
  ghost predicate ListsTrace(f: Formats, db: Db, workspaceId: string, traceId: string, rows: seq<Record>) {
    && (forall r :: r in rows <==> IsTraceRow(f, db, workspaceId, traceId, r))
    && DistinctIds(rows)
    && Ascending(CreatedBefore, rows)
  }

  ghost predicate Unreadable(f: Formats, db: Db, workspaceId: string, traceId: string) {
    exists id :: id in db.invocations && InTrace(db.invocations[id], workspaceId, traceId) && ScanRecord(f, db.invocations[id]).None?
  }

  predicate CreatedBefore(a: Record, b: Record) {
    a.createdAt < b.createdAt || (a.createdAt == b.createdAt && Below(Id(a), Id(b)))
  }

  lemma CreatedBeforeStrict()
    ensures StrictOrder(CreatedBefore)
  {
    forall r: Record ensures !CreatedBefore(r, r) { BelowTrichotomy(Id(r), Id(r)); }
    forall a: Record, b: Record, c: Record | CreatedBefore(a, b) && CreatedBefore(b, c) ensures CreatedBefore(a, c) {
      if a.createdAt == b.createdAt == c.createdAt {
        BelowTransitive(Id(a), Id(b), Id(c));
      }
    }
  }

  lemma SortedTraceRows(rows: seq<Record>)
    requires DistinctIds(rows)
    ensures Ascending(CreatedBefore, Sort(CreatedBefore, rows)) && DistinctIds(Sort(CreatedBefore, rows))
    ensures forall r :: r in Sort(CreatedBefore, rows) <==> r in rows
  {
    CreatedBeforeStrict();
    SortPermutes(CreatedBefore, rows);
    PermutationKeepsDistinct(rows, Sort(CreatedBefore, rows));
    forall i, j | 0 <= i < j < |rows| ensures CreatedBefore(rows[i], rows[j]) || CreatedBefore(rows[j], rows[i]) {
      BelowTrichotomy(Id(rows[i]), Id(rows[j]));
    }
    SortAscends(CreatedBefore, rows);
  }

  /** Walks an ordered Trace, keeping the ids seen so far. */
  method ValidateTrace(f: Formats, workspaceId: string, traceId: string, rs: seq<Record>) returns (ok: bool)
    ensures ok <==> ValidTrace(f, workspaceId, traceId, rs)
  {
    if rs == [] {
      return false;
    }
    var identities: set<string> := {};
    for i := 0 to |rs|
      invariant identities == Ids(rs[..i])
      invariant forall k: nat | k < i :: ValidTraceAt(f, workspaceId, traceId, rs, k)
    {
      var r := rs[i];
      SeenExactly(rs, i, Id(r));
      SeenExactly(rs, i, Parent(r));
      if || !ValidRecord(f, r)
         || r.context.workspaceId != workspaceId || r.context.traceId != traceId
         || r.context.rootTaskId != rs[0].context.rootTaskId
         || Id(r) in identities
         || (Parent(r) != "" && (Parent(r) == Id(r) || Parent(r) !in identities)) {
        assert !ValidTraceAt(f, workspaceId, traceId, rs, i);
        return false;
      }
      identities := identities + {Id(r)};
      assert rs[..i + 1] == rs[..i] + [r];
      IdsSnoc(rs[..i], r);
    }
    return true;
  }

  lemma SeenExactly(rs: seq<Record>, i: nat, id: string)
    requires i < |rs|
    ensures id in Ids(rs[..i]) <==> exists j: nat :: j < i && Id(rs[j]) == id
  {
    if id in Ids(rs[..i]) {
      var r :| r in rs[..i] && Id(r) == id;
      var j :| 0 <= j < i && rs[..i][j] == r;
      assert Id(rs[j]) == id;
    }
    if j: nat :| j < i && Id(rs[j]) == id {
      assert rs[..i][j] in rs[..i];
    }
  }

  datatype TraceOutcome = NoTrace | Broken | Trace(records: seq<Record>)

  /** How the outcome of reading a Trace follows from the tables. */
  ghost predicate TraceAnswer(f: Formats, db: Db, workspaceId: string, traceId: string, outcome: TraceOutcome) {
    match outcome
    case NoTrace => !Unreadable(f, db, workspaceId, traceId) && ListsTrace(f, db, workspaceId, traceId, [])
    case Broken =>
      || Unreadable(f, db, workspaceId, traceId)
      || (exists rows, result ::
            && rows != [] && ListsTrace(f, db, workspaceId, traceId, rows) && OrderingOf(rows, result)
            && (result.Some? ==> !ValidTrace(f, workspaceId, traceId, result.value)))
    case Trace(records) =>
      exists rows ::
        && rows != [] && ListsTrace(f, db, workspaceId, traceId, rows) && OrderingOf(rows, Some(records))
        && ValidTrace(f, workspaceId, traceId, records)
  }

  /** In every reachable store the rows read for a Trace are the projections the log determines. */
  lemma ListedRows(f: Formats, db: Db, log: seq<Event>, ws: string, tr: string, rows: seq<Record>)
    requires Invariants.Inv(f, db, log) && ListsTrace(f, db, ws, tr, rows)
    ensures TraceRows(log, ws, tr, rows)
  {
    forall r ensures r in rows <==> IsRecordOf(log, r) && r.context.workspaceId == ws && r.context.traceId == tr {
      assert Invariants.ProjectionMatches(db, log, Id(r));
      if Id(r) in db.invocations {
        Invariants.ReadsRecord(f, db, log, Id(r));
      }
    }
  }

  /** Reading a stored Trace fails exactly when its parentless Invocations disagree on the root task or a projection is
      at the zero instant; otherwise it returns every row, parents first. */
  lemma StoredTraceAnswer(f: Formats, db: Db, log: seq<Event>, ws: string, tr: string, rows: seq<Record>, outcome: TraceOutcome)
    requires Invariants.Inv(f, db, log) && ListsTrace(f, db, ws, tr, rows) && TraceAnswer(f, db, ws, tr, outcome)
    ensures outcome.NoTrace? <==> rows == []
    ensures outcome.Broken? <==> rows != [] && !(RootsAgree(rows) && forall r | r in rows :: NonzeroTimes(r))
    ensures outcome.Trace? ==> multiset(outcome.records) == multiset(rows) && ParentsFirst(outcome.records)
  {
    ListedRows(f, db, log, ws, tr, rows);
    AlwaysReadable(f, db, log, ws, tr);
    if rows' :| ListsTrace(f, db, ws, tr, rows') && rows' != rows {
      CreatedBeforeStrict();
      AscendingUnique(CreatedBefore, rows, rows');
    }
    match outcome
    case NoTrace =>
    case Broken =>
      var listed, result :| listed != [] && ListsTrace(f, db, ws, tr, listed) && OrderingOf(listed, result)
                            && (result.Some? ==> !ValidTrace(f, ws, tr, result.value));
      TraceAlwaysOrders(f, db, log, ws, tr, rows, result);
      TraceValidExactly(f, db, log, ws, tr, rows, result.value);
    case Trace(records) =>
      TraceValidExactly(f, db, log, ws, tr, rows, records);
  }

  lemma AlwaysReadable(f: Formats, db: Db, log: seq<Event>, ws: string, tr: string)
    requires Invariants.Inv(f, db, log)
    ensures !Unreadable(f, db, ws, tr)
  {
    forall id | id in db.invocations ensures ScanRecord(f, db.invocations[id]).Some? {
      Invariants.ReadsRecord(f, db, log, id);
    }
  }

  class Store {
    const formats: Formats
    var invocations: map<string, RecordRow>
    var events: seq<EventRow>

    constructor (f: Formats)
      ensures formats == f && Tables() == EMPTY && Keyed(Tables())
    {
      formats := f;
      invocations, events := map[], [];
    }

    function Tables(): Db
      reads this
    {
      Db(invocations, events)
    }

    /** Commits the event and its projection together, or returns an error and changes neither table. */
    method Append(e: Event) returns (failure: Option<AppendError>)
      requires Keyed(Tables())
      modifies this
      ensures Keyed(Tables())
      ensures match AppendTo(formats, old(Tables()), e) {
                case Success(next) => failure.None? && Tables() == next
                case Failure(error) => failure == Some(error) && Tables() == old(Tables())
              }
    {
      if !ValidCandidate(formats, e) {
        return Some(Validation);
      }
      var id := e.context.invocationId;
      var projections := invocations;
      if e.sequence == 0 {
        var parentId := e.context.parentInvocationId;
        if parentId != "" {
          if parentId !in projections {
            return Some(Conflicting);
          }
          var parent := ScanRecord(formats, projections[parentId]);
          if parent.None? {
            return Some(IntegrityFailure);
          }
          if !NestedUnder(parent.value, e) || e.occurredAt < parent.value.updatedAt {
            return Some(Validation);
          }
        }
        if !FitsColumns(e.context) {
          return Some(WidthFailure);
        }
        if id in projections {
          return Some(Conflicting);
        }
        projections := projections[id := RecordRowOf(FirstRecord(e))];
      } else {
        var refused := CheckAgainstHistory(e);
        if refused.Some? {
          return refused;
        }
      }
      var insert := CheckEventInsert(Tables(), e);
      if insert.Some? {
        return insert;
      }
      if e.sequence > 0 {
        projections := projections[id := Updated(projections[id], e)];
      }
      invocations, events := projections, events + [RowOf(e)];
      return None;
    }

    /** The checks of a later event against the committed projection and history. */
    method CheckAgainstHistory(e: Event) returns (refused: Option<AppendError>)
      ensures refused == CheckCommitted(formats, Tables(), e)
      ensures refused.None? ==> e.context.invocationId in invocations
    {
      var id := e.context.invocationId;
      if id !in invocations {
        return Some(Conflicting);
      }
      var record := ScanRecord(formats, invocations[id]);
      if record.None? {
        return Some(IntegrityFailure);
      }
      if e.occurredAt < record.value.updatedAt {
        return Some(Validation);
      }
      var history := ReadEvents(formats, Tables(), id);
      if history.None? {
        return Some(IntegrityFailure);
      }
      var consistent := ValidateDetail(formats, record.value.context.workspaceId, record.value, history.value);
      if !consistent || !SameProjectionState(record.value, history.value) {
        return Some(IntegrityFailure);
      }
      var committed, accepted := ReplayThen(formats, history.value, e);
      if !committed {
        return Some(IntegrityFailure);
      }
      return if accepted then None else Some(Validation);
    }

    /** Selects the rows of one Trace in creation order; a row that cannot be scanned fails the whole query. */
    method QueryTrace(workspaceId: string, traceId: string) returns (rows: Option<seq<Record>>)
      requires Keyed(Tables())
      ensures rows.None? <==> Unreadable(formats, Tables(), workspaceId, traceId)
      ensures rows.Some? ==> ListsTrace(formats, Tables(), workspaceId, traceId, rows.value)
    {
      var selected: seq<Record>, pending := [], invocations.Keys;
      while pending != {}
        invariant pending <= invocations.Keys
        invariant DistinctIds(selected)
        invariant forall r :: r in selected <==> Id(r) !in pending && IsTraceRow(formats, Tables(), workspaceId, traceId, r)
        invariant forall id | id in invocations.Keys - pending && InTrace(invocations[id], workspaceId, traceId) ::
                    ScanRecord(formats, invocations[id]).Some?
        decreases pending
      {
        var id :| id in pending;
        pending := pending - {id};
        if InTrace(invocations[id], workspaceId, traceId) {
          var record := ScanRecord(formats, invocations[id]);
          if record.None? {
            return None;
          }
          forall r | r in selected ensures Id(r) != id {}
          DistinctSnoc(selected, record.value);
          selected := selected + [record.value];
        }
      }
      SortedTraceRows(selected);
      return Some(Sort(CreatedBefore, selected));
    }

    /** Reads one Trace, orders it parents first and validates it. */
    method GetTrace(workspaceId: string, traceId: string) returns (outcome: TraceOutcome)
      requires Keyed(Tables())
      ensures TraceAnswer(formats, Tables(), workspaceId, traceId, outcome)
    {
      var rows := QueryTrace(workspaceId, traceId);
      if rows.None? {
        return Broken;
      }
      if rows.value == [] {
        return NoTrace;
      }
      var ordered := OrderTrace(rows.value);
      if ordered.None? {
        return Broken;
      }
      var ok := ValidateTrace(formats, workspaceId, traceId, ordered.value);
      return if ok then Trace(ordered.value) else Broken;
    }
  }
}
