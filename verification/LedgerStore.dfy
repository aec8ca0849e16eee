/** The Invocation Ledger: an append-only event table and a projection table, changed only by Append. */
module LedgerStore {
  import opened Wrappers
  import opened RuntimeContracts

  /******* Table rows: nullable text, microsecond timestamps, and an error stored as its code *******/

  datatype ContextColumns = ContextColumns(context: Context, parent: Option<string>, release: Option<string>, digest: Option<seq<int>>)

  datatype EventRow = EventRow(
    eventId: string, sequence: int, occurredAtMicros: int, kind: EventType, status: Status, columns: ContextColumns,
    chunkIndex: Option<int>, chunkBytes: Option<int>, latencyMs: Option<int>, errorCode: Option<ErrorCode>)

  datatype RecordRow = RecordRow(
    columns: ContextColumns, status: Status, latencyMs: Option<int>, errorCode: Option<ErrorCode>,
    createdAtMicros: int, updatedAtMicros: int)

  datatype Db = Db(invocations: map<string, RecordRow>, events: seq<EventRow>)

  /** The last two both reach the caller as a dependency error: stored state that fails a check, and a text that
      is too wide for its column. */
  datatype AppendError = Validation | Conflicting | IntegrityFailure | WidthFailure

  const EMPTY := Db(map[], [])

  function Nullable(text: string): Option<string> {
    if text == "" then None else Some(text)
  }

  function Text(column: Option<string>): string {
    if column.Some? then column.value else ""
  }

  /******* The digest column holds bytes *******/

  function Nibble(c: char): int {
    if '0' <= c <= '9' then (c - '0') as int else if 'a' <= c <= 'f' then (c - 'a') as int + 10 else 0
  }

  function HexDigit(v: int): char
    requires 0 <= v < 16
  {
    if v < 10 then '0' + v as char else 'a' + (v - 10) as char
  }

  function HexDecode(s: string): seq<int> {
    if |s| < 2 then [] else [Nibble(s[0]) * 16 + Nibble(s[1])] + HexDecode(s[2..])
  }

  function HexEncode(bytes: seq<int>): string {
    if bytes == [] then "" else [HexDigit(bytes[0] / 16 % 16), HexDigit(bytes[0] % 16)] + HexEncode(bytes[1..])
  }

  lemma HexDigits(c: char, d: char)
    requires IsHexDigit(c) && IsHexDigit(d)
    ensures var b := Nibble(c) * 16 + Nibble(d); HexDigit(b / 16 % 16) == c && HexDigit(b % 16) == d
  {
    var b := Nibble(c) * 16 + Nibble(d);
    assert 0 <= Nibble(c) < 16 && 0 <= Nibble(d) < 16;
    assert b / 16 == Nibble(c) && b % 16 == Nibble(d);
  }

  lemma HexPair(s: string)
    requires |s| >= 2 && IsHexDigit(s[0]) && IsHexDigit(s[1])
    ensures |HexDecode(s)| == |HexDecode(s[2..])| + 1
    ensures HexEncode(HexDecode(s)) == s[..2] + HexEncode(HexDecode(s[2..]))
  {
    HexDigits(s[0], s[1]);
    var byte := Nibble(s[0]) * 16 + Nibble(s[1]);
    assert HexDecode(s) == [byte] + HexDecode(s[2..]);
    assert ([byte] + HexDecode(s[2..]))[1..] == HexDecode(s[2..]);
    assert s[..2] == [s[0], s[1]];
  }

  lemma {:induction false} HexRoundTrip(s: string, n: nat)
    requires |s| == 2 * n && forall i | 0 <= i < |s| :: IsHexDigit(s[i])
    ensures HexEncode(HexDecode(s)) == s && |HexDecode(s)| == n
  {
    if n != 0 {
      HexPair(s);
      HexRoundTrip(s[2..], n - 1);
      assert s == s[..2] + s[2..];
    }
  }

  function DigestBytes(text: string): Option<seq<int>> {
    if text == "" then None else Some(HexDecode(text))
  }

  /** The three nullable columns are blanked in `context`, so a row holds each value once. */
  function ColumnsOf(c: Context): ContextColumns {
    ContextColumns(c.(parentInvocationId := "", agentReleaseId := "", agentCardDigest := ""),
                   Nullable(c.parentInvocationId), Nullable(c.agentReleaseId), DigestBytes(c.agentCardDigest))
  }

  function ScanContext(columns: ContextColumns): Option<Context> {
    if columns.release.Some? != (columns.digest.Some? && columns.digest.value != []) then None
    else if columns.release.Some? && |columns.digest.value| != 32 then None
    else Some(columns.context.(parentInvocationId := Text(columns.parent),
                               agentReleaseId := Text(columns.release),
                               agentCardDigest := if columns.release.Some? then HexEncode(columns.digest.value) else ""))
  }

  function CodeOf(e: Event): Option<ErrorCode> {
    if e.error.Some? then Some(e.error.value.code) else None
  }

  predicate WholeMicros(instant: int) {
    instant % 1000 == 0
  }

  function RowOf(e: Event): EventRow {
    EventRow(e.eventId, e.sequence, e.occurredAt / 1000, e.kind, e.status, ColumnsOf(e.context),
             e.chunkIndex, e.chunkBytes, e.latencyMs, CodeOf(e))
  }

  function RecordRowOf(r: Record): RecordRow {
    RecordRow(ColumnsOf(r.context), r.status, r.latencyMs, r.errorCode, r.createdAt / 1000, r.updatedAt / 1000)
  }

  /** Rebuilds the correlated error from its code; a code or correlation outside the contract cannot be rebuilt. */
  function ScanError(f: Formats, c: Context, code: Option<ErrorCode>): Result<Option<PlatformError>, ()> {
    if code.None? then Success(None)
    else if KnownCode(code.value) && f.traceId(c.traceId) && f.identifier(c.invocationId) && f.identifier(c.rootTaskId) then
      Success(Some(PlatformError(code.value, c.traceId, c.invocationId, c.rootTaskId)))
    else Failure(())
  }

  function ScanEvent(f: Formats, row: EventRow): Option<Event> {
    var context := ScanContext(row.columns);
    if context.None? then None
    else
      var error := ScanError(f, context.value, row.errorCode);
      if error.Failure? then None
      else Some(Event(row.eventId, row.sequence, row.occurredAtMicros * 1000, row.kind, row.status, context.value,
                      row.chunkIndex, row.chunkBytes, row.latencyMs, error.value))
  }

  function ScanRecord(f: Formats, row: RecordRow): Option<Record> {
    var context := ScanContext(row.columns);
    if context.None? then None
    else Some(Record(context.value, row.status, row.latencyMs, row.errorCode,
                     row.createdAtMicros * 1000, row.updatedAtMicros * 1000))
  }

  lemma ContextRoundTrip(f: Formats, c: Context)
    requires ValidContext(f, c)
    ensures ScanContext(ColumnsOf(c)) == Some(c)
  {
    if c.agentCardDigest != "" {
      HexRoundTrip(c.agentCardDigest, 32);
    }
  }

  /** Storing an event as a row loses nothing. */
  lemma EventRoundTrip(f: Formats, e: Event)
    requires ValidEvent(f, e) && WholeMicros(e.occurredAt)
    ensures ScanEvent(f, RowOf(e)) == Some(e)
  {
    ContextRoundTrip(f, e.context);
  }

  lemma RecordRoundTrip(f: Formats, r: Record)
    requires ValidContext(f, r.context) && WholeMicros(r.createdAt) && WholeMicros(r.updatedAt)
    ensures ScanRecord(f, RecordRowOf(r)) == Some(r)
  {
    ContextRoundTrip(f, r.context);
  }

  /******* Queries *******/

  function RowsOf(rows: seq<EventRow>, id: string): seq<EventRow> {
    if rows == [] then []
    else
      var last := rows[|rows| - 1];
      RowsOf(rows[..|rows| - 1], id) + (if last.columns.context.invocationId == id then [last] else [])
  }

  function InsertBySequence(row: EventRow, rows: seq<EventRow>): seq<EventRow> {
    if rows == [] || rows[|rows| - 1].sequence <= row.sequence then rows + [row]
    else InsertBySequence(row, rows[..|rows| - 1]) + [rows[|rows| - 1]]
  }

  function OrderBySequence(rows: seq<EventRow>): seq<EventRow> {
    if rows == [] then [] else InsertBySequence(rows[|rows| - 1], OrderBySequence(rows[..|rows| - 1]))
  }

  function ScanAll(f: Formats, rows: seq<EventRow>): Option<seq<Event>> {
    if rows == [] then Some([])
    else
      var init := ScanAll(f, rows[..|rows| - 1]);
      var last := ScanEvent(f, rows[|rows| - 1]);
      if init.Some? && last.Some? then Some(init.value + [last.value]) else None
  }

  function ReadEvents(f: Formats, db: Db, id: string): Option<seq<Event>> {
    ScanAll(f, OrderBySequence(RowsOf(db.events, id)))
  }

  /******* Checks made on what was read *******/

  /** The stored detail is consistent: a valid record whose context and status are those of a legal history. */
  predicate ValidDetail(f: Formats, workspaceId: string, r: Record, h: seq<Event>) {
    && ValidRecord(f, r)
    && r.context.workspaceId == workspaceId
    && h != []
    && Replay(f, h).Success?
    && (forall e | e in h :: e.context == r.context)
    && r.status == h[|h| - 1].status
  }

  predicate SameProjectionState(r: Record, h: seq<Event>)
    requires h != []
  {
    && r.updatedAt == h[|h| - 1].occurredAt && r.createdAt == h[0].occurredAt
    && r.latencyMs == h[|h| - 1].latencyMs && r.errorCode == CodeOf(h[|h| - 1])
  }

  predicate NestedUnder(parent: Record, child: Event) {
    && parent.status.Running?
    && child.kind.Created? && child.status.Pending? && child.sequence == 0
    && child.context.parentInvocationId == parent.context.invocationId
    && child.context.invocationId != parent.context.invocationId
    && child.context.rootTaskId == parent.context.rootTaskId
    && child.context.traceId == parent.context.traceId
    && child.context.workspaceId == parent.context.workspaceId
    && child.context.caller == Caller(Agent, parent.context.targetAgentId)
  }

  /** The event table accepts fewer error codes than the event contract does. */
  predicate StorableCode(code: ErrorCode) {
    !code.AgentReleaseUnpublished? && !code.AgentReleaseSuspended? && !code.AgentReleaseRevoked?
  }

  predicate StorableError(e: Event) {
    e.error.Some? ==> StorableCode(e.error.value.code)
  }

  const VERSION_WIDTH := 128

  /** The version column is narrower than the event contract, which puts no bound on versions. */
  predicate FitsColumns(c: Context) {
    |c.agentCardVersion| <= VERSION_WIDTH
  }

  /******* Append *******/

  predicate ValidCandidate(f: Formats, e: Event) {
    && ValidEvent(f, e)
    && WholeMicros(e.occurredAt)
    && (e.sequence == 0 ==> Advance(f, START, e).Success?)
  }

  function FirstRecord(e: Event): Record {
    Record(e.context, e.status, None, None, e.occurredAt, e.occurredAt)
  }

  function CheckParent(f: Formats, db: Db, e: Event): Option<AppendError> {
    var parent := e.context.parentInvocationId;
    if parent == "" then None
    else if parent !in db.invocations then Some(Conflicting)
    else
      match ScanRecord(f, db.invocations[parent]) {
        case None => Some(IntegrityFailure)
        case Some(r) =>
          if !NestedUnder(r, e) then Some(Validation)
          else if e.occurredAt < r.updatedAt then Some(Validation)
          else None
      }
  }

  function CheckCommitted(f: Formats, db: Db, e: Event): Option<AppendError> {
    var id := e.context.invocationId;
    if id !in db.invocations then Some(Conflicting)
    else
      match ScanRecord(f, db.invocations[id]) {
        case None => Some(IntegrityFailure)
        case Some(r) =>
          if e.occurredAt < r.updatedAt then Some(Validation)
          else
            match ReadEvents(f, db, id) {
              case None => Some(IntegrityFailure)
              case Some(h) =>
                if !ValidDetail(f, r.context.workspaceId, r, h) then Some(IntegrityFailure)
                else if !SameProjectionState(r, h) then Some(IntegrityFailure)
                else
                  match Replay(f, h) {
                    case Failure(_) => Some(IntegrityFailure)
                    case Success(p) => if Advance(f, p, e).Failure? then Some(Validation) else None
                  }
            }
      }
  }

  /** Both unique keys of the event table: the event id, and the Invocation with its sequence. */
  predicate SameKey(row: EventRow, e: Event) {
    || row.eventId == e.eventId
    || (row.columns.context.invocationId == e.context.invocationId && row.sequence == e.sequence)
  }

  function CheckEventInsert(db: Db, e: Event): Option<AppendError> {
    if !FitsColumns(e.context) then Some(WidthFailure)
    else if !StorableError(e) then Some(Validation)
    else if exists row | row in db.events :: SameKey(row, e) then Some(Conflicting)
    else None
  }

  function Updated(row: RecordRow, e: Event): RecordRow {
    row.(status := e.status, latencyMs := e.latencyMs, errorCode := CodeOf(e), updatedAtMicros := e.occurredAt / 1000)
  }

  /** The first check that refuses the event, if any does. */
  function Refusal(f: Formats, db: Db, e: Event): Option<AppendError> {
    if !ValidCandidate(f, e) then Some(Validation)
    else
      var state := if e.sequence == 0 then CheckFirst(f, db, e) else CheckCommitted(f, db, e);
      if state.Some? then state else CheckEventInsert(db, e)
  }

  /** The parent is looked up first; a row is fitted to its columns before its primary key is looked up. */
  function CheckFirst(f: Formats, db: Db, e: Event): Option<AppendError> {
    var parent := CheckParent(f, db, e);
    if parent.Some? then parent
    else if !FitsColumns(e.context) then Some(WidthFailure)
    else if e.context.invocationId in db.invocations then Some(Conflicting)
    else None
  }

  function Written(db: Db, e: Event): Db {
    var id := e.context.invocationId;
    Db(if e.sequence == 0 then db.invocations[id := RecordRowOf(FirstRecord(e))]
       else if id in db.invocations then db.invocations[id := Updated(db.invocations[id], e)]
       else db.invocations,
       db.events + [RowOf(e)])
  }

  /** One Append transaction: the new tables, or the error after which nothing changed. */
  function AppendTo(f: Formats, db: Db, e: Event): Result<Db, AppendError> {
    match Refusal(f, db, e)
    case Some(error) => Failure(error)
    case None => Success(Written(db, e))
  }
}
