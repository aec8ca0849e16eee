/** Parent links across every Append run: a forest inside one Workspace and Trace, with one root task per tree. */
module Lineage {
  import opened Wrappers
  import opened RuntimeContracts
  import opened LedgerStore
  import opened LedgerInvariants
  import opened TraceOrder

  /******* Ancestry *******/

  predicate SameLineage(a: Context, b: Context) {
    a.workspaceId == b.workspaceId && a.rootTaskId == b.rootTaskId && a.traceId == b.traceId
  }

  /** The created event at `p` is of the Invocation that the created event at `c` names as its parent. */
  predicate Linked(log: seq<Event>, p: nat, c: nat)
    requires p < |log| && c < |log|
  {
    && log[p].sequence == 0 && log[c].sequence == 0
    && log[c].context.parentInvocationId != "" && log[p].context.invocationId == log[c].context.parentInvocationId
  }

  /** `a` is reached from `c` by `n` parent ids through committed created events. */
  ghost predicate Ancestor(log: seq<Event>, a: nat, c: nat, n: nat)
    requires a < |log| && c < |log|
    decreases n
  {
    if n == 0 then a == c
    else exists p: nat :: p < |log| && Linked(log, p, c) && Ancestor(log, a, p, n - 1)
  }

  /** An Invocation has one created event. */
  lemma CreatedOnce(f: Formats, db: Db, log: seq<Event>, i: nat, j: nat)
    requires Inv(f, db, log) && i < |log| && j < |log|
    requires log[i].sequence == 0 && log[j].sequence == 0 && log[i].context.invocationId == log[j].context.invocationId
    ensures i == j
  {
    var h := History(log, log[i].context.invocationId);
    HistoryMembers(log, log[i].context.invocationId);
    assert GoodHistory(f, h) && log[i] in h && log[j] in h;
    var k, l :| 0 <= k < |h| && h[k] == log[i] && 0 <= l < |h| && h[l] == log[j];
    assert LegalAt(f, h, k) && LegalAt(f, h, l);
  }

  /** Naming a parent is inheriting from it: the parent came first, and the child was called by the parent's target. */
  lemma LinkInherits(f: Formats, db: Db, log: seq<Event>, p: nat, c: nat)
    requires Inv(f, db, log) && p < |log| && c < |log| && Linked(log, p, c)
    ensures p < c && Inherits(log[p].context, log[c].context) && log[p].occurredAt <= log[c].occurredAt
  {
    assert ParentCommitted(log, c);
    var j: nat :| j < c && log[j].sequence == 0 && Inherits(log[j].context, log[c].context)
                  && log[j].occurredAt <= log[c].occurredAt;
    CreatedOnce(f, db, log, j, p);
  }

  ghost predicate LinksInherit(log: seq<Event>) {
    forall p: nat, c: nat {:trigger Linked(log, p, c)} | p < |log| && c < |log| && Linked(log, p, c) ::
      p < c && Inherits(log[p].context, log[c].context) && log[p].occurredAt <= log[c].occurredAt
  }

  lemma EveryLinkInherits(f: Formats, db: Db, log: seq<Event>)
    requires Inv(f, db, log)
    ensures LinksInherit(log)
  {
    forall p: nat, c: nat | p < |log| && c < |log| && Linked(log, p, c)
      ensures p < c && Inherits(log[p].context, log[c].context) && log[p].occurredAt <= log[c].occurredAt
    {
      LinkInherits(f, db, log, p, c);
    }
  }

  lemma {:induction false} AncestorInherits(log: seq<Event>, a: nat, c: nat, n: nat)
    requires LinksInherit(log) && a < |log| && c < |log| && Ancestor(log, a, c, n)
    ensures SameLineage(log[a].context, log[c].context)
    ensures a + n <= c && log[a].occurredAt <= log[c].occurredAt
    decreases n
  {
    if n > 0 {
      var p: nat :| p < |log| && Linked(log, p, c) && Ancestor(log, a, p, n - 1);
      AncestorInherits(log, a, p, n - 1);
    }
  }

  /** In every reachable store, following parent ids keeps the lineage and only goes back: no cycle, no crossing. */
  lemma AncestorsShareLineage(f: Formats, candidates: seq<Event>, a: nat, c: nat, n: nat)
    requires var log := Run(f, candidates).1; a < |log| && c < |log| && Ancestor(log, a, c, n)
    ensures var log := Run(f, candidates).1; SameLineage(log[a].context, log[c].context)
    ensures a + n <= c && Run(f, candidates).1[a].occurredAt <= Run(f, candidates).1[c].occurredAt
  {
    RunInvariant(f, candidates);
    EveryLinkInherits(f, Run(f, candidates).0, Run(f, candidates).1);
    AncestorInherits(Run(f, candidates).1, a, c, n);
  }

  /** Every created event descends, through parent ids that strictly precede it, from a parentless one of its own lineage. */
  lemma {:induction false} RootAncestor(f: Formats, db: Db, log: seq<Event>, i: nat) returns (root: nat, depth: nat)
    requires Inv(f, db, log) && i < |log| && log[i].sequence == 0
    ensures root <= i && log[root].sequence == 0 && log[root].context.parentInvocationId == ""
    ensures depth <= i && Ancestor(log, root, i, depth)
    ensures SameLineage(log[root].context, log[i].context)
    decreases i
  {
    if log[i].context.parentInvocationId == "" {
      root, depth := i, 0;
    } else {
      assert ParentCommitted(log, i);
      var j: nat :| j < i && log[j].sequence == 0 && Inherits(log[j].context, log[i].context)
                    && log[j].occurredAt <= log[i].occurredAt;
      root, depth := RootAncestor(f, db, log, j);
      depth := depth + 1;
      assert Linked(log, j, i) && Ancestor(log, root, j, depth - 1);
    }
    EveryLinkInherits(f, db, log);
    AncestorInherits(log, root, i, depth);
  }

  /******* One Trace's projections *******/

  /** The stored projection of an Invocation, as the log determines it. */
  ghost predicate IsRecordOf(log: seq<Event>, r: Record) {
    History(log, Id(r)) != [] && r == Project(History(log, Id(r)))
  }

  /** The rows of one Workspace and Trace, each once, in whatever order they were read. */
  ghost predicate TraceRows(log: seq<Event>, workspaceId: string, traceId: string, rows: seq<Record>) {
    && (forall r :: r in rows <==> IsRecordOf(log, r) && r.context.workspaceId == workspaceId && r.context.traceId == traceId)
    && DistinctIds(rows)
  }

  /** The record of a created event's Invocation carries that event's context. */
  lemma RecordOfCreated(f: Formats, db: Db, log: seq<Event>, i: nat) returns (r: Record)
    requires Inv(f, db, log) && i < |log|
    ensures IsRecordOf(log, r) && r.context == log[i].context
  {
    var id := log[i].context.invocationId;
    HistoryMembers(log, id);
    assert log[i] in History(log, id);
    HistoryStart(f, db, log, id);
    r := Project(History(log, id));
  }

  /** The parent of a nested row is a row of the same Trace, created earlier. */
  lemma ParentRow(f: Formats, db: Db, log: seq<Event>, ws: string, tr: string, rows: seq<Record>, i: nat, r: Record) returns (j: nat, p: Record)
    requires Inv(f, db, log) && TraceRows(log, ws, tr, rows)
    requires i < |log| && log[i].sequence == 0 && r in rows && r.context == log[i].context && Parent(r) != ""
    ensures j < i && log[j].sequence == 0 && p in rows && p.context == log[j].context
    ensures Id(p) == Parent(r) && p.context.rootTaskId == r.context.rootTaskId
  {
    assert ParentCommitted(log, i);
    j :| 0 <= j < i && log[j].sequence == 0 && Inherits(log[j].context, log[i].context)
         && log[j].occurredAt <= log[i].occurredAt;
    p := RecordOfCreated(f, db, log, j);
  }

  /** A record's chain of parents stays inside its Trace and ends at a parentless record of the same root task. */
  lemma {:induction false} RecordGrounded(f: Formats, db: Db, log: seq<Event>, ws: string, tr: string, rows: seq<Record>, i: nat, r: Record)
    returns (root: Record)
    requires Inv(f, db, log) && TraceRows(log, ws, tr, rows)
    requires i < |log| && log[i].sequence == 0 && r in rows && r.context == log[i].context
    ensures Grounded(rows, r, i)
    ensures root in rows && Parent(root) == "" && root.context.rootTaskId == r.context.rootTaskId
    decreases i
  {
    if Parent(r) == "" {
      root := r;
    } else {
      var j, p := ParentRow(f, db, log, ws, tr, rows, i, r);
      root := RecordGrounded(f, db, log, ws, tr, rows, j, p);
      GroundedLink(rows, r, p, j, i);
    }
  }

  lemma RecordRooted(f: Formats, db: Db, log: seq<Event>, ws: string, tr: string, rows: seq<Record>, r: Record) returns (root: Record)
    requires Inv(f, db, log) && TraceRows(log, ws, tr, rows) && r in rows
    ensures Rooted(rows, r)
    ensures root in rows && Parent(root) == "" && root.context.rootTaskId == r.context.rootTaskId
  {
    HistoryStart(f, db, log, Id(r));
    var e := History(log, Id(r))[0];
    var i :| 0 <= i < |log| && log[i] == e;
    root := RecordGrounded(f, db, log, ws, tr, rows, i, r);
  }

  /** Ordering a stored Trace never reports a missing or cyclic lineage. */
  lemma TraceAlwaysOrders(f: Formats, db: Db, log: seq<Event>, ws: string, tr: string, rows: seq<Record>, result: Option<seq<Record>>)
    requires Inv(f, db, log) && TraceRows(log, ws, tr, rows) && OrderingOf(rows, result)
    ensures result.Some?
  {
    forall r | r in rows ensures Rooted(rows, r) {
      var _ := RecordRooted(f, db, log, ws, tr, rows, r);
    }
  }

  /******* Trace validation *******/

  ghost predicate ValidTraceAt(f: Formats, ws: string, tr: string, rs: seq<Record>, i: nat)
    requires i < |rs|
  {
    && ValidRecord(f, rs[i])
    && rs[i].context.workspaceId == ws && rs[i].context.traceId == tr
    && rs[i].context.rootTaskId == rs[0].context.rootTaskId
    && (forall j | 0 <= j < i :: Id(rs[j]) != Id(rs[i]))
    && (Parent(rs[i]) != "" ==> Parent(rs[i]) != Id(rs[i]) && exists j: nat :: j < i && Id(rs[j]) == Parent(rs[i]))
  }

  ghost predicate ValidTrace(f: Formats, ws: string, tr: string, rs: seq<Record>) {
    rs != [] && forall i: nat | i < |rs| :: ValidTraceAt(f, ws, tr, rs, i)
  }

  ghost predicate RootsAgree(rows: seq<Record>) {
    forall a, b | a in rows && b in rows && Parent(a) == "" && Parent(b) == "" :: a.context.rootTaskId == b.context.rootTaskId
  }

  predicate NonzeroTimes(r: Record) {
    r.createdAt != 0 && r.updatedAt != 0
  }

  lemma OneRootTask(f: Formats, db: Db, log: seq<Event>, ws: string, tr: string, rows: seq<Record>, a: Record, b: Record)
    requires Inv(f, db, log) && TraceRows(log, ws, tr, rows) && RootsAgree(rows) && a in rows && b in rows
    ensures a.context.rootTaskId == b.context.rootTaskId
  {
    var _ := RecordRooted(f, db, log, ws, tr, rows, a);
    var _ := RecordRooted(f, db, log, ws, tr, rows, b);
  }

  lemma RecordParts(f: Formats, db: Db, log: seq<Event>, r: Record)
    requires Inv(f, db, log) && IsRecordOf(log, r)
    ensures ValidRecord(f, r) <==> NonzeroTimes(r)
    ensures Parent(r) != Id(r) || Parent(r) == ""
  {
    var h := History(log, Id(r));
    HistoryStart(f, db, log, Id(r));
    HistoryMembers(log, Id(r));
    assert h[|h| - 1] in h;
    var i :| 0 <= i < |log| && log[i] == h[0];
    if Parent(r) != "" {
      assert ParentCommitted(log, i);
    }
  }

  lemma SameMembers(rows: seq<Record>, ordered: seq<Record>)
    requires multiset(ordered) == multiset(rows)
    ensures forall r :: r in rows <==> r in ordered
    ensures |rows| == |ordered|
  {
    assert |multiset(rows)| == |multiset(ordered)|;
    forall r ensures r in rows <==> r in ordered {
      assert r in multiset(rows) <==> r in multiset(ordered);
    }
  }

  lemma AgreeingTraceValid(f: Formats, db: Db, log: seq<Event>, ws: string, tr: string, rows: seq<Record>, ordered: seq<Record>, i: nat)
    requires Inv(f, db, log) && TraceRows(log, ws, tr, rows) && RootsAgree(rows)
    requires ParentsFirst(ordered) && DistinctIds(ordered) && (forall r :: r in rows <==> r in ordered)
    requires i < |ordered| && NonzeroTimes(ordered[i])
    ensures ValidTraceAt(f, ws, tr, ordered, i)
  {
    assert ordered[i] in ordered && ordered[0] in ordered;
    assert IsRecordOf(log, ordered[i]);
    RecordParts(f, db, log, ordered[i]);
    OneRootTask(f, db, log, ws, tr, rows, ordered[i], ordered[0]);
    assert ParentEarlier(ordered, i);
  }

  /** An ordered stored Trace validates exactly when its parentless Invocations share a root task
      (and no projection is at the zero instant). */
  lemma TraceValidExactly(f: Formats, db: Db, log: seq<Event>, ws: string, tr: string, rows: seq<Record>, ordered: seq<Record>)
    requires Inv(f, db, log) && TraceRows(log, ws, tr, rows) && rows != []
    requires OrderingOf(rows, Some(ordered))
    ensures ValidTrace(f, ws, tr, ordered) <==> RootsAgree(rows) && forall r | r in rows :: NonzeroTimes(r)
  {
    PermutationKeepsDistinct(rows, ordered);
    SameMembers(rows, ordered);
    if RootsAgree(rows) && forall r | r in rows :: NonzeroTimes(r) {
      forall i: nat | i < |ordered| ensures ValidTraceAt(f, ws, tr, ordered, i) {
        assert ordered[i] in ordered;
        AgreeingTraceValid(f, db, log, ws, tr, rows, ordered, i);
      }
    }
    if ValidTrace(f, ws, tr, ordered) {
      forall r | r in rows ensures NonzeroTimes(r) && r.context.rootTaskId == ordered[0].context.rootTaskId {
        var i :| 0 <= i < |ordered| && ordered[i] == r;
        assert ValidTraceAt(f, ws, tr, ordered, i);
      }
    }
  }
}
