/** Nested Invocations: deriving a child from a committed parent. */
module Nested {
  import opened Wrappers
  import opened RuntimeContracts
  import opened LedgerStore
  import opened LedgerInvariants
  import opened TraceOrder
  import opened Lineage
  import opened Attempts
  import opened Dispatch

  datatype AuthenticatedAgent = AuthenticatedAgent(agentId: string, workspaceId: string)

  datatype ChildContext = ChildContext(childId: string, parent: Record, caller: Caller, workspaceId: string, rootTaskId: string, traceId: string)

  datatype DeriveError = ParentNotFound | ParentNotRunning | TargetMismatch | WorkspaceMismatch

  /** The child identity is drawn at random; everything else comes from the committed parent. */
  function DeriveChild(parent: Record, agent: AuthenticatedAgent, childId: string): Result<ChildContext, DeriveError> {
    if parent.context.invocationId == "" then Failure(ParentNotFound)
    else if !parent.status.Running? then Failure(ParentNotRunning)
    else if parent.context.targetAgentId != agent.agentId then Failure(TargetMismatch)
    else if parent.context.workspaceId != agent.workspaceId then Failure(WorkspaceMismatch)
    else Success(ChildContext(childId, parent, Caller(Agent, agent.agentId),
                              parent.context.workspaceId, parent.context.rootTaskId, parent.context.traceId))
  }

  /** What the nested request itself may choose. */
  datatype NestedRequest = NestedRequest(targetAgentId: string, capability: string, version: string, releaseId: string, digest: string)

  function ChildRequest(child: ChildContext, request: NestedRequest): Context {
    Context(child.childId, child.rootTaskId, child.parent.context.invocationId, child.traceId, child.caller, child.workspaceId,
            request.targetAgentId, request.version, request.releaseId, request.digest, request.capability)
  }

  /** A derived child satisfies the store's nested check against its parent, however far that parent has streamed since. */
  lemma DerivedChildIsNested(w: World, parent: Record, now: Record, agent: AuthenticatedAgent, childId: string, request: NestedRequest, start: int)
    requires DeriveChild(parent, agent, childId).Success?
    requires now.context == parent.context && now.status.Running?
    requires childId != parent.context.invocationId
    ensures var c := ChildRequest(DeriveChild(parent, agent, childId).value, request);
            NestedUnder(now, InitialEvent(w, c, start, 0)) && Inherits(parent.context, c)
  {
  }

  /** A created event of an unknown Invocation is decided by its parent, its own fields and its id. */
  lemma FirstDecided(f: Formats, db: Db, log: seq<Event>, e: Event)
    requires Inv(f, db, log) && History(log, e.context.invocationId) == []
    requires e.sequence == 0 && e.kind.Created? && e.status.Pending? && e.error.None? && WholeMicros(e.occurredAt)
    ensures AppendTo(f, db, e).Success? <==>
            ParentAdmits(log, e) && ValidEvent(f, e) && FitsColumns(e.context) && FreshEventId(log, e)
  {
    FirstLegal(f, [], e);
    AppendExactly(f, db, log, e);
  }

  /** The first event of a derived child. */
  function ChildEvent(w: World, parent: Record, agent: AuthenticatedAgent, childId: string, request: NestedRequest, start: int): Event
    requires DeriveChild(parent, agent, childId).Success?
  {
    InitialEvent(w, ChildRequest(DeriveChild(parent, agent, childId).value, request), start, 0)
  }

  lemma ChildEventShape(w: World, parent: Record, agent: AuthenticatedAgent, childId: string, request: NestedRequest, start: int)
    requires DeriveChild(parent, agent, childId).Success?
    ensures var e := ChildEvent(w, parent, agent, childId, request, start);
            && e.sequence == 0 && e.kind.Created? && e.status.Pending? && e.error.None? && e.occurredAt == start
            && e.context.invocationId == childId && e.context.parentInvocationId == parent.context.invocationId != ""
  {
  }

  /** Its parent admits it exactly while it runs and is not ahead of it in time. */
  lemma ParentDecides(log: seq<Event>, w: World, parent: Record, now: Record, agent: AuthenticatedAgent, childId: string, request: NestedRequest, start: int)
    requires DeriveChild(parent, agent, childId).Success?
    requires IsRecordOf(log, now) && now.context == parent.context && childId != parent.context.invocationId
    ensures ParentAdmits(log, ChildEvent(w, parent, agent, childId, request, start)) <==> now.status.Running? && now.updatedAt <= start
  {
    ChildEventShape(w, parent, agent, childId, request, start);
    if now.status.Running? {
      DerivedChildIsNested(w, parent, now, agent, childId, request, start);
    }
  }

  /** The first event of a derived child is admitted by a reachable store that does not know it exactly when its parent
      still runs and is not ahead of it in time, its own fields are valid and fit, and its event id is fresh. */
  lemma DerivedChildIsAdmitted(f: Formats, db: Db, log: seq<Event>, w: World, parent: Record, now: Record, agent: AuthenticatedAgent, childId: string, request: NestedRequest, start: int)
    requires Inv(f, db, log) && DeriveChild(parent, agent, childId).Success?
    requires IsRecordOf(log, now) && now.context == parent.context
    requires History(log, childId) == [] && WholeMicros(start)
    ensures var e := ChildEvent(w, parent, agent, childId, request, start);
            AppendTo(f, db, e).Success? <==>
            && now.status.Running? && now.updatedAt <= start
            && ValidEvent(f, e) && FitsColumns(e.context) && FreshEventId(log, e)
  {
    ChildEventShape(w, parent, agent, childId, request, start);
    assert History(log, now.context.invocationId) != [];
    ParentDecides(log, w, parent, now, agent, childId, request, start);
    FirstDecided(f, db, log, ChildEvent(w, parent, agent, childId, request, start));
  }
}
