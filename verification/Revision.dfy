/** Revisions of one configuration observation. */
module Revision {
  import opened Wrappers

  const MAX_ORDER := 0xFFFF_FFFF_FFFF_FFFF

  type Order = n: int | 0 <= n <= MAX_ORDER

  /** A revision without a scope belongs to no observation. */
  datatype Revision = Revision(scope: Option<nat>, order: Order)

  function Advance(r: Revision): Option<Revision> {
    if r.scope.None? || r.order == MAX_ORDER then None else Some(Revision(r.scope, r.order + 1))
  }

  datatype Verdict = Follows | OutOfOrder | Duplicate | Stale | Gap

  function ValidateNext(previous: Revision, candidate: Revision): Verdict {
    if previous.scope.None? || candidate.scope.None? || previous.scope != candidate.scope then OutOfOrder
    else if candidate.order == previous.order then Duplicate
    else if candidate.order < previous.order then Stale
    else if previous.order == MAX_ORDER || candidate.order != previous.order + 1 then Gap
    else Follows
  }

  /** The revision accepted next is the advanced one, and no other. */
  lemma FollowsExactly(previous: Revision, candidate: Revision)
    ensures ValidateNext(previous, candidate).Follows? <==> Advance(previous) == Some(candidate)
  {
  }
}
