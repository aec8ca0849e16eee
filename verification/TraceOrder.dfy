/** Ordering a Trace so that every parent precedes its children, with in-place compaction of what remains. */
module TraceOrder {
  import opened Wrappers
  import opened RuntimeContracts

  function Id(r: Record): string { r.context.invocationId }
  function Parent(r: Record): string { r.context.parentInvocationId }

  /******* What the ordering must achieve, independently of how *******/

  /** The record's parent chain ends at a parentless record within `n` links, all inside `rs`. */
  ghost predicate Grounded(rs: seq<Record>, r: Record, n: nat)
    decreases n
  {
    Parent(r) == "" || (n > 0 && exists p :: p in rs && Id(p) == Parent(r) && Grounded(rs, p, n - 1))
  }

  ghost predicate Rooted(rs: seq<Record>, r: Record) {
    exists n: nat :: Grounded(rs, r, n)
  }

  ghost predicate ParentEarlier(rs: seq<Record>, i: nat)
    requires i < |rs|
  {
    Parent(rs[i]) == "" || exists j: nat :: j < i && Id(rs[j]) == Parent(rs[i])
  }

  ghost predicate ParentsFirst(rs: seq<Record>) {
    forall i: nat | i < |rs| :: ParentEarlier(rs, i)
  }

  /******* One pass over the remaining records *******/

  datatype Pass = Pass(out: seq<Record>, kept: seq<Record>, emitted: set<string>)

  predicate Emittable(r: Record, emitted: set<string>) {
    Parent(r) == "" || Parent(r) in emitted
  }

  function Take(p: Pass, r: Record): Pass {
    if Emittable(r, p.emitted) then Pass(p.out + [r], p.kept, p.emitted + {Id(r)})
    else Pass(p.out, p.kept + [r], p.emitted)
  }

  function OnePass(rs: seq<Record>, emitted: set<string>): Pass {
    if rs == [] then Pass([], [], emitted)
    else Take(OnePass(rs[..|rs| - 1], emitted), rs[|rs| - 1])
  }

  function Ids(rs: seq<Record>): set<string> {
    set r | r in rs :: Id(r)
  }

  lemma IdsSnoc(rs: seq<Record>, r: Record)
    ensures Ids(rs + [r]) == Ids(rs) + {Id(r)}
  {
    assert forall x :: x in rs + [r] <==> x in rs || x == r;
  }

  lemma {:induction false} PassSplits(rs: seq<Record>, emitted: set<string>)
    ensures var p := OnePass(rs, emitted);
            && multiset(p.out) + multiset(p.kept) == multiset(rs)
            && |p.out| + |p.kept| == |rs|
            && p.emitted == emitted + Ids(p.out)
  {
    if rs != [] {
      var init, last := rs[..|rs| - 1], rs[|rs| - 1];
      assert rs == init + [last];
      PassSplits(init, emitted);
      var q := OnePass(init, emitted);
      if Emittable(last, q.emitted) {
        IdsSnoc(q.out, last);
      }
    }
  }

  /** The pass keeps earlier output parents-first. */
  lemma {:induction false} PassOrdered(before: seq<Record>, rs: seq<Record>)
    requires ParentsFirst(before)
    ensures ParentsFirst(before + OnePass(rs, Ids(before)).out)
  {
    if rs == [] {
      assert before + [] == before;
    } else {
      var init, last := rs[..|rs| - 1], rs[|rs| - 1];
      PassOrdered(before, init);
      PassSplits(init, Ids(before));
      var q := OnePass(init, Ids(before));
      if Emittable(last, q.emitted) {
        OrderedSnoc(before + q.out, last);
        assert Ids(before + q.out) == Ids(before) + Ids(q.out);
        assert before + (q.out + [last]) == (before + q.out) + [last];
      }
    }
  }

  lemma OrderedSnoc(rs: seq<Record>, r: Record)
    requires ParentsFirst(rs) && Emittable(r, Ids(rs))
    ensures ParentsFirst(rs + [r])
  {
    var g := rs + [r];
    forall i: nat | i < |g| ensures ParentEarlier(g, i) {
      if i < |rs| {
        assert ParentEarlier(rs, i);
        if Parent(rs[i]) != "" {
          var j: nat :| j < i && Id(rs[j]) == Parent(rs[i]);
          assert Id(g[j]) == Parent(g[i]);
        }
      } else if Parent(r) != "" {
        var p :| p in rs && Id(p) == Parent(r);
        var j :| 0 <= j < |rs| && rs[j] == p;
        assert Id(g[j]) == Parent(g[i]);
      }
    }
  }

  /** A pass that emits nothing found only records whose parent was never emitted. */
  lemma {:induction false} StuckPass(rs: seq<Record>, emitted: set<string>)
    requires OnePass(rs, emitted).out == []
    ensures forall r | r in rs :: !Emittable(r, emitted)
  {
    if rs != [] {
      var init, last := rs[..|rs| - 1], rs[|rs| - 1];
      assert rs == init + [last];
      StuckPass(init, emitted);
      PassSplits(init, emitted);
    }
  }

  lemma OrderedPrefix(rs: seq<Record>, n: nat)
    requires ParentsFirst(rs) && n <= |rs|
    ensures ParentsFirst(rs[..n])
  {
    forall i: nat | i < n ensures ParentEarlier(rs[..n], i) {
      assert ParentEarlier(rs, i);
      if Parent(rs[i]) != "" {
        var j: nat :| j < i && Id(rs[j]) == Parent(rs[i]);
        assert Id(rs[..n][j]) == Parent(rs[..n][i]);
      }
    }
  }

  lemma OrderedEmittable(rs: seq<Record>, n: nat)
    requires ParentsFirst(rs) && n < |rs|
    ensures Emittable(rs[n], Ids(rs[..n]))
  {
    assert ParentEarlier(rs, n);
    if Parent(rs[n]) != "" {
      var j: nat :| j < n && Id(rs[j]) == Parent(rs[n]);
      assert rs[..n][j] == rs[j] && rs[j] in rs[..n];
    }
  }

  /** Input already in parent-first order is emitted whole, in its own order, by one pass. */
  lemma {:induction false} OrderedPass(rs: seq<Record>)
    requires ParentsFirst(rs)
    ensures OnePass(rs, {}) == Pass(rs, [], Ids(rs))
  {
    if rs != [] {
      var n := |rs| - 1;
      OrderedPrefix(rs, n);
      OrderedPass(rs[..n]);
      OrderedEmittable(rs, n);
      assert rs == rs[..n] + [rs[n]];
      IdsSnoc(rs[..n], rs[n]);
    }
  }

  ghost predicate DistinctIds(rs: seq<Record>) {
    forall i, j | 0 <= i < j < |rs| :: Id(rs[i]) != Id(rs[j])
  }

  lemma DistinctSnoc(rs: seq<Record>, r: Record)
    ensures DistinctIds(rs + [r]) <==> DistinctIds(rs) && Id(r) !in Ids(rs)
  {
    var g := rs + [r];
    if DistinctIds(g) {
      forall i, j | 0 <= i < j < |rs| ensures Id(rs[i]) != Id(rs[j]) { assert Id(g[i]) != Id(g[j]); }
      forall x | x in rs ensures Id(x) != Id(r) {
        var i :| 0 <= i < |rs| && rs[i] == x;
        assert Id(g[i]) != Id(g[|rs|]);
      }
    }
    if DistinctIds(rs) && Id(r) !in Ids(rs) {
      forall i, j | 0 <= i < j < |g| ensures Id(g[i]) != Id(g[j]) {
        assert g[i] == rs[i] && rs[i] in rs;
      }
    }
  }

  /** Ids are distinct exactly when there are as many of them as records. */
  lemma {:induction false} DistinctCount(rs: seq<Record>)
    ensures |Ids(rs)| <= |rs|
    ensures DistinctIds(rs) <==> |Ids(rs)| == |rs|
  {
    if rs == [] {
      assert Ids(rs) == {};
    } else {
      var init, last := rs[..|rs| - 1], rs[|rs| - 1];
      DistinctCount(init);
      assert rs == init + [last];
      IdsSnoc(init, last);
      DistinctSnoc(init, last);
    }
  }

  lemma PermutationKeepsDistinct(rs: seq<Record>, ordered: seq<Record>)
    requires multiset(ordered) == multiset(rs) && DistinctIds(rs)
    ensures DistinctIds(ordered)
  {
    DistinctCount(rs);
    DistinctCount(ordered);
    forall r ensures r in rs <==> r in ordered {
      assert r in multiset(rs) <==> r in multiset(ordered);
    }
    assert Ids(rs) == Ids(ordered);
    assert |multiset(rs)| == |multiset(ordered)|;
  }

  /******* Chains *******/

  lemma {:induction false} GroundedMore(rs: seq<Record>, r: Record, n: nat, m: nat)
    requires Grounded(rs, r, n) && n <= m
    ensures Grounded(rs, r, m)
    decreases n
  {
    if Parent(r) != "" {
      var p :| p in rs && Id(p) == Parent(r) && Grounded(rs, p, n - 1);
      GroundedMore(rs, p, n - 1, m - 1);
    }
  }

  lemma GroundedLink(rs: seq<Record>, r: Record, p: Record, j: nat, i: nat)
    requires p in rs && Id(p) == Parent(r) && Grounded(rs, p, j) && j < i
    ensures Grounded(rs, r, i)
  {
    GroundedMore(rs, p, j, i - 1);
  }

  /** Whatever stands in a parents-first sequence is rooted in it. */
  lemma {:induction false} OrderedIsGrounded(rs: seq<Record>, i: nat)
    requires ParentsFirst(rs) && i < |rs|
    ensures Grounded(rs, rs[i], i)
  {
    assert ParentEarlier(rs, i);
    if Parent(rs[i]) != "" {
      var j: nat :| j < i && Id(rs[j]) == Parent(rs[i]);
      OrderedIsGrounded(rs, j);
      GroundedMore(rs, rs[j], j, i - 1);
    }
  }

  /** When no remaining record can be emitted, none of them is rooted. */
  lemma {:induction false} StuckIsUnrooted(rs: seq<Record>, emitted: seq<Record>, kept: seq<Record>, r: Record, n: nat)
    requires multiset(rs) == multiset(emitted) + multiset(kept)
    requires forall k | k in kept :: !Emittable(k, Ids(emitted))
    requires r in kept
    ensures !Grounded(rs, r, n)
    decreases n
  {
    if n > 0 {
      forall p | p in rs && Id(p) == Parent(r) ensures !Grounded(rs, p, n - 1) {
        assert p in multiset(rs);
        assert p !in emitted;
        assert p in multiset(kept);
        StuckIsUnrooted(rs, emitted, kept, p, n - 1);
      }
    }
  }

  /******* The ordering *******/

  ghost predicate OrderingOf(rs: seq<Record>, result: Option<seq<Record>>) {
    && (result.Some? <==> forall r | r in rs :: Rooted(rs, r))
    && (result.Some? ==> multiset(result.value) == multiset(rs) && ParentsFirst(result.value))
    && (ParentsFirst(rs) ==> result == Some(rs))
  }

  lemma OrderingDone(rs: seq<Record>, ordered: seq<Record>)
    requires multiset(ordered) == multiset(rs) && ParentsFirst(ordered)
    ensures forall r | r in rs :: Rooted(rs, r)
  {
    forall r | r in rs ensures Rooted(rs, r) {
      assert r in multiset(ordered);
      var i :| 0 <= i < |ordered| && ordered[i] == r;
      OrderedIsGrounded(ordered, i);
      SameMembersGrounded(ordered, rs, r, i);
    }
  }

  lemma {:induction false} SameMembersGrounded(a: seq<Record>, b: seq<Record>, r: Record, n: nat)
    requires multiset(a) == multiset(b) && Grounded(a, r, n)
    ensures Grounded(b, r, n)
    decreases n
  {
    if Parent(r) != "" {
      var p :| p in a && Id(p) == Parent(r) && Grounded(a, p, n - 1);
      assert p in multiset(b);
      SameMembersGrounded(a, b, p, n - 1);
    }
  }

  /** What holds between passes: nothing lost, the output parents-first, and an ordered input untouched or done. */
  ghost predicate Between(values: seq<Record>, ordered: seq<Record>, waiting: seq<Record>) {
    && multiset(ordered) + multiset(waiting) == multiset(values)
    && ParentsFirst(ordered)
    && (ordered == [] ==> waiting == values)
    && (ParentsFirst(values) ==> ordered == [] || (ordered == values && waiting == []))
  }

  lemma PassProgresses(values: seq<Record>, ordered: seq<Record>, waiting: seq<Record>)
    requires Between(values, ordered, waiting) && waiting != []
    requires OnePass(waiting, Ids(ordered)).out != []
    ensures var p := OnePass(waiting, Ids(ordered));
            && Between(values, ordered + p.out, p.kept)
            && p.emitted == Ids(ordered + p.out)
            && |p.kept| < |waiting|
  {
    PassSplits(waiting, Ids(ordered));
    PassOrdered(ordered, waiting);
    var p := OnePass(waiting, Ids(ordered));
    assert Ids(ordered + p.out) == Ids(ordered) + Ids(p.out);
    if ParentsFirst(values) {
      OrderedPass(values);
      assert Ids([]) == {};
      assert ordered + p.out == p.out;
    }
  }

  lemma PassStuck(values: seq<Record>, ordered: seq<Record>, waiting: seq<Record>)
    requires Between(values, ordered, waiting) && waiting != []
    requires OnePass(waiting, Ids(ordered)).out == []
    ensures OrderingOf(values, None)
  {
    StuckPass(waiting, Ids(ordered));
    var stuck := waiting[0];
    assert stuck in multiset(values);
    forall n: nat ensures !Grounded(values, stuck, n) {
      StuckIsUnrooted(values, ordered, waiting, stuck, n);
    }
    assert stuck in values && !Rooted(values, stuck);
    if ParentsFirst(values) {
      var i :| 0 <= i < |values| && values[i] == stuck;
      OrderedIsGrounded(values, i);
    }
  }

  /** One pass over the first `count` slots, compacting the records that must wait into the front of the same array. */
  method CompactPass(remaining: array<Record>, count: nat, emitted: set<string>) returns (out: seq<Record>, emitted': set<string>, next: nat)
    requires count <= remaining.Length
    modifies remaining
    ensures var p := OnePass(old(remaining[..count]), emitted);
            out == p.out && emitted' == p.emitted && next == |p.kept| <= count && remaining[..next] == p.kept
  {
    ghost var waiting := remaining[..count];
    out, emitted', next := [], emitted, 0;
    for i := 0 to count
      invariant next <= i
      invariant OnePass(waiting[..i], emitted) == Pass(out, remaining[..next], emitted')
      invariant forall j | i <= j < count :: remaining[j] == waiting[j]
    {
      var value := remaining[i];
      assert waiting[..i + 1][..i] == waiting[..i];
      if Parent(value) == "" || Parent(value) in emitted' {
        out, emitted' := out + [value], emitted' + {Id(value)};
      } else {
        remaining[next] := value;
        next := next + 1;
        assert remaining[..next] == remaining[..next - 1] + [value];
      }
    }
    assert waiting[..count] == waiting;
  }

  /** Orders the records; it fails exactly when some parent chain leaves the set or cycles. */
  method OrderTrace(values: seq<Record>) returns (result: Option<seq<Record>>)
    ensures OrderingOf(values, result)
  {
    var ordered: seq<Record>, emitted: set<string> := [], {};
    var remaining := new Record[|values|](i requires 0 <= i < |values| => values[i]);
    var count := |values|;
    assert remaining[..count] == values;
    while count > 0
      invariant 0 <= count <= remaining.Length
      invariant fresh(remaining)
      invariant Between(values, ordered, remaining[..count]) && emitted == Ids(ordered)
    {
      ghost var waiting := remaining[..count];
      var out, emitted', next := CompactPass(remaining, count, emitted);
      if out == [] {
        PassStuck(values, ordered, waiting);
        return None;
      }
      PassProgresses(values, ordered, waiting);
      ordered, emitted, count := ordered + out, emitted', next;
    }
    OrderingDone(values, ordered);
    return Some(ordered);
  }
}
