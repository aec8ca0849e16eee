/** Byte-wise text order and sorting by a strict order. */
module Ordering {

  /** Lexicographic order on texts. */
  predicate Below(a: string, b: string) {
    b != [] && (a == [] || a[0] < b[0] || (a[0] == b[0] && Below(a[1..], b[1..])))
  }

  lemma {:induction false} BelowTrichotomy(a: string, b: string)
    ensures a == b ==> !Below(a, b)
    ensures a != b ==> Below(a, b) != Below(b, a)
  {
    if a != [] && b != [] {
      BelowTrichotomy(a[1..], b[1..]);
      assert a == [a[0]] + a[1..] && b == [b[0]] + b[1..];
    }
  }

  lemma {:induction false} BelowTransitive(a: string, b: string, c: string)
    requires Below(a, b) && Below(b, c)
    ensures Below(a, c)
  {
    if a != [] && a[0] == b[0] == c[0] {
      BelowTransitive(a[1..], b[1..], c[1..]);
    }
  }

  /******* Strict orders *******/

  ghost predicate Irreflexive<T(!new)>(lt: (T, T) -> bool) {
    forall x :: !lt(x, x)
  }

  ghost predicate Transitive<T(!new)>(lt: (T, T) -> bool) {
    forall x, y, z :: lt(x, y) && lt(y, z) ==> lt(x, z)
  }

  ghost predicate StrictOrder<T(!new)>(lt: (T, T) -> bool) {
    Irreflexive(lt) && Transitive(lt)
  }

  lemma Asymmetric<T(!new)>(lt: (T, T) -> bool, x: T, y: T)
    requires StrictOrder(lt)
    ensures !(lt(x, y) && lt(y, x))
  {
  }

  /** Any two different positions are comparable: no two elements share a key. */
  ghost predicate Comparable<T>(lt: (T, T) -> bool, xs: seq<T>) {
    forall i, j | 0 <= i < j < |xs| :: lt(xs[i], xs[j]) || lt(xs[j], xs[i])
  }

  ghost predicate Ascending<T>(lt: (T, T) -> bool, xs: seq<T>) {
    forall i, j | 0 <= i < j < |xs| :: lt(xs[i], xs[j])
  }

  /******* Insertion sort *******/

  function Insert<T>(lt: (T, T) -> bool, x: T, xs: seq<T>): seq<T> {
    if xs == [] || !lt(x, xs[|xs| - 1]) then xs + [x]
    else Insert(lt, x, xs[..|xs| - 1]) + [xs[|xs| - 1]]
  }

  function Sort<T>(lt: (T, T) -> bool, xs: seq<T>): seq<T> {
    if xs == [] then [] else Insert(lt, xs[|xs| - 1], Sort(lt, xs[..|xs| - 1]))
  }

  lemma {:induction false} InsertPermutes<T>(lt: (T, T) -> bool, x: T, xs: seq<T>)
    ensures multiset(Insert(lt, x, xs)) == multiset(xs) + multiset{x}
    ensures |Insert(lt, x, xs)| == |xs| + 1
  {
    if xs != [] && lt(x, xs[|xs| - 1]) {
      InsertPermutes(lt, x, xs[..|xs| - 1]);
      assert xs == xs[..|xs| - 1] + [xs[|xs| - 1]];
    }
  }

  lemma {:induction false} SortPermutes<T>(lt: (T, T) -> bool, xs: seq<T>)
    ensures multiset(Sort(lt, xs)) == multiset(xs)
    ensures |Sort(lt, xs)| == |xs|
    ensures forall x :: x in Sort(lt, xs) <==> x in xs
  {
    if xs != [] {
      SortPermutes(lt, xs[..|xs| - 1]);
      InsertPermutes(lt, xs[|xs| - 1], Sort(lt, xs[..|xs| - 1]));
      assert xs == xs[..|xs| - 1] + [xs[|xs| - 1]];
    }
    forall x ensures x in Sort(lt, xs) <==> x in xs {
      assert x in multiset(Sort(lt, xs)) <==> x in multiset(xs);
    }
  }

  lemma InsertMembers<T>(lt: (T, T) -> bool, x: T, xs: seq<T>)
    ensures forall y :: y in Insert(lt, x, xs) <==> y in xs || y == x
  {
    InsertPermutes(lt, x, xs);
    forall y ensures y in Insert(lt, x, xs) <==> y in xs || y == x {
      assert y in multiset(Insert(lt, x, xs)) <==> y in multiset(xs) + multiset{x};
    }
  }

  lemma {:induction false} InsertAscends<T(!new)>(lt: (T, T) -> bool, x: T, xs: seq<T>)
    requires StrictOrder(lt) && Ascending(lt, xs)
    requires forall y | y in xs :: lt(x, y) || lt(y, x)
    ensures Ascending(lt, Insert(lt, x, xs))
  {
    if xs != [] {
      var init, last := xs[..|xs| - 1], xs[|xs| - 1];
      assert last in xs;
      if lt(x, last) {
        InsertAscends(lt, x, init);
        InsertMembers(lt, x, init);
        var r := Insert(lt, x, init);
        forall i | 0 <= i < |r| ensures lt(r[i], last) {
          assert r[i] in r;
          if r[i] in init {
            var k :| 0 <= k < |init| && init[k] == r[i];
            assert lt(xs[k], xs[|xs| - 1]);
          }
        }
      } else {
        forall i | 0 <= i < |xs| ensures lt(xs[i], x) {
          if i < |xs| - 1 {
            assert lt(xs[i], last) && lt(last, x);
          }
        }
      }
    }
  }

  lemma {:induction false} SortAscends<T(!new)>(lt: (T, T) -> bool, xs: seq<T>)
    requires StrictOrder(lt) && Comparable(lt, xs)
    ensures Ascending(lt, Sort(lt, xs))
  {
    if xs != [] {
      var init, last := xs[..|xs| - 1], xs[|xs| - 1];
      SortAscends(lt, init);
      SortPermutes(lt, init);
      forall y | y in Sort(lt, init) ensures lt(last, y) || lt(y, last) {
        var k :| 0 <= k < |init| && init[k] == y;
        assert lt(xs[k], xs[|xs| - 1]) || lt(xs[|xs| - 1], xs[k]);
      }
      InsertAscends(lt, last, Sort(lt, init));
    }
  }

  /** Sorting something already ascending changes nothing. */
  lemma {:induction false} SortOfAscending<T(!new)>(lt: (T, T) -> bool, xs: seq<T>)
    requires StrictOrder(lt) && Ascending(lt, xs)
    ensures Sort(lt, xs) == xs
  {
    if xs != [] {
      var init, last := xs[..|xs| - 1], xs[|xs| - 1];
      SortOfAscending(lt, init);
      if init != [] {
        assert lt(xs[|xs| - 2], xs[|xs| - 1]);
        Asymmetric(lt, init[|init| - 1], last);
      }
      assert xs == init + [last];
    }
  }

  /** Two ascending sequences with the same members are the same sequence. */
  lemma {:induction false} AscendingUnique<T(!new)>(lt: (T, T) -> bool, xs: seq<T>, ys: seq<T>)
    requires StrictOrder(lt) && Ascending(lt, xs) && Ascending(lt, ys)
    requires forall x :: x in xs <==> x in ys
    ensures xs == ys
  {
    assert ys != [] ==> ys[0] in xs;
    if xs != [] {
      assert xs[0] in ys;
      SmallestFirst(lt, xs, ys[0]);
      SmallestFirst(lt, ys, xs[0]);
      Asymmetric(lt, xs[0], ys[0]);
      forall x ensures x in xs[1..] <==> x in ys[1..] {
        TailMember(lt, xs, x);
        TailMember(lt, ys, x);
      }
      AscendingUnique(lt, xs[1..], ys[1..]);
      assert xs == [xs[0]] + xs[1..] && ys == [ys[0]] + ys[1..];
    }
  }

  lemma SmallestFirst<T(!new)>(lt: (T, T) -> bool, xs: seq<T>, x: T)
    requires Ascending(lt, xs) && x in xs
    ensures x == xs[0] || lt(xs[0], x)
  {
    var k :| 0 <= k < |xs| && xs[k] == x;
  }

  lemma TailMember<T(!new)>(lt: (T, T) -> bool, xs: seq<T>, x: T)
    requires Irreflexive(lt) && Ascending(lt, xs) && xs != []
    ensures x in xs[1..] <==> x in xs && x != xs[0]
  {
    if x in xs[1..] {
      var k :| 0 <= k < |xs[1..]| && xs[1..][k] == x;
      assert lt(xs[0], xs[k + 1]);
    }
  }

  /******* Normalizing: sort, then reject equal neighbours *******/

  /** Elements that neither precede nor follow each other can stand for one another. */
  ghost predicate NegativelyTransitive<T(!new)>(lt: (T, T) -> bool) {
    forall x, y, z :: lt(x, z) ==> lt(x, y) || lt(y, z)
  }

  ghost predicate WeaklyAscending<T>(lt: (T, T) -> bool, xs: seq<T>) {
    forall i, j | 0 <= i < j < |xs| :: !lt(xs[j], xs[i])
  }

  predicate StrictNeighbours<T>(lt: (T, T) -> bool, xs: seq<T>) {
    forall i | 0 < i < |xs| :: lt(xs[i - 1], xs[i])
  }

  lemma {:induction false} InsertWeakly<T(!new)>(lt: (T, T) -> bool, x: T, xs: seq<T>)
    requires StrictOrder(lt) && NegativelyTransitive(lt) && WeaklyAscending(lt, xs)
    ensures WeaklyAscending(lt, Insert(lt, x, xs))
  {
    if xs != [] {
      var init, last := xs[..|xs| - 1], xs[|xs| - 1];
      if lt(x, last) {
        InsertWeakly(lt, x, init);
        InsertMembers(lt, x, init);
        var r := Insert(lt, x, init);
        Asymmetric(lt, x, last);
        forall i | 0 <= i < |r| ensures !lt(last, r[i]) {
          assert r[i] in r;
          assert r[i] in init || r[i] == x;
          if r[i] in init {
            var k :| 0 <= k < |init| && init[k] == r[i];
            assert !lt(xs[|xs| - 1], xs[k]);
          }
        }
      } else {
        forall i | 0 <= i < |xs| ensures !lt(x, xs[i]) {
          assert i < |xs| - 1 ==> !lt(last, xs[i]);
        }
      }
    }
  }

  lemma {:induction false} SortWeakly<T(!new)>(lt: (T, T) -> bool, xs: seq<T>)
    requires StrictOrder(lt) && NegativelyTransitive(lt)
    ensures WeaklyAscending(lt, Sort(lt, xs))
  {
    if xs != [] {
      SortWeakly(lt, xs[..|xs| - 1]);
      InsertWeakly(lt, xs[|xs| - 1], Sort(lt, xs[..|xs| - 1]));
    }
  }

  lemma {:induction false} NeighboursAscend<T(!new)>(lt: (T, T) -> bool, xs: seq<T>)
    requires Transitive(lt) && StrictNeighbours(lt, xs)
    ensures Ascending(lt, xs)
  {
    if |xs| > 1 {
      var init := xs[..|xs| - 1];
      NeighboursAscend(lt, init);
      forall i | 0 <= i < |init| ensures lt(xs[i], xs[|xs| - 1]) {
        assert lt(xs[|xs| - 2], xs[|xs| - 1]);
        assert i < |init| - 1 ==> lt(init[i], init[|init| - 1]);
      }
    }
  }

  /** No value occurs twice in an ascending sequence. */
  lemma {:induction false} ComparableOnce<T(!new)>(lt: (T, T) -> bool, xs: seq<T>, x: T)
    requires Irreflexive(lt) && Comparable(lt, xs)
    ensures multiset(xs)[x] <= 1
  {
    if xs != [] {
      var init, last := xs[..|xs| - 1], xs[|xs| - 1];
      ComparableOnce(lt, init, x);
      assert xs == init + [last];
      forall k | 0 <= k < |init| ensures init[k] != last {
        assert lt(xs[k], xs[|xs| - 1]) || lt(xs[|xs| - 1], xs[k]);
      }
      assert last == x ==> x !in multiset(init);
    }
  }

  lemma TwiceCounted<T>(xs: seq<T>, i: nat, j: nat)
    requires i < j < |xs| && xs[i] == xs[j]
    ensures multiset(xs)[xs[i]] >= 2
  {
    assert xs == xs[..j] + [xs[j]] + xs[j + 1..];
    assert xs[i] in xs[..j];
    assert multiset(xs) == multiset(xs[..j]) + multiset([xs[j]]) + multiset(xs[j + 1..]);
  }

  lemma ComparablePermutes<T(!new)>(lt: (T, T) -> bool, xs: seq<T>, ys: seq<T>)
    requires Irreflexive(lt) && Comparable(lt, ys) && multiset(xs) == multiset(ys)
    ensures Comparable(lt, xs)
  {
    forall i, j | 0 <= i < j < |xs| ensures lt(xs[i], xs[j]) || lt(xs[j], xs[i]) {
      ComparableOnce(lt, ys, xs[i]);
      if xs[i] == xs[j] {
        TwiceCounted(xs, i, j);
        assert false;
      }
      assert xs[i] in multiset(xs) && xs[j] in multiset(xs);
      assert xs[i] in ys && xs[j] in ys;
      var a :| 0 <= a < |ys| && ys[a] == xs[i];
      var b :| 0 <= b < |ys| && ys[b] == xs[j];
      assert a < b || b < a;
    }
  }

  /** Once sorted, equal neighbours exist exactly when two elements of the input share a key. */
  lemma SortRejectsExactly<T(!new)>(lt: (T, T) -> bool, xs: seq<T>)
    requires StrictOrder(lt) && NegativelyTransitive(lt)
    ensures StrictNeighbours(lt, Sort(lt, xs)) <==> Comparable(lt, xs)
    ensures Comparable(lt, xs) ==> Ascending(lt, Sort(lt, xs))
  {
    SortPermutes(lt, xs);
    if Comparable(lt, xs) {
      SortAscends(lt, xs);
    }
    if StrictNeighbours(lt, Sort(lt, xs)) {
      NeighboursAscend(lt, Sort(lt, xs));
      ComparablePermutes(lt, xs, Sort(lt, xs));
    }
  }
}
