/** The relational operators the feed queries use, on lists of rows. */
module Sql {
  import opened Wrappers

  function Map<T, U>(f: T -> U, xs: seq<T>): (r: seq<U>)
    ensures |r| == |xs|
    ensures forall i :: 0 <= i < |xs| ==> r[i] == f(xs[i])
  {
    if xs == [] then [] else [f(xs[0])] + Map(f, xs[1..])
  }

  /** WHERE. */
  function Filter<T>(p: T -> bool, xs: seq<T>): seq<T> {
    if xs == [] then []
    else if p(xs[0]) then [xs[0]] + Filter(p, xs[1..])
    else Filter(p, xs[1..])
  }

  /** The rows that one left row forms with a table; `pair` is the ON condition together with the row it builds. */
  function Matches<A, B, C>(x: A, ys: seq<B>, pair: (A, B) -> Option<C>): seq<C> {
    if ys == [] then []
    else
      match pair(x, ys[0])
      case Some(z) => [z] + Matches(x, ys[1..], pair)
      case None => Matches(x, ys[1..], pair)
  }

  /** JOIN: every left row with every matching right row. */
  function Join<A, B, C>(xs: seq<A>, ys: seq<B>, pair: (A, B) -> Option<C>): seq<C> {
    if xs == [] then [] else Matches(xs[0], ys, pair) + Join(xs[1..], ys, pair)
  }

  /** LEFT JOIN: a left row without a match stays, alone. */
  function LeftJoin<A, B, C>(xs: seq<A>, ys: seq<B>, pair: (A, B) -> Option<C>, alone: A -> C): seq<C> {
    if xs == [] then []
    else
      var here := Matches(xs[0], ys, pair);
      (if here == [] then [alone(xs[0])] else here) + LeftJoin(xs[1..], ys, pair, alone)
  }

  /** LIMIT and OFFSET. */
  function Page<T>(xs: seq<T>, limit: nat, offset: nat): seq<T> {
    var rest := if offset <= |xs| then xs[offset..] else [];
    if limit <= |rest| then rest[..limit] else rest
  }

  function Insert<T>(x: T, xs: seq<T>, before: (T, T) -> bool): seq<T> {
    if xs == [] || before(x, xs[0]) then [x] + xs else [xs[0]] + Insert(x, xs[1..], before)
  }

  /** ORDER BY. */
  function OrderBy<T>(xs: seq<T>, before: (T, T) -> bool): seq<T> {
    if xs == [] then [] else Insert(xs[0], OrderBy(xs[1..], before), before)
  }

  ghost predicate Ordered<T>(xs: seq<T>, before: (T, T) -> bool) {
    forall i, j :: 0 <= i < j < |xs| ==> before(xs[i], xs[j])
  }

  /** A strict order under which any two different rows of the table compare. */
  ghost predicate StrictOn<T(!new)>(xs: seq<T>, before: (T, T) -> bool) {
    && (forall a :: !before(a, a))
    && (forall a, b, c :: before(a, b) && before(b, c) ==> before(a, c))
    && (forall i, j :: 0 <= i < |xs| && 0 <= j < |xs| && i != j ==> before(xs[i], xs[j]) || before(xs[j], xs[i]))
  }

  // ---------- what the operators return ----------

  lemma {:induction false} InsertKeeps<T>(x: T, xs: seq<T>, before: (T, T) -> bool)
    ensures multiset(Insert(x, xs, before)) == multiset(xs) + multiset{x}
  {
    if xs == [] || before(x, xs[0]) {
    } else {
      InsertKeeps(x, xs[1..], before);
      assert xs == [xs[0]] + xs[1..];
    }
  }

  lemma {:induction false} InsertOrders<T(!new)>(x: T, xs: seq<T>, before: (T, T) -> bool)
    requires Ordered(xs, before)
    requires forall a, b, c :: before(a, b) && before(b, c) ==> before(a, c)
    requires forall i :: 0 <= i < |xs| ==> before(x, xs[i]) || before(xs[i], x)
    ensures Ordered(Insert(x, xs, before), before)
  {
    if xs == [] {
    } else if before(x, xs[0]) {
      var r := [x] + xs;
      forall i, j | 0 <= i < j < |r| ensures before(r[i], r[j]) {
        if i == 0 && j > 1 {
          assert before(x, xs[0]) && before(xs[0], xs[j - 1]);
        }
      }
    } else {
      InsertOrders(x, xs[1..], before);
      InsertKeeps(x, xs[1..], before);
      var tail := Insert(x, xs[1..], before);
      forall y | y in tail ensures before(xs[0], y) {
        assert y in multiset(tail);
        if y != x {
          assert y in xs[1..];
          var j :| 0 <= j < |xs[1..]| && xs[1..][j] == y;
          assert xs[j + 1] == y;
        }
      }
    }
  }

  /** ORDER BY returns the rows of the table, in order. */
  lemma {:induction false} OrderByOrders<T(!new)>(xs: seq<T>, before: (T, T) -> bool)
    requires StrictOn(xs, before)
    ensures multiset(OrderBy(xs, before)) == multiset(xs) && Ordered(OrderBy(xs, before), before)
  {
    if xs != [] {
      var tail := xs[1..];
      OrderByOrders(tail, before);
      InsertKeeps(xs[0], OrderBy(tail, before), before);
      assert xs == [xs[0]] + tail;
      var sorted := OrderBy(tail, before);
      forall i | 0 <= i < |sorted| ensures before(xs[0], sorted[i]) || before(sorted[i], xs[0]) {
        assert sorted[i] in multiset(tail);
        var j :| 0 <= j < |tail| && tail[j] == sorted[i];
        assert xs[j + 1] == sorted[i];
      }
      InsertOrders(xs[0], sorted, before);
    }
  }

  lemma FirstIsLeast<T(!new)>(xs: seq<T>, y: T, before: (T, T) -> bool)
    requires Ordered(xs, before) && y in xs
    ensures y == xs[0] || before(xs[0], y)
  {
    var i :| 0 <= i < |xs| && xs[i] == y;
  }

  lemma TailRows<T>(xs: seq<T>)
    requires xs != []
    ensures multiset(xs) == multiset(xs[1..]) + multiset{xs[0]}
  {
    assert xs == [xs[0]] + xs[1..];
  }

  /** There is only one such list, so the result does not depend on how a server sorts. */
  lemma {:induction false} OrderIsUnique<T(!new)>(xs: seq<T>, ys: seq<T>, before: (T, T) -> bool)
    requires multiset(xs) == multiset(ys) && Ordered(xs, before) && Ordered(ys, before)
    requires forall a :: !before(a, a)
    requires forall a, b, c :: before(a, b) && before(b, c) ==> before(a, c)
    ensures xs == ys
  {
    assert |xs| == |multiset(xs)| == |multiset(ys)| == |ys|;
    if xs != [] {
      assert xs[0] == ys[0] by {
        assert xs[0] in multiset(ys) && ys[0] in multiset(xs);
        FirstIsLeast(xs, ys[0], before);
        FirstIsLeast(ys, xs[0], before);
      }
      TailRows(xs);
      TailRows(ys);
      assert multiset(xs[1..]) == multiset(xs) - multiset{xs[0]};
      assert multiset(ys[1..]) == multiset(ys) - multiset{ys[0]};
      OrderIsUnique(xs[1..], ys[1..], before);
    }
  }

  // ---------- operators that commute with a row-by-row map ----------

  /** When each left row has exactly the one match `f` names, a join is a map. */
  lemma {:induction false} JoinIsMap<A, B, C>(xs: seq<A>, ys: seq<B>, pair: (A, B) -> Option<C>, f: A -> C)
    requires forall x :: x in xs ==> Matches(x, ys, pair) == [f(x)]
    ensures Join(xs, ys, pair) == Map(f, xs)
  {
    if xs != [] {
      JoinIsMap(xs[1..], ys, pair, f);
      assert xs[0] in xs;
    }
  }

  lemma {:induction false} LeftJoinIsMap<A, B, C>(xs: seq<A>, ys: seq<B>, pair: (A, B) -> Option<C>, alone: A -> C, f: A -> C)
    requires forall x :: x in xs ==>
               Matches(x, ys, pair) == [f(x)] || (Matches(x, ys, pair) == [] && alone(x) == f(x))
    ensures LeftJoin(xs, ys, pair, alone) == Map(f, xs)
  {
    if xs != [] {
      LeftJoinIsMap(xs[1..], ys, pair, alone, f);
      assert xs[0] in xs;
    }
  }

  lemma {:induction false} FilterOfMap<T, U>(f: T -> U, p: T -> bool, q: U -> bool, xs: seq<T>)
    requires forall x :: x in xs ==> q(f(x)) == p(x)
    ensures Filter(q, Map(f, xs)) == Map(f, Filter(p, xs))
  {
    if xs != [] {
      FilterOfMap(f, p, q, xs[1..]);
      assert xs[0] in xs;
      assert Map(f, xs)[1..] == Map(f, xs[1..]);
      if p(xs[0]) {
        assert ([xs[0]] + Filter(p, xs[1..]))[1..] == Filter(p, xs[1..]);
      }
    }
  }

  lemma {:induction false} InsertOfMap<T, U>(f: T -> U, before: (T, T) -> bool, after: (U, U) -> bool, x: T, xs: seq<T>)
    requires forall y :: y in xs ==> after(f(x), f(y)) == before(x, y)
    ensures Insert(f(x), Map(f, xs), after) == Map(f, Insert(x, xs, before))
  {
    if xs != [] {
      assert xs[0] in xs;
      assert Map(f, xs)[1..] == Map(f, xs[1..]);
      if before(x, xs[0]) {
        assert ([x] + xs)[1..] == xs;
      } else {
        InsertOfMap(f, before, after, x, xs[1..]);
        assert ([xs[0]] + Insert(x, xs[1..], before))[1..] == Insert(x, xs[1..], before);
      }
    }
  }

  lemma {:induction false} OrderByKeepsRows<T>(xs: seq<T>, before: (T, T) -> bool)
    ensures multiset(OrderBy(xs, before)) == multiset(xs)
  {
    if xs != [] {
      OrderByKeepsRows(xs[1..], before);
      InsertKeeps(xs[0], OrderBy(xs[1..], before), before);
      assert xs == [xs[0]] + xs[1..];
    }
  }

  lemma {:induction false} OrderByOfMap<T, U>(f: T -> U, before: (T, T) -> bool, after: (U, U) -> bool, xs: seq<T>)
    requires forall x, y :: x in xs && y in xs ==> after(f(x), f(y)) == before(x, y)
    ensures OrderBy(Map(f, xs), after) == Map(f, OrderBy(xs, before))
  {
    if xs != [] {
      OrderByOfMap(f, before, after, xs[1..]);
      assert Map(f, xs)[1..] == Map(f, xs[1..]);
      OrderByKeepsRows(xs[1..], before);
      forall y | y in OrderBy(xs[1..], before) ensures after(f(xs[0]), f(y)) == before(xs[0], y) {
        assert y in multiset(xs[1..]);
        assert xs[0] in xs && y in xs;
      }
      InsertOfMap(f, before, after, xs[0], OrderBy(xs[1..], before));
    }
  }

  lemma PageOfMap<T, U>(f: T -> U, xs: seq<T>, limit: nat, offset: nat)
    ensures Page(Map(f, xs), limit, offset) == Map(f, Page(xs, limit, offset))
  {
  }

  lemma {:induction false} FilterIn<T>(p: T -> bool, xs: seq<T>)
    ensures forall x :: x in Filter(p, xs) <==> x in xs && p(x)
  {
    if xs != [] {
      FilterIn(p, xs[1..]);
      assert xs == [xs[0]] + xs[1..];
    }
  }
}
