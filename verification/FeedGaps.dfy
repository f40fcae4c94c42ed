/**
 The three feed services on tables without foreign keys: exactly when do they still agree? Listings may name owners or
 categories that do not exist; ids are still unique.
 */
module FeedGaps {
  import opened Wrappers
  import opened Sql
  import opened Feed

  // ---------- lists ----------

  lemma {:induction false} JoinAppend<A, B, C>(xs: seq<A>, zs: seq<A>, ys: seq<B>, pair: (A, B) -> Option<C>)
    ensures Join(xs + zs, ys, pair) == Join(xs, ys, pair) + Join(zs, ys, pair)
  {
    if xs == [] {
      assert xs + zs == zs;
    } else {
      assert (xs + zs)[1..] == xs[1..] + zs;
      JoinAppend(xs[1..], zs, ys, pair);
    }
  }

  lemma {:induction false} FilterAppend<T>(p: T -> bool, xs: seq<T>, zs: seq<T>)
    ensures Filter(p, xs + zs) == Filter(p, xs) + Filter(p, zs)
  {
    if xs == [] {
      assert xs + zs == zs;
    } else {
      assert (xs + zs)[1..] == xs[1..] + zs;
      FilterAppend(p, xs[1..], zs);
    }
  }

  lemma {:induction false} FilterAll<T>(p: T -> bool, xs: seq<T>)
    requires forall x :: x in xs ==> p(x)
    ensures Filter(p, xs) == xs
  {
    if xs != [] {
      FilterAll(p, xs[1..]);
      assert xs[0] in xs;
    }
  }

  lemma {:induction false} FilterIsShorter<T>(p: T -> bool, xs: seq<T>)
    ensures |Filter(p, xs)| <= |xs|
    ensures (exists i :: 0 <= i < |xs| && !p(xs[i])) ==> |Filter(p, xs)| < |xs|
  {
    if xs != [] {
      FilterIsShorter(p, xs[1..]);
      if i :| 0 <= i < |xs| && !p(xs[i]) {
        if p(xs[0]) {
          assert xs[1..][i - 1] == xs[i];
        }
      }
    }
  }

  lemma {:induction false} FilterTwice<T>(p: T -> bool, q: T -> bool, xs: seq<T>)
    ensures Filter(p, Filter(q, xs)) == Filter(q, Filter(p, xs))
  {
    if xs != [] {
      FilterTwice(p, q, xs[1..]);
      var rest := xs[1..];
      assert ([xs[0]] + Filter(q, rest))[1..] == Filter(q, rest);
      assert ([xs[0]] + Filter(p, rest))[1..] == Filter(p, rest);
    }
  }

  lemma {:induction false} FilterRows<T>(p: T -> bool, xs: seq<T>, x: T)
    ensures multiset(Filter(p, xs))[x] == if p(x) then multiset(xs)[x] else 0
  {
    if xs != [] {
      FilterRows(p, xs[1..], x);
      TailRows(xs);
    }
  }

  lemma {:induction false} FilterOrigin<T>(p: T -> bool, xs: seq<T>, j: nat) returns (k: nat)
    requires j < |Filter(p, xs)|
    ensures k < |xs| && xs[k] == Filter(p, xs)[j]
  {
    if !p(xs[0]) {
      k := FilterOrigin(p, xs[1..], j);
      k := k + 1;
    } else if j > 0 {
      k := FilterOrigin(p, xs[1..], j - 1);
      k := k + 1;
    } else {
      k := 0;
    }
  }

  lemma {:induction false} FilterOrdered<T>(p: T -> bool, xs: seq<T>, before: (T, T) -> bool)
    requires Ordered(xs, before)
    ensures Ordered(Filter(p, xs), before)
  {
    if xs != [] {
      FilterOrdered(p, xs[1..], before);
      var rest := Filter(p, xs[1..]);
      forall j | 0 <= j < |rest| ensures before(xs[0], rest[j]) {
        var k := FilterOrigin(p, xs[1..], j);
        assert xs[k + 1] == rest[j];
      }
    }
  }

  lemma SameRows<T>(xs: seq<T>, ys: seq<T>)
    requires forall x :: multiset(xs)[x] == multiset(ys)[x]
    ensures multiset(xs) == multiset(ys)
  {
  }

  /** Sorting and then leaving rows out is leaving them out and then sorting. */
  lemma FilterOfSorted<T(!new)>(p: T -> bool, xs: seq<T>, before: (T, T) -> bool)
    requires StrictOn(xs, before) && StrictOn(Filter(p, xs), before)
    ensures OrderBy(Filter(p, xs), before) == Filter(p, OrderBy(xs, before))
  {
    var sorted := OrderBy(xs, before);
    OrderByOrders(xs, before);
    OrderByOrders(Filter(p, xs), before);
    FilterOrdered(p, sorted, before);
    forall x ensures multiset(Filter(p, sorted))[x] == multiset(Filter(p, xs))[x] {
      FilterRows(p, sorted, x);
      FilterRows(p, xs, x);
    }
    SameRows(Filter(p, sorted), Filter(p, xs));
    OrderIsUnique(OrderBy(Filter(p, xs), before), Filter(p, sorted), before);
  }

  ghost predicate Distinct<T>(xs: seq<T>) {
    forall i, j :: 0 <= i < j < |xs| ==> xs[i] != xs[j]
  }

  /** Nothing is left out of the rows up to the end of the page, or the page is empty anyway. */
  ghost predicate NoneMissing<T(!new)>(p: T -> bool, xs: seq<T>, limit: nat, offset: nat) {
    limit == 0 || offset >= |xs| || forall i :: 0 <= i < |xs| && i < offset + limit ==> p(xs[i])
  }

  lemma PageIfNoneMissing<T(!new)>(p: T -> bool, xs: seq<T>, limit: nat, offset: nat)
    requires NoneMissing(p, xs, limit, offset)
    ensures Page(Filter(p, xs), limit, offset) == Page(xs, limit, offset)
  {
    FilterIsShorter(p, xs);
    if limit > 0 && offset < |xs| {
      var k := if offset + limit <= |xs| then offset + limit else |xs|;
      assert xs == xs[..k] + xs[k..];
      FilterAppend(p, xs[..k], xs[k..]);
      FilterAll(p, xs[..k]);
      if k == |xs| {
        assert xs[k..] == [] && xs[..k] == xs;
      }
    }
  }

  /** The first row of the page has moved up, if a row before it is missing. */
  lemma FirstMovesUp<T>(p: T -> bool, xs: seq<T>, offset: nat, i: nat)
    requires i < offset < |xs| && !p(xs[i]) && p(xs[offset])
    ensures exists c :: 0 <= c < offset && c < |Filter(p, xs)| && Filter(p, xs)[c] == xs[offset]
  {
    assert xs == xs[..offset] + xs[offset..];
    FilterAppend(p, xs[..offset], xs[offset..]);
    assert !p(xs[..offset][i]);
    FilterIsShorter(p, xs[..offset]);
    assert xs[offset..][0] == xs[offset];
    assert Filter(p, xs)[|Filter(p, xs[..offset])|] == xs[offset];
  }

  lemma NoneMissingIfPage<T(!new)>(p: T -> bool, xs: seq<T>, limit: nat, offset: nat)
    requires Distinct(Filter(p, xs))
    requires Page(Filter(p, xs), limit, offset) == Page(xs, limit, offset)
    ensures NoneMissing(p, xs, limit, offset)
  {
    if limit > 0 && offset < |xs| {
      var page := Page(xs, limit, offset);
      FilterIn(p, xs);
      assert page[0] == xs[offset] && page[0] == Filter(p, xs)[offset] && page[0] in Filter(p, xs);
      forall i | 0 <= i < |xs| && i < offset + limit ensures p(xs[i]) {
        if i >= offset {
          assert page[i - offset] == xs[i] && page[i - offset] in Filter(p, xs);
        } else if !p(xs[i]) {
          FirstMovesUp(p, xs, offset, i);
        }
      }
    }
  }

  // ---------- the rows that resolve ----------

  function Resolving(db: Database): Listing -> bool {
    (l: Listing) => Resolves(db, l)
  }

  /** The database without the listings that name a missing owner or category. */
  function Repaired(db: Database): Database {
    db.(listings := Filter(Resolving(db), db.listings))
  }

  lemma RepairedIsSound(db: Database)
    requires KeysUnique(db)
    ensures SchemaOk(Repaired(db))
  {
    FilterIdsDiffer(Resolving(db), db.listings);
    FilterIn(Resolving(db), db.listings);
  }

  /** A listing that does not resolve leaves no row in the join. */
  lemma NoRow(db: Database, l: Listing)
    requires KeysUnique(db) && !Resolves(db, l)
    ensures Join(Matches(l, db.users, PairOwner), db.categories, PairCategory) == []
  {
    if FindUser(db.users, l.owner).None? {
      NoUserMatch(l, db.users);
    } else {
      OneUserMatch(l, db.users);
      var owned := Owned(l, FindUser(db.users, l.owner).value);
      NoCategoryMatch(owned, db.categories);
      assert [owned][1..] == [];
    }
  }

  lemma {:induction false} JoinSkips(db: Database, listings: seq<Listing>)
    requires KeysUnique(db)
    ensures Join(Join(listings, db.users, PairOwner), db.categories, PairCategory)
         == Join(Join(Filter(Resolving(db), listings), db.users, PairOwner), db.categories, PairCategory)
  {
    if listings != [] {
      var l, rest := listings[0], listings[1..];
      var kept := Filter(Resolving(db), rest);
      JoinSkips(db, rest);
      JoinAppend(Matches(l, db.users, PairOwner), Join(rest, db.users, PairOwner), db.categories, PairCategory);
      JoinAppend(Matches(l, db.users, PairOwner), Join(kept, db.users, PairOwner), db.categories, PairCategory);
      if Resolves(db, l) {
        assert ([l] + kept)[1..] == kept;
      } else {
        NoRow(db, l);
      }
    }
  }

  lemma SameItem(db: Database, l: Listing)
    ensures ItemOf(Repaired(db), l) == ItemOf(db, l)
  {
    assert RatedRows(Repaired(db)) == RatedRows(db);
  }

  lemma OptimizedRowsOfRepaired(db: Database, limit: nat, offset: nat)
    requires KeysUnique(db)
    ensures OptimizedFeedRows(db, limit, offset) == OptimizedFeedRows(Repaired(db), limit, offset)
  {
    JoinSkips(db, db.listings);
    assert RatedRows(Repaired(db)) == RatedRows(db);
  }

  /** The single query answers for the repaired database. */
  lemma OptimizedSkipsGaps(db: Database, limit: nat, offset: nat)
    requires KeysUnique(db)
    ensures var page := ListActivePage(Repaired(db), limit, offset);
            && |OptimizedFeedRows(db, limit, offset)| == |page|
            && forall i :: 0 <= i < |page| ==> ItemOfRow(OptimizedFeedRows(db, limit, offset)[i]) == ItemOf(db, page[i])
  {
    var page := ListActivePage(Repaired(db), limit, offset);
    RepairedIsSound(db);
    OptimizedRowsOfRepaired(db, limit, offset);
    OptimizedRowsAreItems(Repaired(db), limit, offset);
    forall i | 0 <= i < |page| ensures ItemOf(Repaired(db), page[i]) == ItemOf(db, page[i]) {
      SameItem(db, page[i]);
    }
  }

  // ---------- when the pages agree ----------

  function SortedActive(db: Database): seq<Listing> {
    OrderBy(Filter(IsActive, db.listings), Before)
  }

  lemma IdsMakeStrict(listings: seq<Listing>)
    requires IdsDiffer(listings)
    ensures StrictOn(listings, Before)
  {
  }

  lemma RepairedSorted(db: Database)
    requires KeysUnique(db)
    ensures SortedActive(Repaired(db)) == Filter(Resolving(db), SortedActive(db))
    ensures Distinct(SortedActive(Repaired(db)))
  {
    var active := Filter(IsActive, db.listings);
    FilterIdsDiffer(IsActive, db.listings);
    FilterIdsDiffer(Resolving(db), active);
    IdsMakeStrict(active);
    IdsMakeStrict(Filter(Resolving(db), active));
    FilterTwice(IsActive, Resolving(db), db.listings);
    FilterOfSorted(Resolving(db), active, Before);
    OrderByOrders(Filter(Resolving(db), active), Before);
    var sorted := SortedActive(Repaired(db));
    forall i, j | 0 <= i < j < |sorted| ensures sorted[i] != sorted[j] {
      assert Before(sorted[i], sorted[j]);
    }
  }

  ghost predicate NoGapUpTo(db: Database, limit: nat, offset: nat) {
    NoneMissing(Resolving(db), SortedActive(db), limit, offset)
  }

  lemma PagesAgreeIff(db: Database, limit: nat, offset: nat)
    requires KeysUnique(db)
    ensures ListActivePage(Repaired(db), limit, offset) == ListActivePage(db, limit, offset)
       <==> NoGapUpTo(db, limit, offset)
  {
    RepairedSorted(db);
    if NoGapUpTo(db, limit, offset) {
      PageIfNoneMissing(Resolving(db), SortedActive(db), limit, offset);
    }
    if ListActivePage(Repaired(db), limit, offset) == ListActivePage(db, limit, offset) {
      NoneMissingIfPage(Resolving(db), SortedActive(db), limit, offset);
    }
  }

  lemma SameIdSameListing(db: Database, a: Listing, b: Listing)
    requires KeysUnique(db) && a in db.listings && b in db.listings && a.id == b.id
    ensures a == b
  {
  }

  /** Items tell the listings apart. */
  lemma SameItemsSameRows(db: Database, xs: seq<Listing>, ys: seq<Listing>)
    requires KeysUnique(db) && ItemsOf(db, xs) == ItemsOf(db, ys)
    requires (forall l :: l in xs ==> l in db.listings) && (forall l :: l in ys ==> l in db.listings)
    ensures xs == ys
  {
    assert |xs| == |ys|;
    forall i | 0 <= i < |xs| ensures xs[i] == ys[i] {
      assert ItemOf(db, xs[i]) == ItemsOf(db, xs)[i] == ItemsOf(db, ys)[i] == ItemOf(db, ys[i]);
      SameIdSameListing(db, xs[i], ys[i]);
    }
  }

  lemma RepairedPageRows(db: Database, limit: nat, offset: nat)
    ensures forall l :: l in ListActivePage(Repaired(db), limit, offset) ==> l in db.listings && Resolves(db, l)
  {
    PageRowsAreListings(Repaired(db), limit, offset);
    FilterIn(Resolving(db), db.listings);
  }

  /**
   Without foreign keys, the three services agree exactly when the page is empty by its bounds or every row of the
   sorted listings, from the first one to the end of the page, has its owner and its category.
   */
  method FeedsAgreeIff(db: Database, limit: nat, offset: nat)
    returns (naive: Result<seq<FeedItem>, FeedError>, batched: seq<FeedItem>, optimized: seq<FeedItem>)
    requires KeysUnique(db)
    ensures naive == Ok(batched) && batched == optimized <==> NoGapUpTo(db, limit, offset)
  {
    naive := NaiveGetFeed(db, limit, offset);
    batched := BatchedGetFeed(db, limit, offset);
    optimized := OptimizedGetFeed(db, limit, offset);
    var page, repaired := ListActivePage(db, limit, offset), ListActivePage(Repaired(db), limit, offset);
    OptimizedSkipsGaps(db, limit, offset);
    assert optimized == ItemsOf(db, repaired);
    PageRowsAreListings(db, limit, offset);
    RepairedPageRows(db, limit, offset);
    PagesAgreeIff(db, limit, offset);
    if batched == optimized {
      SameItemsSameRows(db, page, repaired);
    }
  }
}
