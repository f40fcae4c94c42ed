/** What a page of the feed shows, said from the tables alone. */
module FeedMeaning {
  import opened Wrappers
  import opened Sql
  import opened Feed
  import opened FeedGaps

  // ---------- the reviews of a listing ----------

  ghost predicate BookingIdsDiffer(bookings: seq<BookingRow>) {
    forall i, j :: 0 <= i < j < |bookings| ==> bookings[i].id != bookings[j].id
  }

  /** The review is of a booking of the listing. */
  ghost predicate IsOf(r: Review, bookings: seq<BookingRow>, listing: int) {
    exists b :: b in bookings && b.id == r.booking && b.listing == listing
  }

  /** The places in the table of the reviews that are of the listing. */
  ghost function Places(reviews: seq<Review>, bookings: seq<BookingRow>, listing: int): set<int> {
    set i | 0 <= i < |reviews| && IsOf(reviews[i], bookings, listing)
  }

  /** The sum of exactly the ratings of those reviews. */
  ghost function RatingTotal(reviews: seq<Review>, bookings: seq<BookingRow>, listing: int): int {
    if reviews == [] then 0
    else
      RatingTotal(reviews[..|reviews| - 1], bookings, listing)
      + if IsOf(reviews[|reviews| - 1], bookings, listing) then reviews[|reviews| - 1].rating else 0
  }

  lemma {:induction false} NoBooking(r: Review, bookings: seq<BookingRow>)
    requires forall b :: b in bookings ==> b.id != r.booking
    ensures Matches(r, bookings, PairRated) == []
  {
    if bookings != [] {
      NoBooking(r, bookings[1..]);
    }
  }

  /** A review joins its own booking, if that exists, and no other. */
  lemma {:induction false} OneBooking(r: Review, bookings: seq<BookingRow>, b: BookingRow)
    requires BookingIdsDiffer(bookings) && b in bookings && b.id == r.booking
    ensures Matches(r, bookings, PairRated) == [Rated(b.listing, r.rating)]
  {
    if bookings[0] == b {
      forall c | c in bookings[1..] ensures c.id != r.booking {
        var k :| 0 <= k < |bookings[1..]| && bookings[1..][k] == c;
        assert bookings[k + 1] == c;
      }
      NoBooking(r, bookings[1..]);
    } else {
      var k :| 0 <= k < |bookings| && bookings[k] == b;
      assert bookings[1..][k - 1] == b;
      OneBooking(r, bookings[1..], b);
    }
  }

  lemma {:induction false} RatingsAppend(xs: seq<Rated>, ys: seq<Rated>, listing: int)
    ensures RatingsFor(xs + ys, listing) == RatingsFor(xs, listing) + RatingsFor(ys, listing)
  {
    if xs == [] {
      assert xs + ys == ys;
    } else {
      assert (xs + ys)[1..] == xs[1..] + ys;
      RatingsAppend(xs[1..], ys, listing);
    }
  }

  lemma OneReview(r: Review, bookings: seq<BookingRow>, listing: int)
    requires BookingIdsDiffer(bookings)
    ensures RatingsFor(Matches(r, bookings, PairRated), listing) == if IsOf(r, bookings, listing) then [r.rating] else []
  {
    if b :| b in bookings && b.id == r.booking {
      OneBooking(r, bookings, b);
      var row := Rated(b.listing, r.rating);
      assert [row][1..] == [];
      if c :| c in bookings && c.id == r.booking && c.listing == listing {
        var i :| 0 <= i < |bookings| && bookings[i] == b;
        var j :| 0 <= j < |bookings| && bookings[j] == c;
        assert i == j;
      }
    } else {
      NoBooking(r, bookings);
    }
  }

  lemma {:induction false} SumAppend(xs: seq<int>, y: int)
    ensures Sum(xs + [y]) == Sum(xs) + y
  {
    if xs == [] {
      assert xs + [y] == [y];
    } else {
      assert (xs + [y])[1..] == xs[1..] + [y];
      SumAppend(xs[1..], y);
    }
  }

  lemma PlacesGrow(reviews: seq<Review>, r: Review, bookings: seq<BookingRow>, listing: int)
    ensures Places(reviews + [r], bookings, listing)
         == Places(reviews, bookings, listing) + if IsOf(r, bookings, listing) then {|reviews|} else {}
    ensures |Places(reviews + [r], bookings, listing)|
         == |Places(reviews, bookings, listing)| + if IsOf(r, bookings, listing) then 1 else 0
  {
    var old', new' := Places(reviews, bookings, listing), Places(reviews + [r], bookings, listing);
    forall i ensures i in new' <==> i in old' || (i == |reviews| && IsOf(r, bookings, listing)) {
    }
    if !IsOf(r, bookings, listing) {
      assert new' == old';
    }
  }

  /** The ratings behind a listing's summary are those of its own reviews, no more and no fewer. */
  lemma {:induction false} OwnRatings(reviews: seq<Review>, bookings: seq<BookingRow>, listing: int)
    requires BookingIdsDiffer(bookings)
    ensures var ratings := RatingsFor(Join(reviews, bookings, PairRated), listing);
            && |ratings| == |Places(reviews, bookings, listing)|
            && Sum(ratings) == RatingTotal(reviews, bookings, listing)
  {
    if reviews != [] {
      var before, r := reviews[..|reviews| - 1], reviews[|reviews| - 1];
      OwnRatings(before, bookings, listing);
      assert reviews == before + [r];
      PlacesGrow(before, r, bookings, listing);
      JoinAppend(before, [r], bookings, PairRated);
      assert Join([r], bookings, PairRated) == Matches(r, bookings, PairRated) + [] == Matches(r, bookings, PairRated);
      RatingsAppend(Join(before, bookings, PairRated), Matches(r, bookings, PairRated), listing);
      OneReview(r, bookings, listing);
      if IsOf(r, bookings, listing) {
        SumAppend(RatingsFor(Join(before, bookings, PairRated), listing), r.rating);
      } else {
        var ratings := RatingsFor(Join(before, bookings, PairRated), listing);
        assert ratings + [] == ratings;
      }
    }
  }

  /**
   A summary counts exactly the reviews of the listing's bookings; its average times the count is the sum of exactly
   their ratings, and without reviews both are zero.
   */
  ghost predicate Summarizes(db: Database, listing: int, count: int, average: real) {
    && count == |Places(db.reviews, db.bookings, listing)|
    && Averages(average, count, RatingTotal(db.reviews, db.bookings, listing))
  }

  lemma Quotient(total: int, n: int)
    requires n > 0
    ensures total as real / n as real * n as real == total as real
  {
  }

  /** The average times the count is the total, and both are zero together with the count. */
  predicate Averages(average: real, count: int, total: int) {
    average * count as real == total as real && (count == 0 ==> average == 0.0)
  }

  lemma SummarizeMeans(listing: int, ratings: seq<int>)
    ensures Summarize(listing, ratings).listing == listing && Summarize(listing, ratings).count == |ratings|
    ensures Averages(Summarize(listing, ratings).average, |ratings|, Sum(ratings))
  {
    if ratings != [] {
      Quotient(Sum(ratings), |ratings|);
    }
  }

  lemma SummaryIsOfOwnReviews(db: Database, listing: int)
    requires BookingIdsDiffer(db.bookings)
    ensures GetRatingSummary(db, listing).listing == listing
    ensures Summarizes(db, listing, GetRatingSummary(db, listing).count, GetRatingSummary(db, listing).average)
  {
    var ratings := RatingsFor(RatedRows(db), listing);
    OwnRatings(db.reviews, db.bookings, listing);
    SummarizeMeans(listing, ratings);
  }

  // ---------- an item ----------

  /** The item shows its listing, that listing's owner and category, and its reviews, field by field. */
  ghost predicate Describes(db: Database, item: FeedItem, l: Listing) {
    && item.listing == l.id && item.title == l.title && item.price == l.price && item.deposit == l.deposit
    && item.owner == l.owner && (exists u :: u in db.users && u.id == l.owner && item.ownerName == u.displayName)
    && item.category == l.category
    && (exists c :: c in db.categories && c.id == l.category && item.categoryName == c.name)
    && Summarizes(db, l.id, item.reviewCount, item.avgRating)
  }

  lemma ItemDescribes(db: Database, l: Listing)
    requires BookingIdsDiffer(db.bookings) && Resolves(db, l)
    ensures Describes(db, ItemOf(db, l), l)
  {
    SummaryIsOfOwnReviews(db, l.id);
    var u, c := FindUser(db.users, l.owner).value, FindCategory(db.categories, l.category).value;
    assert u in db.users && c in db.categories;
  }

  // ---------- the page ----------

  /** Newer first; of equally old listings the one with the larger id. */
  predicate Newer(a: Listing, b: Listing) {
    if a.createdAt == b.createdAt then a.id > b.id else a.createdAt > b.createdAt
  }

  predicate InFeed(l: Listing) {
    l.status == Active
  }

  /** How many listings of the feed come before this one. */
  function Rank(db: Database, l: Listing): nat {
    |Filter((k: Listing) => InFeed(k) && Newer(k, l), db.listings)|
  }

  function FeedSize(db: Database): nat {
    |Filter(InFeed, db.listings)|
  }

  lemma {:induction false} FilterNone<T>(p: T -> bool, xs: seq<T>)
    requires forall i :: 0 <= i < |xs| ==> !p(xs[i])
    ensures Filter(p, xs) == []
  {
    if xs != [] {
      FilterNone(p, xs[1..]);
    }
  }

  lemma {:induction false} FilterSame<T>(p: T -> bool, q: T -> bool, xs: seq<T>)
    requires forall x :: p(x) <==> q(x)
    ensures Filter(p, xs) == Filter(q, xs)
  {
    if xs != [] {
      FilterSame(p, q, xs[1..]);
    }
  }

  lemma {:induction false} FilterBoth<T>(p: T -> bool, q: T -> bool, both: T -> bool, xs: seq<T>)
    requires forall x :: both(x) <==> p(x) && q(x)
    ensures Filter(q, Filter(p, xs)) == Filter(both, xs)
  {
    if xs != [] {
      FilterBoth(p, q, both, xs[1..]);
      if p(xs[0]) {
        assert ([xs[0]] + Filter(p, xs[1..]))[1..] == Filter(p, xs[1..]);
      }
    }
  }

  lemma SameLength<T>(p: T -> bool, xs: seq<T>, ys: seq<T>)
    requires multiset(xs) == multiset(ys)
    ensures |Filter(p, xs)| == |Filter(p, ys)|
  {
    forall x ensures multiset(Filter(p, xs))[x] == multiset(Filter(p, ys))[x] {
      FilterRows(p, xs, x);
      FilterRows(p, ys, x);
    }
    SameRows(Filter(p, xs), Filter(p, ys));
    assert |multiset(Filter(p, xs))| == |multiset(Filter(p, ys))|;
  }

  /** In a sorted list the rows before position k are exactly those that come before the row there. */
  lemma RankInSorted(sorted: seq<Listing>, k: nat)
    requires Ordered(sorted, Before) && k < |sorted|
    ensures |Filter((x: Listing) => Newer(x, sorted[k]), sorted)| == k
  {
    var l := sorted[k];
    var p := (x: Listing) => Newer(x, l);
    assert sorted == sorted[..k] + sorted[k..];
    FilterAppend(p, sorted[..k], sorted[k..]);
    forall x | x in sorted[..k] ensures p(x) {
      var i :| 0 <= i < k && sorted[i] == x;
      assert Before(sorted[i], sorted[k]);
    }
    FilterAll(p, sorted[..k]);
    forall i | 0 <= i < |sorted[k..]| ensures !p(sorted[k..][i]) {
      assert sorted[k..][i] == sorted[k + i];
      if i > 0 {
        assert Before(sorted[k], sorted[k + i]);
      }
    }
    FilterNone(p, sorted[k..]);
  }

  lemma RankOfSorted(db: Database, k: nat)
    requires IdsDiffer(db.listings) && k < |SortedActive(db)|
    ensures Rank(db, SortedActive(db)[k]) == k
  {
    var active := Filter(IsActive, db.listings);
    FilterIdsDiffer(IsActive, db.listings);
    IdsMakeStrict(active);
    OrderByOrders(active, Before);
    var l := SortedActive(db)[k];
    var newer := (x: Listing) => Newer(x, l);
    RankInSorted(SortedActive(db), k);
    SameLength(newer, SortedActive(db), active);
    FilterBoth(IsActive, newer, (x: Listing) => InFeed(x) && Newer(x, l), db.listings);
  }

  lemma SortedSize(db: Database)
    ensures |SortedActive(db)| == FeedSize(db)
  {
    var active := Filter(IsActive, db.listings);
    OrderByKeepsRows(active, Before);
    FilterSame(IsActive, InFeed, db.listings);
    assert |multiset(SortedActive(db))| == |multiset(active)|;
  }

  lemma SortedRow(db: Database, k: nat)
    requires k < |SortedActive(db)|
    ensures SortedActive(db)[k] in db.listings && InFeed(SortedActive(db)[k])
  {
    var active := Filter(IsActive, db.listings);
    OrderByKeepsRows(active, Before);
    FilterIn(IsActive, db.listings);
    assert SortedActive(db)[k] in multiset(active);
  }

  lemma PageOfSorted(db: Database, limit: nat, offset: nat)
    ensures var page, n := ListActivePage(db, limit, offset), |SortedActive(db)|;
            && |page| == (if offset >= n then 0 else if offset + limit <= n then limit else n - offset)
            && forall i :: 0 <= i < |page| ==> page[i] == SortedActive(db)[offset + i]
  {
  }

  /** The page holds exactly the ranks from the offset on, at most as many as its limit, in order. */
  lemma PageHoldsRanks(db: Database, limit: nat, offset: nat)
    requires IdsDiffer(db.listings)
    ensures var page := ListActivePage(db, limit, offset);
            && |page| == (if offset >= FeedSize(db) then 0
                          else if offset + limit <= FeedSize(db) then limit else FeedSize(db) - offset)
            && forall i :: 0 <= i < |page| ==> page[i] in db.listings && InFeed(page[i]) && Rank(db, page[i]) == offset + i
  {
    var page := ListActivePage(db, limit, offset);
    SortedSize(db);
    PageOfSorted(db, limit, offset);
    forall i | 0 <= i < |page| ensures page[i] in db.listings && InFeed(page[i]) && Rank(db, page[i]) == offset + i {
      SortedRow(db, offset + i);
      RankOfSorted(db, offset + i);
    }
  }

  // ---------- the feed ----------

  /** Place i of a page whose items are those of its rows. */
  ghost predicate ShowsRank(db: Database, item: FeedItem, rank: int) {
    exists l :: l in db.listings && InFeed(l) && Rank(db, l) == rank && Describes(db, item, l)
  }

  lemma ItemShowsRank(db: Database, limit: nat, offset: nat, i: nat)
    requires SchemaOk(db) && BookingIdsDiffer(db.bookings) && i < |ListActivePage(db, limit, offset)|
    ensures ShowsRank(db, ItemOf(db, ListActivePage(db, limit, offset)[i]), offset + i)
  {
    var l := ListActivePage(db, limit, offset)[i];
    PageHoldsRanks(db, limit, offset);
    assert l in db.listings;
    ItemDescribes(db, l);
  }

  /** What all three services return, under the schema: for each place of the page the item of the listing of that rank. */
  method FeedShowsThePage(db: Database, limit: nat, offset: nat)
    returns (naive: Result<seq<FeedItem>, FeedError>, batched: seq<FeedItem>, optimized: seq<FeedItem>)
    requires SchemaOk(db) && BookingIdsDiffer(db.bookings)
    ensures naive == Ok(optimized) && batched == optimized
    ensures |optimized| == (if offset >= FeedSize(db) then 0
                            else if offset + limit <= FeedSize(db) then limit else FeedSize(db) - offset)
    ensures forall i :: 0 <= i < |optimized| ==> ShowsRank(db, optimized[i], offset + i)
  {
    naive, batched, optimized := AllFeedsAgree(db, limit, offset);
    PageHoldsRanks(db, limit, offset);
    forall i | 0 <= i < |optimized| ensures ShowsRank(db, optimized[i], offset + i) {
      ItemShowsRank(db, limit, offset, i);
    }
  }
}
