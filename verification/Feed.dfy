/** The tables behind the listing feed, and the three ways internal/listing assembles a page of it. */
module Feed {
  import opened Wrappers
  import opened Sql

  datatype User = User(id: int, displayName: string)
  datatype Category = Category(id: int, name: string)
  datatype ListingStatus = Draft | Active | Archived
  datatype Listing = Listing(
    id: int, owner: int, category: int, title: string, price: int, deposit: int, status: ListingStatus, createdAt: int)
  datatype BookingRow = BookingRow(id: int, listing: int)
  datatype Review = Review(id: int, booking: int, rating: int)

  /** One consistent snapshot of the tables. */
  datatype Database = Database(
    users: seq<User>, categories: seq<Category>, listings: seq<Listing>, bookings: seq<BookingRow>, reviews: seq<Review>)

  datatype RatingSummary = RatingSummary(listing: int, count: int, average: real)

  datatype FeedItem = FeedItem(
    listing: int, title: string, price: int, deposit: int,
    owner: int, ownerName: string, category: int, categoryName: string, reviewCount: int, avgRating: real)

  datatype FeedError = OwnerLookup | CategoryLookup

  // ---------- schema ----------

  /** The primary keys of the tables that are joined on. */
  ghost predicate KeysUnique(db: Database) {
    && (forall i, j :: 0 <= i < j < |db.users| ==> db.users[i].id != db.users[j].id)
    && (forall i, j :: 0 <= i < j < |db.categories| ==> db.categories[i].id != db.categories[j].id)
    && IdsDiffer(db.listings)
  }

  ghost predicate IdsDiffer(listings: seq<Listing>) {
    forall i, j :: 0 <= i < j < |listings| ==> listings[i].id != listings[j].id
  }

  /** The owner and category that a listing's foreign keys name exist. */
  predicate Resolves(db: Database, l: Listing) {
    FindUser(db.users, l.owner).Some? && FindCategory(db.categories, l.category).Some?
  }

  ghost predicate SchemaOk(db: Database) {
    KeysUnique(db) && forall l :: l in db.listings ==> Resolves(db, l)
  }

  function FindUser(users: seq<User>, id: int): (r: Option<User>)
    ensures r.Some? ==> r.value in users && r.value.id == id
    ensures r.None? ==> forall u :: u in users ==> u.id != id
  {
    if users == [] then None else if users[0].id == id then Some(users[0]) else FindUser(users[1..], id)
  }

  function FindCategory(categories: seq<Category>, id: int): (r: Option<Category>)
    ensures r.Some? ==> r.value in categories && r.value.id == id
    ensures r.None? ==> forall c :: c in categories ==> c.id != id
  {
    if categories == [] then None
    else if categories[0].id == id then Some(categories[0]) else FindCategory(categories[1..], id)
  }

  // ---------- rating aggregates ----------

  /** A review together with the listing its booking is for. */
  datatype Rated = Rated(listing: int, rating: int)

  function PairRated(r: Review, b: BookingRow): Option<Rated> {
    if b.id == r.booking then Some(Rated(b.listing, r.rating)) else None
  }

  /** reviews r JOIN bookings b ON b.id = r.booking_id. */
  function RatedRows(db: Database): seq<Rated> {
    Join(db.reviews, db.bookings, PairRated)
  }

  function RatingsFor(rows: seq<Rated>, listing: int): seq<int> {
    if rows == [] then []
    else if rows[0].listing == listing then [rows[0].rating] + RatingsFor(rows[1..], listing)
    else RatingsFor(rows[1..], listing)
  }

  function Sum(xs: seq<int>): int {
    if xs == [] then 0 else xs[0] + Sum(xs[1..])
  }

  /** COUNT(*) and COALESCE(AVG(rating), 0). */
  function Summarize(listing: int, ratings: seq<int>): RatingSummary {
    RatingSummary(listing, |ratings|, if ratings == [] then 0.0 else Sum(ratings) as real / |ratings| as real)
  }

  /** The summary of one listing, asked for alone. */
  function GetRatingSummary(db: Database, listing: int): RatingSummary {
    Summarize(listing, RatingsFor(RatedRows(db), listing))
  }

  function WithoutListing(rows: seq<Rated>, listing: int): (r: seq<Rated>)
    ensures |r| <= |rows|
  {
    if rows == [] then []
    else if rows[0].listing == listing then WithoutListing(rows[1..], listing)
    else [rows[0]] + WithoutListing(rows[1..], listing)
  }

  /** GROUP BY listing_id: one row for each listing that occurs. */
  function GroupByListing(rows: seq<Rated>): seq<RatingSummary>
    decreases |rows|
  {
    if rows == [] then []
    else
      var listing := rows[0].listing;
      [Summarize(listing, RatingsFor(rows, listing))] + GroupByListing(WithoutListing(rows[1..], listing))
  }

  /** WHERE listing_id IN (ids), before the grouping. */
  function OfListings(rows: seq<Rated>, ids: seq<int>): seq<Rated> {
    if rows == [] then []
    else if rows[0].listing in ids then [rows[0]] + OfListings(rows[1..], ids)
    else OfListings(rows[1..], ids)
  }

  function GroupOf(groups: seq<RatingSummary>, listing: int): seq<RatingSummary> {
    if groups == [] then []
    else if groups[0].listing == listing then [groups[0]] + GroupOf(groups[1..], listing)
    else GroupOf(groups[1..], listing)
  }

  lemma {:induction false} WithoutKeepsOthers(rows: seq<Rated>, gone: int, listing: int)
    ensures RatingsFor(WithoutListing(rows, gone), listing) == if listing == gone then [] else RatingsFor(rows, listing)
  {
    if rows != [] {
      WithoutKeepsOthers(rows[1..], gone, listing);
      if rows[0].listing != gone {
        assert ([rows[0]] + WithoutListing(rows[1..], gone))[1..] == WithoutListing(rows[1..], gone);
      }
    }
  }

  /** Grouping yields exactly one row for a listing with ratings, its own summary, and none for the others. */
  lemma {:induction false} GroupIsSummary(rows: seq<Rated>, listing: int)
    ensures GroupOf(GroupByListing(rows), listing)
         == if RatingsFor(rows, listing) == [] then [] else [Summarize(listing, RatingsFor(rows, listing))]
    decreases |rows|
  {
    if rows != [] {
      var key := rows[0].listing;
      var rest := WithoutListing(rows[1..], key);
      GroupIsSummary(rest, listing);
      WithoutKeepsOthers(rows[1..], key, listing);
      assert GroupByListing(rows)[1..] == GroupByListing(rest);
      assert RatingsFor(rows, key) != [];
    }
  }

  lemma {:induction false} OfListingsKeeps(rows: seq<Rated>, ids: seq<int>, listing: int)
    ensures RatingsFor(OfListings(rows, ids), listing) == if listing in ids then RatingsFor(rows, listing) else []
  {
    if rows != [] {
      OfListingsKeeps(rows[1..], ids, listing);
      if rows[0].listing in ids {
        assert ([rows[0]] + OfListings(rows[1..], ids))[1..] == OfListings(rows[1..], ids);
      }
    }
  }

  /** The batched query: grouped rows of the requested listings. */
  function BatchedGroups(db: Database, ids: seq<int>): seq<RatingSummary> {
    GroupByListing(OfListings(RatedRows(db), ids))
  }

  // ---------- the page of listings ----------

  /** ORDER BY created_at DESC; equal times are ordered by id, newest first. */
  predicate Before(a: Listing, b: Listing) {
    a.createdAt > b.createdAt || (a.createdAt == b.createdAt && a.id > b.id)
  }

  predicate IsActive(l: Listing) {
    l.status.Active?
  }

  function ListActivePage(db: Database, limit: nat, offset: nat): seq<Listing> {
    Page(OrderBy(Filter(IsActive, db.listings), Before), limit, offset)
  }

  /** The item for one listing; a missing owner or category has the zero id and the empty name. */
  function ItemOf(db: Database, l: Listing): FeedItem {
    var owner := match FindUser(db.users, l.owner) case Some(u) => u case None => User(0, "");
    var cat := match FindCategory(db.categories, l.category) case Some(c) => c case None => Category(0, "");
    var rating := GetRatingSummary(db, l.id);
    FeedItem(l.id, l.title, l.price, l.deposit, owner.id, owner.displayName, cat.id, cat.name, rating.count, rating.average)
  }

  function ItemsOf(db: Database, rows: seq<Listing>): (items: seq<FeedItem>)
    ensures |items| == |rows|
    ensures forall i :: 0 <= i < |rows| ==> items[i] == ItemOf(db, rows[i])
  {
    if rows == [] then [] else [ItemOf(db, rows[0])] + ItemsOf(db, rows[1..])
  }

  lemma ItemsOfPrefix(db: Database, rows: seq<Listing>, n: nat)
    requires n < |rows|
    ensures ItemsOf(db, rows[..n + 1]) == ItemsOf(db, rows[..n]) + [ItemOf(db, rows[n])]
  {
  }

  // ---------- the naive service ----------

  ghost predicate AllResolve(db: Database, rows: seq<Listing>) {
    forall i :: 0 <= i < |rows| ==> Resolves(db, rows[i])
  }

  lemma AllResolvePrefix(db: Database, rows: seq<Listing>, n: nat)
    requires n < |rows| && AllResolve(db, rows[..n]) && Resolves(db, rows[n])
    ensures AllResolve(db, rows[..n + 1])
  {
    assert rows[..n + 1] == rows[..n] + [rows[n]];
  }

  function LookupError(db: Database, l: Listing): FeedError {
    if FindUser(db.users, l.owner).None? then OwnerLookup else CategoryLookup
  }

  /** The loop stops with this error at row n. */
  ghost predicate StopsAt(db: Database, rows: seq<Listing>, n: int, error: FeedError) {
    && 0 <= n < |rows| && AllResolve(db, rows[..n])
    && !Resolves(db, rows[n]) && error == LookupError(db, rows[n])
  }

  /** The three lookups for one row. */
  method NaiveItem(db: Database, l: Listing) returns (r: Result<FeedItem, FeedError>)
    ensures r == if Resolves(db, l) then Ok(ItemOf(db, l)) else Err(LookupError(db, l))
  {
    var owner := FindUser(db.users, l.owner);
    if owner.None? {
      return Err(OwnerLookup);
    }
    var cat := FindCategory(db.categories, l.category);
    if cat.None? {
      return Err(CategoryLookup);
    }
    var rating := GetRatingSummary(db, l.id);
    return Ok(FeedItem(
      l.id, l.title, l.price, l.deposit,
      owner.value.id, owner.value.displayName, cat.value.id, cat.value.name, rating.count, rating.average));
  }

  /** The loop over the rows of a page. */
  method NaiveItems(db: Database, rows: seq<Listing>) returns (r: Result<seq<FeedItem>, FeedError>)
    ensures r.Ok? ==> AllResolve(db, rows) && r.value == ItemsOf(db, rows)
    ensures r.Err? ==> exists n :: StopsAt(db, rows, n, r.error)
  {
    var items := [];
    for i := 0 to |rows|
      invariant items == ItemsOf(db, rows[..i])
      invariant AllResolve(db, rows[..i])
    {
      var item := NaiveItem(db, rows[i]);
      if item.Err? {
        assert StopsAt(db, rows, i, item.error);
        return Err(item.error);
      }
      ItemsOfPrefix(db, rows, i);
      AllResolvePrefix(db, rows, i);
      items := items + [item.value];
    }
    assert rows[..|rows|] == rows;
    return Ok(items);
  }

  /** One query for the page, then three for each row. It fails exactly at the first row without owner or category. */
  method NaiveGetFeed(db: Database, limit: nat, offset: nat) returns (r: Result<seq<FeedItem>, FeedError>)
    ensures r.Ok? <==> AllResolve(db, ListActivePage(db, limit, offset))
    ensures r.Ok? ==> r.value == ItemsOf(db, ListActivePage(db, limit, offset))
    ensures r.Err? ==> exists n :: StopsAt(db, ListActivePage(db, limit, offset), n, r.error)
  {
    var rows := ListActivePage(db, limit, offset);
    r := NaiveItems(db, rows);
  }

  // ---------- the batched service ----------

  /** SELECT ... WHERE id IN (ids), then a map by id. */
  method UsersByIDs(db: Database, ids: seq<int>) returns (result: map<int, User>)
    requires forall i, j :: 0 <= i < j < |db.users| ==> db.users[i].id != db.users[j].id
    ensures forall id :: id in result <==> id in ids && FindUser(db.users, id).Some?
    ensures forall id :: id in result ==> result[id] == FindUser(db.users, id).value
  {
    result := map[];
    for i := 0 to |db.users|
      invariant forall id :: id in result <==> id in ids && exists j :: 0 <= j < i && db.users[j].id == id
      invariant forall j :: 0 <= j < i && db.users[j].id in ids ==> result[db.users[j].id] == db.users[j]
    {
      if db.users[i].id in ids {
        result := result[db.users[i].id := db.users[i]];
      }
    }
    forall id | id in ids ensures id in result <==> FindUser(db.users, id).Some? {
      var found := FindUser(db.users, id);
      if found.Some? {
        var j :| 0 <= j < |db.users| && db.users[j] == found.value;
      }
    }
  }

  method CategoriesByIDs(db: Database, ids: seq<int>) returns (result: map<int, Category>)
    requires forall i, j :: 0 <= i < j < |db.categories| ==> db.categories[i].id != db.categories[j].id
    ensures forall id :: id in result <==> id in ids && FindCategory(db.categories, id).Some?
    ensures forall id :: id in result ==> result[id] == FindCategory(db.categories, id).value
  {
    result := map[];
    for i := 0 to |db.categories|
      invariant forall id :: id in result <==> id in ids && exists j :: 0 <= j < i && db.categories[j].id == id
      invariant forall j :: 0 <= j < i && db.categories[j].id in ids ==> result[db.categories[j].id] == db.categories[j]
    {
      if db.categories[i].id in ids {
        result := result[db.categories[i].id := db.categories[i]];
      }
    }
    forall id | id in ids ensures id in result <==> FindCategory(db.categories, id).Some? {
      var found := FindCategory(db.categories, id);
      if found.Some? {
        var j :| 0 <= j < |db.categories| && db.categories[j] == found.value;
      }
    }
  }

  lemma {:induction false} GroupOfIn(groups: seq<RatingSummary>, g: RatingSummary)
    requires g in groups
    ensures g in GroupOf(groups, g.listing)
  {
    if groups[0] != g {
      GroupOfIn(groups[1..], g);
    }
  }

  lemma {:induction false} GroupOfFrom(groups: seq<RatingSummary>, listing: int)
    ensures forall g :: g in GroupOf(groups, listing) ==> g in groups && g.listing == listing
  {
    if groups != [] {
      GroupOfFrom(groups[1..], listing);
    }
  }

  /** The batched summaries: the per-listing summary of each requested listing that has reviews, and nothing else. */
  method GetRatingSummaries(db: Database, ids: seq<int>) returns (result: map<int, RatingSummary>)
    ensures forall id :: id in result <==> id in ids && GetRatingSummary(db, id).count > 0
    ensures forall id :: id in result ==> result[id] == GetRatingSummary(db, id)
  {
    result := map[];
    if |ids| == 0 {
      return;
    }
    var rows := BatchedGroups(db, ids);
    for i := 0 to |rows|
      invariant forall id :: id in result ==> result[id] in rows && result[id].listing == id
      invariant forall j :: 0 <= j < i ==> rows[j].listing in result
    {
      result := result[rows[i].listing := rows[i]];
    }
    forall id ensures id in result <==> id in ids && GetRatingSummary(db, id).count > 0
              ensures id in result ==> result[id] == GetRatingSummary(db, id)
    {
      GroupIsSummary(OfListings(RatedRows(db), ids), id);
      OfListingsKeeps(RatedRows(db), ids, id);
      GroupOfFrom(rows, id);
      if id in result {
        GroupOfIn(rows, result[id]);
      }
      assert GroupOf(rows, id) != [] ==> GroupOf(rows, id)[0] in rows;
    }
  }

  /** Four queries: the page, its owners, its categories, its ratings; then one item for each row. */
  method BatchedGetFeed(db: Database, limit: nat, offset: nat) returns (items: seq<FeedItem>)
    requires KeysUnique(db)
    ensures items == ItemsOf(db, ListActivePage(db, limit, offset))
  {
    var rows := ListActivePage(db, limit, offset);
    var ownerIDs, categoryIDs, listingIDs := [], [], [];
    var seenOwner, seenCategory := {}, {};
    for i := 0 to |rows|
      invariant forall id :: id in seenOwner <==> id in ownerIDs
      invariant forall id :: id in seenCategory <==> id in categoryIDs
      invariant forall j :: 0 <= j < i ==>
                  rows[j].owner in ownerIDs && rows[j].category in categoryIDs && rows[j].id in listingIDs
    {
      var l := rows[i];
      if l.owner !in seenOwner {
        seenOwner := seenOwner + {l.owner};
        ownerIDs := ownerIDs + [l.owner];
      }
      if l.category !in seenCategory {
        seenCategory := seenCategory + {l.category};
        categoryIDs := categoryIDs + [l.category];
      }
      listingIDs := listingIDs + [l.id];
    }

    var owners := UsersByIDs(db, ownerIDs);
    var cats := CategoriesByIDs(db, categoryIDs);
    var ratings := GetRatingSummaries(db, listingIDs);

    items := [];
    for i := 0 to |rows|
      invariant items == ItemsOf(db, rows[..i])
    {
      var l := rows[i];
      var owner := if l.owner in owners then owners[l.owner] else User(0, "");
      var cat := if l.category in cats then cats[l.category] else Category(0, "");
      var rating := if l.id in ratings then ratings[l.id] else RatingSummary(0, 0, 0.0);
      ItemsOfPrefix(db, rows, i);
      items := items + [FeedItem(
        l.id, l.title, l.price, l.deposit,
        owner.id, owner.displayName, cat.id, cat.name, rating.count, rating.average)];
    }
    assert rows[..|rows|] == rows;
  }

  // ---------- the single query ----------

  /** A row of the growing join. */
  datatype Owned = Owned(listing: Listing, owner: User)
  datatype Filed = Filed(listing: Listing, owner: User, category: Category)
  datatype FeedRow = FeedRow(listing: Listing, owner: User, category: Category, count: int, average: real)

  function PairOwner(l: Listing, u: User): Option<Owned> {
    if u.id == l.owner then Some(Owned(l, u)) else None
  }

  function PairCategory(o: Owned, c: Category): Option<Filed> {
    if c.id == o.listing.category then Some(Filed(o.listing, o.owner, c)) else None
  }

  function PairRating(f: Filed, s: RatingSummary): Option<FeedRow> {
    if s.listing == f.listing.id then Some(FeedRow(f.listing, f.owner, f.category, s.count, s.average)) else None
  }

  /** COALESCE of the two NULL columns. */
  function Unrated(f: Filed): FeedRow {
    FeedRow(f.listing, f.owner, f.category, 0, 0.0)
  }

  predicate RowIsActive(r: FeedRow) {
    IsActive(r.listing)
  }

  predicate RowBefore(a: FeedRow, b: FeedRow) {
    Before(a.listing, b.listing)
  }

  /** FROM gear_listings JOIN users JOIN categories LEFT JOIN (reviews JOIN bookings GROUP BY listing_id). */
  function JoinedRows(db: Database): seq<FeedRow> {
    LeftJoin(
      Join(Join(db.listings, db.users, PairOwner), db.categories, PairCategory),
      GroupByListing(RatedRows(db)), PairRating, Unrated)
  }

  function OptimizedFeedRows(db: Database, limit: nat, offset: nat): seq<FeedRow> {
    Page(OrderBy(Filter(RowIsActive, JoinedRows(db)), RowBefore), limit, offset)
  }

  function ItemOfRow(r: FeedRow): FeedItem {
    FeedItem(
      r.listing.id, r.listing.title, r.listing.price, r.listing.deposit,
      r.owner.id, r.owner.displayName, r.category.id, r.category.name, r.count, r.average)
  }

  /** One query, then a conversion of each row. */
  method OptimizedGetFeed(db: Database, limit: nat, offset: nat) returns (items: seq<FeedItem>)
    ensures |items| == |OptimizedFeedRows(db, limit, offset)|
    ensures forall i :: 0 <= i < |items| ==> items[i] == ItemOfRow(OptimizedFeedRows(db, limit, offset)[i])
    ensures SchemaOk(db) ==> items == ItemsOf(db, ListActivePage(db, limit, offset))
  {
    var rows := OptimizedFeedRows(db, limit, offset);
    items := [];
    for i := 0 to |rows|
      invariant |items| == i && forall j :: 0 <= j < i ==> items[j] == ItemOfRow(rows[j])
    {
      items := items + [ItemOfRow(rows[i])];
    }
    if SchemaOk(db) {
      OptimizedRowsAreItems(db, limit, offset);
    }
  }

  // ---------- why the query is right ----------

  function OwnedOf(db: Database): Listing -> Owned {
    (l: Listing) => Owned(l, match FindUser(db.users, l.owner) case Some(u) => u case None => User(0, ""))
  }

  function FiledOf(db: Database): Owned -> Filed {
    (o: Owned) => Filed(o.listing, o.owner,
      match FindCategory(db.categories, o.listing.category) case Some(c) => c case None => Category(0, ""))
  }

  function RowOf(db: Database): Filed -> FeedRow {
    (f: Filed) =>
      var s := GetRatingSummary(db, f.listing.id);
      FeedRow(f.listing, f.owner, f.category, s.count, s.average)
  }

  function FullRow(db: Database): Listing -> FeedRow {
    (l: Listing) => RowOf(db)(FiledOf(db)(OwnedOf(db)(l)))
  }

  lemma {:induction false} NoUserMatch(l: Listing, users: seq<User>)
    requires forall u :: u in users ==> u.id != l.owner
    ensures Matches(l, users, PairOwner) == []
  {
    if users != [] {
      NoUserMatch(l, users[1..]);
    }
  }

  /** A primary key makes a foreign key's join one row, the one a lookup finds. */
  lemma {:induction false} OneUserMatch(l: Listing, users: seq<User>)
    requires forall i, j :: 0 <= i < j < |users| ==> users[i].id != users[j].id
    requires FindUser(users, l.owner).Some?
    ensures Matches(l, users, PairOwner) == [Owned(l, FindUser(users, l.owner).value)]
  {
    if users[0].id == l.owner {
      NoUserMatch(l, users[1..]);
    } else {
      OneUserMatch(l, users[1..]);
    }
  }

  lemma {:induction false} NoCategoryMatch(o: Owned, categories: seq<Category>)
    requires forall c :: c in categories ==> c.id != o.listing.category
    ensures Matches(o, categories, PairCategory) == []
  {
    if categories != [] {
      NoCategoryMatch(o, categories[1..]);
    }
  }

  lemma {:induction false} OneCategoryMatch(o: Owned, categories: seq<Category>)
    requires forall i, j :: 0 <= i < j < |categories| ==> categories[i].id != categories[j].id
    requires FindCategory(categories, o.listing.category).Some?
    ensures Matches(o, categories, PairCategory)
         == [Filed(o.listing, o.owner, FindCategory(categories, o.listing.category).value)]
  {
    if categories[0].id == o.listing.category {
      NoCategoryMatch(o, categories[1..]);
    } else {
      OneCategoryMatch(o, categories[1..]);
    }
  }

  lemma {:induction false} RatingMatches(f: Filed, groups: seq<RatingSummary>)
    ensures |Matches(f, groups, PairRating)| == |GroupOf(groups, f.listing.id)|
    ensures forall i :: 0 <= i < |GroupOf(groups, f.listing.id)| ==>
              Matches(f, groups, PairRating)[i]
              == FeedRow(f.listing, f.owner, f.category, GroupOf(groups, f.listing.id)[i].count, GroupOf(groups, f.listing.id)[i].average)
  {
    if groups != [] {
      RatingMatches(f, groups[1..]);
    }
  }

  /** The grouped LEFT JOIN gives each listing its own aggregate, also when it has no review. */
  lemma RatingJoin(db: Database, f: Filed)
    ensures Matches(f, GroupByListing(RatedRows(db)), PairRating) == [RowOf(db)(f)]
         || (Matches(f, GroupByListing(RatedRows(db)), PairRating) == [] && Unrated(f) == RowOf(db)(f))
  {
    var rows := RatedRows(db);
    GroupIsSummary(rows, f.listing.id);
    RatingMatches(f, GroupByListing(rows));
    if RatingsFor(rows, f.listing.id) != [] {
      assert GroupOf(GroupByListing(rows), f.listing.id)[0] == GetRatingSummary(db, f.listing.id);
    }
  }

  lemma {:induction false} MapOfMap(db: Database, xs: seq<Listing>)
    ensures Map(RowOf(db), Map(FiledOf(db), Map(OwnedOf(db), xs))) == Map(FullRow(db), xs)
  {
  }

  lemma JoinIsRowByRow(db: Database)
    requires SchemaOk(db)
    ensures JoinedRows(db) == Map(FullRow(db), db.listings)
  {
    forall l | l in db.listings ensures Matches(l, db.users, PairOwner) == [OwnedOf(db)(l)] {
      OneUserMatch(l, db.users);
    }
    JoinIsMap(db.listings, db.users, PairOwner, OwnedOf(db));
    var owned := Map(OwnedOf(db), db.listings);
    forall o | o in owned ensures Matches(o, db.categories, PairCategory) == [FiledOf(db)(o)] {
      var i :| 0 <= i < |owned| && owned[i] == o;
      assert o.listing == db.listings[i] && o.listing in db.listings;
      OneCategoryMatch(o, db.categories);
    }
    JoinIsMap(owned, db.categories, PairCategory, FiledOf(db));
    var filed := Map(FiledOf(db), owned);
    forall f | f in filed
      ensures Matches(f, GroupByListing(RatedRows(db)), PairRating) == [RowOf(db)(f)]
           || (Matches(f, GroupByListing(RatedRows(db)), PairRating) == [] && Unrated(f) == RowOf(db)(f))
    {
      RatingJoin(db, f);
    }
    LeftJoinIsMap(filed, GroupByListing(RatedRows(db)), PairRating, Unrated, RowOf(db));
    MapOfMap(db, db.listings);
  }

  lemma FullRowOf(db: Database, l: Listing)
    ensures FullRow(db)(l).listing == l && ItemOfRow(FullRow(db)(l)) == ItemOf(db, l)
  {
    var owned := OwnedOf(db)(l);
    assert owned.listing == l;
    var filed := FiledOf(db)(owned);
    assert filed.listing == l && filed.owner == owned.owner;
    assert FullRow(db)(l) == RowOf(db)(filed);
  }

  /** Joining first and cutting the page last is the same as cutting the page first and enriching its rows. */
  lemma JoinThenCut(db: Database, limit: nat, offset: nat)
    requires SchemaOk(db)
    ensures OptimizedFeedRows(db, limit, offset) == Map(FullRow(db), ListActivePage(db, limit, offset))
  {
    JoinIsRowByRow(db);
    var full := FullRow(db);
    forall l: Listing ensures full(l).listing == l {
      FullRowOf(db, l);
    }
    FilterOfMap(full, IsActive, RowIsActive, db.listings);
    var active := Filter(IsActive, db.listings);
    OrderByOfMap(full, Before, RowBefore, active);
    PageOfMap(full, OrderBy(active, Before), limit, offset);
  }

  lemma OptimizedRowsAreItems(db: Database, limit: nat, offset: nat)
    requires SchemaOk(db)
    ensures |OptimizedFeedRows(db, limit, offset)| == |ListActivePage(db, limit, offset)|
    ensures forall i :: 0 <= i < |ListActivePage(db, limit, offset)| ==>
              ItemOfRow(OptimizedFeedRows(db, limit, offset)[i]) == ItemOf(db, ListActivePage(db, limit, offset)[i])
  {
    JoinThenCut(db, limit, offset);
    var page, rows := ListActivePage(db, limit, offset), OptimizedFeedRows(db, limit, offset);
    forall i | 0 <= i < |page| ensures ItemOfRow(rows[i]) == ItemOf(db, page[i]) {
      FullRowOf(db, page[i]);
    }
  }

  lemma PageRowsAreListings(db: Database, limit: nat, offset: nat)
    ensures forall l :: l in ListActivePage(db, limit, offset) ==> l in db.listings
  {
    var active := Filter(IsActive, db.listings);
    FilterIn(IsActive, db.listings);
    OrderByKeepsRows(active, Before);
    forall l | l in ListActivePage(db, limit, offset) ensures l in db.listings {
      assert l in OrderBy(active, Before);
      assert l in multiset(active);
    }
  }

  /** The three services return the same list on every database that meets the schema, for every limit and offset. */
  method AllFeedsAgree(db: Database, limit: nat, offset: nat)
    returns (naive: Result<seq<FeedItem>, FeedError>, batched: seq<FeedItem>, optimized: seq<FeedItem>)
    requires SchemaOk(db)
    ensures naive == Ok(batched) && batched == optimized
    ensures optimized == ItemsOf(db, ListActivePage(db, limit, offset))
  {
    naive := NaiveGetFeed(db, limit, offset);
    batched := BatchedGetFeed(db, limit, offset);
    optimized := OptimizedGetFeed(db, limit, offset);
    PageRowsAreListings(db, limit, offset);
  }

  /** The page's rows are the active listings in the order asked for, whatever algorithm sorts them. */
  lemma PageOrderIsDetermined(db: Database, sorted: seq<Listing>)
    requires IdsDiffer(db.listings)
    requires multiset(sorted) == multiset(Filter(IsActive, db.listings)) && Ordered(sorted, Before)
    ensures forall limit: nat, offset: nat :: Page(sorted, limit, offset) == ListActivePage(db, limit, offset)
  {
    var active := Filter(IsActive, db.listings);
    FilterIdsDiffer(IsActive, db.listings);
    OrderByOrders(active, Before);
    OrderIsUnique(sorted, OrderBy(active, Before), Before);
  }

  lemma {:induction false} FilterIdsDiffer(p: Listing -> bool, listings: seq<Listing>)
    requires IdsDiffer(listings)
    ensures IdsDiffer(Filter(p, listings))
  {
    if listings != [] {
      FilterIdsDiffer(p, listings[1..]);
      FilterIn(p, listings[1..]);
      var rest := Filter(p, listings[1..]);
      forall l | l in rest ensures l.id != listings[0].id {
        assert l in listings[1..];
        var k :| 0 <= k < |listings[1..]| && listings[1..][k] == l;
        assert listings[k + 1] == l;
      }
      if p(listings[0]) {
        var kept := [listings[0]] + rest;
        assert Filter(p, listings) == kept;
        forall i, j | 0 <= i < j < |kept| ensures kept[i].id != kept[j].id {
          assert kept[j] == rest[j - 1];
        }
      }
    }
  }

  /** For instance, the loop fails, the maps give a zero owner, and the join drops the row. */
  lemma DanglingOwnerSplitsThem()
    ensures var l := Listing(1, 7, 1, "Kayak", 1000, 0, Active, 0);
            var db := Database([], [Category(1, "Water Sports")], [l], [], []);
            && StopsAt(db, ListActivePage(db, 20, 0), 0, OwnerLookup)
            && ItemsOf(db, ListActivePage(db, 20, 0)) == [FeedItem(1, "Kayak", 1000, 0, 0, "", 1, "Water Sports", 0, 0.0)]
            && OptimizedFeedRows(db, 20, 0) == []
  {
    var l := Listing(1, 7, 1, "Kayak", 1000, 0, Active, 0);
    var db := Database([], [Category(1, "Water Sports")], [l], [], []);
    assert Filter(IsActive, db.listings) == [l];
    assert OrderBy([l], Before) == [l];
    assert RatedRows(db) == [];
    assert Join(db.listings, db.users, PairOwner) == [];
    assert JoinedRows(db) == [];
  }
}
