/** The search index kept by cmd/search-indexer/main.go: upserts and deletes, driven by the listing event log. */
module SearchIndex {
  import opened Wrappers

  datatype Event = Event(
    kind: string, listing: int, title: string, description: string, price: int, categoryName: string, status: string)

  datatype Document = Document(
    listing: int, title: string, description: string, price: int, categoryName: string, ownerName: string,
    status: string, avgRating: real)

  type Docs = map<int, Document>

  function DocumentOf(e: Event): Document {
    Document(e.listing, e.title, e.description, e.price, e.categoryName, "", e.status, 0.0)
  }

  /** The document shows what the event says, field by field; owner and rating are not indexed here. */
  predicate Shows(d: Document, e: Event) {
    && d.listing == e.listing && d.title == e.title && d.description == e.description && d.price == e.price
    && d.categoryName == e.categoryName && d.status == e.status
    && d.ownerName == "" && d.avgRating == 0.0
  }

  predicate IsDelete(e: Event) {
    e.kind == "ListingDeleted"
  }

  /** What a handled event does to the index; any kind but a deletion is an upsert. */
  function ApplyEvent(docs: Docs, e: Event): Docs {
    if IsDelete(e) then docs - {e.listing} else docs[e.listing := DocumentOf(e)]
  }

  function ApplyAll(docs: Docs, log: seq<Event>): Docs {
    if log == [] then docs else ApplyEvent(ApplyAll(docs, log[..|log| - 1]), log[|log| - 1])
  }

  /**
   What becomes of a request to the index: no answer, whether or not it has taken effect; an answer with an error
   status; or success. An open circuit breaker is an answerless request without effect.
   */
  datatype Response = NoAnswer(applied: bool) | ErrorStatus | Success

  predicate TakesEffect(r: Response) {
    r.Success? || (r.NoAnswer? && r.applied)
  }

  /** Whether Upsert or Delete returns nil. Delete does not look at the status of its answer. */
  predicate ReturnsNil(e: Event, r: Response) {
    r.Success? || (IsDelete(e) && r.ErrorStatus?)
  }

  class Index {
    var docs: Docs

    constructor ()
      ensures docs == map[]
    {
      docs := map[];
    }

    method Upsert(doc: Document, r: Response) returns (ok: bool)
      modifies this
      ensures ok <==> r.Success?
      ensures docs == if TakesEffect(r) then old(docs)[doc.listing := doc] else old(docs)
    {
      if r.Success? || (r.NoAnswer? && r.applied) {
        docs := docs[doc.listing := doc];
      }
      if r.NoAnswer? {
        return false;
      }
      if r.ErrorStatus? {
        return false;
      }
      return true;
    }

    method Delete(listing: int, r: Response) returns (ok: bool)
      modifies this
      ensures ok <==> !r.NoAnswer?
      ensures docs == if TakesEffect(r) then old(docs) - {listing} else old(docs)
    {
      if r.Success? || (r.NoAnswer? && r.applied) {
        docs := docs - {listing};
      }
      if r.NoAnswer? {
        return false;
      }
      return true;
    }

    /** The message handler. A value that is not an event is an error without effect. */
    method Handle(value: Option<Event>, r: Response) returns (ok: bool)
      modifies this
      ensures ok <==> value.Some? && ReturnsNil(value.value, r)
      ensures docs == if value.Some? && TakesEffect(r) then ApplyEvent(old(docs), value.value) else old(docs)
      ensures value.Some? && TakesEffect(r) ==>
        var e := value.value;
        && (e.listing in docs <==> e.kind != "ListingDeleted")
        && (e.listing in docs ==> Shows(docs[e.listing], e))
        && (forall x :: x != e.listing ==> Lookup(docs, x) == Lookup(old(docs), x))
    {
      if value.None? {
        return false;
      }
      var e := value.value;
      if e.kind == "ListingDeleted" {
        ok := Delete(e.listing, r);
      } else {
        ok := Upsert(Document(e.listing, e.title, e.description, e.price, e.categoryName, "", e.status, 0.0), r);
      }
    }
  }

  // ---------- per-listing views ----------

  /** The events of one listing, in log order. */
  function EventsOf(log: seq<Event>, listing: int): seq<Event> {
    if log == [] then []
    else if log[|log| - 1].listing == listing then EventsOf(log[..|log| - 1], listing) + [log[|log| - 1]]
    else EventsOf(log[..|log| - 1], listing)
  }

  function Lookup(docs: Docs, listing: int): Option<Document> {
    if listing in docs then Some(docs[listing]) else None
  }

  /** A listing's entry after its own events: its last one decides. */
  function EntryAfter(before: Option<Document>, events: seq<Event>): Option<Document> {
    if events == [] then before
    else if IsDelete(events[|events| - 1]) then None
    else Some(DocumentOf(events[|events| - 1]))
  }

  /** Each entry of the index depends on the last event of its own listing, and on nothing else in the log. */
  lemma {:induction false} LastEventDecides(docs: Docs, log: seq<Event>, listing: int)
    ensures Lookup(ApplyAll(docs, log), listing) == EntryAfter(Lookup(docs, listing), EventsOf(log, listing))
  {
    if log != [] {
      LastEventDecides(docs, log[..|log| - 1], listing);
    }
  }

  lemma SameEntriesSameIndex(a: Docs, b: Docs)
    requires forall listing :: Lookup(a, listing) == Lookup(b, listing)
    ensures a == b
  {
    forall listing ensures (listing in a <==> listing in b) && (listing in a ==> a[listing] == b[listing]) {
      assert Lookup(a, listing) == Lookup(b, listing);
    }
  }

  ghost predicate SameOrderPerListing(log: seq<Event>, other: seq<Event>) {
    forall listing :: EventsOf(log, listing) == EventsOf(other, listing)
  }

  /** Any order of the log that keeps the events of each listing in log order builds the same index. */
  lemma ReorderingAcrossListings(docs: Docs, log: seq<Event>, other: seq<Event>)
    requires SameOrderPerListing(log, other)
    ensures ApplyAll(docs, log) == ApplyAll(docs, other)
  {
    forall listing ensures Lookup(ApplyAll(docs, log), listing) == Lookup(ApplyAll(docs, other), listing) {
      LastEventDecides(docs, log, listing);
      LastEventDecides(docs, other, listing);
      assert EventsOf(log, listing) == EventsOf(other, listing);
    }
    SameEntriesSameIndex(ApplyAll(docs, log), ApplyAll(docs, other));
  }

  lemma {:induction false} EventsOfSuffix(log: seq<Event>, k: nat, listing: int)
    requires k <= |log|
    ensures EventsOf(log, listing) == EventsOf(log[..k], listing) + EventsOf(log[k..], listing)
  {
    if k == |log| {
      assert log[..k] == log;
    } else {
      var before := log[..|log| - 1];
      EventsOfSuffix(before, k, listing);
      assert before[..k] == log[..k];
      assert log[k..][..|log[k..]| - 1] == before[k..];
      assert log[k..][|log[k..]| - 1] == log[|log| - 1];
    }
  }

  /** Replaying the log from any earlier offset over the finished index leaves it as it was. */
  lemma ReplayIsHarmless(docs: Docs, log: seq<Event>, k: nat)
    requires k <= |log|
    ensures ApplyAll(ApplyAll(docs, log), log[k..]) == ApplyAll(docs, log)
  {
    var built := ApplyAll(docs, log);
    forall listing ensures Lookup(ApplyAll(built, log[k..]), listing) == Lookup(built, listing) {
      LastEventDecides(docs, log, listing);
      LastEventDecides(built, log[k..], listing);
      EventsOfSuffix(log, k, listing);
    }
    SameEntriesSameIndex(ApplyAll(built, log[k..]), built);
  }

  /**
   Replaying a tail of the log repairs an index exactly when every listing without an event in that tail already has
   its right entry.
   */
  lemma ReplayRepairsIff(docs: Docs, log: seq<Event>, k: nat)
    requires k <= |log|
    ensures ApplyAll(docs, log[k..]) == ApplyAll(map[], log) <==>
            forall listing :: EventsOf(log[k..], listing) == [] ==>
              Lookup(docs, listing) == Lookup(ApplyAll(map[], log), listing)
  {
    var replayed, right := ApplyAll(docs, log[k..]), ApplyAll(map[], log);
    forall listing
      ensures Lookup(replayed, listing) == Lookup(right, listing) <==>
              (EventsOf(log[k..], listing) == [] ==> Lookup(docs, listing) == Lookup(right, listing))
    {
      LastEventDecides(docs, log[k..], listing);
      LastEventDecides(map[], log, listing);
      EventsOfSuffix(log, k, listing);
    }
    if forall listing :: EventsOf(log[k..], listing) == [] ==> Lookup(docs, listing) == Lookup(right, listing) {
      SameEntriesSameIndex(replayed, right);
    }
  }

  lemma {:induction false} EventsOfHas(log: seq<Event>, e: Event)
    requires e in log
    ensures e in EventsOf(log, e.listing)
  {
    if log[|log| - 1] != e {
      EventsOfHas(log[..|log| - 1], e);
    }
  }

  lemma {:induction false} EventsOfFrom(log: seq<Event>, listing: int)
    ensures forall e :: e in EventsOf(log, listing) ==> e in log && e.listing == listing
  {
    if log != [] {
      EventsOfFrom(log[..|log| - 1], listing);
    }
  }

  /**
   Exactly when do two orders of the same events of one listing agree? When they end in the same effect: the last
   event decides.
   */
  lemma OrderWithinListingMatters(docs: Docs, a: Event, b: Event)
    requires a.listing == b.listing
    ensures ApplyAll(docs, [a, b]) == ApplyAll(docs, [b, a]) <==>
            EntryAfter(None, [a]) == EntryAfter(None, [b])
  {
    LastEventDecides(docs, [a, b], a.listing);
    LastEventDecides(docs, [b, a], a.listing);
    assert [a, b][..1] == [a] && [b, a][..1] == [b];
    if EntryAfter(None, [a]) == EntryAfter(None, [b]) {
      forall listing ensures Lookup(ApplyAll(docs, [a, b]), listing) == Lookup(ApplyAll(docs, [b, a]), listing) {
        LastEventDecides(docs, [a, b], listing);
        LastEventDecides(docs, [b, a], listing);
      }
      SameEntriesSameIndex(ApplyAll(docs, [a, b]), ApplyAll(docs, [b, a]));
    }
  }

  // ---------- writes that may fail ----------

  /** A request that reached the point of being sent, and what became of it. */
  datatype Write = Write(event: Event, response: Response)

  /** The index after the writes, in the order they were made. */
  function Build(writes: seq<Write>): Docs {
    if writes == [] then map[]
    else
      var before, w := Build(writes[..|writes| - 1]), writes[|writes| - 1];
      if TakesEffect(w.response) then ApplyEvent(before, w.event) else before
  }

  function EventsWritten(writes: seq<Write>): seq<Event> {
    if writes == [] then [] else EventsWritten(writes[..|writes| - 1]) + [writes[|writes| - 1].event]
  }

  /** The events whose writes took effect. */
  function Effects(writes: seq<Write>): seq<Event> {
    if writes == [] then []
    else if TakesEffect(writes[|writes| - 1].response) then
      Effects(writes[..|writes| - 1]) + [writes[|writes| - 1].event]
    else Effects(writes[..|writes| - 1])
  }

  lemma {:induction false} BuildIsEffects(writes: seq<Write>)
    ensures Build(writes) == ApplyAll(map[], Effects(writes))
  {
    if writes != [] {
      BuildIsEffects(writes[..|writes| - 1]);
    }
  }

  /**
   Whatever was written and in whatever order, the index is the log's exactly when, for each listing, the last write
   that took effect leaves what the last event in the log leaves.
   */
  lemma BuiltIsTheLogIff(writes: seq<Write>, log: seq<Event>)
    ensures Build(writes) == ApplyAll(map[], log) <==>
            forall listing ::
              EntryAfter(None, EventsOf(Effects(writes), listing)) == EntryAfter(None, EventsOf(log, listing))
  {
    BuildIsEffects(writes);
    forall listing
      ensures Lookup(Build(writes), listing) == Lookup(ApplyAll(map[], log), listing) <==>
              EntryAfter(None, EventsOf(Effects(writes), listing)) == EntryAfter(None, EventsOf(log, listing))
    {
      LastEventDecides(map[], Effects(writes), listing);
      LastEventDecides(map[], log, listing);
    }
    if Build(writes) != ApplyAll(map[], log) {
      var listing := Difference(Build(writes), ApplyAll(map[], log));
      assert EntryAfter(None, EventsOf(Effects(writes), listing)) != EntryAfter(None, EventsOf(log, listing));
    }
  }

  /** Different indexes have different entries for some listing. */
  lemma Difference(a: Docs, b: Docs) returns (listing: int)
    requires a != b
    ensures Lookup(a, listing) != Lookup(b, listing)
  {
    if forall x :: Lookup(a, x) == Lookup(b, x) {
      SameEntriesSameIndex(a, b);
    }
    listing :| Lookup(a, listing) != Lookup(b, listing);
  }

  /** The listing's last write failed to take effect although it would have changed the entry. */
  predicate LastWriteLost(writes: seq<Write>, listing: int) {
    writes != [] &&
    var before, w := writes[..|writes| - 1], writes[|writes| - 1];
    if w.event.listing != listing then LastWriteLost(before, listing)
    else !TakesEffect(w.response) && Lookup(Build(before), listing) != EntryAfter(None, [w.event])
  }

  lemma {:induction false} EntryRightIff(writes: seq<Write>, listing: int)
    ensures Lookup(Build(writes), listing) == Lookup(ApplyAll(map[], EventsWritten(writes)), listing)
       <==> !LastWriteLost(writes, listing)
  {
    if writes != [] {
      var before, w := writes[..|writes| - 1], writes[|writes| - 1];
      EntryRightIff(before, listing);
      assert EventsWritten(writes)[..|EventsWritten(writes)| - 1] == EventsWritten(before);
    }
  }

  /** Writes made in log order build the log's index exactly when no listing's last write was lost. */
  lemma WrittenInOrderIff(writes: seq<Write>)
    ensures Build(writes) == ApplyAll(map[], EventsWritten(writes)) <==>
            forall listing :: !LastWriteLost(writes, listing)
  {
    if Build(writes) == ApplyAll(map[], EventsWritten(writes)) {
      forall listing ensures !LastWriteLost(writes, listing) {
        EntryRightIff(writes, listing);
      }
    } else {
      var listing := Difference(Build(writes), ApplyAll(map[], EventsWritten(writes)));
      EntryRightIff(writes, listing);
    }
  }

  ghost predicate AllReturnedNil(writes: seq<Write>) {
    forall i :: 0 <= i < |writes| ==> ReturnsNil(writes[i].event, writes[i].response)
  }

  /** When every handler returned nil, what can be lost is a deletion of an indexed document. */
  lemma {:induction false} OnlyDeletionsAreLost(writes: seq<Write>, listing: int)
    requires AllReturnedNil(writes) && LastWriteLost(writes, listing)
    ensures listing in Build(writes) && listing !in ApplyAll(map[], EventsWritten(writes))
  {
    var before, w := writes[..|writes| - 1], writes[|writes| - 1];
    assert EventsWritten(writes)[..|EventsWritten(writes)| - 1] == EventsWritten(before);
    if w.event.listing != listing {
      OnlyDeletionsAreLost(before, listing);
    } else {
      assert IsDelete(w.event) && w.response.ErrorStatus?;
    }
  }

  /** A deletion that the index answered with an error status is taken for done, and the document stays. */
  lemma SwallowedDeleteStays(create: Event, delete: Event)
    requires !IsDelete(create) && IsDelete(delete) && create.listing == delete.listing
    ensures var writes := [Write(create, Success), Write(delete, ErrorStatus)];
            && AllReturnedNil(writes)
            && Lookup(Build(writes), create.listing) == Some(DocumentOf(create))
            && Lookup(ApplyAll(map[], EventsWritten(writes)), create.listing) == None
  {
    var writes := [Write(create, Success), Write(delete, ErrorStatus)];
    assert writes[..1] == [Write(create, Success)] && writes[..1][..0] == [];
    assert EventsWritten(writes[..1]) == [create];
    assert EventsWritten(writes) == [create, delete] && [create, delete][..1] == [create] && [create][..0] == [];
  }

  // ---------- what the index holds ----------

  /** The last event whose write took effect on the listing. */
  function LastEffective(writes: seq<Write>, listing: int): Option<Event> {
    if writes == [] then None
    else
      var w := writes[|writes| - 1];
      if TakesEffect(w.response) && w.event.listing == listing then Some(w.event)
      else LastEffective(writes[..|writes| - 1], listing)
  }

  /**
   After any writes a listing is indexed exactly when its last effective event is not a deletion, and its document
   then shows that event.
   */
  lemma {:induction false} IndexShowsLastEvents(writes: seq<Write>, listing: int)
    ensures var last := LastEffective(writes, listing);
            && (listing in Build(writes) <==> last.Some? && last.value.kind != "ListingDeleted")
            && (listing in Build(writes) ==> Shows(Build(writes)[listing], last.value))
  {
    if writes != [] {
      IndexShowsLastEvents(writes[..|writes| - 1], listing);
    }
  }
}
