/** The availability_blocks table and the overlap count of internal/availability/repository.go. */
module Availability {
  import opened Wrappers
  import Pricing

  datatype Reason = Booked | Maintenance | Blocked

  /** A row; its id is its key in the table. `booking` is the nullable foreign key to the bookings table. */
  datatype Block = Block(listing: int, booking: Option<int>, start: int, end: int, reason: Reason)

  type Blocks = map<int, Block>

  /** The WHERE clause of the locking count. */
  predicate Matches(k: Block, listing: int, start: int, end: int) {
    k.listing == listing && k.start <= end && k.end >= start
  }

  function CountOverlapping(blocks: Blocks, listing: int, start: int, end: int): nat {
    |set id | id in blocks && Matches(blocks[id], listing, start, end)|
  }

  ghost predicate AnyOverlap(blocks: Blocks, listing: int, start: int, end: int) {
    exists id :: id in blocks && Matches(blocks[id], listing, start, end)
  }

  lemma CountIsZeroWhenFree(blocks: Blocks, listing: int, start: int, end: int)
    ensures CountOverlapping(blocks, listing, start, end) > 0 <==> AnyOverlap(blocks, listing, start, end)
  {
    var hits := set id | id in blocks && Matches(blocks[id], listing, start, end);
    if AnyOverlap(blocks, listing, start, end) {
      var id :| id in blocks && Matches(blocks[id], listing, start, end);
      assert id in hits;
    } else {
      assert forall id :: id !in hits;
      assert hits == {};
    }
  }

  /** The count starts at zero and grows by one with each row in the range, and with no other row. */
  lemma CountGrowsByMatches(blocks: Blocks, id: int, row: Block, listing: int, start: int, end: int)
    requires id !in blocks
    ensures CountOverlapping(map[], listing, start, end) == 0
    ensures CountOverlapping(blocks[id := row], listing, start, end)
         == CountOverlapping(blocks, listing, start, end) + if Matches(row, listing, start, end) then 1 else 0
  {
    var after := blocks[id := row];
    var hits := set k | k in blocks && Matches(blocks[k], listing, start, end);
    var more := set k | k in after && Matches(after[k], listing, start, end);
    if Matches(row, listing, start, end) {
      assert more == hits + {id};
    } else {
      assert more == hits;
    }
    CountIsZeroWhenFree(map[], listing, start, end);
  }

  /** The SQL condition is the predicate the service layer uses, on the rows of one listing. */
  lemma MatchesIsDatesOverlap(k: Block, listing: int, start: int, end: int)
    ensures Matches(k, listing, start, end) <==>
            k.listing == listing && Pricing.DatesOverlap(k.start, k.end, start, end)
  {
  }
}
