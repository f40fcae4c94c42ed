/**
 Booking creation (internal/booking/tx.go inside internal/db/tx.go) as a protocol: any number of calls, each one
 a sequence of database statements, interleave over the shared tables. Locks are those of InnoDB at REPEATABLE
 READ: the locking count leaves its transaction holding every row it scanned and the gap lock of the scanned
 range; gap locks do not exclude one another, only inserts into the range.
 */
module BookingProtocol {
  import opened Wrappers
  import opened Availability
  import opened BookingModel

  const MAX_TX_RETRIES := 3
  // The largest value of an INT UNSIGNED column such as total_price_cents.
  const MAX_INT_UNSIGNED := 0xFFFF_FFFF

  datatype Request = Request(listing: int, renter: int, start: int, end: int, price: int)

  /** A row of the bookings table; its id is its key in the table. */
  datatype Booking = Booking(listing: int, renter: int, start: int, end: int, status: Status, price: int)

  /** What a failed statement reports: MySQL 1213, MySQL 1205, or anything else. */
  datatype Fault = Deadlock | LockWaitTimeout | Fatal

  datatype Outcome = Created(booking: int) | Unavailable | Exhausted | Failed

  /** How far a call has come. `Refused` and `Counted` follow the locking count; ids are of uncommitted rows. */
  datatype Stage =
    | Waiting
    | Begun
    | Refused
    | Counted
    | HasBooking(booking: int)
    | HasBlock(booking: int, block: int)
    | Done(outcome: Outcome)

  /** `fault` is set between a failed statement and the rollback that answers it. */
  datatype Call = Call(req: Request, attempt: nat, stage: Stage, fault: Option<Fault>)

  datatype Answer = Granted(booking: int, block: int) | Denied

  /** One answered call, in the order the answers were decided. */
  datatype Entry = Entry(call: int, req: Request, answer: Answer)

  datatype State = State(
    bookings: map<int, Booking>,
    blocks: Blocks,
    nextBooking: int,
    nextBlock: int,
    calls: map<int, Call>,
    log: seq<Entry>)

  datatype Label =
    | Arrive(call: int, req: Request)
    | Begin(call: int)
    | Count(call: int)
    | InsertBooking(call: int)
    | InsertBlock(call: int)
    | Commit(call: int)
    | LockError(call: int, holder: int, fault: Fault)
    | Break(call: int)
    | Rollback(call: int)
    | SetStatus(booking: int, status: Status)

  // ---------- rows and locks ----------

  function BookingOf(req: Request): Booking {
    Booking(req.listing, req.renter, req.start, req.end, Requested, req.price)
  }

  function BlockOf(req: Request, booking: int): Block {
    Block(req.listing, Some(booking), req.start, req.end, Reason.Booked)
  }

  predicate Clash(a: Request, b: Request) {
    a.listing == b.listing && a.start <= b.end && b.start <= a.end
  }

  ghost predicate Taken(blocks: Blocks, req: Request) {
    AnyOverlap(blocks, req.listing, req.start, req.end)
  }

  /** The call's transaction holds the locks of its count. */
  predicate Holds(c: Call) {
    c.stage.Refused? || CountedZero(c)
  }

  predicate CountedZero(c: Call) {
    c.stage.Counted? || c.stage.HasBooking? || c.stage.HasBlock?
  }

  /** A statement of the call's transaction can still be sent. */
  predicate Running(c: Call) {
    c.fault.None? && (c.stage.Begun? || CountedZero(c))
  }

  /** The gap lock of `c` stops an insert at this start date. */
  predicate GapCovers(c: Call, listing: int, start: int) {
    Holds(c) && c.req.listing == listing && start <= c.req.end
  }

  /** `c` has locked, or has inserted and not committed, some row in the range (listing, start_date <= end). */
  predicate RowLocked(blocks: Blocks, c: Call, listing: int, end: int) {
    || (c.stage.HasBlock? && c.req.listing == listing && c.req.start <= end)
    || (Holds(c) && c.req.listing == listing
        && exists id :: id in blocks && blocks[id].listing == listing
                        && blocks[id].start <= end && blocks[id].start <= c.req.end)
  }

  predicate CountCanRun(s: State, t: int)
    requires t in s.calls
  {
    var req := s.calls[t].req;
    forall u :: u in s.calls && u != t ==> !RowLocked(s.blocks, s.calls[u], req.listing, req.end)
  }

  predicate InsertCanRun(s: State, t: int)
    requires t in s.calls
  {
    var req := s.calls[t].req;
    forall u :: u in s.calls && u != t ==> !GapCovers(s.calls[u], req.listing, req.start)
  }

  // ---------- steps ----------

  predicate Enabled(s: State, l: Label) {
    match l
    case Arrive(t, req) => t !in s.calls && req.start <= req.end
    case SetStatus(b, _) => b in s.bookings
    case Begin(t) => t in s.calls && s.calls[t].stage.Waiting? && s.calls[t].fault.None?
    case Count(t) => t in s.calls && s.calls[t].stage.Begun? && s.calls[t].fault.None? && CountCanRun(s, t)
    case InsertBooking(t) =>
      t in s.calls && s.calls[t].stage.Counted? && s.calls[t].fault.None? && s.calls[t].req.price <= MAX_INT_UNSIGNED
    case InsertBlock(t) => t in s.calls && s.calls[t].stage.HasBooking? && s.calls[t].fault.None? && InsertCanRun(s, t)
    case Commit(t) => t in s.calls && s.calls[t].stage.HasBlock? && s.calls[t].fault.None?
    case LockError(t, u, f) =>
      && t in s.calls && u in s.calls && u != t && Running(s.calls[t]) && Holds(s.calls[u])
      && (f.LockWaitTimeout? || (f.Deadlock? && s.calls[u].fault.None?))
    case Break(t) => t in s.calls && s.calls[t].fault.None? && (s.calls[t].stage.Waiting? || Running(s.calls[t]))
    case Rollback(t) => t in s.calls && (s.calls[t].fault.Some? || s.calls[t].stage.Refused?)
  }

  function SetCall(s: State, t: int, c: Call): State {
    s.(calls := s.calls[t := c])
  }

  /** What WithinTransaction does once attemptTx has rolled back and returned its error. */
  function AfterRollback(c: Call): Call {
    match c.fault
    case None => c.(stage := Done(Unavailable))
    case Some(Fatal) => c.(stage := Done(Failed), fault := None)
    case Some(_) =>
      if c.attempt + 1 < MAX_TX_RETRIES then Call(c.req, c.attempt + 1, Waiting, None)
      else c.(stage := Done(Exhausted), fault := None)
  }

  function Apply(s: State, l: Label): State
    requires Enabled(s, l)
  {
    match l
    case Arrive(t, req) => SetCall(s, t, Call(req, 0, Waiting, None))
    case SetStatus(b, status) => s.(bookings := s.bookings[b := s.bookings[b].(status := status)])
    case Begin(t) => SetCall(s, t, s.calls[t].(stage := Begun))
    case Count(t) =>
      var c := s.calls[t];
      if CountOverlapping(s.blocks, c.req.listing, c.req.start, c.req.end) > 0 then
        SetCall(s, t, c.(stage := Refused)).(log := s.log + [Entry(t, c.req, Denied)])
      else
        SetCall(s, t, c.(stage := Counted))
    case InsertBooking(t) =>
      SetCall(s, t, s.calls[t].(stage := HasBooking(s.nextBooking))).(nextBooking := s.nextBooking + 1)
    case InsertBlock(t) =>
      SetCall(s, t, s.calls[t].(stage := HasBlock(s.calls[t].stage.booking, s.nextBlock))).(nextBlock := s.nextBlock + 1)
    case Commit(t) =>
      var c := s.calls[t];
      var b, k := c.stage.booking, c.stage.block;
      SetCall(s, t, c.(stage := Done(Created(b)))).(
        bookings := s.bookings[b := BookingOf(c.req)],
        blocks := s.blocks[k := BlockOf(c.req, b)],
        log := s.log + [Entry(t, c.req, Granted(b, k))])
    case LockError(t, _, f) =>
      // The server rolls a deadlock victim back at once; a timed-out transaction keeps its locks.
      var c := s.calls[t];
      SetCall(s, t, c.(stage := if f.Deadlock? then Begun else c.stage, fault := Some(f)))
    case Break(t) => SetCall(s, t, s.calls[t].(fault := Some(Fatal)))
    case Rollback(t) => SetCall(s, t, AfterRollback(s.calls[t]))
  }

  predicate CanRun(s: State, ls: seq<Label>)
    decreases |ls|, 0
  {
    ls == [] || (CanRun(s, ls[..|ls| - 1]) && Enabled(Run(s, ls[..|ls| - 1]), ls[|ls| - 1]))
  }

  /** The state reached from `s` by the steps `ls`. */
  function Run(s: State, ls: seq<Label>): State
    requires CanRun(s, ls)
    decreases |ls|, 1
  {
    if ls == [] then s else Apply(Run(s, ls[..|ls| - 1]), ls[|ls| - 1])
  }

  /** Exactly whose locks a statement waits for. */
  lemma WaitsFor(s: State, t: int)
    requires t in s.calls
    ensures !InsertCanRun(s, t) <==>
            exists u :: u in s.calls && u != t && Holds(s.calls[u]) && s.calls[u].req.listing == s.calls[t].req.listing
                        && s.calls[t].req.start <= s.calls[u].req.end
    ensures !CountCanRun(s, t) <==>
            exists u :: u in s.calls && u != t && s.calls[u].req.listing == s.calls[t].req.listing
                        && ((s.calls[u].stage.HasBlock? && s.calls[u].req.start <= s.calls[t].req.end)
                            || (Holds(s.calls[u]) && ScannedByBoth(s.blocks, s.calls[t].req, s.calls[u].req)))
  {
  }

  /** Some committed row of the listing starts by the end of both ranges, so that both counts lock it. */
  predicate ScannedByBoth(blocks: Blocks, a: Request, b: Request) {
    exists id :: id in blocks && blocks[id].listing == a.listing && blocks[id].start <= a.end && blocks[id].start <= b.end
  }

  // ---------- what every state keeps ----------

  /** The bookings and their blocks correspond one to one, with equal listing and dates. */
  ghost predicate Matched(bookings: map<int, Booking>, blocks: Blocks) {
    && (forall k :: k in blocks && blocks[k].reason.Booked? ==>
          blocks[k].booking.Some? && blocks[k].booking.value in bookings)
    && (forall k :: k in blocks && blocks[k].booking.Some? && blocks[k].booking.value in bookings ==>
          var b := bookings[blocks[k].booking.value];
          blocks[k].reason.Booked? && blocks[k].listing == b.listing && blocks[k].start == b.start && blocks[k].end == b.end)
    && (forall j, k :: j in blocks && k in blocks && blocks[j].booking.Some? && blocks[j].booking == blocks[k].booking ==> j == k)
    && (forall b :: b in bookings ==> HasBlockFor(blocks, b))
  }

  ghost predicate HasBlockFor(blocks: Blocks, b: int) {
    exists k :: k in blocks && blocks[k].booking == Some(b)
  }

  ghost predicate BookedApart(blocks: Blocks) {
    forall j, k :: j in blocks && k in blocks && j != k && blocks[j].reason.Booked? ==>
      !Matches(blocks[k], blocks[j].listing, blocks[j].start, blocks[j].end)
  }

  /** The AUTO_INCREMENT counters are ahead of every id in use. */
  ghost predicate Counters(s: State) {
    && (forall b :: b in s.bookings ==> b < s.nextBooking)
    && (forall k :: k in s.blocks ==> k < s.nextBlock)
    && (forall k :: k in s.blocks && s.blocks[k].booking.Some? ==> s.blocks[k].booking.value < s.nextBooking)
  }

  predicate PendingBooking(c: Call) {
    c.stage.HasBooking? || c.stage.HasBlock?
  }

  /** Ids of uncommitted rows are used nowhere else. */
  ghost predicate FreshIds(s: State, c: Call) {
    && (PendingBooking(c) ==> FreshBooking(s, c.stage.booking))
    && (c.stage.HasBlock? ==> c.stage.block !in s.blocks && c.stage.block < s.nextBlock)
  }

  ghost predicate PendingFresh(s: State) {
    forall t :: t in s.calls ==> FreshIds(s, s.calls[t])
  }

  predicate IdsApart(c: Call, d: Call) {
    && (PendingBooking(c) && PendingBooking(d) ==> c.stage.booking != d.stage.booking)
    && (c.stage.HasBlock? && d.stage.HasBlock? ==> c.stage.block != d.stage.block)
  }

  ghost predicate PendingApart(s: State) {
    forall t, u :: t in s.calls && u in s.calls && t != u ==> IdsApart(s.calls[t], s.calls[u])
  }

  ghost predicate FreshBooking(s: State, b: int) {
    && b < s.nextBooking && b !in s.bookings
    && (forall k :: k in s.blocks ==> s.blocks[k].booking != Some(b))
  }

  ghost predicate RangeFree(blocks: Blocks, c: Call) {
    CountedZero(c) ==> !Taken(blocks, c.req)
  }

  predicate NoClash(c: Call, d: Call) {
    CountedZero(c) && d.stage.HasBlock? ==> !Clash(c.req, d.req)
  }

  /**
   The heart of the protocol: while a transaction that counted zero holds its locks, no row of anyone else,
   committed or not, overlaps its range.
   */
  ghost predicate Guarded(s: State) {
    && (forall t :: t in s.calls ==> RangeFree(s.blocks, s.calls[t]))
    && (forall t, u :: t in s.calls && u in s.calls && t != u ==> NoClash(s.calls[t], s.calls[u]))
  }

  ghost predicate ProperCalls(s: State) {
    forall t :: t in s.calls ==>
      && s.calls[t].req.start <= s.calls[t].req.end
      && s.calls[t].attempt < MAX_TX_RETRIES
      && (s.calls[t].stage.Refused? || s.calls[t].stage.Done? ==> s.calls[t].fault.None?)
  }

  ghost predicate Inv(s: State) {
    && ProperCalls(s) && Counters(s) && PendingFresh(s) && PendingApart(s)
    && Guarded(s) && Matched(s.bookings, s.blocks) && BookedApart(s.blocks)
  }

  /** A consistent database that no call has touched yet. Blocks for other reasons may already be there. */
  ghost predicate Initial(s: State) {
    s.calls == map[] && s.log == [] && Counters(s) && Matched(s.bookings, s.blocks) && BookedApart(s.blocks)
  }

  /** A step by one call leaves the others as they were. */
  lemma StepFrame(s: State, l: Label)
    requires Enabled(s, l)
    ensures l.SetStatus? ==> Apply(s, l).calls == s.calls
    ensures !l.SetStatus? ==>
      l.call in Apply(s, l).calls && Apply(s, l).calls == s.calls[l.call := Apply(s, l).calls[l.call]]
    ensures !l.SetStatus? && !l.Arrive? ==> l.call in s.calls && Apply(s, l).calls[l.call].req == s.calls[l.call].req
  {
  }

  lemma StepKeepsProperCalls(s: State, l: Label)
    requires Inv(s) && Enabled(s, l)
    ensures ProperCalls(Apply(s, l))
  {
  }

  lemma StepKeepsCounters(s: State, l: Label)
    requires Inv(s) && Enabled(s, l)
    ensures Counters(Apply(s, l))
  {
  }

  lemma OtherStaysFresh(s: State, l: Label, u: int)
    requires Inv(s) && Enabled(s, l) && u in s.calls && (l.SetStatus? || u != l.call)
    ensures FreshIds(Apply(s, l), s.calls[u])
  {
    assert FreshIds(s, s.calls[u]);
    if l.Commit? {
      assert IdsApart(s.calls[l.call], s.calls[u]) && FreshIds(s, s.calls[l.call]);
    }
  }

  lemma ActorFresh(s: State, l: Label)
    requires Inv(s) && Enabled(s, l) && !l.SetStatus?
    ensures FreshIds(Apply(s, l), Apply(s, l).calls[l.call])
  {
    if !l.Arrive? {
      assert FreshIds(s, s.calls[l.call]);
    }
  }

  lemma StepKeepsPendingFresh(s: State, l: Label)
    requires Inv(s) && Enabled(s, l)
    ensures PendingFresh(Apply(s, l))
  {
    StepFrame(s, l);
    forall u | u in s.calls && (l.SetStatus? || u != l.call) ensures FreshIds(Apply(s, l), s.calls[u]) {
      OtherStaysFresh(s, l, u);
    }
    if !l.SetStatus? {
      ActorFresh(s, l);
    }
  }

  lemma ActorIdsApart(s: State, l: Label, u: int)
    requires Inv(s) && Enabled(s, l) && !l.SetStatus? && u in s.calls && u != l.call
    ensures IdsApart(Apply(s, l).calls[l.call], s.calls[u]) && IdsApart(s.calls[u], Apply(s, l).calls[l.call])
  {
    assert FreshIds(s, s.calls[u]);
    if !l.Arrive? {
      assert IdsApart(s.calls[l.call], s.calls[u]);
    }
  }

  lemma StepKeepsPendingApart(s: State, l: Label)
    requires Inv(s) && Enabled(s, l)
    ensures PendingApart(Apply(s, l))
  {
    StepFrame(s, l);
    if !l.SetStatus? {
      var c := Apply(s, l).calls[l.call];
      forall u | u in s.calls && u != l.call ensures IdsApart(c, s.calls[u]) && IdsApart(s.calls[u], c) {
        ActorIdsApart(s, l, u);
      }
    }
  }

  lemma ActorRangeFree(s: State, l: Label)
    requires Inv(s) && Enabled(s, l) && !l.SetStatus?
    ensures RangeFree(Apply(s, l).blocks, Apply(s, l).calls[l.call])
  {
    if !l.Arrive? {
      var c := s.calls[l.call];
      assert RangeFree(s.blocks, c);
      CountIsZeroWhenFree(s.blocks, c.req.listing, c.req.start, c.req.end);
    }
  }

  lemma OtherRangeFree(s: State, l: Label, u: int)
    requires Inv(s) && Enabled(s, l) && u in s.calls && (l.SetStatus? || u != l.call)
    ensures RangeFree(Apply(s, l).blocks, s.calls[u])
  {
    assert RangeFree(s.blocks, s.calls[u]);
    if l.Commit? {
      assert NoClash(s.calls[u], s.calls[l.call]);
    }
  }

  /** An insert waits for the gap locks of others, and a count for their uncommitted rows. */
  lemma ActorNoClash(s: State, l: Label, u: int)
    requires Inv(s) && Enabled(s, l) && !l.SetStatus? && u in s.calls && u != l.call
    ensures NoClash(Apply(s, l).calls[l.call], s.calls[u]) && NoClash(s.calls[u], Apply(s, l).calls[l.call])
  {
    if !l.Arrive? {
      assert NoClash(s.calls[l.call], s.calls[u]) && NoClash(s.calls[u], s.calls[l.call]);
    }
  }

  lemma StepKeepsGuarded(s: State, l: Label)
    requires Inv(s) && Enabled(s, l)
    ensures Guarded(Apply(s, l))
  {
    StepFrame(s, l);
    var blocks := Apply(s, l).blocks;
    forall u | u in s.calls && (l.SetStatus? || u != l.call) ensures RangeFree(blocks, s.calls[u]) {
      OtherRangeFree(s, l, u);
    }
    if !l.SetStatus? {
      ActorRangeFree(s, l);
      var c := Apply(s, l).calls[l.call];
      forall u | u in s.calls && u != l.call ensures NoClash(c, s.calls[u]) && NoClash(s.calls[u], c) {
        ActorNoClash(s, l, u);
      }
    }
  }

  lemma CommitKeepsTables(s: State, t: int)
    requires Inv(s) && Enabled(s, Commit(t))
    ensures Matched(Apply(s, Commit(t)).bookings, Apply(s, Commit(t)).blocks)
    ensures BookedApart(Apply(s, Commit(t)).blocks)
  {
    var c := s.calls[t];
    var s' := Apply(s, Commit(t));
    assert RangeFree(s.blocks, c) && FreshIds(s, c);
    forall b | b in s'.bookings ensures HasBlockFor(s'.blocks, b) {
      if b == c.stage.booking {
        assert s'.blocks[c.stage.block].booking == Some(b);
      } else {
        var k :| k in s.blocks && s.blocks[k].booking == Some(b);
        assert s'.blocks[k].booking == Some(b);
      }
    }
  }

  lemma StepKeepsTables(s: State, l: Label)
    requires Inv(s) && Enabled(s, l)
    ensures Matched(Apply(s, l).bookings, Apply(s, l).blocks) && BookedApart(Apply(s, l).blocks)
  {
    if l.Commit? {
      CommitKeepsTables(s, l.call);
    }
  }

  lemma StepKeepsInv(s: State, l: Label)
    requires Inv(s) && Enabled(s, l)
    ensures Inv(Apply(s, l))
  {
    StepKeepsProperCalls(s, l);
    StepKeepsCounters(s, l);
    StepKeepsPendingFresh(s, l);
    StepKeepsPendingApart(s, l);
    StepKeepsGuarded(s, l);
    StepKeepsTables(s, l);
  }

  lemma {:induction false} ReachableInv(s: State, ls: seq<Label>)
    requires Initial(s) && CanRun(s, ls)
    ensures Inv(Run(s, ls))
  {
    if ls != [] {
      ReachableInv(s, ls[..|ls| - 1]);
      StepKeepsInv(Run(s, ls[..|ls| - 1]), ls[|ls| - 1]);
    }
  }
}
