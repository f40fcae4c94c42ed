/**
 The code of CreateAtomic, WithinTransaction and attemptTx, statement by statement, run against the shared protocol
 state. What surrounds a call is an input: the steps that other calls take before each of its statements, and which
 statements fail.
 */
module TxRunner {
  import opened Wrappers
  import opened Availability
  import opened BookingModel
  import opened BookingProtocol
  import Pricing

  datatype TxError = Statement(fault: Fault) | ListingUnavailable

  datatype CreateError =
    | ListingNotFound
    | InvalidDateRange
    | TxFailed(error: TxError)
    | RetriesExhausted(last: TxError)

  predicate IsRetryable(err: TxError) {
    err.Statement? && (err.fault.Deadlock? || err.fault.LockWaitTimeout?)
  }

  /** Where a call stands when an attempt of it has ended. */
  predicate Settled(c: Call, req: Request, attempt: nat, err: Option<TxError>) {
    match err
    case None => c.stage.Done? && c.stage.outcome.Created? && c.req == req && c.attempt == attempt
    case Some(ListingUnavailable) => c == Call(req, attempt, Done(Unavailable), None)
    case Some(Statement(Fatal)) => c == Call(req, attempt, Done(Failed), None)
    case Some(Statement(_)) =>
      if attempt + 1 < MAX_TX_RETRIES then c == Call(req, attempt + 1, Waiting, None)
      else c == Call(req, attempt, Done(Exhausted), None)
  }

  // ---------- what surrounds a call ----------

  /** The statements of an attempt. */
  datatype Point = AtBegin | AtCount | AtBooking | AtBlock | AtCommit | AtRollback

  /**
   What happens around one statement: the steps of other calls just before it, whether it fails of itself, and
   whether a lock conflict is reported as a deadlock or as a timeout.
   */
  datatype Moment = Moment(others: seq<Label>, breaks: bool, deadlock: bool)

  /** The surroundings of a call, for each attempt and statement. */
  type Surroundings = (nat, Point) -> Moment

  predicate ByOther(l: Label, t: int) {
    l.SetStatus? || l.call != t
  }

  /** The state after those of the steps that are other calls' and can be taken. */
  function AfterOthers(s: State, t: int, ls: seq<Label>): (r: State)
    ensures t in s.calls ==> t in r.calls && r.calls[t] == s.calls[t]
  {
    if ls == [] then s
    else
      var before := AfterOthers(s, t, ls[..|ls| - 1]);
      if ByOther(ls[|ls| - 1], t) && Enabled(before, ls[|ls| - 1]) then
        (if t in s.calls then OthersLeaveCall(before, ls[|ls| - 1], t); Apply(before, ls[|ls| - 1])
         else Apply(before, ls[|ls| - 1]))
      else before
  }

  /** The call's next statement must wait for the locks of another call. */
  predicate MustWait(s: State, t: int) {
    t in s.calls &&
    ((s.calls[t].stage.Begun? && !CountCanRun(s, t)) || (s.calls[t].stage.HasBooking? && !InsertCanRun(s, t)))
  }

  ghost predicate WaitsAt(s0: State, trace: seq<Label>, k: int, t: int) {
    0 <= k <= |trace| && CanRun(s0, trace[..k]) && MustWait(Run(s0, trace[..k]), t)
  }

  ghost predicate HadToWait(s0: State, trace: seq<Label>, n: nat, t: int) {
    exists k :: n <= k <= |trace| && WaitsAt(s0, trace, k, t)
  }

  /** A wait once seen stays in the record, also of a longer stretch. */
  lemma StillHadToWait(s0: State, trace: seq<Label>, trace': seq<Label>, n: nat, m: nat, t: int)
    requires trace <= trace' && m <= n && HadToWait(s0, trace, n, t)
    ensures HadToWait(s0, trace', m, t)
  {
    var k :| n <= k <= |trace| && WaitsAt(s0, trace, k, t);
    assert trace'[..k] == trace[..k];
    assert WaitsAt(s0, trace', k, t);
  }

  lemma WaitsNow(s0: State, trace: seq<Label>, t: int)
    requires CanRun(s0, trace) && MustWait(Run(s0, trace), t)
    ensures HadToWait(s0, trace, |trace|, t)
  {
    assert trace[..|trace|] == trace;
    assert WaitsAt(s0, trace, |trace|, t);
  }

  predicate CausedByCommit(around: Surroundings, attempt: nat) {
    around(attempt, AtCommit).breaks
  }

  /** Some statement of the attempt was to fail of itself, or the price does not fit its column. */
  predicate AskedToFail(around: Surroundings, attempt: nat, req: Request) {
    || around(attempt, AtBegin).breaks || around(attempt, AtCount).breaks || around(attempt, AtBooking).breaks
    || around(attempt, AtBlock).breaks || around(attempt, AtCommit).breaks || req.price > MAX_INT_UNSIGNED
  }

  /** Nobody else moves during the attempt, and no statement is to fail. */
  predicate Undisturbed(around: Surroundings, attempt: nat, req: Request) {
    && !AskedToFail(around, attempt, req)
    && around(attempt, AtBegin).others == [] && around(attempt, AtCount).others == []
    && around(attempt, AtBooking).others == [] && around(attempt, AtBlock).others == []
    && around(attempt, AtCommit).others == [] && around(attempt, AtRollback).others == []
  }

  /** No other call holds locks on the listing. */
  predicate NoLocks(s: State, t: int, listing: int) {
    forall u :: u in s.calls && u != t ==> !(Holds(s.calls[u]) && s.calls[u].req.listing == listing)
  }

  /** If the count at `s` can run, it alone decides whether the listing is reported unavailable. */
  ghost predicate DecidedBy(s: State, t: int, around: Surroundings, attempt: nat, req: Request, err: Option<TxError>) {
    t in s.calls && !around(attempt, AtCount).breaks && CountCanRun(s, t) ==>
      (err == Some(ListingUnavailable) <==> Taken(s.blocks, req))
  }

  /** The state at which the attempt counts: after the others' steps before its begin, and after those since. */
  function AtCounting(s: State, t: int, around: Surroundings, attempt: nat): State
    requires t in s.calls && s.calls[t].stage.Waiting? && s.calls[t].fault.None?
  {
    AfterOthers(Apply(AfterOthers(s, t, around(attempt, AtBegin).others), Begin(t)), t, around(attempt, AtCount).others)
  }

  lemma NoLocksNoWait(s: State, t: int)
    requires t in s.calls && NoLocks(s, t, s.calls[t].req.listing)
    ensures CountCanRun(s, t) && InsertCanRun(s, t)
  {
  }

  /** A call's own step takes locks for nobody else. */
  lemma NoLocksAfter(s: State, l: Label, listing: int)
    requires Enabled(s, l) && !l.SetStatus? && NoLocks(s, l.call, listing)
    ensures NoLocks(Apply(s, l), l.call, listing)
  {
    StepFrame(s, l);
  }

  lemma OthersLeaveCall(s: State, l: Label, t: int)
    requires Enabled(s, l) && ByOther(l, t) && t in s.calls
    ensures t in Apply(s, l).calls && Apply(s, l).calls[t] == s.calls[t]
  {
    StepFrame(s, l);
  }

  predicate CommitFailed(around: Surroundings, attempts: nat) {
    exists a :: 0 <= a < attempts && CausedByCommit(around, a)
  }

  /** Since the trace had length n, the call had to wait, or one of its commits was to fail. */
  ghost predicate Hindered(s0: State, trace: seq<Label>, n: nat, t: int, around: Surroundings, attempts: nat) {
    HadToWait(s0, trace, n, t) || CommitFailed(around, attempts)
  }

  lemma HinderedSince(s0: State, trace: seq<Label>, n: nat, m: nat, t: int, around: Surroundings, attempt: nat)
    requires m <= n && (HadToWait(s0, trace, n, t) || CausedByCommit(around, attempt))
    ensures Hindered(s0, trace, m, t, around, attempt + 1)
  {
    if HadToWait(s0, trace, n, t) {
      StillHadToWait(s0, trace, trace, n, m, t);
    }
  }

  /** What the loop over the attempts returns for their results. */
  ghost predicate SumsUp(err: Option<CreateError>, results: seq<Option<TxError>>) {
    && 1 <= |results| <= 3
    && (forall i :: 0 <= i < |results| - 1 ==> results[i].Some? && IsRetryable(results[i].value))
    && err == (match results[|results| - 1]
               case None => None
               case Some(last) => Some(if IsRetryable(last) then RetriesExhausted(last) else TxFailed(last)))
    && (err.Some? && err.value.RetriesExhausted? ==> |results| == 3)
  }

  predicate AskedToFailSometime(around: Surroundings, req: Request) {
    exists a :: 0 <= a < MAX_TX_RETRIES && AskedToFail(around, a, req)
  }

  /** The result of the call is its outcome in the protocol. */
  predicate Tells(r: Result<int, CreateError>, c: Call) {
    c.stage.Done? &&
    match c.stage.outcome
    case Created(id) => r == Ok(id)
    case Unavailable => r == Err(TxFailed(ListingUnavailable))
    case Exhausted => r.Err? && r.error.RetriesExhausted?
    case Failed => r == Err(TxFailed(Statement(Fatal)))
  }

  class Runner {
    var db: State
    // The booking captured by the transaction's closure.
    var created: Option<int>
    // The consistent database everything began with, and all steps taken since, by this call and by others.
    ghost const start: State
    ghost var trace: seq<Label>

    ghost predicate Valid()
      reads this
    {
      Initial(start) && CanRun(start, trace) && db == Run(start, trace)
    }

    ghost predicate Standing(t: int, req: Request, attempt: nat, stage: Stage)
      reads this
    {
      t in db.calls && db.calls[t] == Call(req, attempt, stage, None)
    }

    ghost predicate FaultIs(t: int, req: Request, attempt: nat, err: TxError)
      reads this
    {
      && err.Statement? && t in db.calls && db.calls[t].req == req && db.calls[t].attempt == attempt
      && db.calls[t].fault == Some(err.fault)
    }

    /** At some moment since the trace had length n, a statement of the call had to wait. */
    ghost predicate WasBlocked(n: nat, t: int)
      reads this
    {
      HadToWait(start, trace, n, t)
    }

    constructor (initial: State)
      requires Initial(initial)
      ensures Valid() && db == start == initial && trace == [] && created == None
    {
      db, created, start, trace := initial, None, initial, [];
    }

    /** One step of the protocol. */
    method Step(l: Label)
      requires Valid() && Enabled(db, l)
      modifies this`db, this`trace
      ensures Valid() && db == Apply(old(db), l) && trace == old(trace) + [l]
    {
      assert (trace + [l])[..|trace + [l]| - 1] == trace;
      db := Apply(db, l);
      trace := trace + [l];
    }

    /** Other calls take those of the given steps that they can take. */
    method Others(t: int, ls: seq<Label>)
      requires Valid() && t in db.calls
      modifies this`db, this`trace
      ensures Valid() && old(trace) <= trace
      ensures db == AfterOthers(old(db), t, ls)
      ensures t in db.calls && db.calls[t] == old(db.calls[t])
    {
      for i := 0 to |ls|
        invariant Valid() && old(trace) <= trace
        invariant db == AfterOthers(old(db), t, ls[..i])
        invariant t in db.calls && db.calls[t] == old(db.calls[t])
      {
        assert ls[..i + 1][..i] == ls[..i];
        if ByOther(ls[i], t) && Enabled(db, ls[i]) {
          OthersLeaveCall(db, ls[i], t);
          Step(ls[i]);
        }
      }
      assert ls[..|ls|] == ls;
    }

    /** The statement fails of itself. */
    method Break(t: int) returns (err: TxError)
      requires Valid() && t in db.calls && (Running(db.calls[t]) || Standing(t, db.calls[t].req, db.calls[t].attempt, Waiting))
      modifies this`db, this`trace
      ensures Valid() && old(trace) <= trace && err == Statement(Fatal)
      ensures FaultIs(t, old(db.calls[t].req), old(db.calls[t].attempt), err)
    {
      Step(Label.Break(t));
      err := Statement(Fatal);
    }

    /** The statement's wait for a lock that `holder` has ends with an error. */
    method LockFails(t: int, holder: int, deadlock: bool) returns (err: TxError)
      requires Valid() && t in db.calls && Running(db.calls[t])
      requires holder in db.calls && holder != t && Holds(db.calls[holder])
      modifies this`db, this`trace
      ensures Valid() && old(trace) <= trace && IsRetryable(err)
      ensures FaultIs(t, old(db.calls[t].req), old(db.calls[t].attempt), err)
    {
      var fault := if deadlock && db.calls[holder].fault.None? then Deadlock else LockWaitTimeout;
      Step(LockError(t, holder, fault));
      err := Statement(fault);
    }

    /** The locking count: it waits while rows in its range are locked, and may fail. */
    method CountOverlappingRows(t: int, req: Request, attempt: nat, m: Moment) returns (count: int, err: Option<TxError>)
      requires Valid() && Standing(t, req, attempt, Begun)
      modifies this`db, this`trace
      ensures Valid() && old(trace) <= trace
      ensures err.None? <==> !m.breaks && CountCanRun(AfterOthers(old(db), t, m.others), t)
      ensures err.None? ==>
        var s := AfterOthers(old(db), t, m.others);
        && db == Apply(s, Count(t)) && count == CountOverlapping(s.blocks, req.listing, req.start, req.end)
        && (count > 0 <==> Taken(s.blocks, req))
        && Standing(t, req, attempt, if count > 0 then Refused else Counted)
      ensures err.Some? ==> FaultIs(t, req, attempt, err.value)
      ensures m.breaks ==> err == Some(Statement(Fatal))
      ensures err.Some? && !m.breaks ==> IsRetryable(err.value) && WasBlocked(|old(trace)|, t)
    {
      Others(t, m.others);
      count, err := 0, None;
      if m.breaks {
        var e := Break(t);
        err := Some(e);
      } else if CountCanRun(db, t) {
        count := CountOverlapping(db.blocks, req.listing, req.start, req.end);
        CountIsZeroWhenFree(db.blocks, req.listing, req.start, req.end);
        Step(Count(t));
      } else {
        err := FailCount(t, req, m.deadlock);
      }
    }

    method FailCount(t: int, req: Request, deadlock: bool) returns (err: Option<TxError>)
      requires Valid() && t in db.calls && db.calls[t].req == req && db.calls[t].stage.Begun? && db.calls[t].fault.None?
      requires !CountCanRun(db, t)
      modifies this`db, this`trace
      ensures Valid() && old(trace) <= trace && err.Some? && IsRetryable(err.value)
      ensures FaultIs(t, req, old(db.calls[t].attempt), err.value) && WasBlocked(|old(trace)|, t)
    {
      ghost var before := trace;
      WaitsNow(start, trace, t);
      var u :| u in db.calls && u != t && RowLocked(db.blocks, db.calls[u], req.listing, req.end);
      var e := LockFails(t, u, deadlock);
      StillHadToWait(start, before, trace, |before|, |before|, t);
      err := Some(e);
    }

    /** The booking insert takes no lock that another call can hold, but the price must fit its column. */
    method CreateInTx(t: int, req: Request, attempt: nat, m: Moment) returns (id: int, err: Option<TxError>)
      requires Valid() && Standing(t, req, attempt, Counted)
      modifies this`db, this`trace
      ensures Valid() && old(trace) <= trace
      ensures err == if m.breaks || req.price > MAX_INT_UNSIGNED then Some(Statement(Fatal)) else None
      ensures err.None? ==>
        && db == Apply(AfterOthers(old(db), t, m.others), InsertBooking(t))
        && Standing(t, req, attempt, HasBooking(id))
      ensures err.Some? ==> FaultIs(t, req, attempt, err.value)
    {
      Others(t, m.others);
      id, err := 0, None;
      if m.breaks || req.price > MAX_INT_UNSIGNED {
        var e := Break(t);
        err := Some(e);
      } else {
        id := db.nextBooking;
        Step(InsertBooking(t));
      }
    }

    /** The block insert waits for gap locks of other transactions on its start date. */
    method InsertBlockRow(t: int, req: Request, attempt: nat, booking: int, m: Moment) returns (err: Option<TxError>)
      requires Valid() && Standing(t, req, attempt, HasBooking(booking))
      modifies this`db, this`trace
      ensures Valid() && old(trace) <= trace
      ensures err.None? <==> !m.breaks && InsertCanRun(AfterOthers(old(db), t, m.others), t)
      ensures err.None? ==>
        && db == Apply(AfterOthers(old(db), t, m.others), InsertBlock(t))
        && exists block :: Standing(t, req, attempt, HasBlock(booking, block))
      ensures err.Some? ==> FaultIs(t, req, attempt, err.value)
      ensures m.breaks ==> err == Some(Statement(Fatal))
      ensures err.Some? && !m.breaks ==> IsRetryable(err.value) && WasBlocked(|old(trace)|, t)
    {
      Others(t, m.others);
      err := None;
      if m.breaks {
        var e := Break(t);
        err := Some(e);
      } else if InsertCanRun(db, t) {
        ghost var block := db.nextBlock;
        Step(InsertBlock(t));
        assert Standing(t, req, attempt, HasBlock(booking, block));
      } else {
        err := FailInsert(t, req, m.deadlock);
      }
    }

    method FailInsert(t: int, req: Request, deadlock: bool) returns (err: Option<TxError>)
      requires Valid() && t in db.calls && db.calls[t].req == req
      requires db.calls[t].stage.HasBooking? && db.calls[t].fault.None? && !InsertCanRun(db, t)
      modifies this`db, this`trace
      ensures Valid() && old(trace) <= trace && err.Some? && IsRetryable(err.value)
      ensures FaultIs(t, req, old(db.calls[t].attempt), err.value) && WasBlocked(|old(trace)|, t)
    {
      ghost var before := trace;
      WaitsNow(start, trace, t);
      var u :| u in db.calls && u != t && GapCovers(db.calls[u], req.listing, req.start);
      var e := LockFails(t, u, deadlock);
      StillHadToWait(start, before, trace, |before|, |before|, t);
      err := Some(e);
    }

    /** The transaction's body: check, insert the booking, insert its block, capture the booking. */
    method Body(t: int, req: Request, attempt: nat, around: Surroundings) returns (err: Option<TxError>)
      requires Valid() && Standing(t, req, attempt, Begun)
      modifies this
      ensures Valid() && old(trace) <= trace
      ensures err.None? ==>
        created.Some? && exists block :: Standing(t, req, attempt, HasBlock(created.value, block))
      ensures err == Some(ListingUnavailable) ==> Standing(t, req, attempt, Refused)
      ensures err.Some? && err.value.Statement? ==> FaultIs(t, req, attempt, err.value)
      ensures err == Some(Statement(Fatal)) ==> AskedToFail(around, attempt, req)
      ensures err.Some? && IsRetryable(err.value) ==> WasBlocked(|old(trace)|, t)
      ensures DecidedBy(AfterOthers(old(db), t, around(attempt, AtCount).others), t, around, attempt, req, err)
      ensures Undisturbed(around, attempt, req) && old(NoLocks(db, t, req.listing)) ==>
        err == if old(Taken(db.blocks, req)) then Some(ListingUnavailable) else None
    {
      if NoLocks(db, t, req.listing) {
        NoLocksNoWait(db, t);
      }
      var overlapping;
      overlapping, err := CountOverlappingRows(t, req, attempt, around(attempt, AtCount));
      if Undisturbed(around, attempt, req) && old(NoLocks(db, t, req.listing)) {
        NoLocksAfter(old(db), Count(t), req.listing);
      }
      if err.Some? {
        return;
      }
      if overlapping > 0 {
        return Some(ListingUnavailable);
      }
      ghost var counted := |trace|;
      var bookingID;
      bookingID, err := InsertRows(t, req, attempt, around);
      if err.Some? {
        if IsRetryable(err.value) {
          StillHadToWait(start, trace, trace, counted, |old(trace)|, t);
        }
        return;
      }
      created := Some(bookingID);
    }

    /** The two inserts. */
    method InsertRows(t: int, req: Request, attempt: nat, around: Surroundings) returns (id: int, err: Option<TxError>)
      requires Valid() && Standing(t, req, attempt, Counted)
      modifies this`db, this`trace
      ensures Valid() && old(trace) <= trace
      ensures err.None? ==> exists block :: Standing(t, req, attempt, HasBlock(id, block))
      ensures err.Some? ==> FaultIs(t, req, attempt, err.value)
      ensures err == Some(Statement(Fatal)) ==> AskedToFail(around, attempt, req)
      ensures err.Some? && IsRetryable(err.value) ==> WasBlocked(|old(trace)|, t)
      ensures Undisturbed(around, attempt, req) && old(NoLocks(db, t, req.listing)) ==> err.None?
    {
      ghost var before := db;
      id, err := CreateInTx(t, req, attempt, around(attempt, AtBooking));
      if err.Some? {
        return;
      }
      if Undisturbed(around, attempt, req) && NoLocks(before, t, req.listing) {
        NoLocksAfter(before, InsertBooking(t), req.listing);
        NoLocksNoWait(db, t);
      }
      ghost var inserted := |trace|;
      err := InsertBlockRow(t, req, attempt, id, around(attempt, AtBlock));
      if err.Some? && IsRetryable(err.value) {
        StillHadToWait(start, trace, trace, inserted, |old(trace)|, t);
      }
    }

    /** attemptTx: begin, run the body, then roll back on its error or commit. A failed commit has no effect. */
    method AttemptTx(t: int, req: Request, attempt: nat, around: Surroundings) returns (err: Option<TxError>)
      requires Valid() && Standing(t, req, attempt, Waiting) && attempt < MAX_TX_RETRIES
      modifies this
      ensures Valid() && old(trace) <= trace
      ensures t in db.calls && Settled(db.calls[t], req, attempt, err)
      ensures err.None? ==>
        && created.Some? && db.calls[t].stage == Done(Created(created.value))
        && created.value in db.bookings && db.bookings[created.value] == BookingOf(req)
      ensures err == Some(Statement(Fatal)) ==> AskedToFail(around, attempt, req)
      ensures err.Some? && IsRetryable(err.value) ==> WasBlocked(|old(trace)|, t) || CausedByCommit(around, attempt)
      ensures !around(attempt, AtBegin).breaks ==>
        DecidedBy(AtCounting(old(db), t, around, attempt), t, around, attempt, req, err)
      ensures Undisturbed(around, attempt, req) && old(NoLocks(db, t, req.listing)) ==>
        err == if old(Taken(db.blocks, req)) then Some(ListingUnavailable) else None
    {
      Others(t, around(attempt, AtBegin).others);
      if around(attempt, AtBegin).breaks {
        var e := Break(t);
        Step(Rollback(t));
        return Some(e);
      }
      ghost var waiting := db;
      Step(Begin(t));
      ghost var quiet := Undisturbed(around, attempt, req) && old(NoLocks(db, t, req.listing));
      if quiet {
        NoLocksAfter(waiting, Begin(t), req.listing);
      }
      ghost var begun := |trace|;
      err := Body(t, req, attempt, around);
      if err.Some? {
        ghost var failed := trace;
        RollBack(t, req, attempt, err.value, around(attempt, AtRollback));
        if IsRetryable(err.value) {
          StillHadToWait(start, failed, trace, begun, |old(trace)|, t);
        }
        return;
      }
      err := CommitTx(t, req, attempt, created.value, around(attempt, AtCommit));
    }

    /** The rollback that answers an error of the body. */
    method RollBack(t: int, req: Request, attempt: nat, err: TxError, m: Moment)
      requires Valid() && attempt < MAX_TX_RETRIES
      requires if err == ListingUnavailable then Standing(t, req, attempt, Refused) else FaultIs(t, req, attempt, err)
      modifies this`db, this`trace
      ensures Valid() && old(trace) <= trace
      ensures t in db.calls && Settled(db.calls[t], req, attempt, Some(err))
    {
      Others(t, m.others);
      Step(Rollback(t));
    }

    /** The commit, which may itself report an error; it has then had no effect and the server rolls back. */
    method CommitTx(t: int, req: Request, attempt: nat, booking: int, m: Moment) returns (err: Option<TxError>)
      requires Valid() && attempt < MAX_TX_RETRIES
      requires exists block :: Standing(t, req, attempt, HasBlock(booking, block))
      modifies this`db, this`trace
      ensures Valid() && old(trace) <= trace
      ensures t in db.calls && Settled(db.calls[t], req, attempt, err)
      ensures err.None? <==> !m.breaks
      ensures err != Some(ListingUnavailable)
      ensures err.None? ==>
        && db == Apply(AfterOthers(old(db), t, m.others), Commit(t))
        && db.calls[t].stage == Done(Created(booking))
        && booking in db.bookings && db.bookings[booking] == BookingOf(req)
    {
      Others(t, m.others);
      err := None;
      if m.breaks {
        var e := FailCommit(t, m.deadlock);
        err := Some(e);
        Step(Rollback(t));
      } else {
        Step(Commit(t));
      }
    }

    /** A failed commit may be reported as a deadlock, if another transaction holds locks. */
    method FailCommit(t: int, deadlock: bool) returns (err: TxError)
      requires Valid() && t in db.calls && db.calls[t].stage.HasBlock? && db.calls[t].fault.None?
      modifies this`db, this`trace
      ensures Valid() && old(trace) <= trace
      ensures FaultIs(t, old(db.calls[t].req), old(db.calls[t].attempt), err)
    {
      if u :| u in db.calls && u != t && Holds(db.calls[u]) && deadlock {
        err := LockFails(t, u, deadlock);
      } else {
        err := Break(t);
      }
    }

    /**
     WithinTransaction: at most three attempts; every attempt before the last one failed with a retryable error; the
     result is success exactly when an attempt, the last, committed, and then `created` is that attempt's booking.
     Nothing fails without a cause.
     */
    method WithinTransaction(t: int, req: Request, around: Surroundings)
      returns (err: Option<CreateError>, ghost results: seq<Option<TxError>>)
      requires Valid() && Standing(t, req, 0, Waiting)
      modifies this
      ensures Valid() && old(trace) <= trace && SumsUp(err, results)
      ensures t in db.calls && Settled(db.calls[t], req, |results| - 1, results[|results| - 1])
      ensures err.None? ==>
        && created.Some? && db.calls[t].stage == Done(Created(created.value))
        && created.value in db.bookings && db.bookings[created.value] == BookingOf(req)
      ensures err == Some(TxFailed(Statement(Fatal))) ==> AskedToFailSometime(around, req)
      ensures |results| > 1 || (err.Some? && err.value.RetriesExhausted?) ==>
        Hindered(start, trace, |old(trace)|, t, around, |results|)
      ensures Undisturbed(around, 0, req) && old(NoLocks(db, t, req.listing)) ==>
        |results| == 1
        && err == if old(Taken(db.blocks, req)) then Some(TxFailed(ListingUnavailable)) else None
    {
      ghost var quiet := Undisturbed(around, 0, req) && NoLocks(db, t, req.listing);
      results := [];
      err := None;
      var lastErr := None;
      var attempt := 0;
      while attempt < MAX_TX_RETRIES
        invariant 0 <= attempt <= MAX_TX_RETRIES && |results| == attempt
        invariant Valid() && old(trace) <= trace && t in db.calls
        invariant attempt == 0 ==> Standing(t, req, 0, Waiting) && db == old(db)
        invariant attempt > 0 ==> lastErr == results[attempt - 1] && Settled(db.calls[t], req, attempt - 1, lastErr)
        invariant forall i :: 0 <= i < attempt ==> results[i].Some? && IsRetryable(results[i].value)
        invariant attempt > 0 ==> Hindered(start, trace, |old(trace)|, t, around, attempt) && !quiet
      {
        ghost var before := trace;
        ghost var hindered := attempt > 0;
        var failed := AttemptTx(t, req, attempt, around);
        results := results + [failed];
        if hindered {
          HinderedStill(start, before, trace, |old(trace)|, t, around, attempt);
        }
        if failed.None? {
          return;
        }
        lastErr := failed;
        if !IsRetryable(failed.value) {
          err := Some(TxFailed(failed.value));
          return;
        }
        HinderedSince(start, trace, |before|, |old(trace)|, t, around, attempt);
        attempt := attempt + 1;
      }
      err := Some(RetriesExhausted(lastErr.value));
    }

    /**
     CreateAtomic up to the end of its transaction. A missing listing or a reversed range changes nothing. Otherwise
     the call joins the protocol, takes only steps of the protocol, and returns its outcome there; on success the
     booking is committed with the requested dates and the computed price. Undisturbed, and with nobody holding locks
     on the listing, it succeeds exactly when the range is free.
     */
    method CreateAtomic(t: int, listing: int, renter: int, start: int, end: int, rate: Option<int>, around: Surroundings)
      returns (r: Result<int, CreateError>)
      requires Valid() && t !in db.calls
      modifies this
      ensures Valid() && old(trace) <= trace
      ensures rate.None? ==> r == Err(ListingNotFound) && db == old(db)
      ensures rate.Some? && end < start ==> r == Err(InvalidDateRange) && db == old(db)
      ensures rate.Some? && start <= end ==>
        var req := Asked(listing, renter, start, end, rate.value);
        && t in db.calls && db.calls[t].req == req && Tells(r, db.calls[t])
        && (r == Err(TxFailed(Statement(Fatal))) ==> AskedToFailSometime(around, req))
        && (r.Err? && r.error.RetriesExhausted? ==>
              Hindered(this.start, trace, |old(trace)|, t, around, MAX_TX_RETRIES))
        && (Undisturbed(around, 0, req) && old(NoLocks(db, t, listing)) ==>
              if old(Taken(db.blocks, req)) then r == Err(TxFailed(ListingUnavailable)) else r.Ok?)
      ensures r.Ok? ==>
        && r.value in db.bookings
        && db.bookings[r.value]
           == Booking(listing, renter, start, end, Requested, Pricing.PriceOfDays(start, end, rate.value).value)
    {
      if rate.None? {
        return Err(ListingNotFound);
      }
      var price := Pricing.PriceOfDays(start, end, rate.value);
      if price.Err? {
        return Err(InvalidDateRange);
      }
      r := Transact(t, Request(listing, renter, start, end, price.value), around);
    }

    /** The call's transaction, from its arrival to its end. */
    method Transact(t: int, req: Request, around: Surroundings) returns (r: Result<int, CreateError>)
      requires Valid() && t !in db.calls && req.start <= req.end
      modifies this
      ensures Valid() && old(trace) <= trace
      ensures t in db.calls && db.calls[t].req == req && Tells(r, db.calls[t])
      ensures r == Err(TxFailed(Statement(Fatal))) ==> AskedToFailSometime(around, req)
      ensures r.Err? && r.error.RetriesExhausted? ==>
        Hindered(start, trace, |old(trace)|, t, around, MAX_TX_RETRIES)
      ensures Undisturbed(around, 0, req) && old(NoLocks(db, t, req.listing)) ==>
        if old(Taken(db.blocks, req)) then r == Err(TxFailed(ListingUnavailable)) else r.Ok?
      ensures r.Ok? ==> r.value in db.bookings && db.bookings[r.value] == BookingOf(req)
    {
      ghost var before := db;
      ArriveQuietly(db, t, req);
      Step(Arrive(t, req));
      ghost var arrived := |trace|;
      created := None;
      var err, results := WithinTransaction(t, req, around);
      r := if err.Some? then Err(err.value) else Ok(created.value);
      ResultTells(err, results, created, req, db.calls[t], r);
      if err.Some? && err.value.RetriesExhausted? {
        HinderedFrom(start, trace, arrived, |old(trace)|, t, around, MAX_TX_RETRIES);
      }
    }
  }

  lemma ResultTells(
    err: Option<CreateError>, results: seq<Option<TxError>>, created: Option<int>, req: Request, c: Call,
    r: Result<int, CreateError>)
    requires SumsUp(err, results) && Settled(c, req, |results| - 1, results[|results| - 1])
    requires err.None? ==> created.Some? && c.stage == Done(Created(created.value)) && r == Ok(created.value)
    requires err.Some? ==> r == Err(err.value)
    ensures Tells(r, c) && c.req == req
  {
  }

  lemma ArriveQuietly(s: State, t: int, req: Request)
    requires t !in s.calls && req.start <= req.end
    ensures Apply(s, Arrive(t, req)).blocks == s.blocks
    ensures Apply(s, Arrive(t, req)).calls == s.calls[t := Call(req, 0, Waiting, None)]
    ensures NoLocks(s, t, req.listing) ==> NoLocks(Apply(s, Arrive(t, req)), t, req.listing)
  {
  }

  lemma HinderedStill(s0: State, before: seq<Label>, trace: seq<Label>, n: nat, t: int, around: Surroundings, attempt: nat)
    requires before <= trace && Hindered(s0, before, n, t, around, attempt)
    ensures Hindered(s0, trace, n, t, around, attempt + 1)
  {
    if HadToWait(s0, before, n, t) {
      StillHadToWait(s0, before, trace, n, n, t);
    } else {
      var a :| 0 <= a < attempt && CausedByCommit(around, a);
      assert CommitFailed(around, attempt + 1);
    }
  }

  lemma HinderedFrom(s0: State, trace: seq<Label>, n: nat, m: nat, t: int, around: Surroundings, attempts: nat)
    requires m <= n && Hindered(s0, trace, n, t, around, attempts)
    ensures Hindered(s0, trace, m, t, around, attempts)
  {
    if HadToWait(s0, trace, n, t) {
      StillHadToWait(s0, trace, trace, n, m, t);
    }
  }

  /** The request that CreateAtomic makes of its arguments. */
  function Asked(listing: int, renter: int, start: int, end: int, rate: int): Request
    requires start <= end
  {
    Request(listing, renter, start, end, Pricing.PriceOfDays(start, end, rate).value)
  }
}
