/** What holds of booking creation over every run, from any consistent database and under every interleaving. */
module BookingTheorems {
  import opened Wrappers
  import opened Availability
  import opened BookingProtocol

  // ---------- no double booking, one block per booking ----------

  /** Two different bookings of one listing never share a day, whatever their statuses. */
  lemma NoDoubleBooking(s: State, ls: seq<Label>, a: int, b: int)
    requires Initial(s) && CanRun(s, ls)
    requires a in Run(s, ls).bookings && b in Run(s, ls).bookings && a != b
    requires Run(s, ls).bookings[a].listing == Run(s, ls).bookings[b].listing
    ensures var x, y := Run(s, ls).bookings[a], Run(s, ls).bookings[b];
            x.end < y.start || y.end < x.start
  {
    ReachableInv(s, ls);
    var blocks := Run(s, ls).blocks;
    var j :| j in blocks && blocks[j].booking == Some(a);
    var k :| k in blocks && blocks[k].booking == Some(b);
    assert j != k;
  }

  ghost predicate IsBlockOf(blocks: Blocks, k: int, b: int, row: Booking) {
    && k in blocks && blocks[k].booking == Some(b) && blocks[k].reason.Booked?
    && blocks[k].listing == row.listing && blocks[k].start == row.start && blocks[k].end == row.end
  }

  /**
   No booking without its block and no block without its booking, also across aborts, retries and status changes.
   */
  lemma OneBlockPerBooking(s: State, ls: seq<Label>)
    requires Initial(s) && CanRun(s, ls)
    ensures var now := Run(s, ls);
            && (forall b :: b in now.bookings ==>
                  exists k :: IsBlockOf(now.blocks, k, b, now.bookings[b])
                              && forall j :: j in now.blocks && now.blocks[j].booking == Some(b) ==> j == k)
            && (forall k :: k in now.blocks && now.blocks[k].reason.Booked? ==>
                  now.blocks[k].booking.Some? && now.blocks[k].booking.value in now.bookings)
  {
    ReachableInv(s, ls);
    var now := Run(s, ls);
    forall b | b in now.bookings
      ensures exists k :: IsBlockOf(now.blocks, k, b, now.bookings[b])
                          && forall j :: j in now.blocks && now.blocks[j].booking == Some(b) ==> j == k
    {
      var k :| k in now.blocks && now.blocks[k].booking == Some(b);
      assert IsBlockOf(now.blocks, k, b, now.bookings[b]);
    }
  }

  // ---------- linearizability ----------

  /** A sequential allocator: first come, first served. */
  ghost function Allocate(blocks: Blocks, e: Entry): (r: (Answer, Blocks)) {
    if Taken(blocks, e.req) then (Denied, blocks)
    else if e.answer.Granted? then (e.answer, blocks[e.answer.block := BlockOf(e.req, e.answer.booking)])
    else (Granted(0, 0), blocks)
  }

  /** The blocks the allocator leaves after serving the logged requests one at a time. */
  ghost function Serve(blocks: Blocks, log: seq<Entry>): Blocks {
    if log == [] then blocks else Allocate(Serve(blocks, log[..|log| - 1]), log[|log| - 1]).1
  }

  /** Each logged answer is the allocator's own, and each granted block is a new row. */
  ghost predicate Explained(blocks: Blocks, log: seq<Entry>) {
    log == [] ||
    var before, e := log[..|log| - 1], log[|log| - 1];
    && Explained(blocks, before)
    && e.answer == Allocate(Serve(blocks, before), e).0
    && (e.answer.Granted? ==> e.answer.block !in Serve(blocks, before))
  }

  lemma ServeOneMore(blocks: Blocks, log: seq<Entry>, e: Entry)
    ensures Serve(blocks, log + [e]) == Allocate(Serve(blocks, log), e).1
    ensures Explained(blocks, log + [e]) <==>
            Explained(blocks, log) && e.answer == Allocate(Serve(blocks, log), e).0
            && (e.answer.Granted? ==> e.answer.block !in Serve(blocks, log))
  {
    assert (log + [e])[..|log + [e]| - 1] == log;
  }

  /** The state's log and blocks are those of the allocator, started on `blocks`. */
  ghost predicate Served(blocks: Blocks, s: State) {
    Explained(blocks, s.log) && s.blocks == Serve(blocks, s.log)
  }

  lemma CountIsServed(blocks: Blocks, s: State, l: Label)
    requires Served(blocks, s) && Enabled(s, l) && l.Count?
    ensures Served(blocks, Apply(s, l))
  {
    var req := s.calls[l.call].req;
    CountIsZeroWhenFree(s.blocks, req.listing, req.start, req.end);
    ServeOneMore(blocks, s.log, Entry(l.call, req, Denied));
  }

  /** What a commit adds, to a range that is free, under an id that is new. */
  lemma CommitStep(s: State, l: Label)
    requires Inv(s) && Enabled(s, l) && l.Commit?
    ensures var c := s.calls[l.call];
            var e := Entry(l.call, c.req, Granted(c.stage.booking, c.stage.block));
            && !Taken(s.blocks, c.req) && c.stage.block !in s.blocks
            && Apply(s, l).log == s.log + [e]
            && Apply(s, l).blocks == s.blocks[c.stage.block := BlockOf(c.req, c.stage.booking)]
  {
    assert RangeFree(s.blocks, s.calls[l.call]) && FreshIds(s, s.calls[l.call]);
  }

  lemma CommitIsServed(blocks: Blocks, s: State, l: Label)
    requires Served(blocks, s) && Inv(s) && Enabled(s, l) && l.Commit?
    ensures Served(blocks, Apply(s, l))
  {
    CommitStep(s, l);
    var c := s.calls[l.call];
    ServeOneMore(blocks, s.log, Entry(l.call, c.req, Granted(c.stage.booking, c.stage.block)));
  }

  lemma OtherServesNobody(s: State, l: Label)
    requires Enabled(s, l) && !l.Count? && !l.Commit?
    ensures Apply(s, l).log == s.log && Apply(s, l).blocks == s.blocks
  {
  }

  lemma {:induction false} EveryStateServed(s: State, ls: seq<Label>)
    requires Initial(s) && CanRun(s, ls)
    ensures Served(s.blocks, Run(s, ls))
  {
    if ls != [] {
      var mid, l := Run(s, ls[..|ls| - 1]), ls[|ls| - 1];
      ReachableInv(s, ls[..|ls| - 1]);
      EveryStateServed(s, ls[..|ls| - 1]);
      if l.Count? {
        CountIsServed(s.blocks, mid, l);
      } else if l.Commit? {
        CommitIsServed(s.blocks, mid, l);
      } else {
        OtherServesNobody(mid, l);
      }
    }
  }

  /**
   Every run is explained by the sequential allocator: serving the log alone gives exactly the logged answers and
   exactly the committed blocks.
   */
  lemma Linearizable(s: State, ls: seq<Label>)
    requires Initial(s) && CanRun(s, ls)
    ensures Explained(s.blocks, Run(s, ls).log)
    ensures Run(s, ls).blocks == Serve(s.blocks, Run(s, ls).log)
  {
    EveryStateServed(s, ls);
  }

  ghost predicate Answered(log: seq<Entry>, t: int) {
    exists i :: 0 <= i < |log| && log[i].call == t
  }

  predicate AnswerFits(c: Call, e: Entry) {
    && e.req == c.req
    && match e.answer
       case Denied => c.stage.Refused? || c.stage == Done(Unavailable)
       case Granted(b, _) => c.stage == Done(Created(b))
  }

  predicate HasAnswer(c: Call) {
    c.stage.Refused? || c.stage == Done(Unavailable) || (c.stage.Done? && c.stage.outcome.Created?)
  }

  ghost predicate EntryFits(s: State, e: Entry) {
    e.call in s.calls && AnswerFits(s.calls[e.call], e)
  }

  ghost predicate LogFitsCalls(s: State) {
    && (forall i :: 0 <= i < |s.log| ==> EntryFits(s, s.log[i]))
    && (forall i, j :: 0 <= i < j < |s.log| ==> s.log[i].call != s.log[j].call)
    && (forall t :: t in s.calls && HasAnswer(s.calls[t]) ==> Answered(s.log, t))
  }

  /** A step either leaves the log alone, or appends the answer of a call that had none. */
  lemma StepAnswers(s: State, l: Label)
    requires ProperCalls(s) && Enabled(s, l)
    ensures l.SetStatus? ==> Apply(s, l).log == s.log
    ensures !l.SetStatus? && !l.Arrive? && HasAnswer(s.calls[l.call]) ==>
      Apply(s, l).log == s.log && HasAnswer(Apply(s, l).calls[l.call])
      && forall e :: AnswerFits(s.calls[l.call], e) ==> AnswerFits(Apply(s, l).calls[l.call], e)
    ensures !l.SetStatus? && (l.Arrive? || !HasAnswer(s.calls[l.call])) && !HasAnswer(Apply(s, l).calls[l.call]) ==>
      Apply(s, l).log == s.log
    ensures !l.SetStatus? && (l.Arrive? || !HasAnswer(s.calls[l.call])) && HasAnswer(Apply(s, l).calls[l.call]) ==>
      && |Apply(s, l).log| == |s.log| + 1 && Apply(s, l).log[..|s.log|] == s.log
      && Apply(s, l).log[|s.log|].call == l.call && AnswerFits(Apply(s, l).calls[l.call], Apply(s, l).log[|s.log|])
  {
  }

  lemma FitsMeansAnswer(c: Call, e: Entry)
    requires AnswerFits(c, e)
    ensures HasAnswer(c)
  {
  }

  /** `LogFitsCalls` for a state that differs in call `t`, from facts about that call alone. */
  lemma LogFitsAfter(s: State, s': State, t: int, c: Call)
    requires LogFitsCalls(s) && s'.calls == s.calls[t := c]
    requires s'.log == s.log || (|s'.log| == |s.log| + 1 && s'.log[..|s.log|] == s.log && s'.log[|s.log|].call == t
                                 && AnswerFits(c, s'.log[|s.log|]) && (t in s.calls ==> !HasAnswer(s.calls[t])))
    requires t in s.calls && HasAnswer(s.calls[t]) ==>
               forall e :: AnswerFits(s.calls[t], e) ==> AnswerFits(c, e)
    requires HasAnswer(c) ==> (t in s.calls && HasAnswer(s.calls[t])) || s'.log != s.log
    ensures LogFitsCalls(s')
  {
    forall i | 0 <= i < |s.log| ensures EntryFits(s', s.log[i]) && s'.log[i] == s.log[i] {
      assert EntryFits(s, s.log[i]) && s'.log[i] == s'.log[..|s.log|][i];
      FitsMeansAnswer(s.calls[s.log[i].call], s.log[i]);
    }
    forall u | u in s'.calls && HasAnswer(s'.calls[u]) ensures Answered(s'.log, u) {
      if u in s.calls && HasAnswer(s.calls[u]) {
        var i :| 0 <= i < |s.log| && s.log[i].call == u;
        assert s'.log[i].call == u;
      } else {
        assert s'.log[|s.log|].call == u;
      }
    }
  }

  lemma StepKeepsLogFits(s: State, l: Label)
    requires ProperCalls(s) && LogFitsCalls(s) && Enabled(s, l)
    ensures LogFitsCalls(Apply(s, l))
  {
    StepFrame(s, l);
    StepAnswers(s, l);
    if l.SetStatus? {
      assert forall i :: 0 <= i < |s.log| ==> EntryFits(s, s.log[i]);
    } else {
      LogFitsAfter(s, Apply(s, l), l.call, Apply(s, l).calls[l.call]);
    }
  }

  /**
   The log speaks for the calls: every logged answer is the outcome its call ends with (or will end with, once its
   refused transaction is rolled back), no call is answered twice, and every call that ends created or unavailable is
   answered. So a call that ends exhausted or failed is in no entry, and has had no effect.
   */
  lemma {:induction false} EveryCallAnsweredOnce(s: State, ls: seq<Label>)
    requires Initial(s) && CanRun(s, ls)
    ensures LogFitsCalls(Run(s, ls))
    ensures forall t :: t in Run(s, ls).calls && Run(s, ls).calls[t].stage.Done? ==>
      (Answered(Run(s, ls).log, t) <==>
         Run(s, ls).calls[t].stage.outcome.Created? || Run(s, ls).calls[t].stage.outcome.Unavailable?)
  {
    if ls != [] {
      EveryCallAnsweredOnce(s, ls[..|ls| - 1]);
      ReachableInv(s, ls[..|ls| - 1]);
      StepKeepsLogFits(Run(s, ls[..|ls| - 1]), ls[|ls| - 1]);
    }
  }

  lemma LogGrows(s: State, l: Label)
    requires Enabled(s, l)
    ensures s.log <= Apply(s, l).log
  {
  }

  lemma {:induction false} PrefixRuns(s: State, ls: seq<Label>, n: nat)
    requires CanRun(s, ls) && n <= |ls|
    ensures CanRun(s, ls[..n])
    ensures Run(s, ls[..n]).log <= Run(s, ls).log
  {
    if n < |ls| {
      var before := ls[..|ls| - 1];
      PrefixRuns(s, before, n);
      assert before[..n] == ls[..n];
      LogGrows(Run(s, before), ls[|ls| - 1]);
    } else {
      assert ls[..n] == ls;
    }
  }

  /**
   The order of the log respects real time: a call that ended with an answer before another call arrived is served
   before it.
   */
  lemma RealTimeOrder(s: State, ls: seq<Label>, n: nat, i: nat, j: nat)
    requires Initial(s) && CanRun(s, ls) && n <= |ls| && CanRun(s, ls[..n])
    requires i < |Run(s, ls).log| && j < |Run(s, ls).log|
    requires Run(s, ls).log[i].call in Run(s, ls[..n]).calls
    requires Run(s, ls[..n]).calls[Run(s, ls).log[i].call].stage.Done?
    requires HasAnswer(Run(s, ls[..n]).calls[Run(s, ls).log[i].call])
    requires Run(s, ls).log[j].call !in Run(s, ls[..n]).calls
    ensures i < j
  {
    PrefixRuns(s, ls, n);
    EveryCallAnsweredOnce(s, ls);
    EveryCallAnsweredOnce(s, ls[..n]);
    var early := Run(s, ls[..n]).log;
    var m :| 0 <= m < |early| && early[m].call == Run(s, ls).log[i].call;
    assert m == i;
  }

  // ---------- every call ends ----------

  const STEPS_PER_ATTEMPT := 7

  /** How far the call's current attempt has come. */
  function Progress(c: Call): nat {
    if c.fault.Some? then 6
    else match c.stage
      case Waiting => 0
      case Begun => 1
      case Counted => 2
      case HasBooking(_) => 3
      case HasBlock(_, _) => 4
      case Refused => 5
      case Done(_) => 6
  }

  /** An upper bound on the steps the call has still to take. */
  function StepsLeft(c: Call): int {
    if c.stage.Done? then 0 else (MAX_TX_RETRIES - c.attempt) * STEPS_PER_ATTEMPT - Progress(c)
  }

  lemma StepUsesUp(s: State, l: Label)
    requires ProperCalls(s) && Enabled(s, l) && !l.SetStatus? && !l.Arrive?
    ensures 0 <= StepsLeft(Apply(s, l).calls[l.call]) < StepsLeft(s.calls[l.call])
  {
  }

  /** How many steps of the run are the call's own. */
  function StepsOf(ls: seq<Label>, t: int): nat {
    if ls == [] then 0
    else
      StepsOf(ls[..|ls| - 1], t) + if !ls[|ls| - 1].SetStatus? && ls[|ls| - 1].call == t then 1 else 0
  }

  /** No call takes more than three attempts of seven steps, whatever the others do. */
  lemma {:induction false} CallsTakeFewSteps(s: State, ls: seq<Label>, t: int)
    requires Initial(s) && CanRun(s, ls)
    ensures t !in Run(s, ls).calls ==> StepsOf(ls, t) == 0
    ensures t in Run(s, ls).calls ==>
      0 <= StepsLeft(Run(s, ls).calls[t])
      && StepsOf(ls, t) + StepsLeft(Run(s, ls).calls[t]) <= 1 + MAX_TX_RETRIES * STEPS_PER_ATTEMPT
  {
    if ls != [] {
      var before, l := ls[..|ls| - 1], ls[|ls| - 1];
      CallsTakeFewSteps(s, before, t);
      ReachableInv(s, before);
      StepFrame(Run(s, before), l);
      if !l.SetStatus? && !l.Arrive? {
        StepUsesUp(Run(s, before), l);
      }
    }
  }

  /** A call that has not ended can always take a step of its own: if its statement must wait, the wait can time out. */
  lemma NoCallIsStuck(s: State, t: int) returns (l: Label)
    requires ProperCalls(s) && t in s.calls && !s.calls[t].stage.Done?
    ensures Enabled(s, l) && !l.SetStatus? && !l.Arrive? && l.call == t
    ensures l.Break? ==> s.calls[t].req.price > MAX_INT_UNSIGNED
  {
    var c := s.calls[t];
    if c.fault.Some? || c.stage.Refused? {
      l := Rollback(t);
    } else if c.stage.Waiting? {
      l := Begin(t);
    } else if c.stage.Begun? {
      if CountCanRun(s, t) {
        l := Count(t);
      } else {
        var u :| u in s.calls && u != t && RowLocked(s.blocks, s.calls[u], c.req.listing, c.req.end);
        l := LockError(t, u, LockWaitTimeout);
      }
    } else if c.stage.Counted? {
      l := if c.req.price <= MAX_INT_UNSIGNED then InsertBooking(t) else Break(t);
    } else if c.stage.HasBooking? {
      if InsertCanRun(s, t) {
        l := InsertBlock(t);
      } else {
        var u :| u in s.calls && u != t && GapCovers(s.calls[u], c.req.listing, c.req.start);
        l := LockError(t, u, LockWaitTimeout);
      }
    } else {
      l := Commit(t);
    }
  }

  // ---------- what a created call owns ----------

  predicate IsCreated(c: Call) {
    c.stage.Done? && c.stage.outcome.Created?
  }

  /** The booking a call reports is its own row. */
  ghost predicate OwnRow(s: State, c: Call) {
    IsCreated(c) ==>
      && c.stage.outcome.booking in s.bookings
      && var b := s.bookings[c.stage.outcome.booking];
      && b.listing == c.req.listing && b.renter == c.req.renter && b.start == c.req.start && b.end == c.req.end
      && b.price == c.req.price
  }

  predicate RowsApart(c: Call, d: Call) {
    IsCreated(c) && IsCreated(d) ==> c.stage.outcome.booking != d.stage.outcome.booking
  }

  ghost predicate OwnRows(s: State) {
    && (forall t :: t in s.calls ==> OwnRow(s, s.calls[t]))
    && (forall t, u :: t in s.calls && u in s.calls && t != u ==> RowsApart(s.calls[t], s.calls[u]))
  }

  lemma StepKeepsOwnRow(s: State, l: Label, c: Call)
    requires PendingFresh(s) && OwnRow(s, c) && Enabled(s, l)
    ensures OwnRow(Apply(s, l), c)
  {
  }

  lemma ActorOwnsRow(s: State, l: Label)
    requires Inv(s) && OwnRows(s) && Enabled(s, l) && !l.SetStatus?
    ensures OwnRow(Apply(s, l), Apply(s, l).calls[l.call])
    ensures forall u :: u in s.calls && u != l.call ==>
              RowsApart(Apply(s, l).calls[l.call], s.calls[u]) && RowsApart(s.calls[u], Apply(s, l).calls[l.call])
  {
    var c := Apply(s, l).calls[l.call];
    if l.Commit? {
      forall u | u in s.calls && u != l.call ensures RowsApart(c, s.calls[u]) && RowsApart(s.calls[u], c) {
        assert OwnRow(s, s.calls[u]);
        assert FreshBooking(s, s.calls[l.call].stage.booking);
      }
    } else {
      assert !IsCreated(c);
    }
  }

  lemma OwnRowsAfter(s: State, s': State, t: int, c: Call)
    requires OwnRows(s) && s'.calls == s.calls[t := c] && OwnRow(s', c)
    requires forall u :: u in s.calls && u != t ==>
               OwnRow(s', s.calls[u]) && RowsApart(c, s.calls[u]) && RowsApart(s.calls[u], c)
    ensures OwnRows(s')
  {
  }

  lemma StepKeepsOwnRows(s: State, l: Label)
    requires Inv(s) && OwnRows(s) && Enabled(s, l)
    ensures OwnRows(Apply(s, l))
  {
    StepFrame(s, l);
    forall t | t in s.calls ensures OwnRow(Apply(s, l), s.calls[t]) {
      StepKeepsOwnRow(s, l, s.calls[t]);
    }
    if !l.SetStatus? {
      ActorOwnsRow(s, l);
      OwnRowsAfter(s, Apply(s, l), l.call, Apply(s, l).calls[l.call]);
    }
  }

  lemma {:induction false} CallsOwnTheirRows(s: State, ls: seq<Label>)
    requires Initial(s) && CanRun(s, ls)
    ensures OwnRows(Run(s, ls))
  {
    if ls != [] {
      CallsOwnTheirRows(s, ls[..|ls| - 1]);
      ReachableInv(s, ls[..|ls| - 1]);
      StepKeepsOwnRows(Run(s, ls[..|ls| - 1]), ls[|ls| - 1]);
    }
  }

  /** Of two calls that clash, whatever else is going on, at most one creates a booking. */
  lemma AtMostOneWins(s: State, ls: seq<Label>, t: int, u: int)
    requires Initial(s) && CanRun(s, ls)
    requires t in Run(s, ls).calls && u in Run(s, ls).calls
    requires Clash(Run(s, ls).calls[t].req, Run(s, ls).calls[u].req)
    requires IsCreated(Run(s, ls).calls[t]) && IsCreated(Run(s, ls).calls[u])
    ensures t == u
  {
    var now := Run(s, ls);
    CallsOwnTheirRows(s, ls);
    if t != u {
      NoDoubleBooking(s, ls, now.calls[t].stage.outcome.booking, now.calls[u].stage.outcome.booking);
    }
  }

  // ---------- every new block belongs to a created call ----------

  ghost predicate OfCall(s: State, k: int)
    requires k in s.blocks
  {
    exists t :: t in s.calls && IsCreated(s.calls[t])
                && s.blocks[k] == BlockOf(s.calls[t].req, s.calls[t].stage.outcome.booking)
  }

  ghost predicate NewBlocksOfCalls(s0: State, s: State) {
    forall k :: k in s.blocks ==> (k in s0.blocks && s0.blocks[k] == s.blocks[k]) || OfCall(s, k)
  }

  /** A created call never changes again. */
  lemma CreatedStays(s: State, l: Label, t: int)
    requires ProperCalls(s) && Enabled(s, l) && t in s.calls && IsCreated(s.calls[t])
    ensures t in Apply(s, l).calls && Apply(s, l).calls[t] == s.calls[t]
  {
    StepFrame(s, l);
  }

  lemma OnlyCommitAddsBlocks(s: State, l: Label, k: int)
    requires Enabled(s, l) && k in Apply(s, l).blocks
    ensures (k in s.blocks && s.blocks[k] == Apply(s, l).blocks[k]) || OfCall(Apply(s, l), k)
  {
    if l.Commit? && k == s.calls[l.call].stage.block {
      var c := Apply(s, l).calls[l.call];
      assert IsCreated(c) && Apply(s, l).blocks[k] == BlockOf(c.req, c.stage.outcome.booking);
    }
  }

  lemma {:induction false} BlocksComeFromCalls(s: State, ls: seq<Label>)
    requires Initial(s) && CanRun(s, ls)
    ensures NewBlocksOfCalls(s, Run(s, ls))
  {
    if ls != [] {
      var mid, l := Run(s, ls[..|ls| - 1]), ls[|ls| - 1];
      BlocksComeFromCalls(s, ls[..|ls| - 1]);
      ReachableInv(s, ls[..|ls| - 1]);
      var now := Apply(mid, l);
      forall k | k in now.blocks ensures (k in s.blocks && s.blocks[k] == now.blocks[k]) || OfCall(now, k) {
        OnlyCommitAddsBlocks(mid, l, k);
        if !OfCall(now, k) && OfCall(mid, k) {
          var t :| t in mid.calls && IsCreated(mid.calls[t])
                   && mid.blocks[k] == BlockOf(mid.calls[t].req, mid.calls[t].stage.outcome.booking);
          CreatedStays(mid, l, t);
        }
      }
    }
  }

  // ---------- when somebody wins ----------

  /** No call outside the group clashes with one inside. Other calls, on any listing, are free to do anything. */
  ghost predicate Closed(s: State, group: set<int>) {
    forall t, u :: t in s.calls && u in s.calls && t in group && Clash(s.calls[t].req, s.calls[u].req) ==> u in group
  }

  /** What the group asks for was free in the tables of `s0`. */
  ghost predicate AskedForFree(s0: State, s: State, group: set<int>) {
    forall t :: t in s.calls && t in group ==> !Taken(s0.blocks, s.calls[t].req)
  }

  ghost predicate Contest(s0: State, s: State, group: set<int>) {
    Closed(s, group) && AskedForFree(s0, s, group)
  }

  /** The call has met an error after which its rollback is final. */
  predicate GivingUp(c: Call) {
    c.fault.Some? && (c.fault.value.Fatal? || c.attempt + 1 >= MAX_TX_RETRIES)
  }

  predicate Hopeful(c: Call) {
    !c.stage.Done? && !c.stage.Refused? && !GivingUp(c)
  }

  ghost predicate SomeCreated(s: State, group: set<int>) {
    exists t :: t in s.calls && t in group && IsCreated(s.calls[t])
  }

  /** Some call of the group has won or is still on its way with an attempt to spare. */
  ghost predicate Chance(s: State, group: set<int>) {
    exists t :: t in s.calls && t in group && (IsCreated(s.calls[t]) || Hopeful(s.calls[t]))
  }

  ghost predicate AllDone(s: State, group: set<int>) {
    forall t :: t in s.calls && t in group ==> s.calls[t].stage.Done?
  }

  /** The steps that can give a group a new chance or take one away. */
  predicate IsTrouble(l: Label, group: set<int>) {
    (l.Arrive? || l.LockError? || l.Break?) && l.call in group
  }

  /** The length of the run up to and including the last arrival or error in the group. */
  function LastTrouble(ls: seq<Label>, group: set<int>): (n: nat)
    ensures n <= |ls|
  {
    if ls == [] then 0 else if IsTrouble(ls[|ls| - 1], group) then |ls| else LastTrouble(ls[..|ls| - 1], group)
  }

  lemma ContestBefore(s0: State, s: State, l: Label, group: set<int>)
    requires Enabled(s, l) && Contest(s0, Apply(s, l), group)
    ensures Contest(s0, s, group)
  {
    var s' := Apply(s, l);
    StepFrame(s, l);
    assert forall t :: t in s.calls ==> t in s'.calls && s'.calls[t].req == s.calls[t].req;
  }

  /** A range of the group is only ever taken by a winner of the group. */
  lemma TakenByTheGroup(s: State, ls: seq<Label>, group: set<int>, t: int)
    requires Initial(s) && CanRun(s, ls) && Contest(s, Run(s, ls), group)
    requires t in Run(s, ls).calls && t in group && Taken(Run(s, ls).blocks, Run(s, ls).calls[t].req)
    ensures SomeCreated(Run(s, ls), group)
  {
    BlocksComeFromCalls(s, ls);
    var now := Run(s, ls);
    var req := now.calls[t].req;
    var k :| k in now.blocks && Matches(now.blocks[k], req.listing, req.start, req.end);
    assert !(k in s.blocks && s.blocks[k] == now.blocks[k]) by {
      assert !Taken(s.blocks, req);
    }
    var u :| u in now.calls && IsCreated(now.calls[u])
             && now.blocks[k] == BlockOf(now.calls[u].req, now.calls[u].stage.outcome.booking);
    assert Clash(req, now.calls[u].req);
  }

  /** A call's own step, arrivals and errors aside, keeps its hope unless the range is taken; and makes none. */
  lemma OwnStep(s: State, l: Label)
    requires ProperCalls(s) && Enabled(s, l) && !l.SetStatus? && !l.Arrive? && !l.LockError? && !l.Break?
    ensures IsCreated(s.calls[l.call]) ==> IsCreated(Apply(s, l).calls[l.call])
    ensures Hopeful(s.calls[l.call]) && (l.Count? ==> !Taken(s.blocks, s.calls[l.call].req)) ==>
      IsCreated(Apply(s, l).calls[l.call]) || Hopeful(Apply(s, l).calls[l.call])
    ensures IsCreated(Apply(s, l).calls[l.call]) || Hopeful(Apply(s, l).calls[l.call]) ==>
      IsCreated(s.calls[l.call]) || Hopeful(s.calls[l.call])
  {
    if l.Count? {
      var req := s.calls[l.call].req;
      CountIsZeroWhenFree(s.blocks, req.listing, req.start, req.end);
    }
  }

  lemma WinnerIsAChance(s: State, group: set<int>)
    requires SomeCreated(s, group)
    ensures Chance(s, group)
  {
    var t :| t in s.calls && t in group && IsCreated(s.calls[t]);
    assert IsCreated(s.calls[t]);
  }

  lemma SomeCreatedStays(s: State, l: Label, group: set<int>)
    requires ProperCalls(s) && Enabled(s, l) && SomeCreated(s, group)
    ensures SomeCreated(Apply(s, l), group)
  {
    var t :| t in s.calls && t in group && IsCreated(s.calls[t]);
    CreatedStays(s, l, t);
    assert IsCreated(Apply(s, l).calls[t]);
  }

  ghost predicate HasChance(s: State, t: int) {
    t in s.calls && (IsCreated(s.calls[t]) || Hopeful(s.calls[t]))
  }

  lemma OthersKeepTheirs(s: State, l: Label, t: int)
    requires Enabled(s, l) && (l.SetStatus? || l.call != t)
    ensures HasChance(s, t) <==> HasChance(Apply(s, l), t)
  {
    StepFrame(s, l);
  }

  /** Between arrivals and errors, a group neither gains nor loses its chance. */
  lemma QuietStepKeepsChance(s: State, ls: seq<Label>, l: Label, group: set<int>)
    requires Initial(s) && CanRun(s, ls) && Enabled(Run(s, ls), l) && !IsTrouble(l, group)
    requires Contest(s, Run(s, ls), group)
    ensures Chance(Run(s, ls), group) <==> Chance(Apply(Run(s, ls), l), group)
  {
    var now := Run(s, ls);
    var next := Apply(now, l);
    ReachableInv(s, ls);
    if Chance(now, group) {
      var t :| t in now.calls && t in group && (IsCreated(now.calls[t]) || Hopeful(now.calls[t]));
      if SomeCreated(now, group) {
        SomeCreatedStays(now, l, group);
        WinnerIsAChance(next, group);
      } else {
        if l.SetStatus? || l.call != t {
          OthersKeepTheirs(now, l, t);
        } else {
          if Taken(now.blocks, now.calls[t].req) {
            TakenByTheGroup(s, ls, group, t);
          }
          OwnStep(now, l);
        }
        assert HasChance(next, t);
      }
    }
    if Chance(next, group) {
      var t :| t in next.calls && t in group && (IsCreated(next.calls[t]) || Hopeful(next.calls[t]));
      if l.SetStatus? || l.call != t {
        OthersKeepTheirs(now, l, t);
        assert HasChance(next, t);
      } else {
        OwnStep(now, l);
      }
      assert HasChance(now, t);
    }
  }

  lemma {:induction false} ChanceSinceLastTrouble(s: State, ls: seq<Label>, group: set<int>)
    requires Initial(s) && CanRun(s, ls) && Contest(s, Run(s, ls), group)
    ensures CanRun(s, ls[..LastTrouble(ls, group)])
    ensures Chance(Run(s, ls), group) <==> Chance(Run(s, ls[..LastTrouble(ls, group)]), group)
  {
    var n := LastTrouble(ls, group);
    PrefixRuns(s, ls, n);
    if n == |ls| {
      assert ls[..n] == ls;
    } else {
      var before, l := ls[..|ls| - 1], ls[|ls| - 1];
      ContestBefore(s, Run(s, before), l, group);
      ChanceSinceLastTrouble(s, before, group);
      QuietStepKeepsChance(s, before, l, group);
      assert before[..n] == ls[..n];
    }
  }

  lemma DoneMeansCreated(s: State, group: set<int>)
    requires AllDone(s, group)
    ensures SomeCreated(s, group) <==> Chance(s, group)
  {
    if SomeCreated(s, group) {
      WinnerIsAChance(s, group);
    }
  }

  /**
   A group that asked for what was free, and has ended, has a winner exactly when right after its last arrival or
   error some call of it had won or had an attempt to spare.
   */
  lemma SomeoneWinsIff(s: State, ls: seq<Label>, group: set<int>)
    requires Initial(s) && CanRun(s, ls) && Contest(s, Run(s, ls), group) && AllDone(Run(s, ls), group)
    ensures CanRun(s, ls[..LastTrouble(ls, group)])
    ensures SomeCreated(Run(s, ls), group) <==> Chance(Run(s, ls[..LastTrouble(ls, group)]), group)
  {
    ChanceSinceLastTrouble(s, ls, group);
    DoneMeansCreated(Run(s, ls), group);
  }

  ghost predicate Rivals(s: State, group: set<int>) {
    forall t, u :: t in s.calls && u in s.calls && t in group && u in group ==> Clash(s.calls[t].req, s.calls[u].req)
  }

  ghost predicate OneWinner(s: State, group: set<int>, t: int) {
    && t in s.calls && t in group && IsCreated(s.calls[t])
    && forall u :: u in s.calls && u in group && IsCreated(s.calls[u]) ==> u == t
  }

  /** When the calls of the group overlap one another, that is also exactly when one of them alone wins. */
  lemma ExactlyOneWinsIff(s: State, ls: seq<Label>, group: set<int>)
    requires Initial(s) && CanRun(s, ls) && Contest(s, Run(s, ls), group) && AllDone(Run(s, ls), group)
    requires Rivals(Run(s, ls), group)
    ensures CanRun(s, ls[..LastTrouble(ls, group)])
    ensures (exists t :: OneWinner(Run(s, ls), group, t)) <==> Chance(Run(s, ls[..LastTrouble(ls, group)]), group)
  {
    SomeoneWinsIff(s, ls, group);
    var now := Run(s, ls);
    if SomeCreated(now, group) {
      var t :| t in now.calls && t in group && IsCreated(now.calls[t]);
      forall u | u in now.calls && u in group && IsCreated(now.calls[u]) ensures u == t {
        AtMostOneWins(s, ls, t, u);
      }
      assert OneWinner(now, group, t);
    }
  }

  // ---------- lock errors among rivals ----------

  /** In the group only lock errors occur, each of them because of a call of the group that is not giving up itself. */
  ghost predicate OnlyLiveConflicts(s: State, ls: seq<Label>, group: set<int>)
    requires CanRun(s, ls)
  {
    ls == [] ||
    var before, l := ls[..|ls| - 1], ls[|ls| - 1];
    && OnlyLiveConflicts(s, before, group)
    && (l.Break? ==> l.call !in group)
    && (l.LockError? && l.call in group ==> l.holder in group && !GivingUp(Run(s, before).calls[l.holder]))
  }

  ghost predicate RefusedByWinner(s: State, group: set<int>) {
    (exists t :: t in s.calls && t in group && s.calls[t].stage.Refused?) ==> SomeCreated(s, group)
  }

  lemma RefusedOnlyByCount(s: State, l: Label)
    requires Enabled(s, l) && !l.SetStatus? && !l.Count?
    ensures !Apply(s, l).calls[l.call].stage.Refused?
  {
  }

  lemma RefusedMeansTaken(s: State, l: Label)
    requires Enabled(s, l) && l.Count? && Apply(s, l).calls[l.call].stage.Refused?
    ensures Taken(s.blocks, s.calls[l.call].req)
  {
    var req := s.calls[l.call].req;
    CountIsZeroWhenFree(s.blocks, req.listing, req.start, req.end);
  }

  lemma {:induction false} RefusalsHaveWinners(s: State, ls: seq<Label>, group: set<int>)
    requires Initial(s) && CanRun(s, ls) && Contest(s, Run(s, ls), group)
    ensures RefusedByWinner(Run(s, ls), group)
  {
    if ls != [] {
      var before, l := ls[..|ls| - 1], ls[|ls| - 1];
      var mid := Run(s, before);
      ContestBefore(s, mid, l, group);
      RefusalsHaveWinners(s, before, group);
      ReachableInv(s, before);
      StepFrame(mid, l);
      if t :| t in Run(s, ls).calls && t in group && Run(s, ls).calls[t].stage.Refused? {
        if !(t in mid.calls && mid.calls[t].stage.Refused?) {
          if l.Count? {
            RefusedMeansTaken(mid, l);
            TakenByTheGroup(s, before, group, t);
          } else {
            RefusedOnlyByCount(mid, l);
          }
        }
        SomeCreatedStays(mid, l, group);
      }
    }
  }

  lemma ArrivalIsAChance(s: State, l: Label)
    requires Enabled(s, l) && l.Arrive?
    ensures HasChance(Apply(s, l), l.call)
  {
  }

  lemma HolderIsAChance(s: State, l: Label)
    requires ProperCalls(s) && Enabled(s, l) && l.LockError? && !GivingUp(s.calls[l.holder])
    ensures HasChance(Apply(s, l), l.holder) || s.calls[l.holder].stage.Refused?
  {
    StepFrame(s, l);
  }

  /** Then there is always a chance: a lock error always leaves the other call of the group. */
  lemma {:induction false} ChanceLasts(s: State, ls: seq<Label>, group: set<int>)
    requires Initial(s) && CanRun(s, ls) && OnlyLiveConflicts(s, ls, group) && Contest(s, Run(s, ls), group)
    ensures (exists t :: t in Run(s, ls).calls && t in group) ==> Chance(Run(s, ls), group)
  {
    if ls != [] {
      var before, l := ls[..|ls| - 1], ls[|ls| - 1];
      var mid := Run(s, before);
      ContestBefore(s, mid, l, group);
      ChanceLasts(s, before, group);
      ReachableInv(s, before);
      StepFrame(mid, l);
      if !IsTrouble(l, group) {
        QuietStepKeepsChance(s, before, l, group);
      } else if l.Arrive? {
        ArrivalIsAChance(mid, l);
      } else {
        RefusalsHaveWinners(s, before, group);
        HolderIsAChance(mid, l);
        if mid.calls[l.holder].stage.Refused? {
          SomeCreatedStays(mid, l, group);
          WinnerIsAChance(Run(s, ls), group);
        } else {
          assert HasChance(Run(s, ls), l.holder);
        }
      }
    }
  }

  predicate NotFailed(c: Call) {
    c.fault != Some(Fatal) && c.stage != Done(Failed)
  }

  lemma StaysNotFailed(s: State, l: Label)
    requires ProperCalls(s) && Enabled(s, l) && !l.SetStatus? && !l.Break?
    requires l.Arrive? || NotFailed(s.calls[l.call])
    ensures NotFailed(Apply(s, l).calls[l.call])
  {
  }

  ghost predicate NoneFailed(s: State, group: set<int>) {
    forall t :: t in s.calls && t in group ==> NotFailed(s.calls[t])
  }

  lemma {:induction false} NobodyFails(s: State, ls: seq<Label>, group: set<int>)
    requires Initial(s) && CanRun(s, ls) && OnlyLiveConflicts(s, ls, group)
    ensures NoneFailed(Run(s, ls), group)
  {
    if ls != [] {
      var before, l := ls[..|ls| - 1], ls[|ls| - 1];
      NobodyFails(s, before, group);
      ReachableInv(s, before);
      StepFrame(Run(s, before), l);
      if !l.SetStatus? && l.call in group {
        StaysNotFailed(Run(s, before), l);
      }
    }
  }

  predicate LostOut(c: Call) {
    c.stage.Done? && (c.stage.outcome.Unavailable? || c.stage.outcome.Exhausted?)
  }

  ghost predicate OthersLoseOut(s: State, group: set<int>, t: int) {
    forall u :: u in s.calls && u in group && u != t ==> LostOut(s.calls[u])
  }

  lemma LosersLoseOut(s: State, group: set<int>, t: int)
    requires AllDone(s, group) && OneWinner(s, group, t) && NoneFailed(s, group)
    ensures OthersLoseOut(s, group, t)
  {
  }

  /**
   When rivals for what was free have all ended, whatever calls outside the group did, exactly one of them has
   created a booking; every other one ends unavailable or with its retries used up.
   */
  lemma ExactlyOneWins(s: State, ls: seq<Label>, group: set<int>)
    requires Initial(s) && CanRun(s, ls) && OnlyLiveConflicts(s, ls, group)
    requires Contest(s, Run(s, ls), group) && Rivals(Run(s, ls), group) && AllDone(Run(s, ls), group)
    requires exists t :: t in Run(s, ls).calls && t in group
    ensures exists t :: OneWinner(Run(s, ls), group, t) && OthersLoseOut(Run(s, ls), group, t)
  {
    ChanceLasts(s, ls, group);
    ChanceSinceLastTrouble(s, ls, group);
    ExactlyOneWinsIff(s, ls, group);
    var t :| OneWinner(Run(s, ls), group, t);
    NobodyFails(s, ls, group);
    LosersLoseOut(Run(s, ls), group, t);
  }

  // ---------- why live conflicts are asked for ----------

  /** Only calls 1 and 2 exist, both for `req`, on empty tables. */
  ghost predicate Pair(s: State, req: Request, c: Call, d: Call) {
    && s.calls == map[1 := c, 2 := d] && c.req == req && d.req == req
    && s.blocks == map[] && s.bookings == map[] && s.log == []
  }

  /** A statement of attempt `attempt`: begin, count zero, insert the booking, time out on the block, roll back. */
  function Moved(c: Call, l: Label, id: int): Call {
    match l
    case Begin(_) => c.(stage := Begun)
    case Count(_) => c.(stage := Counted)
    case InsertBooking(_) => c.(stage := HasBooking(id))
    case LockError(_, _, f) => c.(fault := Some(f))
    case _ => AfterRollback(c)
  }

  predicate MayMove(c: Call, other: Call, l: Label) {
    match l
    case Begin(_) => c.stage.Waiting? && c.fault.None?
    case Count(_) => c.stage.Begun? && c.fault.None?
    case InsertBooking(_) => c.stage.Counted? && c.fault.None? && c.req.price <= MAX_INT_UNSIGNED
    case LockError(t, u, f) => c.stage.HasBooking? && c.fault.None? && f.LockWaitTimeout? && u == 3 - t && other.stage.HasBooking?
    case Rollback(_) => c.stage.HasBooking? && c.fault.Some?
    case _ => false
  }

  lemma Turn(s: State, req: Request, c: Call, d: Call, l: Label)
    requires Pair(s, req, c, d) && !c.stage.HasBlock? && !d.stage.HasBlock? && !l.SetStatus?
    requires (l.call == 1 && MayMove(c, d, l)) || (l.call == 2 && MayMove(d, c, l))
    ensures Enabled(s, l)
    ensures l.call == 1 ==> Pair(Apply(s, l), req, Moved(c, l, s.nextBooking), d)
    ensures l.call == 2 ==> Pair(Apply(s, l), req, c, Moved(d, l, s.nextBooking))
  {
    if l.Count? {
      CountIsZeroWhenFree(s.blocks, req.listing, req.start, req.end);
    }
  }

  lemma Extend(s: State, ls: seq<Label>, l: Label)
    requires CanRun(s, ls) && Enabled(Run(s, ls), l)
    ensures CanRun(s, ls + [l]) && Run(s, ls + [l]) == Apply(Run(s, ls), l)
  {
    assert (ls + [l])[..|ls + [l]| - 1] == ls;
  }

  /** The calls take the next statement of the same kind, first call 1, then call 2. */
  lemma BothTurn(s: State, ls: seq<Label>, req: Request, c: Call, d: Call, l1: Label, l2: Label)
    returns (ls': seq<Label>, c': Call, d': Call)
    requires CanRun(s, ls) && Pair(Run(s, ls), req, c, d)
    requires !c.stage.HasBlock? && !d.stage.HasBlock? && !l1.SetStatus? && !l2.SetStatus?
    requires l1.call == 1 && l2.call == 2 && MayMove(c, d, l1)
    requires forall id :: MayMove(d, Moved(c, l1, id), l2) && !Moved(c, l1, id).stage.HasBlock?
    ensures CanRun(s, ls') && Pair(Run(s, ls'), req, c', d')
    ensures exists m, n :: c' == Moved(c, l1, m) && d' == Moved(d, l2, n)
  {
    var m := Run(s, ls).nextBooking;
    Turn(Run(s, ls), req, c, d, l1);
    Extend(s, ls, l1);
    var mid := ls + [l1];
    var n := Run(s, mid).nextBooking;
    c' := Moved(c, l1, m);
    d' := Moved(d, l2, n);
    Turn(Run(s, mid), req, c', d, l2);
    Extend(s, mid, l2);
    ls' := mid + [l2];
  }

  /** One attempt of both calls: each counts zero, each waits for the other's gap lock, each times out. */
  lemma BothTimeOut(s: State, ls: seq<Label>, req: Request, attempt: nat)
    returns (ls': seq<Label>)
    requires CanRun(s, ls) && attempt < MAX_TX_RETRIES && req.price <= MAX_INT_UNSIGNED
    requires Pair(Run(s, ls), req, Call(req, attempt, Waiting, None), Call(req, attempt, Waiting, None))
    ensures CanRun(s, ls')
    ensures var c := if attempt + 1 < MAX_TX_RETRIES then Call(req, attempt + 1, Waiting, None)
                     else Call(req, attempt, Done(Exhausted), None);
            Pair(Run(s, ls'), req, c, c)
  {
    var c, d := Call(req, attempt, Waiting, None), Call(req, attempt, Waiting, None);
    ls', c, d := BothTurn(s, ls, req, c, d, Begin(1), Begin(2));
    ls', c, d := BothTurn(s, ls', req, c, d, Count(1), Count(2));
    ls', c, d := BothTurn(s, ls', req, c, d, InsertBooking(1), InsertBooking(2));
    ls', c, d := BothTurn(s, ls', req, c, d, LockError(1, 2, LockWaitTimeout), LockError(2, 1, LockWaitTimeout));
    ls', c, d := BothTurn(s, ls', req, c, d, Rollback(1), Rollback(2));
  }

  /**
   If a wait may time out against a transaction that has itself timed out for the last time and is about to roll
   back, two rivals can exhaust each other and nobody gets a free range.
   */
  lemma RivalsCanExhaustEachOther(req: Request) returns (s: State, ls: seq<Label>)
    requires req.start <= req.end && req.price <= MAX_INT_UNSIGNED
    ensures Initial(s) && CanRun(s, ls) && Run(s, ls).calls.Keys == {1, 2}
    ensures Contest(s, Run(s, ls), {1, 2}) && Rivals(Run(s, ls), {1, 2}) && AllDone(Run(s, ls), {1, 2})
    ensures forall t :: t in Run(s, ls).calls ==>
              Run(s, ls).calls[t].req == req && Run(s, ls).calls[t].stage == Done(Exhausted)
  {
    s := State(map[], map[], 1, 1, map[], []);
    Extend(s, [], Arrive(1, req));
    Extend(s, [Arrive(1, req)], Arrive(2, req));
    ls := [Arrive(1, req)] + [Arrive(2, req)];
    ls := BothTimeOut(s, ls, req, 0);
    ls := BothTimeOut(s, ls, req, 1);
    ls := BothTimeOut(s, ls, req, 2);
  }
}
