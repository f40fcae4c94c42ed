/**
 The search index behind the consumer pool: each handler decodes its message, sends one request to the index, and
 returns. Requests of different workers reach the index in any order, which need not be the order the handlers return.
 */
module IndexedPool {
  import opened Wrappers
  import opened SearchIndex
  import ConsumerPool

  type Config = ConsumerPool.Config
  type Message = ConsumerPool.Message

  /** json.Unmarshal of a message's value. */
  type Decoder = Message -> Option<Event>

  /** `answered` holds the workers whose handler has its answer; `writes` is every request, as the index met them. */
  datatype State = State(pool: ConsumerPool.State, answered: map<nat, Response>, writes: seq<Write>)

  datatype Label =
    | Pool(step: ConsumerPool.Label)
    | Send(worker: nat, response: Response)

  function Start(c: Config): State {
    State(ConsumerPool.Start(c), map[], [])
  }

  predicate IsHandling(s: State, w: nat) {
    w < |s.pool.workers| && s.pool.workers[w].Handling?
  }

  /** A handler returns an error for a value that is not an event, and otherwise what its request returned. */
  predicate MayReturn(decode: Decoder, s: State, w: nat, ok: bool)
    requires IsHandling(s, w)
  {
    match decode(s.pool.workers[w].message)
    case None => !ok
    case Some(e) => w in s.answered && (ok <==> ReturnsNil(e, s.answered[w]))
  }

  predicate Enabled(c: Config, decode: Decoder, s: State, l: Label) {
    match l
    case Pool(step) =>
      ConsumerPool.Enabled(c, s.pool, step) && (step.Handled? ==> MayReturn(decode, s, step.worker, step.ok))
    case Send(w, _) =>
      IsHandling(s, w) && decode(s.pool.workers[w].message).Some? && w !in s.answered
  }

  function Apply(c: Config, decode: Decoder, s: State, l: Label): State
    requires Enabled(c, decode, s, l)
  {
    match l
    case Pool(step) =>
      State(ConsumerPool.Apply(c, s.pool, step), if step.Handled? then s.answered - {step.worker} else s.answered, s.writes)
    case Send(w, r) =>
      State(s.pool, s.answered[w := r], s.writes + [Write(decode(s.pool.workers[w].message).value, r)])
  }

  predicate CanRun(c: Config, decode: Decoder, ls: seq<Label>)
    decreases |ls|, 0
  {
    ls == [] || (CanRun(c, decode, ls[..|ls| - 1]) && Enabled(c, decode, Run(c, decode, ls[..|ls| - 1]), ls[|ls| - 1]))
  }

  function Run(c: Config, decode: Decoder, ls: seq<Label>): State
    requires CanRun(c, decode, ls)
    decreases |ls|, 1
  {
    if ls == [] then Start(c) else Apply(c, decode, Run(c, decode, ls[..|ls| - 1]), ls[|ls| - 1])
  }

  /** The events of the messages, those that are none left out. */
  function EventsIn(messages: seq<Message>, decode: Decoder): seq<Event> {
    if messages == [] then []
    else
      var before, e := EventsIn(messages[..|messages| - 1], decode), decode(messages[|messages| - 1]);
      if e.Some? then before + [e.value] else before
  }

  /** The index that the fetched messages describe, in log order. */
  function IndexOfLog(s: State, decode: Decoder): Docs {
    ApplyAll(map[], EventsIn(s.pool.fetched, decode))
  }

  // ---------- the pool's guarantees carry over ----------

  function PoolSteps(ls: seq<Label>): seq<ConsumerPool.Label> {
    if ls == [] then []
    else if ls[|ls| - 1].Pool? then PoolSteps(ls[..|ls| - 1]) + [ls[|ls| - 1].step]
    else PoolSteps(ls[..|ls| - 1])
  }

  lemma {:induction false} PoolRuns(c: Config, decode: Decoder, ls: seq<Label>)
    requires CanRun(c, decode, ls)
    ensures ConsumerPool.CanRun(c, ConsumerPool.Start(c), PoolSteps(ls))
    ensures ConsumerPool.Run(c, ConsumerPool.Start(c), PoolSteps(ls)) == Run(c, decode, ls).pool
  {
    if ls != [] {
      var before, l := ls[..|ls| - 1], ls[|ls| - 1];
      PoolRuns(c, decode, before);
      if l.Pool? {
        ConsumerPool.Extend(c, ConsumerPool.Start(c), PoolSteps(before), l.step);
      }
    }
  }

  // ---------- what the writes alone decide ----------

  /** Listing by listing: the last write that took effect against the last event of the log. */
  lemma IndexIsTheLogIff(c: Config, decode: Decoder, ls: seq<Label>)
    requires CanRun(c, decode, ls)
    ensures var s := Run(c, decode, ls);
            Build(s.writes) == IndexOfLog(s, decode) <==>
            forall listing ::
              EntryAfter(None, EventsOf(Effects(s.writes), listing))
              == EntryAfter(None, EventsOf(EventsIn(s.pool.fetched, decode), listing))
  {
    var s := Run(c, decode, ls);
    BuiltIsTheLogIff(s.writes, EventsIn(s.pool.fetched, decode));
  }

  lemma OrderedWritesBuildTheLog(c: Config, decode: Decoder, ls: seq<Label>)
    requires CanRun(c, decode, ls)
    requires SameOrderPerListing(Effects(Run(c, decode, ls).writes), EventsIn(Run(c, decode, ls).pool.fetched, decode))
    ensures Build(Run(c, decode, ls).writes) == IndexOfLog(Run(c, decode, ls), decode)
  {
    var s := Run(c, decode, ls);
    BuildIsEffects(s.writes);
    ReorderingAcrossListings(map[], Effects(s.writes), EventsIn(s.pool.fetched, decode));
  }

  // ---------- overlapping handlers ----------

  function Lift(ls: seq<ConsumerPool.Label>): seq<Label> {
    if ls == [] then [] else Lift(ls[..|ls| - 1]) + [Pool(ls[|ls| - 1])]
  }

  lemma Extend(c: Config, decode: Decoder, ls: seq<Label>, l: Label)
    requires CanRun(c, decode, ls) && Enabled(c, decode, Run(c, decode, ls), l)
    ensures CanRun(c, decode, ls + [l]) && Run(c, decode, ls + [l]) == Apply(c, decode, Run(c, decode, ls), l)
  {
    assert (ls + [l])[..|ls + [l]| - 1] == ls;
  }

  /** A run of the pool in which no handler has returned is a run of both, without a request yet. */
  lemma {:induction false} LiftRuns(c: Config, decode: Decoder, ls: seq<ConsumerPool.Label>)
    requires ConsumerPool.CanRun(c, ConsumerPool.Start(c), ls)
    requires ConsumerPool.Run(c, ConsumerPool.Start(c), ls).finished == []
    ensures CanRun(c, decode, Lift(ls))
    ensures Run(c, decode, Lift(ls)) == State(ConsumerPool.Run(c, ConsumerPool.Start(c), ls), map[], [])
  {
    if ls != [] {
      LiftRuns(c, decode, ls[..|ls| - 1]);
      Extend(c, decode, Lift(ls[..|ls| - 1]), Pool(ls[|ls| - 1]));
    }
  }

  lemma LaterWriteShows(first: Event, second: Event)
    requires !IsDelete(second)
    ensures Lookup(Build([Write(first, Success)] + [Write(second, Success)]), second.listing) == Some(DocumentOf(second))
  {
    var writes := [Write(first, Success)] + [Write(second, Success)];
    assert Build(writes) == ApplyEvent(Build(writes[..1]), second);
  }

  /** Both messages are in their handlers, and the index has met the second one's request first. */
  lemma WrittenInReverse(c: Config, decode: Decoder, a: Message, b: Message) returns (ls: seq<Label>)
    requires c.workers >= 2 && c.depth >= 1 && decode(a).Some? && decode(b).Some?
    ensures CanRun(c, decode, ls)
    ensures var s := Run(c, decode, ls);
            && s.pool.fetched == [a, b] && s.pool.finished == [] && s.answered == map[1 := Success, 0 := Success]
            && |s.pool.workers| >= 2
            && s.pool.workers[0] == ConsumerPool.Handling(a) && s.pool.workers[1] == ConsumerPool.Handling(b)
            && s.writes == [Write(decode(b).value, Success)] + [Write(decode(a).value, Success)]
  {
    var pool := ConsumerPool.BothTaken(c, a, b);
    LiftRuns(c, decode, pool);
    ls := Lift(pool);
    Extend(c, decode, ls, Send(1, Success));
    ls := ls + [Send(1, Success)];
    Extend(c, decode, ls, Send(0, Success));
    ls := ls + [Send(0, Success)];
  }

  /**
   With two workers or more, two handlers of one listing that overlap may return nil in log order and still have
   written in the opposite order: the older event then decides the document.
   */
  lemma OverlappingWritesReverse(c: Config, decode: Decoder, a: Message, b: Message) returns (ls: seq<Label>)
    requires c.workers >= 2 && c.depth >= 1
    requires decode(a).Some? && decode(b).Some? && !IsDelete(decode(a).value)
    ensures CanRun(c, decode, ls)
    ensures var s := Run(c, decode, ls);
            && s.pool.fetched == [a, b]
            && s.pool.finished == [ConsumerPool.Finish(a, true), ConsumerPool.Finish(b, true)]
            && s.writes == [Write(decode(b).value, Success)] + [Write(decode(a).value, Success)]
            && Lookup(Build(s.writes), decode(a).value.listing) == Some(DocumentOf(decode(a).value))
  {
    ls := WrittenInReverse(c, decode, a, b);
    LaterWriteShows(decode(b).value, decode(a).value);
    var first, second := Pool(ConsumerPool.Handled(0, true)), Pool(ConsumerPool.Handled(1, true));
    Extend(c, decode, ls, first);
    Extend(c, decode, ls + [first], second);
    ls := ls + [first] + [second];
  }

  // ---------- handlers that do not overlap ----------

  /** The handler of worker w has still to send its request, for this listing. */
  predicate Unsent(decode: Decoder, s: State, w: nat, listing: int) {
    && IsHandling(s, w) && w !in s.answered
    && decode(s.pool.workers[w].message).Some? && decode(s.pool.workers[w].message).value.listing == listing
  }

  ghost predicate TakesAlone(decode: Decoder, s: State, l: Label) {
    l.Pool? && l.step.Take? && s.pool.jobs != [] && decode(s.pool.jobs[0]).Some? ==>
      forall w: nat :: !Unsent(decode, s, w, decode(s.pool.jobs[0]).value.listing)
  }

  /** Whenever a message is taken, no handler has a request for the same listing still to send. */
  ghost predicate NoOverlap(c: Config, decode: Decoder, ls: seq<Label>)
    requires CanRun(c, decode, ls)
  {
    ls == [] ||
    (NoOverlap(c, decode, ls[..|ls| - 1]) && TakesAlone(decode, Run(c, decode, ls[..|ls| - 1]), ls[|ls| - 1]))
  }

  ghost predicate AnsweredHandling(s: State) {
    forall w :: w in s.answered ==> IsHandling(s, w)
  }

  predicate Takes(decode: Decoder, s: State, l: Label, w: nat, listing: int) {
    && l.Pool? && l.step == ConsumerPool.Take(w) && s.pool.jobs != []
    && decode(s.pool.jobs[0]).Some? && decode(s.pool.jobs[0]).value.listing == listing
  }

  /** What a step does to one worker's handler. */
  lemma StepHandler(c: Config, decode: Decoder, s: State, l: Label, w: nat)
    requires AnsweredHandling(s) && Enabled(c, decode, s, l)
    ensures l.Pool? && l.step == ConsumerPool.Take(w) ==>
      && !IsHandling(s, w) && w !in s.answered && s.pool.jobs != [] && IsHandling(Apply(c, decode, s, l), w)
      && Apply(c, decode, s, l).pool.workers[w].message == s.pool.jobs[0]
    ensures l.Pool? && l.step.Handled? && l.step.worker == w ==>
      && IsHandling(s, w) && !IsHandling(Apply(c, decode, s, l), w)
      && (decode(s.pool.workers[w].message).Some? ==> w in s.answered)
    ensures !(l.Pool? && (l.step == ConsumerPool.Take(w) || (l.step.Handled? && l.step.worker == w))) ==>
      && (IsHandling(s, w) <==> IsHandling(Apply(c, decode, s, l), w))
      && (IsHandling(s, w) ==> Apply(c, decode, s, l).pool.workers[w] == s.pool.workers[w])
    ensures w in Apply(c, decode, s, l).answered <==>
      (w in s.answered && !(l.Pool? && l.step.Handled? && l.step.worker == w)) || (l.Send? && l.worker == w)
  {
  }

  lemma StepUnsent(c: Config, decode: Decoder, s: State, l: Label, w: nat, listing: int)
    requires AnsweredHandling(s) && Enabled(c, decode, s, l)
    ensures Unsent(decode, Apply(c, decode, s, l), w, listing) <==>
            (Unsent(decode, s, w, listing) && !(l.Send? && l.worker == w)) || Takes(decode, s, l, w, listing)
    ensures Unsent(decode, s, w, listing) && Unsent(decode, Apply(c, decode, s, l), w, listing) ==>
            Apply(c, decode, s, l).pool.workers[w] == s.pool.workers[w]
    ensures Takes(decode, s, l, w, listing) ==> Apply(c, decode, s, l).pool.workers[w].message == s.pool.jobs[0]
  {
    StepHandler(c, decode, s, l, w);
  }

  lemma StepAnswered(c: Config, decode: Decoder, s: State, l: Label)
    requires AnsweredHandling(s) && Enabled(c, decode, s, l)
    ensures AnsweredHandling(Apply(c, decode, s, l))
  {
    forall w | w in Apply(c, decode, s, l).answered ensures IsHandling(Apply(c, decode, s, l), w) {
      StepHandler(c, decode, s, l, w);
    }
  }

  lemma StepRecords(c: Config, decode: Decoder, s: State, l: Label)
    requires Enabled(c, decode, s, l)
    ensures Apply(c, decode, s, l).pool.taken
         == s.pool.taken + if l.Pool? && l.step.Take? then [s.pool.jobs[0]] else []
    ensures Apply(c, decode, s, l).writes
         == s.writes + if l.Send? then [Write(decode(s.pool.workers[l.worker].message).value, l.response)] else []
  {
  }

  function TakenOf(decode: Decoder, s: State, listing: int): seq<Event> {
    EventsOf(EventsIn(s.pool.taken, decode), listing)
  }

  function WrittenOf(s: State, listing: int): seq<Event> {
    EventsOf(EventsWritten(s.writes), listing)
  }

  /** All the listing's events taken have been written, in order; or one is unsent, and it is the last. */
  ghost predicate Account(decode: Decoder, s: State, listing: int) {
    || (TakenOf(decode, s, listing) == WrittenOf(s, listing) && forall w: nat :: !Unsent(decode, s, w, listing))
    || (exists w: nat :: LastUnsent(decode, s, w, listing))
  }

  ghost predicate LastUnsent(decode: Decoder, s: State, w: nat, listing: int) {
    && Unsent(decode, s, w, listing) && (forall v: nat :: Unsent(decode, s, v, listing) ==> v == w)
    && TakenOf(decode, s, listing) == WrittenOf(s, listing) + [decode(s.pool.workers[w].message).value]
  }

  lemma EventsOfOneMore(log: seq<Event>, e: Event, listing: int)
    ensures EventsOf(log + [e], listing) == if e.listing == listing then EventsOf(log, listing) + [e] else EventsOf(log, listing)
  {
    assert (log + [e])[..|log + [e]| - 1] == log;
  }

  lemma EventsInOneMore(messages: seq<Message>, m: Message, decode: Decoder)
    ensures EventsIn(messages + [m], decode)
         == if decode(m).Some? then EventsIn(messages, decode) + [decode(m).value] else EventsIn(messages, decode)
  {
    assert (messages + [m])[..|messages + [m]| - 1] == messages;
  }

  lemma WrittenOneMore(writes: seq<Write>, w: Write)
    ensures EventsWritten(writes + [w]) == EventsWritten(writes) + [w.event]
  {
    assert (writes + [w])[..|writes + [w]| - 1] == writes;
  }

  /** How the two sides of the account grow. */
  lemma StepSides(c: Config, decode: Decoder, s: State, l: Label, listing: int)
    requires Enabled(c, decode, s, l)
    ensures TakenOf(decode, Apply(c, decode, s, l), listing)
         == TakenOf(decode, s, listing)
            + if l.Pool? && l.step.Take? && Takes(decode, s, l, l.step.worker, listing)
              then [decode(s.pool.jobs[0]).value] else []
    ensures WrittenOf(Apply(c, decode, s, l), listing)
         == WrittenOf(s, listing)
            + if l.Send? && Unsent(decode, s, l.worker, listing)
              then [decode(s.pool.workers[l.worker].message).value] else []
  {
    StepRecords(c, decode, s, l);
    if l.Send? {
      var w := Write(decode(s.pool.workers[l.worker].message).value, l.response);
      WrittenOneMore(s.writes, w);
      EventsOfOneMore(EventsWritten(s.writes), w.event, listing);
      assert s.pool.taken + [] == s.pool.taken;
    } else {
      assert s.writes + [] == s.writes;
      if l.step.Take? {
        var m := s.pool.jobs[0];
        EventsInOneMore(s.pool.taken, m, decode);
        if decode(m).Some? {
          EventsOfOneMore(EventsIn(s.pool.taken, decode), decode(m).value, listing);
        }
      } else {
        assert s.pool.taken + [] == s.pool.taken;
      }
    }
  }

  lemma TakeKeepsAccount(c: Config, decode: Decoder, s: State, l: Label, w: nat, listing: int)
    requires AnsweredHandling(s) && Enabled(c, decode, s, l) && Account(decode, s, listing)
    requires TakesAlone(decode, s, l) && Takes(decode, s, l, w, listing)
    ensures Account(decode, Apply(c, decode, s, l), listing)
  {
    StepSides(c, decode, s, l, listing);
    forall v: nat ensures Unsent(decode, Apply(c, decode, s, l), v, listing) <==> v == w {
      StepUnsent(c, decode, s, l, v, listing);
    }
    StepUnsent(c, decode, s, l, w, listing);
    assert LastUnsent(decode, Apply(c, decode, s, l), w, listing);
  }

  lemma SendKeepsAccount(c: Config, decode: Decoder, s: State, l: Label, listing: int)
    requires AnsweredHandling(s) && Enabled(c, decode, s, l) && Account(decode, s, listing)
    requires l.Send? && Unsent(decode, s, l.worker, listing)
    ensures Account(decode, Apply(c, decode, s, l), listing)
  {
    StepSides(c, decode, s, l, listing);
    var w: nat :| LastUnsent(decode, s, w, listing);
    forall v: nat ensures !Unsent(decode, Apply(c, decode, s, l), v, listing) {
      StepUnsent(c, decode, s, l, v, listing);
    }
  }

  lemma OtherKeepsAccount(c: Config, decode: Decoder, s: State, l: Label, listing: int)
    requires AnsweredHandling(s) && Enabled(c, decode, s, l) && Account(decode, s, listing)
    requires forall w: nat :: !Takes(decode, s, l, w, listing)
    requires !(l.Send? && Unsent(decode, s, l.worker, listing))
    ensures Account(decode, Apply(c, decode, s, l), listing)
  {
    var s' := Apply(c, decode, s, l);
    StepSides(c, decode, s, l, listing);
    forall v: nat
      ensures Unsent(decode, s', v, listing) <==> Unsent(decode, s, v, listing)
      ensures Unsent(decode, s, v, listing) ==> s'.pool.workers[v] == s.pool.workers[v]
    {
      StepUnsent(c, decode, s, l, v, listing);
    }
    if w: nat :| LastUnsent(decode, s, w, listing) {
      assert LastUnsent(decode, s', w, listing);
    }
  }

  lemma {:induction false} NoOverlapKeepsAccount(c: Config, decode: Decoder, ls: seq<Label>, listing: int)
    requires CanRun(c, decode, ls) && NoOverlap(c, decode, ls)
    ensures AnsweredHandling(Run(c, decode, ls)) && Account(decode, Run(c, decode, ls), listing)
  {
    if ls != [] {
      var s, l := Run(c, decode, ls[..|ls| - 1]), ls[|ls| - 1];
      NoOverlapKeepsAccount(c, decode, ls[..|ls| - 1], listing);
      StepAnswered(c, decode, s, l);
      if w: nat :| Takes(decode, s, l, w, listing) {
        TakeKeepsAccount(c, decode, s, l, w, listing);
      } else if l.Send? && Unsent(decode, s, l.worker, listing) {
        SendKeepsAccount(c, decode, s, l, listing);
      } else {
        OtherKeepsAccount(c, decode, s, l, listing);
      }
    }
  }

  lemma NothingUnsent(decode: Decoder, s: State, listing: int)
    requires Account(decode, s, listing) && s.pool.fetched == s.pool.taken && forall w: nat :: !IsHandling(s, w)
    ensures WrittenOf(s, listing) == EventsOf(EventsIn(s.pool.fetched, decode), listing)
  {
    assert forall w: nat :: !Unsent(decode, s, w, listing);
  }

  lemma WrittenInLogOrder(c: Config, decode: Decoder, ls: seq<Label>)
    requires CanRun(c, decode, ls) && NoOverlap(c, decode, ls)
    requires Run(c, decode, ls).pool.fetched == Run(c, decode, ls).pool.taken
    requires forall w: nat :: !IsHandling(Run(c, decode, ls), w)
    ensures ApplyAll(map[], EventsWritten(Run(c, decode, ls).writes)) == IndexOfLog(Run(c, decode, ls), decode)
  {
    var s := Run(c, decode, ls);
    forall listing
      ensures EventsOf(EventsWritten(s.writes), listing) == EventsOf(EventsIn(s.pool.fetched, decode), listing)
    {
      NoOverlapKeepsAccount(c, decode, ls, listing);
      NothingUnsent(decode, s, listing);
    }
    ReorderingAcrossListings(map[], EventsWritten(s.writes), EventsIn(s.pool.fetched, decode));
  }

  lemma ReturnedIsDrained(c: Config, decode: Decoder, ls: seq<Label>)
    requires c.workers >= 1 && CanRun(c, decode, ls)
    requires Run(c, decode, ls).pool.main.Returned? && Run(c, decode, ls).pool.dropped == []
    ensures Run(c, decode, ls).pool.fetched == Run(c, decode, ls).pool.taken
    ensures forall w: nat :: !IsHandling(Run(c, decode, ls), w)
  {
    PoolRuns(c, decode, ls);
    ConsumerPool.ReturnMeansDrained(c, PoolSteps(ls));
  }

  /**
   Any number of workers, whatever failed, as long as handlers of one listing do not overlap before their requests:
   once Run has returned without a message dropped, the index is the log's exactly when no listing's last write was
   lost.
   */
  lemma NoOverlapBuildsTheLogIff(c: Config, decode: Decoder, ls: seq<Label>)
    requires c.workers >= 1 && CanRun(c, decode, ls) && NoOverlap(c, decode, ls)
    requires Run(c, decode, ls).pool.main.Returned? && Run(c, decode, ls).pool.dropped == []
    ensures Build(Run(c, decode, ls).writes) == IndexOfLog(Run(c, decode, ls), decode)
       <==> forall listing :: !LastWriteLost(Run(c, decode, ls).writes, listing)
  {
    ReturnedIsDrained(c, decode, ls);
    WrittenInLogOrder(c, decode, ls);
    WrittenInOrderIff(Run(c, decode, ls).writes);
  }

  // ---------- handlers that all return nil ----------

  ghost predicate AllSucceeded(s: State) {
    forall i :: 0 <= i < |s.pool.finished| ==> s.pool.finished[i].ok
  }

  /** The handler that made the write has still to return. */
  ghost predicate Pending(decode: Decoder, s: State, w: Write) {
    exists v :: v in s.answered && IsHandling(s, v) && s.answered[v] == w.response
                && decode(s.pool.workers[v].message) == Some(w.event)
  }

  ghost predicate NilOrPending(decode: Decoder, s: State, w: Write) {
    AllSucceeded(s) ==> ReturnsNil(w.event, w.response) || Pending(decode, s, w)
  }

  lemma StepFinished(c: Config, decode: Decoder, s: State, l: Label)
    requires Enabled(c, decode, s, l)
    ensures l.Pool? && l.step.Handled? ==>
      && IsHandling(s, l.step.worker) && MayReturn(decode, s, l.step.worker, l.step.ok)
      && Apply(c, decode, s, l).pool.finished
         == s.pool.finished + [ConsumerPool.Finish(s.pool.workers[l.step.worker].message, l.step.ok)]
    ensures !(l.Pool? && l.step.Handled?) ==> Apply(c, decode, s, l).pool.finished == s.pool.finished
  {
  }

  lemma SucceededBefore(c: Config, decode: Decoder, s: State, l: Label)
    requires Enabled(c, decode, s, l) && AllSucceeded(Apply(c, decode, s, l))
    ensures AllSucceeded(s) && (l.Pool? && l.step.Handled? ==> l.step.ok)
  {
    StepFinished(c, decode, s, l);
    var fs, fs' := s.pool.finished, Apply(c, decode, s, l).pool.finished;
    forall i | 0 <= i < |fs| ensures fs[i].ok {
      assert fs'[i] == fs[i];
    }
    if l.Pool? && l.step.Handled? {
      assert fs'[|fs|].ok;
    }
  }

  lemma AnswerStays(c: Config, decode: Decoder, s: State, l: Label, w: nat)
    requires AnsweredHandling(s) && Enabled(c, decode, s, l) && w in s.answered
    requires !(l.Pool? && l.step.Handled? && l.step.worker == w)
    ensures w in Apply(c, decode, s, l).answered && Apply(c, decode, s, l).answered[w] == s.answered[w]
  {
  }

  lemma StepKeepsNil(c: Config, decode: Decoder, s: State, l: Label, w: Write)
    requires AnsweredHandling(s) && Enabled(c, decode, s, l) && NilOrPending(decode, s, w)
    ensures NilOrPending(decode, Apply(c, decode, s, l), w)
  {
    var s' := Apply(c, decode, s, l);
    if AllSucceeded(s') {
      SucceededBefore(c, decode, s, l);
      if !ReturnsNil(w.event, w.response) {
        var v :| v in s.answered && IsHandling(s, v) && s.answered[v] == w.response
                 && decode(s.pool.workers[v].message) == Some(w.event);
        StepFinished(c, decode, s, l);
        StepHandler(c, decode, s, l, v);
        AnswerStays(c, decode, s, l, v);
        assert v in s'.answered && IsHandling(s', v);
      }
    }
  }

  lemma {:induction false} WritesNilOrPending(c: Config, decode: Decoder, ls: seq<Label>, i: nat)
    requires CanRun(c, decode, ls) && i < |Run(c, decode, ls).writes|
    ensures AnsweredHandling(Run(c, decode, ls))
    ensures NilOrPending(decode, Run(c, decode, ls), Run(c, decode, ls).writes[i])
  {
    var before, l := ls[..|ls| - 1], ls[|ls| - 1];
    var s, s' := Run(c, decode, before), Run(c, decode, ls);
    AnswersAreHandling(c, decode, before);
    StepAnswered(c, decode, s, l);
    StepRecords(c, decode, s, l);
    if i < |s.writes| {
      WritesNilOrPending(c, decode, before, i);
      StepKeepsNil(c, decode, s, l, s.writes[i]);
    } else {
      StepHandler(c, decode, s, l, l.worker);
      assert l.worker in s'.answered && IsHandling(s', l.worker);
    }
  }

  lemma {:induction false} AnswersAreHandling(c: Config, decode: Decoder, ls: seq<Label>)
    requires CanRun(c, decode, ls)
    ensures AnsweredHandling(Run(c, decode, ls))
  {
    if ls != [] {
      AnswersAreHandling(c, decode, ls[..|ls| - 1]);
      StepAnswered(c, decode, Run(c, decode, ls[..|ls| - 1]), ls[|ls| - 1]);
    }
  }

  lemma NilWrites(c: Config, decode: Decoder, ls: seq<Label>)
    requires CanRun(c, decode, ls) && AllSucceeded(Run(c, decode, ls))
    requires forall w: nat :: !IsHandling(Run(c, decode, ls), w)
    ensures AllReturnedNil(Run(c, decode, ls).writes)
  {
    var s := Run(c, decode, ls);
    forall i | 0 <= i < |s.writes| ensures ReturnsNil(s.writes[i].event, s.writes[i].response) {
      WritesNilOrPending(c, decode, ls, i);
    }
  }

  /**
   Even if every handler returned nil, one thing can be wrong with the index: documents that the log deletes are still
   there, each because a deletion was answered with an error status.
   */
  lemma NoOverlapKeepsOnlyDeleted(c: Config, decode: Decoder, ls: seq<Label>, listing: int)
    requires c.workers >= 1 && CanRun(c, decode, ls) && NoOverlap(c, decode, ls) && AllSucceeded(Run(c, decode, ls))
    requires Run(c, decode, ls).pool.main.Returned? && Run(c, decode, ls).pool.dropped == []
    ensures var s := Run(c, decode, ls);
            || Lookup(Build(s.writes), listing) == Lookup(IndexOfLog(s, decode), listing)
            || (listing in Build(s.writes) && listing !in IndexOfLog(s, decode))
  {
    var s := Run(c, decode, ls);
    ReturnedIsDrained(c, decode, ls);
    WrittenInLogOrder(c, decode, ls);
    NilWrites(c, decode, ls);
    EntryRightIff(s.writes, listing);
    if LastWriteLost(s.writes, listing) {
      OnlyDeletionsAreLost(s.writes, listing);
    }
  }

  // ---------- one worker ----------

  lemma OneWorkerTakesAlone(c: Config, decode: Decoder, s: State, l: Label)
    requires |s.pool.workers| == 1 && Enabled(c, decode, s, l)
    ensures TakesAlone(decode, s, l) && |Apply(c, decode, s, l).pool.workers| == 1
  {
  }

  lemma {:induction false} OneWorkerNeverOverlaps(c: Config, decode: Decoder, ls: seq<Label>)
    requires c.workers == 1 && CanRun(c, decode, ls)
    ensures NoOverlap(c, decode, ls) && |Run(c, decode, ls).pool.workers| == 1
  {
    if ls != [] {
      OneWorkerNeverOverlaps(c, decode, ls[..|ls| - 1]);
      OneWorkerTakesAlone(c, decode, Run(c, decode, ls[..|ls| - 1]), ls[|ls| - 1]);
    }
  }

  /** With one worker no condition on the handlers is left. */
  lemma OneWorkerBuildsTheLogIff(c: Config, decode: Decoder, ls: seq<Label>)
    requires c.workers == 1 && CanRun(c, decode, ls)
    requires Run(c, decode, ls).pool.main.Returned? && Run(c, decode, ls).pool.dropped == []
    ensures Build(Run(c, decode, ls).writes) == IndexOfLog(Run(c, decode, ls), decode)
       <==> forall listing :: !LastWriteLost(Run(c, decode, ls).writes, listing)
  {
    OneWorkerNeverOverlaps(c, decode, ls);
    NoOverlapBuildsTheLogIff(c, decode, ls);
  }

  lemma OneWorkerKeepsOnlyDeleted(c: Config, decode: Decoder, ls: seq<Label>, listing: int)
    requires c.workers == 1 && CanRun(c, decode, ls) && AllSucceeded(Run(c, decode, ls))
    requires Run(c, decode, ls).pool.main.Returned? && Run(c, decode, ls).pool.dropped == []
    ensures var s := Run(c, decode, ls);
            || Lookup(Build(s.writes), listing) == Lookup(IndexOfLog(s, decode), listing)
            || (listing in Build(s.writes) && listing !in IndexOfLog(s, decode))
  {
    OneWorkerNeverOverlaps(c, decode, ls);
    NoOverlapKeepsOnlyDeleted(c, decode, ls, listing);
  }

  // ---------- how many workers are safe without failures ----------

  ghost predicate AllWorked(writes: seq<Write>) {
    forall i :: 0 <= i < |writes| ==> writes[i].response.Success?
  }

  lemma {:induction false} NothingLost(writes: seq<Write>, listing: int)
    requires AllWorked(writes)
    ensures !LastWriteLost(writes, listing)
  {
    if writes != [] {
      NothingLost(writes[..|writes| - 1], listing);
    }
  }

  /** Once every fetched message has been handled and every request has worked, the index is the log's. */
  ghost predicate LogWhenHandled(c: Config, decode: Decoder, ls: seq<Label>)
    requires CanRun(c, decode, ls)
  {
    var s := Run(c, decode, ls);
    |s.pool.finished| == |s.pool.fetched| && AllWorked(s.writes) ==> Build(s.writes) == IndexOfLog(s, decode)
  }

  lemma HandledIsDrained(c: Config, decode: Decoder, ls: seq<Label>)
    requires CanRun(c, decode, ls) && |Run(c, decode, ls).pool.finished| == |Run(c, decode, ls).pool.fetched|
    ensures Run(c, decode, ls).pool.fetched == Run(c, decode, ls).pool.taken
    ensures forall w: nat :: !IsHandling(Run(c, decode, ls), w)
  {
    var s := Run(c, decode, ls);
    PoolRuns(c, decode, ls);
    ConsumerPool.EveryStateConserves(c, PoolSteps(ls));
    ConsumerPool.MessagesAt(s.pool.finished);
    assert |multiset(s.pool.taken)| == |multiset(ConsumerPool.MessagesOf(s.pool.finished))|
                                       + |ConsumerPool.Processing(s.pool.workers)|;
    forall w: nat ensures !IsHandling(s, w) {
      if IsHandling(s, w) {
        HandledMessageIn(s.pool.workers, w);
      }
    }
  }

  lemma OneWorkerIsSafe(c: Config, decode: Decoder, ls: seq<Label>)
    requires c.workers == 1 && CanRun(c, decode, ls)
    ensures LogWhenHandled(c, decode, ls)
  {
    var s := Run(c, decode, ls);
    if |s.pool.finished| == |s.pool.fetched| && AllWorked(s.writes) {
      OneWorkerNeverOverlaps(c, decode, ls);
      HandledIsDrained(c, decode, ls);
      WrittenInLogOrder(c, decode, ls);
      forall listing ensures !LastWriteLost(s.writes, listing) {
        NothingLost(s.writes, listing);
      }
      WrittenInOrderIff(s.writes);
    }
  }

  lemma MoreWorkersAreNot(c: Config) returns (decode: Decoder, ls: seq<Label>)
    requires c.workers >= 2 && c.depth >= 1
    ensures CanRun(c, decode, ls) && !LogWhenHandled(c, decode, ls)
  {
    var a, b := ConsumerPool.Message(1, 1, "old"), ConsumerPool.Message(2, 1, "new");
    decode := (m: Message) => Some(Event("ListingUpdated", m.listing, m.body, "", 0, "", ""));
    ls := OverlappingWritesReverse(c, decode, a, b);
    var s := Run(c, decode, ls);
    var e, f := decode(a).value, decode(b).value;
    assert EventsIn([a], decode) == [e] && [a, b][..1] == [a];
    assert EventsIn([a, b], decode) == [e, f] && [e, f][..1] == [e];
    assert Lookup(IndexOfLog(s, decode), 1) == Some(DocumentOf(f));
    assert Lookup(Build(s.writes), 1) == Some(DocumentOf(e));
  }

  /** Without failures the pool always ends with the log's index exactly when it has a single worker. */
  lemma AlwaysTheLogIffOneWorker(c: Config)
    requires c.workers >= 1 && c.depth >= 1
    ensures (forall decode: Decoder, ls: seq<Label> :: CanRun(c, decode, ls) ==> LogWhenHandled(c, decode, ls))
       <==> c.workers == 1
  {
    if c.workers == 1 {
      forall decode: Decoder, ls: seq<Label> | CanRun(c, decode, ls) ensures LogWhenHandled(c, decode, ls) {
        OneWorkerIsSafe(c, decode, ls);
      }
    } else {
      var decode, ls := MoreWorkersAreNot(c);
    }
  }

  // ---------- replay ----------

  ghost predicate FromFetched(decode: Decoder, s: State, e: Event) {
    exists m :: m in s.pool.fetched && decode(m) == Some(e)
  }

  ghost predicate WritesFromFetched(decode: Decoder, s: State) {
    forall i :: 0 <= i < |s.writes| ==> FromFetched(decode, s, s.writes[i].event)
  }

  lemma {:induction false} HandledMessageIn(ws: seq<ConsumerPool.Worker>, w: nat)
    requires w < |ws| && ws[w].Handling?
    ensures ws[w].message in ConsumerPool.Processing(ws)
  {
    if w > 0 {
      HandledMessageIn(ws[1..], w - 1);
    }
  }

  lemma HandlingWasFetched(c: Config, decode: Decoder, ls: seq<Label>, w: nat)
    requires CanRun(c, decode, ls) && IsHandling(Run(c, decode, ls), w)
    ensures Run(c, decode, ls).pool.workers[w].message in Run(c, decode, ls).pool.fetched
  {
    var pool := Run(c, decode, ls).pool;
    PoolRuns(c, decode, ls);
    ConsumerPool.MessagesAreConserved(c, PoolSteps(ls));
    HandledMessageIn(pool.workers, w);
    assert pool.workers[w].message in multiset(pool.fetched);
  }

  lemma FetchedGrows(c: Config, decode: Decoder, s: State, l: Label, e: Event)
    requires Enabled(c, decode, s, l) && FromFetched(decode, s, e)
    ensures FromFetched(decode, Apply(c, decode, s, l), e)
  {
    var m :| m in s.pool.fetched && decode(m) == Some(e);
    assert m in Apply(c, decode, s, l).pool.fetched;
  }

  lemma {:induction false} WritesComeFromTheLog(c: Config, decode: Decoder, ls: seq<Label>)
    requires CanRun(c, decode, ls)
    ensures WritesFromFetched(decode, Run(c, decode, ls))
  {
    if ls != [] {
      var before, l := ls[..|ls| - 1], ls[|ls| - 1];
      var s, s' := Run(c, decode, before), Run(c, decode, ls);
      WritesComeFromTheLog(c, decode, before);
      forall i | 0 <= i < |s'.writes| ensures FromFetched(decode, s', s'.writes[i].event) {
        if i < |s.writes| {
          assert s'.writes[i] == s.writes[i];
          FetchedGrows(c, decode, s, l, s.writes[i].event);
        } else {
          HandlingWasFetched(c, decode, before, l.worker);
          assert s.pool.workers[l.worker].message in s'.pool.fetched;
        }
      }
    }
  }

  lemma {:induction false} EffectsIn(writes: seq<Write>, e: Event)
    requires e in Effects(writes)
    ensures exists i :: 0 <= i < |writes| && writes[i].event == e
  {
    var before, w := writes[..|writes| - 1], writes[|writes| - 1];
    if e in Effects(before) {
      EffectsIn(before, e);
      var i :| 0 <= i < |before| && before[i].event == e;
      assert writes[i].event == e;
    } else {
      assert w.event == e;
    }
  }

  /** Every event among the fetched messages is in the log. */
  ghost predicate LogCovers(log: seq<Event>, fetched: seq<Message>, decode: Decoder) {
    forall m :: m in fetched && decode(m).Some? ==> decode(m).value in log
  }

  /** The pool indexes only listings that the log speaks of. */
  lemma BuiltFromLog(c: Config, decode: Decoder, ls: seq<Label>, log: seq<Event>, listing: int)
    requires CanRun(c, decode, ls) && LogCovers(log, Run(c, decode, ls).pool.fetched, decode)
    requires listing in Build(Run(c, decode, ls).writes)
    ensures EventsOf(log, listing) != []
  {
    var s := Run(c, decode, ls);
    var events := Effects(s.writes);
    BuildIsEffects(s.writes);
    LastEventDecides(map[], events, listing);
    EventsOfFrom(events, listing);
    var e := EventsOf(events, listing)[0];
    assert e in EventsOf(events, listing);
    EffectsIn(s.writes, e);
    WritesComeFromTheLog(c, decode, ls);
    var i :| 0 <= i < |s.writes| && s.writes[i].event == e;
    assert FromFetched(decode, s, s.writes[i].event);
    EventsOfHas(log, e);
  }

  /**
   Whatever the pool did, with failures, swallowed deletions, reordered writes and messages dropped at shutdown: when
   a log that covers the fetched messages is replayed in order and every write takes effect, the index is the log's;
   and so it stays under a further replay from any offset.
   */
  lemma FullReplayRepairs(c: Config, decode: Decoder, ls: seq<Label>, log: seq<Event>, k: nat)
    requires CanRun(c, decode, ls) && LogCovers(log, Run(c, decode, ls).pool.fetched, decode) && k <= |log|
    ensures ApplyAll(Build(Run(c, decode, ls).writes), log) == ApplyAll(map[], log)
    ensures ApplyAll(ApplyAll(Build(Run(c, decode, ls).writes), log), log[k..]) == ApplyAll(map[], log)
  {
    var built := Build(Run(c, decode, ls).writes);
    assert log[0..] == log;
    forall listing | EventsOf(log, listing) == []
      ensures Lookup(built, listing) == Lookup(ApplyAll(map[], log), listing)
    {
      LastEventDecides(map[], log, listing);
      if listing in built {
        BuiltFromLog(c, decode, ls, log, listing);
      }
    }
    ReplayRepairsIff(built, log, 0);
    ReplayIsHarmless(built, log, k);
  }

  // ---------- what a handler may return ----------

  ghost predicate OkMeansEvent(decode: Decoder, f: ConsumerPool.Finish) {
    f.ok ==> decode(f.message).Some?
  }

  /** A handler returns nil only for a value that is an event. */
  lemma {:induction false} OnlyEventsSucceed(c: Config, decode: Decoder, ls: seq<Label>, i: nat)
    requires CanRun(c, decode, ls) && i < |Run(c, decode, ls).pool.finished|
    ensures OkMeansEvent(decode, Run(c, decode, ls).pool.finished[i])
  {
    var s, l := Run(c, decode, ls[..|ls| - 1]), ls[|ls| - 1];
    StepFinished(c, decode, s, l);
    if i < |s.pool.finished| {
      OnlyEventsSucceed(c, decode, ls[..|ls| - 1], i);
    }
  }
}
