/**
 The booking lifecycle: UpdateStatus of internal/booking/repository.go reads the current status from a replica,
 checks it against the transition table, and then writes the primary unconditionally.
 */
module Lifecycle {
  import opened Wrappers
  import opened BookingModel

  datatype UpdateError = NotFound | InvalidTransition

  /** All statuses a booking has held, oldest first; the last one is current on the primary. */
  type History = seq<Status>

  datatype Progress = Reading | Checked(seen: Status) | Finished(error: Option<UpdateError>)

  /** One call of UpdateStatus. */
  datatype Update = Update(booking: int, next: Status, progress: Progress)

  datatype State = State(histories: map<int, History>, updates: map<int, Update>)

  /** `Read` sees the replica after it has applied the first `applied` statuses of the booking. */
  datatype Label =
    | Create(booking: int)
    | Start(update: int, booking: int, next: Status)
    | Read(update: int, applied: nat)
    | Write(update: int)

  function HistoryOf(s: State, booking: int): History {
    if booking in s.histories then s.histories[booking] else []
  }

  predicate Enabled(s: State, l: Label) {
    match l
    case Create(b) => b !in s.histories
    case Start(u, _, _) => u !in s.updates
    case Read(u, n) => u in s.updates && s.updates[u].progress.Reading? && n <= |HistoryOf(s, s.updates[u].booking)|
    case Write(u) => u in s.updates && s.updates[u].progress.Checked?
  }

  /** The outcome of the read and the table check. */
  function Check(replica: History, next: Status): Progress {
    if replica == [] then Finished(Some(NotFound))
    else if !CanTransition(replica[|replica| - 1], next) then Finished(Some(InvalidTransition))
    else Checked(replica[|replica| - 1])
  }

  function Apply(s: State, l: Label): State
    requires Enabled(s, l)
  {
    match l
    case Create(b) => s.(histories := s.histories[b := [Requested]])
    case Start(u, b, next) => s.(updates := s.updates[u := Update(b, next, Reading)])
    case Read(u, n) =>
      var call := s.updates[u];
      s.(updates := s.updates[u := call.(progress := Check(HistoryOf(s, call.booking)[..n], call.next))])
    case Write(u) =>
      var call := s.updates[u];
      State(
        if call.booking in s.histories then s.histories[call.booking := s.histories[call.booking] + [call.next]]
        else s.histories,
        s.updates[u := call.(progress := Finished(None))])
  }

  predicate CanRun(s: State, ls: seq<Label>)
    decreases |ls|, 0
  {
    ls == [] || (CanRun(s, ls[..|ls| - 1]) && Enabled(Run(s, ls[..|ls| - 1]), ls[|ls| - 1]))
  }

  function Run(s: State, ls: seq<Label>): State
    requires CanRun(s, ls)
    decreases |ls|, 1
  {
    if ls == [] then s else Apply(Run(s, ls[..|ls| - 1]), ls[|ls| - 1])
  }

  const EMPTY := State(map[], map[])

  /** What an update makes of its read: not found, refused by the table, or going on with what it has seen. */
  lemma ReadDecides(s: State, u: int, n: nat)
    requires Enabled(s, Read(u, n))
    ensures var call, after := s.updates[u], Apply(s, Read(u, n)).updates[u].progress;
            && (after == Finished(Some(NotFound)) <==> n == 0)
            && (n > 0 ==>
                  var seen := HistoryOf(s, call.booking)[n - 1];
                  && (after == Finished(Some(InvalidTransition)) <==> !CanTransition(seen, call.next))
                  && (after == Checked(seen) <==> CanTransition(seen, call.next)))
  {
  }

  // ---------- what every run keeps ----------

  ghost predicate HeldBefore(h: History, j: nat, next: Status)
    requires j <= |h|
  {
    exists i :: 0 <= i < j && CanTransition(h[i], next)
  }

  /** A booking starts as requested, and every later status follows, in the table, some status held before it. */
  ghost predicate Justified(h: History) {
    h != [] && h[0] == Requested && forall j :: 1 <= j < |h| ==> HeldBefore(h, j, h[j])
  }

  ghost predicate UpdateJustified(s: State, call: Update) {
    call.progress.Checked? ==>
      CanTransition(call.progress.seen, call.next) && call.progress.seen in HistoryOf(s, call.booking)
  }

  ghost predicate Inv(s: State) {
    && (forall b :: b in s.histories ==> Justified(s.histories[b]))
    && (forall u :: u in s.updates ==> UpdateJustified(s, s.updates[u]))
  }

  lemma HeldBeforeStays(h: History, h': History, j: nat, next: Status)
    requires j <= |h| && h <= h' && HeldBefore(h, j, next)
    ensures HeldBefore(h', j, next)
  {
    var i :| 0 <= i < j && CanTransition(h[i], next);
    assert h'[i] == h[i];
  }

  lemma AppendJustified(h: History, seen: Status, next: Status)
    requires Justified(h) && seen in h && CanTransition(seen, next)
    ensures Justified(h + [next]) && HeldBefore(h + [next], |h|, next)
  {
    var h' := h + [next];
    var i :| 0 <= i < |h| && h[i] == seen;
    assert HeldBefore(h, |h|, next);
    HeldBeforeStays(h, h', |h|, next);
    forall j | 1 <= j < |h'| ensures HeldBefore(h', j, h'[j]) {
      if j < |h| {
        HeldBeforeStays(h, h', j, h[j]);
      }
    }
  }

  lemma StepKeepsInv(s: State, l: Label)
    requires Inv(s) && Enabled(s, l)
    ensures Inv(Apply(s, l))
  {
    if l.Write? {
      var call := s.updates[l.update];
      assert UpdateJustified(s, call);
      AppendJustified(s.histories[call.booking], call.progress.seen, call.next);
    }
    forall u | u in Apply(s, l).updates ensures UpdateJustified(Apply(s, l), Apply(s, l).updates[u]) {
      if u in s.updates {
        assert UpdateJustified(s, s.updates[u]);
      }
    }
  }

  /** Under any interleaving and any replica lag, every status written follows some status that booking held earlier. */
  lemma {:induction false} EveryHistoryIsJustified(ls: seq<Label>)
    requires CanRun(EMPTY, ls)
    ensures Inv(Run(EMPTY, ls))
  {
    if ls != [] {
      EveryHistoryIsJustified(ls[..|ls| - 1]);
      StepKeepsInv(Run(EMPTY, ls[..|ls| - 1]), ls[|ls| - 1]);
    }
  }

  ghost predicate Held(h: History, j: int, status: Status) {
    exists i :: 0 <= i < j && i < |h| && h[i] == status
  }

  /** Some status `inner` was held, and `outer` before it, both before position j. */
  ghost predicate HeldInTurn(h: History, j: int, outer: Status, inner: Status) {
    exists i :: 0 <= i < j && i < |h| && h[i] == inner && Held(h, i, outer)
  }

  /** What a justified history rules out. */
  lemma JustifiedMeans(h: History, j: nat)
    requires Justified(h) && 1 <= j < |h|
    ensures h[j] != Requested
    ensures h[j] == Active ==> Held(h, j, Approved)
    ensures h[j] == Completed || h[j] == Disputed ==> HeldInTurn(h, j, Approved, Active)
  {
    assert HeldBefore(h, j, h[j]);
    var i :| 0 <= i < j && CanTransition(h[i], h[j]);
    if h[j] == Completed || h[j] == Disputed {
      assert h[i] == Active;
      assert HeldBefore(h, i, h[i]);
      var k :| 0 <= k < i && CanTransition(h[k], h[i]);
      assert h[k] == Approved;
      assert Held(h, i, Approved);
    } else if h[j] == Active {
      assert h[i] == Approved;
    }
  }

  /**
   No booking returns to requested, none is active without an earlier approval, and none is completed or disputed
   without having been active after an approval.
   */
  lemma NoLifecycleStageIsSkipped(ls: seq<Label>, b: int, j: nat)
    requires CanRun(EMPTY, ls) && b in Run(EMPTY, ls).histories && 1 <= j < |Run(EMPTY, ls).histories[b]|
    ensures var h := Run(EMPTY, ls).histories[b];
            && h[0] == Requested && h[j] != Requested
            && (h[j] == Active ==> Held(h, j, Approved))
            && (h[j] == Completed || h[j] == Disputed ==> HeldInTurn(h, j, Approved, Active))
  {
    EveryHistoryIsJustified(ls);
    JustifiedMeans(Run(EMPTY, ls).histories[b], j);
  }

  // ---------- and nothing more ----------

  lemma Extend(ls: seq<Label>, l: Label)
    requires CanRun(EMPTY, ls) && Enabled(Run(EMPTY, ls), l)
    ensures CanRun(EMPTY, ls + [l]) && Run(EMPTY, ls + [l]) == Apply(Run(EMPTY, ls), l)
  {
    assert (ls + [l])[..|ls + [l]| - 1] == ls;
  }

  ghost predicate UpdatesBelow(s: State, n: int) {
    forall u :: u in s.updates ==> u < n
  }

  /** One whole update of booking 1 that read its status number i. */
  lemma UpdateFrom(s: State, u: int, h: History, i: nat, next: Status)
    requires s.histories == map[1 := h] && u !in s.updates && i < |h| && CanTransition(h[i], next)
    ensures Enabled(s, Start(u, 1, next)) && Enabled(Apply(s, Start(u, 1, next)), Read(u, i + 1))
    ensures Enabled(Apply(Apply(s, Start(u, 1, next)), Read(u, i + 1)), Write(u))
    ensures var s' := Apply(Apply(Apply(s, Start(u, 1, next)), Read(u, i + 1)), Write(u));
            s'.histories == map[1 := h + [next]] && s'.updates.Keys == s.updates.Keys + {u}
  {
    var s1 := Apply(s, Start(u, 1, next));
    assert s1.updates[u] == Update(1, next, Reading) && HistoryOf(s1, 1) == h;
    var s2 := Apply(s1, Read(u, i + 1));
    assert h[..i + 1][|h[..i + 1]| - 1] == h[i];
    assert s2.updates[u] == Update(1, next, Checked(h[i])) && s2.histories == map[1 := h];
  }

  lemma PrefixJustified(h: History)
    requires Justified(h) && |h| >= 2
    ensures Justified(h[..|h| - 1])
  {
    var before := h[..|h| - 1];
    forall j | 1 <= j < |before| ensures HeldBefore(before, j, before[j]) {
      assert HeldBefore(h, j, h[j]);
      var i :| 0 <= i < j && CanTransition(h[i], h[j]);
      assert before[i] == h[i];
    }
  }

  lemma RunUpdate(ls: seq<Label>, u: int, h: History, i: nat, next: Status) returns (ls': seq<Label>)
    requires CanRun(EMPTY, ls) && Run(EMPTY, ls).histories == map[1 := h] && u !in Run(EMPTY, ls).updates
    requires i < |h| && CanTransition(h[i], next)
    ensures CanRun(EMPTY, ls') && Run(EMPTY, ls').histories == map[1 := h + [next]]
    ensures Run(EMPTY, ls').updates.Keys == Run(EMPTY, ls).updates.Keys + {u}
  {
    UpdateFrom(Run(EMPTY, ls), u, h, i, next);
    Extend(ls, Start(u, 1, next));
    var started := ls + [Start(u, 1, next)];
    Extend(started, Read(u, i + 1));
    var checked := started + [Read(u, i + 1)];
    Extend(checked, Write(u));
    ls' := checked + [Write(u)];
  }

  /** Any justified history is the outcome of some run: a stale enough read allows each of its steps. */
  lemma {:induction false} JustifiedIsReachable(h: History) returns (ls: seq<Label>)
    requires Justified(h)
    ensures CanRun(EMPTY, ls) && Run(EMPTY, ls).histories == map[1 := h]
    ensures UpdatesBelow(Run(EMPTY, ls), |h|)
  {
    if |h| == 1 {
      Extend([], Create(1));
      ls := [] + [Create(1)];
      assert h == [Requested];
    } else {
      var n := |h| - 1;
      PrefixJustified(h);
      ls := JustifiedIsReachable(h[..n]);
      assert HeldBefore(h, n, h[n]);
      var i :| 0 <= i < n && CanTransition(h[i], h[n]);
      assert h[..n][i] == h[i];
      assert h[..n] + [h[n]] == h;
      ls := RunUpdate(ls, n, h[..n], i, h[n]);
    }
  }

  ghost predicate Reachable(h: History) {
    exists ls, b :: CanRun(EMPTY, ls) && b in Run(EMPTY, ls).histories && Run(EMPTY, ls).histories[b] == h
  }

  /** The histories that interleaving and lag allow are exactly the justified ones. */
  lemma ReachableHistories(h: History)
    ensures Reachable(h) <==> Justified(h)
  {
    if Reachable(h) {
      var ls, b :| CanRun(EMPTY, ls) && b in Run(EMPTY, ls).histories && Run(EMPTY, ls).histories[b] == h;
      EveryHistoryIsJustified(ls);
    }
    if Justified(h) {
      var ls := JustifiedIsReachable(h);
      assert 1 in Run(EMPTY, ls).histories;
    }
  }

  ghost predicate IsPath(h: History) {
    h != [] && h[0] == Requested && forall j :: 1 <= j < |h| ==> CanTransition(h[j - 1], h[j])
  }

  /** So the table is not obeyed step by step: a rejected booking can still become approved and active. */
  lemma RejectedCanBecomeActive()
    ensures Reachable([Requested, Rejected, Approved, Active])
    ensures !IsPath([Requested, Rejected, Approved, Active])
  {
    var h := [Requested, Rejected, Approved, Active];
    assert CanTransition(h[0], h[1]) && CanTransition(h[0], h[2]) && CanTransition(h[2], h[3]);
    assert forall j :: 1 <= j < |h| ==> HeldBefore(h, j, h[j]);
    ReachableHistories(h);
    assert !CanTransition(h[1], h[2]);
  }

  // ---------- when the table is obeyed ----------

  /**
   A write is harmless when the status that was read is still current, or when the booking has been approved since
   and is now cancelled, which the table allows from both.
   */
  predicate Harmless(current: Status, seen: Status, next: Status) {
    seen == current || (seen == Requested && current == Approved && next == Cancelled)
  }

  ghost predicate HarmlessStep(s: State, l: Label) {
    l.Write? && l.update in s.updates && s.updates[l.update].progress.Checked? ==>
      var call := s.updates[l.update];
      var h := HistoryOf(s, call.booking);
      h != [] && Harmless(h[|h| - 1], call.progress.seen, call.next)
  }

  ghost predicate HarmlessAtWrite(ls: seq<Label>)
    requires CanRun(EMPTY, ls)
  {
    ls == [] || (HarmlessAtWrite(ls[..|ls| - 1]) && HarmlessStep(Run(EMPTY, ls[..|ls| - 1]), ls[|ls| - 1]))
  }

  ghost predicate AllPaths(s: State) {
    forall b :: b in s.histories ==> IsPath(s.histories[b])
  }

  lemma PathEnds(h: History, next: Status)
    requires IsPath(h)
    ensures IsPath(h + [next]) <==> CanTransition(h[|h| - 1], next)
  {
    var h' := h + [next];
    if IsPath(h') {
      assert CanTransition(h'[|h| - 1], h'[|h|]);
    }
  }

  lemma PrefixIsPath(h: History, next: Status)
    requires h != [] && IsPath(h + [next])
    ensures IsPath(h)
  {
    var h' := h + [next];
    forall j | 1 <= j < |h| ensures CanTransition(h[j - 1], h[j]) {
      assert CanTransition(h'[j - 1], h'[j]);
    }
  }

  /** A path never returns to its start. */
  lemma NeverBackToRequested(h: History, j: nat)
    requires IsPath(h) && 1 <= j < |h|
    ensures h[j] != Requested
  {
    assert CanTransition(h[j - 1], h[j]);
  }

  /**
   After a stale read the table still allows the step in one case only: no status but cancelled has two predecessors,
   and of those requested comes first.
   */
  lemma AllowedIffHarmless(h: History, seen: Status, next: Status)
    requires IsPath(h) && seen in h && CanTransition(seen, next)
    ensures CanTransition(h[|h| - 1], next) <==> Harmless(h[|h| - 1], seen, next)
  {
    if h[|h| - 1] == Requested && |h| > 1 {
      NeverBackToRequested(h, |h| - 1);
    }
  }

  /** What a step does to a history. */
  lemma StepHistory(s: State, l: Label)
    requires Inv(s) && Enabled(s, l)
    ensures l.Create? ==> l.booking !in s.histories && Apply(s, l).histories == s.histories[l.booking := [Requested]]
    ensures l.Start? || l.Read? ==> Apply(s, l).histories == s.histories
    ensures l.Write? ==>
      var call := s.updates[l.update];
      && call.booking in s.histories && s.histories[call.booking] != []
      && call.progress.seen in s.histories[call.booking] && CanTransition(call.progress.seen, call.next)
      && Apply(s, l).histories == s.histories[call.booking := s.histories[call.booking] + [call.next]]
  {
    if l.Write? {
      assert UpdateJustified(s, s.updates[l.update]);
    }
  }

  lemma StepPathsIff(s: State, l: Label)
    requires Inv(s) && Enabled(s, l)
    ensures AllPaths(Apply(s, l)) <==> AllPaths(s) && HarmlessStep(s, l)
  {
    var s' := Apply(s, l);
    StepHistory(s, l);
    if l.Write? {
      var call := s.updates[l.update];
      var h := s.histories[call.booking];
      if AllPaths(s') {
        assert IsPath(s'.histories[call.booking]);
        PrefixIsPath(h, call.next);
        forall b | b in s.histories ensures IsPath(s.histories[b]) {
          assert IsPath(s'.histories[b]);
        }
      }
      if IsPath(h) {
        PathEnds(h, call.next);
        AllowedIffHarmless(h, call.progress.seen, call.next);
      }
    } else if l.Create? {
      assert forall b :: b in s.histories ==> s'.histories[b] == s.histories[b];
      assert IsPath([Requested]);
    }
  }

  /** In any run, whatever the lag, every history is a path in the table exactly when every write was harmless. */
  lemma {:induction false} PathsIffHarmless(ls: seq<Label>)
    requires CanRun(EMPTY, ls)
    ensures AllPaths(Run(EMPTY, ls)) <==> HarmlessAtWrite(ls)
  {
    if ls != [] {
      PathsIffHarmless(ls[..|ls| - 1]);
      EveryHistoryIsJustified(ls[..|ls| - 1]);
      StepPathsIff(Run(EMPTY, ls[..|ls| - 1]), ls[|ls| - 1]);
    }
  }

  /** At each write, the status that was read is still the current one. */
  ghost predicate FreshAtWrite(ls: seq<Label>)
    requires CanRun(EMPTY, ls)
  {
    ls == [] ||
    var s, l := Run(EMPTY, ls[..|ls| - 1]), ls[|ls| - 1];
    && FreshAtWrite(ls[..|ls| - 1])
    && (l.Write? ==>
          var h := HistoryOf(s, s.updates[l.update].booking);
          h != [] && h[|h| - 1] == s.updates[l.update].progress.seen)
  }

  lemma {:induction false} FreshIsHarmless(ls: seq<Label>)
    requires CanRun(EMPTY, ls) && FreshAtWrite(ls)
    ensures HarmlessAtWrite(ls)
  {
    if ls != [] {
      FreshIsHarmless(ls[..|ls| - 1]);
    }
  }

  /** So they are in serial runs on an up-to-date replica. */
  lemma FreshReadsGivePaths(ls: seq<Label>)
    requires CanRun(EMPTY, ls) && FreshAtWrite(ls)
    ensures AllPaths(Run(EMPTY, ls))
  {
    FreshIsHarmless(ls);
    PathsIffHarmless(ls);
  }

  // ---------- UpdateStatus itself ----------

  type Histories = map<int, History>

  /** What another call does: it creates a booking, or writes a status that the table allows after one it has read. */
  datatype Foreign = Created(booking: int) | Wrote(booking: int, read: nat, next: Status)

  function WithForeign(hs: Histories, f: Foreign): Histories {
    match f
    case Created(b) => if b in hs then hs else hs[b := [Requested]]
    case Wrote(b, read, next) =>
      if b in hs && read < |hs[b]| && CanTransition(hs[b][read], next) then hs[b := hs[b] + [next]] else hs
  }

  function AfterForeign(hs: Histories, fs: seq<Foreign>): Histories {
    if fs == [] then hs else WithForeign(AfterForeign(hs, fs[..|fs| - 1]), fs[|fs| - 1])
  }

  ghost predicate AllJustified(hs: Histories) {
    forall b :: b in hs ==> Justified(hs[b])
  }

  /** Histories only grow. */
  ghost predicate Grown(before: Histories, after: Histories) {
    forall b :: b in before ==> b in after && before[b] <= after[b]
  }

  lemma ForeignKeeps(hs: Histories, f: Foreign)
    requires AllJustified(hs)
    ensures AllJustified(WithForeign(hs, f)) && Grown(hs, WithForeign(hs, f))
  {
    if f.Wrote? && f.booking in hs && f.read < |hs[f.booking]| && CanTransition(hs[f.booking][f.read], f.next) {
      AppendJustified(hs[f.booking], hs[f.booking][f.read], f.next);
    }
  }

  lemma {:induction false} AllForeignKeep(hs: Histories, fs: seq<Foreign>)
    requires AllJustified(hs)
    ensures AllJustified(AfterForeign(hs, fs)) && Grown(hs, AfterForeign(hs, fs))
  {
    if fs != [] {
      AllForeignKeep(hs, fs[..|fs| - 1]);
      ForeignKeeps(AfterForeign(hs, fs[..|fs| - 1]), fs[|fs| - 1]);
    }
  }

  class Repository {
    // The status column of the bookings table on the primary, and the binary log of its values.
    var status: map<int, Status>
    var histories: Histories

    ghost predicate Valid()
      reads this
    {
      && status.Keys == histories.Keys && AllJustified(histories)
      && forall b :: b in status ==> status[b] == histories[b][|histories[b]| - 1]
    }

    constructor ()
      ensures Valid() && status == map[]
    {
      status, histories := map[], map[];
    }

    /** Other calls take those of the given steps that they can. */
    method Others(fs: seq<Foreign>)
      requires Valid()
      modifies this
      ensures Valid() && histories == AfterForeign(old(histories), fs)
    {
      for i := 0 to |fs|
        invariant Valid() && histories == AfterForeign(old(histories), fs[..i])
      {
        assert fs[..i + 1][..i] == fs[..i];
        ForeignKeeps(histories, fs[i]);
        var after := WithForeign(histories, fs[i]);
        histories := after;
        status := map b | b in after :: after[b][|after[b]| - 1];
      }
      assert fs[..|fs|] == fs;
    }

    /** A read from a replica that has applied the first `applied` statuses, perhaps none. */
    method GetByID(id: int, applied: nat) returns (found: Option<Status>)
      requires Valid()
      ensures found.None? <==> id !in status || applied == 0
      ensures found.Some? && applied >= |histories[id]| ==> found.value == status[id]
      ensures found.Some? && applied < |histories[id]| ==> found.value == histories[id][applied - 1]
    {
      found := None;
      if id in histories && applied > 0 {
        var last := if applied < |histories[id]| then applied else |histories[id]|;
        found := Some(histories[id][last - 1]);
      }
    }

    /**
     UpdateStatus, whose read sees the first `applied` statuses and between whose read and write others do `fs`. It is
     decided by what it reads. On success it adds its status, which follows in the table the one read, to whatever the
     others have made of the booking; on error it has written nothing.
     */
    method UpdateStatus(id: int, next: Status, applied: nat, fs: seq<Foreign>) returns (err: Option<UpdateError>)
      requires Valid()
      modifies this
      ensures Valid()
      ensures err == Some(NotFound) <==> id !in old(histories) || applied == 0
      ensures err.None? <==>
        && id in old(histories) && applied > 0
        && CanTransition(old(if applied < |histories[id]| then histories[id][applied - 1] else status[id]), next)
      ensures err.None? ==>
        var hs := AfterForeign(old(histories), fs);
        && id in hs && histories == hs[id := hs[id] + [next]] && status[id] == next
        && old(histories[id]) <= hs[id] && HeldBefore(histories[id], |histories[id]| - 1, next)
      ensures err.Some? ==> status == old(status) && histories == old(histories)
    {
      var current := GetByID(id, applied);
      if current.None? {
        return Some(NotFound);
      }
      if !CanTransition(current.value, next) {
        return Some(InvalidTransition);
      }
      AllForeignKeep(histories, fs);
      Others(fs);
      assert current.value in histories[id];
      Overwrite(id, current.value, next);
      return None;
    }

    /** UPDATE bookings SET status = ? WHERE id = ?, on the primary. */
    method Overwrite(id: int, ghost seen: Status, next: Status)
      requires Valid() && id in histories && seen in histories[id] && CanTransition(seen, next)
      modifies this
      ensures Valid() && histories == old(histories)[id := old(histories)[id] + [next]]
      ensures status == old(status)[id := next] && HeldBefore(histories[id], |histories[id]| - 1, next)
    {
      AppendJustified(histories[id], seen, next);
      status := status[id := next];
      histories := histories[id := histories[id] + [next]];
    }
  }
}
