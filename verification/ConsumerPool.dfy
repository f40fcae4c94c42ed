/**
 Consumer.Run of internal/eventbus/kafka_consumer.go: a fetch loop feeds a bounded queue, workers drain it, and a
 fetch error or a cancelled context closes the queue and waits for every worker. Each step is one channel
 operation or one return of the handler; steps of the loop and of the workers interleave freely.
 */
module ConsumerPool {
  datatype Message = Message(offset: int, listing: int, body: string)

  datatype Config = Config(workers: nat, depth: nat)

  /** `Draining` counts the workers that have reported; `failed` says that a fetch error started it. */
  datatype Main = Fetching | Sending(message: Message) | Draining(reported: nat, failed: bool) | Returned(error: bool)

  datatype Worker = Idle | Handling(message: Message) | Committing(message: Message) | Leaving | Stopped

  /** A return of the handler. */
  datatype Finish = Finish(message: Message, ok: bool)

  /**
   `fetched`, `taken`, `finished` and `submitted` record, in order, the messages fetched, received by workers,
   handled, and passed to CommitMessages; `dropped` is the message in hand when the context was cancelled.
   */
  datatype State = State(
    main: Main, jobs: seq<Message>, closed: bool, cancelled: bool, workers: seq<Worker>,
    fetched: seq<Message>, taken: seq<Message>, finished: seq<Finish>, submitted: seq<Message>, dropped: seq<Message>)

  datatype Label =
    | Fetch(message: Message)
    | FetchError
    | Enqueue
    | SendCancelled
    | Cancel
    | Take(worker: nat)
    | Handled(worker: nat, ok: bool)
    | Commit(worker: nat)
    | Leave(worker: nat)
    | Report(worker: nat)
    | Return

  function Start(c: Config): State {
    State(Fetching, [], false, false, seq(c.workers, _ => Idle), [], [], [], [], [])
  }

  predicate Enabled(c: Config, s: State, l: Label) {
    match l
    case Fetch(_) => s.main.Fetching?
    case FetchError => s.main.Fetching?
    case Enqueue => s.main.Sending? && |s.jobs| < c.depth
    case SendCancelled => s.main.Sending? && s.cancelled
    case Cancel => true
    case Take(w) => w < |s.workers| && s.workers[w].Idle? && s.jobs != []
    case Handled(w, _) => w < |s.workers| && s.workers[w].Handling?
    case Commit(w) => w < |s.workers| && s.workers[w].Committing?
    case Leave(w) => w < |s.workers| && s.workers[w].Idle? && s.jobs == [] && s.closed
    case Report(w) => w < |s.workers| && s.workers[w].Leaving? && s.main.Draining? && s.main.reported < c.workers
    case Return => s.main.Draining? && s.main.reported == c.workers
  }

  function Apply(c: Config, s: State, l: Label): State
    requires Enabled(c, s, l)
  {
    match l
    case Fetch(m) => s.(main := Sending(m), fetched := s.fetched + [m])
    case FetchError => s.(main := Draining(0, true), closed := true)
    case Enqueue => s.(main := Fetching, jobs := s.jobs + [s.main.message])
    case SendCancelled => s.(main := Draining(0, false), closed := true, dropped := [s.main.message])
    case Cancel => s.(cancelled := true)
    case Take(w) =>
      s.(workers := s.workers[w := Handling(s.jobs[0])], jobs := s.jobs[1..], taken := s.taken + [s.jobs[0]])
    case Handled(w, ok) =>
      var m := s.workers[w].message;
      s.(workers := s.workers[w := if ok then Committing(m) else Idle], finished := s.finished + [Finish(m, ok)])
    case Commit(w) =>
      s.(workers := s.workers[w := Idle], submitted := s.submitted + [s.workers[w].message])
    case Leave(w) => s.(workers := s.workers[w := Leaving])
    case Report(w) =>
      s.(workers := s.workers[w := Stopped], main := Draining(s.main.reported + 1, s.main.failed))
    case Return => s.(main := Returned(s.main.failed && !s.cancelled))
  }

  predicate CanRun(c: Config, s: State, ls: seq<Label>)
    decreases |ls|, 0
  {
    ls == [] || (CanRun(c, s, ls[..|ls| - 1]) && Enabled(c, Run(c, s, ls[..|ls| - 1]), ls[|ls| - 1]))
  }

  function Run(c: Config, s: State, ls: seq<Label>): State
    requires CanRun(c, s, ls)
    decreases |ls|, 1
  {
    if ls == [] then s else Apply(c, Run(c, s, ls[..|ls| - 1]), ls[|ls| - 1])
  }

  // ---------- counting over the workers ----------

  function InWorker(w: Worker): multiset<Message> {
    match w
    case Handling(m) => multiset{m}
    case _ => multiset{}
  }

  function ToCommit(w: Worker): multiset<Message> {
    match w
    case Committing(m) => multiset{m}
    case _ => multiset{}
  }

  /** The messages inside handlers. */
  function Processing(ws: seq<Worker>): multiset<Message> {
    if ws == [] then multiset{} else InWorker(ws[0]) + Processing(ws[1..])
  }

  /** The handled messages whose commit has not been sent. */
  function Uncommitted(ws: seq<Worker>): multiset<Message> {
    if ws == [] then multiset{} else ToCommit(ws[0]) + Uncommitted(ws[1..])
  }

  function One(w: Worker): nat {
    if w.Stopped? then 1 else 0
  }

  function CountStopped(ws: seq<Worker>): (n: nat)
    ensures n <= |ws|
  {
    if ws == [] then 0 else One(ws[0]) + CountStopped(ws[1..])
  }

  function WorkLeft(w: Worker): nat {
    match w case Handling(_) => 4 case Committing(_) => 3 case Idle => 2 case Leaving => 1 case Stopped => 0
  }

  function AllWorkLeft(ws: seq<Worker>): nat {
    if ws == [] then 0 else WorkLeft(ws[0]) + AllWorkLeft(ws[1..])
  }

  lemma Shift(h: multiset<Message>, p: multiset<Message>, q: multiset<Message>, a: multiset<Message>, b: multiset<Message>)
    requires q + a == p + b
    ensures (h + q) + a == (h + p) + b
  {
    assert (h + q) + a == h + (q + a);
    assert (h + p) + b == h + (p + b);
  }

  lemma {:induction false} ProcessingAfter(ws: seq<Worker>, w: nat, v: Worker)
    requires w < |ws|
    ensures Processing(ws[w := v]) + InWorker(ws[w]) == Processing(ws) + InWorker(v)
  {
    if w == 0 {
      assert ws[w := v][1..] == ws[1..];
    } else {
      assert ws[w := v][1..] == ws[1..][w - 1 := v];
      ProcessingAfter(ws[1..], w - 1, v);
      Shift(InWorker(ws[0]), Processing(ws[1..]), Processing(ws[1..][w - 1 := v]),
            InWorker(ws[w]), InWorker(v));
    }
  }

  lemma {:induction false} UncommittedAfter(ws: seq<Worker>, w: nat, v: Worker)
    requires w < |ws|
    ensures Uncommitted(ws[w := v]) + ToCommit(ws[w]) == Uncommitted(ws) + ToCommit(v)
  {
    if w == 0 {
      assert ws[w := v][1..] == ws[1..];
    } else {
      assert ws[w := v][1..] == ws[1..][w - 1 := v];
      UncommittedAfter(ws[1..], w - 1, v);
      Shift(ToCommit(ws[0]), Uncommitted(ws[1..]), Uncommitted(ws[1..][w - 1 := v]),
            ToCommit(ws[w]), ToCommit(v));
    }
  }

  lemma {:induction false} StoppedAfter(ws: seq<Worker>, w: nat, v: Worker)
    requires w < |ws|
    ensures CountStopped(ws[w := v]) + One(ws[w]) == CountStopped(ws) + One(v)
  {
    if w == 0 {
      assert ws[w := v][1..] == ws[1..];
    } else {
      assert ws[w := v][1..] == ws[1..][w - 1 := v];
      StoppedAfter(ws[1..], w - 1, v);
    }
  }

  lemma {:induction false} WorkLeftAfter(ws: seq<Worker>, w: nat, v: Worker)
    requires w < |ws|
    ensures AllWorkLeft(ws[w := v]) + WorkLeft(ws[w]) == AllWorkLeft(ws) + WorkLeft(v)
  {
    if w == 0 {
      assert ws[w := v][1..] == ws[1..];
    } else {
      assert ws[w := v][1..] == ws[1..][w - 1 := v];
      WorkLeftAfter(ws[1..], w - 1, v);
    }
  }

  lemma {:induction false} FewInWorkers(ws: seq<Worker>)
    ensures |Processing(ws)| <= |ws|
  {
    if ws != [] {
      FewInWorkers(ws[1..]);
    }
  }

  lemma {:induction false} AllStopped(ws: seq<Worker>)
    requires CountStopped(ws) == |ws|
    ensures forall w :: 0 <= w < |ws| ==> ws[w].Stopped?
    ensures Processing(ws) == multiset{} && Uncommitted(ws) == multiset{}
  {
    if ws != [] {
      AllStopped(ws[1..]);
    }
  }

  lemma {:induction false} IdleWorkers(n: nat)
    ensures var ws := seq(n, _ => Idle);
            Processing(ws) == multiset{} && Uncommitted(ws) == multiset{} && CountStopped(ws) == 0
  {
    if n > 0 {
      IdleWorkers(n - 1);
      assert seq(n, _ => Idle)[1..] == seq(n - 1, _ => Idle);
    }
  }

  function MessagesOf(fs: seq<Finish>): seq<Message> {
    if fs == [] then [] else MessagesOf(fs[..|fs| - 1]) + [fs[|fs| - 1].message]
  }

  /** The messages whose handler returned nil, in the order it did. */
  function Succeeded(fs: seq<Finish>): seq<Message> {
    if fs == [] then []
    else if fs[|fs| - 1].ok then Succeeded(fs[..|fs| - 1]) + [fs[|fs| - 1].message]
    else Succeeded(fs[..|fs| - 1])
  }

  // ---------- what every state keeps ----------

  function InHand(s: State): seq<Message> {
    if s.main.Sending? then [s.main.message] else []
  }

  /** Messages pass through the queue in the order they were fetched. */
  ghost predicate InOrder(s: State) {
    s.fetched == s.taken + (s.jobs + (InHand(s) + s.dropped))
  }

  ghost predicate TakenAccounted(s: State) {
    multiset(s.taken) == multiset(MessagesOf(s.finished)) + Processing(s.workers)
  }

  ghost predicate SuccessAccounted(s: State) {
    multiset(Succeeded(s.finished)) == multiset(s.submitted) + Uncommitted(s.workers)
  }

  ghost predicate Conserved(s: State) {
    InOrder(s) && TakenAccounted(s) && SuccessAccounted(s)
  }

  ghost predicate Orderly(c: Config, s: State) {
    && |s.workers| == c.workers && |s.jobs| <= c.depth && |s.dropped| <= 1
    && (s.closed <==> s.main.Draining? || s.main.Returned?)
    && (s.dropped != [] ==> s.closed)
    && (forall w :: 0 <= w < |s.workers| && (s.workers[w].Leaving? || s.workers[w].Stopped?) ==> s.closed && s.jobs == [])
    && CountStopped(s.workers) == ReportedBy(c, s)
  }

  /** How many workers have reported to the loop. */
  function ReportedBy(c: Config, s: State): nat {
    match s.main
    case Draining(reported, _) => reported
    case Returned(_) => c.workers
    case _ => 0
  }

  lemma StepKeepsInOrder(c: Config, s: State, l: Label)
    requires Orderly(c, s) && InOrder(s) && Enabled(c, s, l)
    ensures InOrder(Apply(c, s, l))
  {
    var s' := Apply(c, s, l);
    if l.Fetch? {
      assert s.dropped == [] && InHand(s) == [];
    } else if l.Enqueue? {
      assert s.dropped == [];
      assert s'.jobs + (InHand(s') + s'.dropped) == s.jobs + (InHand(s) + s.dropped);
    } else if l.SendCancelled? {
      assert InHand(s') + s'.dropped == InHand(s) + s.dropped;
    } else if l.Take? {
      assert s.jobs == [s.jobs[0]] + s.jobs[1..];
    }
  }

  predicate ByWorker(l: Label) {
    l.Take? || l.Handled? || l.Commit? || l.Leave? || l.Report?
  }

  /** A step of a worker changes that worker only. */
  lemma WorkerStep(c: Config, s: State, l: Label)
    requires Enabled(c, s, l)
    ensures ByWorker(l) ==>
      && l.worker < |s.workers| == |Apply(c, s, l).workers|
      && Apply(c, s, l).workers == s.workers[l.worker := Apply(c, s, l).workers[l.worker]]
    ensures !ByWorker(l) ==> Apply(c, s, l).workers == s.workers
  {
  }

  /** What a step adds to the records, in terms of the worker it moves. */
  lemma WorkerTake(c: Config, s: State, l: Label)
    requires Enabled(c, s, l) && ByWorker(l)
    ensures l.worker < |s.workers| == |Apply(c, s, l).workers|
    ensures var s', old', new' := Apply(c, s, l), s.workers[l.worker], Apply(c, s, l).workers[l.worker];
            && (l.Take? ==> InWorker(old') == multiset{} && InWorker(new') == multiset{s.jobs[0]}
                            && s'.taken == s.taken + [s.jobs[0]])
            && (!l.Take? ==> s'.taken == s.taken)
            && (l.Handled? ==> InWorker(old') == multiset{old'.message} && InWorker(new') == multiset{}
                               && s'.finished == s.finished + [Finish(old'.message, l.ok)])
            && (!l.Handled? ==> s'.finished == s.finished)
            && (!l.Take? && !l.Handled? ==> InWorker(old') == InWorker(new') == multiset{})
  {
  }

  lemma FinishOneMore(fs: seq<Finish>, f: Finish)
    ensures MessagesOf(fs + [f]) == MessagesOf(fs) + [f.message]
    ensures Succeeded(fs + [f]) == if f.ok then Succeeded(fs) + [f.message] else Succeeded(fs)
  {
    assert (fs + [f])[..|fs + [f]| - 1] == fs;
  }

  lemma OneMoreOnBothSides(t: multiset<Message>, f: multiset<Message>, p: multiset<Message>, q: multiset<Message>, m: multiset<Message>)
    requires t == f + p && q == p + m
    ensures t + m == f + q
  {
  }

  lemma MovedAcross(t: multiset<Message>, f: multiset<Message>, p: multiset<Message>, q: multiset<Message>, m: multiset<Message>)
    requires t == f + p && q + m == p
    ensures t == (f + m) + q
  {
  }

  lemma NothingMoved(p: multiset<Message>, q: multiset<Message>)
    requires q + multiset{} == p + multiset{}
    ensures p == q
  {
    assert p + multiset{} == p && q + multiset{} == q;
  }

  lemma StepKeepsTaken(c: Config, s: State, l: Label)
    requires TakenAccounted(s) && Enabled(c, s, l)
    ensures TakenAccounted(Apply(c, s, l))
  {
    var s' := Apply(c, s, l);
    WorkerStep(c, s, l);
    if ByWorker(l) {
      WorkerTake(c, s, l);
      ProcessingAfter(s.workers, l.worker, s'.workers[l.worker]);
      var t, f, p, q := multiset(s.taken), multiset(MessagesOf(s.finished)), Processing(s.workers), Processing(s'.workers);
      if l.Take? {
        OneMoreOnBothSides(t, f, p, q, multiset{s.jobs[0]});
      } else if l.Handled? {
        var m := s.workers[l.worker].message;
        FinishOneMore(s.finished, Finish(m, l.ok));
        MovedAcross(t, f, p, q, multiset{m});
      } else {
        NothingMoved(p, q);
      }
    }
  }

  lemma WorkerCommit(c: Config, s: State, l: Label)
    requires Enabled(c, s, l) && ByWorker(l)
    ensures l.worker < |s.workers| == |Apply(c, s, l).workers|
    ensures var s', old', new' := Apply(c, s, l), s.workers[l.worker], Apply(c, s, l).workers[l.worker];
            && (l.Handled? ==> ToCommit(old') == multiset{} && s'.finished == s.finished + [Finish(old'.message, l.ok)]
                               && ToCommit(new') == if l.ok then multiset{old'.message} else multiset{})
            && (!l.Handled? ==> s'.finished == s.finished)
            && (l.Commit? ==> ToCommit(old') == multiset{old'.message} && ToCommit(new') == multiset{}
                              && s'.submitted == s.submitted + [old'.message])
            && (!l.Commit? ==> s'.submitted == s.submitted)
            && (!l.Commit? && !l.Handled? ==> ToCommit(old') == ToCommit(new') == multiset{})
  {
  }

  lemma StepKeepsSuccess(c: Config, s: State, l: Label)
    requires SuccessAccounted(s) && Enabled(c, s, l)
    ensures SuccessAccounted(Apply(c, s, l))
  {
    var s' := Apply(c, s, l);
    WorkerStep(c, s, l);
    if ByWorker(l) {
      WorkerCommit(c, s, l);
      UncommittedAfter(s.workers, l.worker, s'.workers[l.worker]);
      var t, f, p, q := multiset(Succeeded(s.finished)), multiset(s.submitted), Uncommitted(s.workers), Uncommitted(s'.workers);
      if l.Handled? {
        var m := s.workers[l.worker].message;
        FinishOneMore(s.finished, Finish(m, l.ok));
        if l.ok {
          OneMoreOnBothSides(t, f, p, q, multiset{m});
        } else {
          NothingMoved(p, q);
        }
      } else if l.Commit? {
        MovedAcross(t, f, p, q, multiset{s.workers[l.worker].message});
      } else {
        NothingMoved(p, q);
      }
    }
  }

  lemma StepConserves(c: Config, s: State, l: Label)
    requires Orderly(c, s) && Conserved(s) && Enabled(c, s, l)
    ensures Conserved(Apply(c, s, l))
  {
    StepKeepsInOrder(c, s, l);
    StepKeepsTaken(c, s, l);
    StepKeepsSuccess(c, s, l);
  }

  lemma WorkerStops(c: Config, s: State, l: Label)
    requires Enabled(c, s, l) && ByWorker(l)
    ensures l.worker < |s.workers| == |Apply(c, s, l).workers| && !s.workers[l.worker].Stopped?
    ensures Apply(c, s, l).workers[l.worker].Stopped? <==> l.Report?
  {
  }

  lemma StepKeepsCount(c: Config, s: State, l: Label)
    requires Orderly(c, s) && Enabled(c, s, l)
    ensures CountStopped(Apply(c, s, l).workers) == ReportedBy(c, Apply(c, s, l))
  {
    WorkerStep(c, s, l);
    if ByWorker(l) {
      WorkerStops(c, s, l);
      StoppedAfter(s.workers, l.worker, Apply(c, s, l).workers[l.worker]);
    }
  }

  lemma StepKeepsOrder(c: Config, s: State, l: Label)
    requires Orderly(c, s) && Enabled(c, s, l)
    ensures Orderly(c, Apply(c, s, l))
  {
    WorkerStep(c, s, l);
    StepKeepsCount(c, s, l);
  }

  lemma {:induction false} EveryStateConserves(c: Config, ls: seq<Label>)
    requires CanRun(c, Start(c), ls)
    ensures Orderly(c, Run(c, Start(c), ls)) && Conserved(Run(c, Start(c), ls))
  {
    if ls == [] {
      IdleWorkers(c.workers);
    } else {
      EveryStateConserves(c, ls[..|ls| - 1]);
      StepKeepsOrder(c, Run(c, Start(c), ls[..|ls| - 1]), ls[|ls| - 1]);
      StepConserves(c, Run(c, Start(c), ls[..|ls| - 1]), ls[|ls| - 1]);
    }
  }

  /**
   In every reachable state each fetched message is in exactly one place, messages leave the queue in the order they
   were fetched, and at most depth + workers + 1 of them are unfinished.
   */
  lemma MessagesAreConserved(c: Config, ls: seq<Label>)
    requires CanRun(c, Start(c), ls)
    ensures var s := Run(c, Start(c), ls);
            && multiset(s.fetched) == multiset(InHand(s)) + multiset(s.jobs) + Processing(s.workers)
                                      + multiset(MessagesOf(s.finished)) + multiset(s.dropped)
            && s.taken + s.jobs <= s.fetched
            && |InHand(s)| + |s.jobs| + |Processing(s.workers)| <= c.depth + c.workers + 1
  {
    EveryStateConserves(c, ls);
    FewInWorkers(Run(c, Start(c), ls).workers);
  }

  /** A message is committed only after its own handler returned nil. */
  lemma CommitOnlyAfterSuccess(c: Config, ls: seq<Label>)
    requires CanRun(c, Start(c), ls)
    ensures multiset(Run(c, Start(c), ls).submitted) <= multiset(Succeeded(Run(c, Start(c), ls).finished))
  {
    EveryStateConserves(c, ls);
  }

  /** The queue is closed at most once and nothing is sent to it afterwards. */
  lemma NoSendAfterClose(c: Config, ls: seq<Label>, l: Label)
    requires CanRun(c, Start(c), ls) && Enabled(c, Run(c, Start(c), ls), l)
    requires l.Enqueue? || l.FetchError? || l.SendCancelled?
    ensures !Run(c, Start(c), ls).closed
  {
    EveryStateConserves(c, ls);
  }

  /**
   When Run returns, all workers have stopped, the queue is empty, every fetched message but at most one dropped at the
   shutdown has been handled, and every success has been passed to the commit.
   */
  lemma ReturnMeansDrained(c: Config, ls: seq<Label>)
    requires c.workers >= 1 && CanRun(c, Start(c), ls) && Run(c, Start(c), ls).main.Returned?
    ensures var s := Run(c, Start(c), ls);
            && s.jobs == [] && (forall w :: 0 <= w < |s.workers| ==> s.workers[w].Stopped?)
            && s.fetched == s.taken + s.dropped && |s.dropped| <= 1
            && multiset(s.taken) == multiset(MessagesOf(s.finished))
            && multiset(s.submitted) == multiset(Succeeded(s.finished))
  {
    EveryStateConserves(c, ls);
    StoppedIsDrained(c, Run(c, Start(c), ls));
  }

  lemma StoppedIsDrained(c: Config, s: State)
    requires c.workers >= 1 && Orderly(c, s) && Conserved(s) && CountStopped(s.workers) == c.workers
    ensures s.jobs == [] && (forall w :: 0 <= w < |s.workers| ==> s.workers[w].Stopped?)
    ensures s.main.Draining? || s.main.Returned?
    ensures s.fetched == s.taken + s.dropped
    ensures multiset(s.taken) == multiset(MessagesOf(s.finished))
    ensures multiset(s.submitted) == multiset(Succeeded(s.finished))
  {
    AllStopped(s.workers);
    assert s.workers[0].Stopped?;
    assert s.jobs + (InHand(s) + s.dropped) == s.dropped;
  }

  // ---------- what Run returns ----------

  predicate FetchFailed(ls: seq<Label>) {
    exists i :: 0 <= i < |ls| && ls[i].FetchError?
  }

  predicate Cancelled(ls: seq<Label>) {
    exists i :: 0 <= i < |ls| && ls[i].Cancel?
  }

  /** The context was cancelled by the time Run returned. */
  predicate CancelledInTime(ls: seq<Label>) {
    exists i, j :: 0 <= i < j < |ls| && ls[i].Cancel? && ls[j].Return?
  }

  /** The state agrees with the labels about errors and cancellation. */
  ghost predicate AsLabelled(s: State, ls: seq<Label>) {
    && (s.cancelled <==> Cancelled(ls))
    && (s.main.Draining? ==> (s.main.failed <==> FetchFailed(ls)))
    && (s.main.Fetching? || s.main.Sending? ==> !FetchFailed(ls))
    && (s.main.Returned? ==> (s.main.error <==> FetchFailed(ls) && !CancelledInTime(ls)))
    && (!s.main.Returned? ==> forall i :: 0 <= i < |ls| ==> !ls[i].Return?)
    && (s.closed ==> FetchFailed(ls) || Cancelled(ls))
    && (s.dropped != [] ==> Cancelled(ls) && !FetchFailed(ls))
  }

  lemma LabelsGrow(ls: seq<Label>)
    requires ls != []
    ensures var before, l := ls[..|ls| - 1], ls[|ls| - 1];
            && (FetchFailed(ls) <==> FetchFailed(before) || l.FetchError?)
            && (Cancelled(ls) <==> Cancelled(before) || l.Cancel?)
            && (CancelledInTime(ls) <==> CancelledInTime(before) || (Cancelled(before) && l.Return?))
  {
    var before, l := ls[..|ls| - 1], ls[|ls| - 1];
    assert forall i :: 0 <= i < |before| ==> before[i] == ls[i];
    if Cancelled(before) && l.Return? {
      var i :| 0 <= i < |before| && before[i].Cancel?;
      assert ls[i].Cancel? && ls[|before|].Return?;
    }
    if CancelledInTime(before) {
      var i, j :| 0 <= i < j < |before| && before[i].Cancel? && before[j].Return?;
      assert ls[i].Cancel? && ls[j].Return?;
    }
    if CancelledInTime(ls) {
      var i, j :| 0 <= i < j < |ls| && ls[i].Cancel? && ls[j].Return?;
      assert before[i].Cancel?;
      assert j < |before| ==> before[j].Return?;
    }
  }

  lemma NoReturnYet(ls: seq<Label>)
    requires forall i :: 0 <= i < |ls| ==> !ls[i].Return?
    ensures !CancelledInTime(ls)
  {
  }

  lemma StepAsLabelled(c: Config, s: State, ls: seq<Label>)
    requires ls != [] && Orderly(c, s) && AsLabelled(s, ls[..|ls| - 1]) && Enabled(c, s, ls[|ls| - 1])
    ensures AsLabelled(Apply(c, s, ls[|ls| - 1]), ls)
  {
    LabelsGrow(ls);
    if !s.main.Returned? {
      NoReturnYet(ls[..|ls| - 1]);
    }
  }

  lemma {:induction false} EveryStateAsLabelled(c: Config, ls: seq<Label>)
    requires CanRun(c, Start(c), ls)
    ensures AsLabelled(Run(c, Start(c), ls), ls)
  {
    if ls != [] {
      EveryStateAsLabelled(c, ls[..|ls| - 1]);
      EveryStateConserves(c, ls[..|ls| - 1]);
      StepAsLabelled(c, Run(c, Start(c), ls[..|ls| - 1]), ls);
    }
  }

  /**
   Run returns an error exactly when a fetch failed and the context had not been cancelled by then; and a fetched
   message is dropped only when the context was cancelled while the queue was full.
   */
  lemma ReturnsErrorIff(c: Config, ls: seq<Label>)
    requires CanRun(c, Start(c), ls) && Run(c, Start(c), ls).main.Returned?
    ensures Run(c, Start(c), ls).main.error <==> FetchFailed(ls) && !CancelledInTime(ls)
    ensures FetchFailed(ls) || Cancelled(ls)
    ensures Run(c, Start(c), ls).dropped != [] ==> Cancelled(ls) && !FetchFailed(ls)
  {
    EveryStateAsLabelled(c, ls);
    EveryStateConserves(c, ls);
  }

  // ---------- shutdown ends ----------

  function Remaining(s: State): nat {
    4 * |s.jobs| + AllWorkLeft(s.workers) + if s.main.Draining? then 1 else 0
  }

  lemma WorkerShrinks(c: Config, s: State, l: Label)
    requires Enabled(c, s, l) && ByWorker(l)
    ensures l.worker < |s.workers| == |Apply(c, s, l).workers|
    ensures 4 * |Apply(c, s, l).jobs| + WorkLeft(Apply(c, s, l).workers[l.worker]) < 4 * |s.jobs| + WorkLeft(s.workers[l.worker])
    ensures s.main.Draining? ==> Apply(c, s, l).main.Draining?
  {
  }

  lemma DrainStepShrinks(c: Config, s: State, l: Label)
    requires s.main.Draining? && Enabled(c, s, l) && !l.Cancel?
    ensures Remaining(Apply(c, s, l)) < Remaining(s)
    ensures Apply(c, s, l).main.Draining? || Apply(c, s, l).main.Returned?
  {
    WorkerStep(c, s, l);
    if ByWorker(l) {
      WorkerShrinks(c, s, l);
      WorkLeftAfter(s.workers, l.worker, Apply(c, s, l).workers[l.worker]);
    }
  }

  /** While the loop is draining some step other than a cancellation can always be taken. */
  lemma DrainNeverSticks(c: Config, s: State) returns (l: Label)
    requires Orderly(c, s) && s.main.Draining?
    ensures Enabled(c, s, l) && !l.Cancel?
  {
    if w :| 0 <= w < |s.workers| && !s.workers[w].Stopped? {
      if s.main.reported == c.workers {
        AllStopped(s.workers);
      }
      match s.workers[w]
      case Idle => l := if s.jobs != [] then Take(w) else Leave(w);
      case Handling(_) => l := Handled(w, true);
      case Committing(_) => l := Commit(w);
      case Leaving => l := Report(w);
    } else {
      NoneRunning(s.workers);
      l := Return;
    }
  }

  lemma {:induction false} NoneRunning(ws: seq<Worker>)
    requires forall w :: 0 <= w < |ws| ==> ws[w].Stopped?
    ensures CountStopped(ws) == |ws|
  {
    if ws != [] {
      NoneRunning(ws[1..]);
    }
  }

  /** Labels after a shutdown has begun, cancellations aside. */
  ghost predicate NoCancel(ls: seq<Label>) {
    forall i :: 0 <= i < |ls| ==> !ls[i].Cancel?
  }

  /**
   Once the loop is draining, Run returns: every continuation without further cancellations takes at most
   `Remaining` steps, and one that cannot be extended has returned.
   */
  lemma {:induction false} ShutdownEnds(c: Config, s: State, ls: seq<Label>)
    requires Orderly(c, s) && s.main.Draining? && CanRun(c, s, ls) && NoCancel(ls)
    ensures Orderly(c, Run(c, s, ls))
    ensures Run(c, s, ls).main.Returned? || Run(c, s, ls).main.Draining?
    ensures |ls| + Remaining(Run(c, s, ls)) <= Remaining(s)
    ensures (forall l :: Enabled(c, Run(c, s, ls), l) ==> l.Cancel?) ==> Run(c, s, ls).main.Returned?
  {
    if ls != [] {
      var before := ls[..|ls| - 1];
      ShutdownEnds(c, s, before);
      StepKeepsOrder(c, Run(c, s, before), ls[|ls| - 1]);
      if Run(c, s, before).main.Draining? {
        DrainStepShrinks(c, Run(c, s, before), ls[|ls| - 1]);
      } else {
        NothingAfterReturn(c, Run(c, s, before), ls[|ls| - 1]);
      }
    }
    if Run(c, s, ls).main.Draining? {
      var l := DrainNeverSticks(c, Run(c, s, ls));
    }
  }

  lemma NothingAfterReturn(c: Config, s: State, l: Label)
    requires Orderly(c, s) && s.main.Returned? && Enabled(c, s, l)
    ensures l.Cancel?
  {
    AllStopped(s.workers);
  }

  // ---------- what the pool does not promise ----------

  lemma Extend(c: Config, s: State, ls: seq<Label>, l: Label)
    requires CanRun(c, s, ls) && Enabled(c, Run(c, s, ls), l)
    ensures CanRun(c, s, ls + [l]) && Run(c, s, ls + [l]) == Apply(c, Run(c, s, ls), l)
  {
    assert (ls + [l])[..|ls + [l]| - 1] == ls;
  }

  /** An idle loop and an idle worker pass one message on. */
  lemma PassOne(c: Config, s: State, ls: seq<Label>, m: Message, w: nat) returns (ls': seq<Label>)
    requires CanRun(c, s, ls) && c.depth > 0
    requires var now := Run(c, s, ls);
             now.main.Fetching? && now.jobs == [] && w < |now.workers| && now.workers[w].Idle?
    ensures CanRun(c, s, ls')
    ensures var now := Run(c, s, ls);
            Run(c, s, ls') == now.(fetched := now.fetched + [m], taken := now.taken + [m],
                                   workers := now.workers[w := Handling(m)])
  {
    Extend(c, s, ls, Fetch(m));
    var fetched := ls + [Fetch(m)];
    Extend(c, s, fetched, Enqueue);
    var queued := fetched + [Enqueue];
    assert Run(c, s, queued).jobs == [m] && Run(c, s, queued).workers[w].Idle?;
    Extend(c, s, queued, Take(w));
    ls' := queued + [Take(w)];
  }

  /** Both messages are fetched and each is inside a handler. */
  lemma BothTaken(c: Config, a: Message, b: Message) returns (ls: seq<Label>)
    requires c.workers >= 2 && c.depth >= 1
    ensures CanRun(c, Start(c), ls)
    ensures var s := Run(c, Start(c), ls);
            && s.fetched == [a, b] && s.finished == [] && s.submitted == []
            && |s.workers| == c.workers && s.workers[0] == Handling(a) && s.workers[1] == Handling(b)
  {
    ls := PassOne(c, Start(c), [], a, 0);
    ls := PassOne(c, Start(c), ls, b, 1);
  }

  /** With two workers or more the second message may be handled and committed first. */
  lemma SecondCommitted(c: Config, a: Message, b: Message) returns (ls: seq<Label>)
    requires c.workers >= 2 && c.depth >= 1
    ensures CanRun(c, Start(c), ls)
    ensures var s := Run(c, Start(c), ls);
            && s.fetched == [a, b] && s.finished == [Finish(b, true)] && s.submitted == [b]
            && |s.workers| == c.workers && s.workers[0] == Handling(a)
  {
    ls := BothTaken(c, a, b);
    Extend(c, Start(c), ls, Handled(1, true));
    ls := ls + [Handled(1, true)];
    Extend(c, Start(c), ls, Commit(1));
    ls := ls + [Commit(1)];
  }

  /** And the first one may then fail: it is skipped, behind a committed offset, and not delivered again. */
  lemma FailedMessageIsPassed(c: Config, a: Message, b: Message) returns (ls: seq<Label>)
    requires c.workers >= 2 && c.depth >= 1
    ensures CanRun(c, Start(c), ls)
    ensures var s := Run(c, Start(c), ls);
            s.fetched == [a, b] && s.finished == [Finish(b, true), Finish(a, false)] && s.submitted == [b]
  {
    ls := SecondCommitted(c, a, b);
    Extend(c, Start(c), ls, Handled(0, false));
    ls := ls + [Handled(0, false)];
    assert [Finish(b, true)] + [Finish(a, false)] == [Finish(b, true), Finish(a, false)];
  }

  /** With a single worker the handler returns in fetch order. */
  ghost predicate SingleFile(s: State) {
    && |s.workers| == 1
    && s.taken == MessagesOf(s.finished) + (if s.workers[0].Handling? then [s.workers[0].message] else [])
  }

  lemma StepKeepsSingleFile(c: Config, s: State, l: Label)
    requires SingleFile(s) && Enabled(c, s, l)
    ensures SingleFile(Apply(c, s, l))
  {
    if l.Handled? {
      assert Apply(c, s, l).finished[..|s.finished|] == s.finished;
    }
  }

  lemma {:induction false} OneWorkerKeepsOrder(c: Config, ls: seq<Label>)
    requires c.workers == 1 && CanRun(c, Start(c), ls)
    ensures SingleFile(Run(c, Start(c), ls))
    ensures MessagesOf(Run(c, Start(c), ls).finished) <= Run(c, Start(c), ls).fetched
  {
    if ls != [] {
      OneWorkerKeepsOrder(c, ls[..|ls| - 1]);
      StepKeepsSingleFile(c, Run(c, Start(c), ls[..|ls| - 1]), ls[|ls| - 1]);
    }
    EveryStateConserves(c, ls);
  }

  // ---------- when delivery is at least once ----------

  ghost predicate Distinct(messages: seq<Message>) {
    forall i, j :: 0 <= i < j < |messages| ==> messages[i] != messages[j]
  }

  /** A crash now loses nothing: whatever was fetched before a committed message has been handled successfully. */
  ghost predicate NothingPassed(s: State) {
    forall i, j :: 0 <= i < j < |s.fetched| && s.fetched[j] in s.submitted ==> s.fetched[i] in Succeeded(s.finished)
  }

  /** No committed message was handled after one that failed. */
  ghost predicate NoCommitBehindFailure(s: State) {
    forall i, j :: 0 <= i < j < |s.finished| && !s.finished[i].ok ==> s.finished[j].message !in s.submitted
  }

  /** With a single worker the commits follow the successes. */
  ghost predicate CommitsInFile(s: State) {
    && |s.workers| == 1
    && Succeeded(s.finished) == s.submitted + (if s.workers[0].Committing? then [s.workers[0].message] else [])
  }

  lemma StepKeepsCommitsInFile(c: Config, s: State, l: Label)
    requires CommitsInFile(s) && Enabled(c, s, l)
    ensures CommitsInFile(Apply(c, s, l))
  {
    if l.Handled? {
      FinishOneMore(s.finished, Finish(s.workers[0].message, l.ok));
    }
  }

  lemma {:induction false} OneWorkerCommitsInFile(c: Config, ls: seq<Label>)
    requires c.workers == 1 && CanRun(c, Start(c), ls)
    ensures CommitsInFile(Run(c, Start(c), ls))
  {
    if ls != [] {
      OneWorkerCommitsInFile(c, ls[..|ls| - 1]);
      StepKeepsCommitsInFile(c, Run(c, Start(c), ls[..|ls| - 1]), ls[|ls| - 1]);
    }
  }

  lemma {:induction false} MessagesAt(fs: seq<Finish>)
    ensures |MessagesOf(fs)| == |fs| && forall i :: 0 <= i < |fs| ==> MessagesOf(fs)[i] == fs[i].message
  {
    if fs != [] {
      MessagesAt(fs[..|fs| - 1]);
    }
  }

  lemma {:induction false} SuccessIsAReturn(fs: seq<Finish>, m: Message)
    requires m in Succeeded(fs)
    ensures exists k :: 0 <= k < |fs| && fs[k].ok && fs[k].message == m
  {
    var before := fs[..|fs| - 1];
    if m in Succeeded(before) {
      SuccessIsAReturn(before, m);
      var k :| 0 <= k < |before| && before[k].ok && before[k].message == m;
      assert fs[k] == before[k];
    } else {
      assert fs[|fs| - 1].ok && fs[|fs| - 1].message == m;
    }
  }

  /** The first p returns were successes, and the next, if any, was a failure. */
  ghost predicate FirstFailure(fs: seq<Finish>, p: nat) {
    p <= |fs| && (forall i :: 0 <= i < p ==> fs[i].ok) && (p < |fs| ==> !fs[p].ok)
  }

  lemma {:induction false} FindFirstFailure(fs: seq<Finish>) returns (p: nat)
    ensures FirstFailure(fs, p)
  {
    if fs == [] {
      p := 0;
    } else {
      p := FindFirstFailure(fs[..|fs| - 1]);
      if p == |fs| - 1 && fs[|fs| - 1].ok {
        p := |fs|;
      }
    }
  }

  lemma {:induction false} SuccessesUpToFailure(fs: seq<Finish>, p: nat)
    requires FirstFailure(fs, p)
    ensures p <= |Succeeded(fs)| && p <= |MessagesOf(fs)| && Succeeded(fs)[..p] == MessagesOf(fs)[..p]
    ensures |Succeeded(fs)| > p ==> exists j :: p < j < |fs| && fs[j].message == Succeeded(fs)[p]
  {
    if fs != [] {
      var before := fs[..|fs| - 1];
      MessagesAt(fs);
      MessagesAt(before);
      SuccessesUpToFailure(before, if p == |fs| then p - 1 else p);
      if p < |fs| && |Succeeded(fs)| > p {
        if |Succeeded(before)| > p {
          var j :| p < j < |before| && before[j].message == Succeeded(before)[p];
          assert fs[j].message == Succeeded(fs)[p];
        } else {
          assert fs[|fs| - 1].message == Succeeded(fs)[p];
        }
      } else if p == |fs| {
        assert |Succeeded(before)| == p - 1;
      }
    }
  }

  lemma CommitsAreAPrefix(s: State)
    requires CommitsInFile(s) && MessagesOf(s.finished) <= s.fetched && NoCommitBehindFailure(s)
    ensures s.submitted <= s.fetched
  {
    var p := FindFirstFailure(s.finished);
    var done := Succeeded(s.finished);
    SuccessesUpToFailure(s.finished, p);
    assert |s.submitted| <= p;
    assert s.submitted == done[..p][..|s.submitted|];
  }

  lemma PrefixPassesNothing(s: State)
    requires CommitsInFile(s) && Distinct(s.fetched) && s.submitted <= s.fetched
    ensures NothingPassed(s)
  {
    forall i, j | 0 <= i < j < |s.fetched| && s.fetched[j] in s.submitted
      ensures s.fetched[i] in Succeeded(s.finished)
    {
      var k :| 0 <= k < |s.submitted| && s.submitted[k] == s.fetched[j];
      assert s.fetched[k] == s.fetched[j];
      assert Succeeded(s.finished)[i] == s.submitted[i];
    }
  }

  lemma PassedBehindFailure(s: State)
    requires MessagesOf(s.finished) <= s.fetched && Distinct(s.fetched) && NothingPassed(s)
    ensures NoCommitBehindFailure(s)
  {
    MessagesAt(s.finished);
    forall i, j | 0 <= i < j < |s.finished| && !s.finished[i].ok
      ensures s.finished[j].message !in s.submitted
    {
      assert s.fetched[i] == s.finished[i].message && s.fetched[j] == s.finished[j].message;
      if s.fetched[j] in s.submitted {
        SuccessIsAReturn(s.finished, s.fetched[i]);
      }
    }
  }

  /**
   With one worker, a crash loses nothing exactly when no committed message was handled after a failed one; the
   committed messages are then the first ones fetched.
   */
  lemma OneWorkerPassesNothingIff(c: Config, ls: seq<Label>)
    requires c.workers == 1 && CanRun(c, Start(c), ls) && Distinct(Run(c, Start(c), ls).fetched)
    ensures NothingPassed(Run(c, Start(c), ls)) <==> NoCommitBehindFailure(Run(c, Start(c), ls))
    ensures NothingPassed(Run(c, Start(c), ls)) <==> Run(c, Start(c), ls).submitted <= Run(c, Start(c), ls).fetched
  {
    var s := Run(c, Start(c), ls);
    OneWorkerKeepsOrder(c, ls);
    OneWorkerCommitsInFile(c, ls);
    if NoCommitBehindFailure(s) {
      CommitsAreAPrefix(s);
    }
    if s.submitted <= s.fetched {
      PrefixPassesNothing(s);
    }
    if NothingPassed(s) {
      PassedBehindFailure(s);
    }
  }

  ghost predicate AllOk(s: State) {
    forall i :: 0 <= i < |s.finished| ==> s.finished[i].ok
  }

  /** If the run's messages are distinct and no handler has failed, a crash loses nothing. */
  ghost predicate SafeRun(c: Config, ls: seq<Label>)
    requires CanRun(c, Start(c), ls)
  {
    Distinct(Run(c, Start(c), ls).fetched) && AllOk(Run(c, Start(c), ls)) ==> NothingPassed(Run(c, Start(c), ls))
  }

  lemma SomethingPassed(c: Config) returns (ls: seq<Label>)
    requires c.workers >= 2 && c.depth >= 1
    ensures CanRun(c, Start(c), ls) && !SafeRun(c, ls)
  {
    var a, b := Message(1, 1, ""), Message(2, 1, "");
    ls := SecondCommitted(c, a, b);
    var s := Run(c, Start(c), ls);
    assert Succeeded([Finish(b, true)]) == [b];
    assert s.fetched[1] in s.submitted && s.fetched[0] !in Succeeded(s.finished);
  }

  /** Without failures delivery is at least once, in every run, exactly with a single worker. */
  lemma AtLeastOnceIffOneWorker(c: Config)
    requires c.workers >= 1 && c.depth >= 1
    ensures (forall ls :: CanRun(c, Start(c), ls) ==> SafeRun(c, ls)) <==> c.workers == 1
  {
    if c.workers == 1 {
      forall ls | CanRun(c, Start(c), ls) ensures SafeRun(c, ls) {
        if Distinct(Run(c, Start(c), ls).fetched) && AllOk(Run(c, Start(c), ls)) {
          OneWorkerPassesNothingIff(c, ls);
        }
      }
    } else {
      var ls := SomethingPassed(c);
    }
  }

  // ---------- how much can be passed ----------

  /** The messages fetched before the j-th whose handlers have not returned. */
  function Unreturned(s: State, j: nat): set<int>
    requires j <= |s.fetched|
  {
    set i | 0 <= i < j && s.fetched[i] !in MessagesOf(s.finished)
  }

  lemma {:induction false} FewerInWorkers(ws: seq<Worker>, w: nat)
    requires w < |ws| && !ws[w].Handling?
    ensures |Processing(ws)| <= |ws| - 1
  {
    if w == 0 {
      FewInWorkers(ws[1..]);
    } else {
      FewerInWorkers(ws[1..], w - 1);
    }
  }

  lemma EmptyWithoutMembers(s: set<int>)
    ensures (forall x :: x !in s) ==> s == {}
  {
    if forall x :: x !in s {
      assert s == {};
    }
  }

  /** Different messages of a bag are at most as many as its members. */
  lemma {:induction false} IndicesFit(xs: seq<Message>, indices: set<int>, bag: multiset<Message>)
    requires Distinct(xs) && forall i :: i in indices ==> 0 <= i < |xs| && xs[i] in bag
    ensures |indices| <= |bag|
    decreases |indices|
  {
    if i :| i in indices {
      var rest := bag - multiset{xs[i]};
      forall k | k in indices - {i} ensures xs[k] in rest {
        assert xs[k] != xs[i];
      }
      IndicesFit(xs, indices - {i}, rest);
      assert |bag| == |rest| + 1;
      assert |indices| == |indices - {i}| + 1;
    } else {
      EmptyWithoutMembers(indices);
    }
  }

  lemma FinishedAreFetched(s: State, m: Message)
    requires InOrder(s) && TakenAccounted(s) && m in MessagesOf(s.finished)
    ensures m in s.taken && m in s.fetched
  {
    assert m in multiset(MessagesOf(s.finished));
    assert m in multiset(s.taken);
  }

  /** When its handler returns, what was taken before a message and has not returned is in the other workers. */
  lemma OthersHoldTheRest(s: State, w: nat, j: nat)
    requires InOrder(s) && TakenAccounted(s) && Distinct(s.fetched)
    requires w < |s.workers| && !s.workers[w].Handling?
    requires j < |s.fetched| && s.fetched[j] in MessagesOf(s.finished)
    ensures |Unreturned(s, j)| <= |s.workers| - 1
  {
    FinishedAreFetched(s, s.fetched[j]);
    var k :| 0 <= k < |s.taken| && s.taken[k] == s.fetched[j];
    assert s.fetched[k] == s.fetched[j] && k == j;
    forall i | i in Unreturned(s, j) ensures s.fetched[i] in Processing(s.workers) {
      assert s.fetched[i] == s.taken[i] && s.taken[i] in multiset(s.taken);
    }
    IndicesFit(s.fetched, Unreturned(s, j), Processing(s.workers));
    FewerInWorkers(s.workers, w);
  }

  ghost predicate FewUnreturned(c: Config, s: State, j: nat)
    requires j < |s.fetched|
  {
    s.fetched[j] in MessagesOf(s.finished) ==> |Unreturned(s, j)| <= c.workers - 1
  }

  lemma StepFinishes(c: Config, s: State, l: Label)
    requires Enabled(c, s, l)
    ensures l.Handled? ==>
      && l.worker < |s.workers| == |Apply(c, s, l).workers| && !Apply(c, s, l).workers[l.worker].Handling?
      && MessagesOf(Apply(c, s, l).finished) == MessagesOf(s.finished) + [s.workers[l.worker].message]
    ensures !l.Handled? ==> Apply(c, s, l).finished == s.finished
    ensures Apply(c, s, l).fetched == s.fetched + if l.Fetch? then [l.message] else []
  {
    if l.Handled? {
      FinishOneMore(s.finished, Finish(s.workers[l.worker].message, l.ok));
    } else if !l.Fetch? {
      assert s.fetched + [] == s.fetched;
    }
  }

  lemma SmallerSet(a: set<int>, b: set<int>)
    requires a <= b
    ensures |a| <= |b|
  {
    assert a + (b - a) == b;
  }

  lemma DistinctPrefix(xs: seq<Message>, ys: seq<Message>)
    requires Distinct(xs + ys)
    ensures Distinct(xs)
  {
    forall i, j | 0 <= i < j < |xs| ensures xs[i] != xs[j] {
      assert (xs + ys)[i] == xs[i] && (xs + ys)[j] == xs[j];
    }
  }

  lemma NoMoreUnreturned(c: Config, s: State, s': State, j: nat)
    requires j < |s.fetched| && s.fetched <= s'.fetched && FewUnreturned(c, s, j)
    requires forall m :: m in MessagesOf(s.finished) ==> m in MessagesOf(s'.finished)
    requires s'.fetched[j] in MessagesOf(s.finished)
    ensures FewUnreturned(c, s', j)
  {
    SmallerSet(Unreturned(s', j), Unreturned(s, j));
  }

  lemma FirstFetchedThere(s: State, fetched: seq<Message>, j: nat)
    requires InOrder(s) && TakenAccounted(s) && s.fetched <= fetched && Distinct(fetched)
    requires j < |fetched| && fetched[j] in MessagesOf(s.finished)
    ensures j < |s.fetched|
  {
    FinishedAreFetched(s, fetched[j]);
    var k :| 0 <= k < |s.fetched| && s.fetched[k] == fetched[j];
    assert fetched[k] == fetched[j];
  }

  lemma ReturnKeepsFew(c: Config, s: State, l: Label, j: nat)
    requires Orderly(c, s) && Conserved(s) && Enabled(c, s, l) && l.Handled? && Distinct(s.fetched)
    requires j < |s.fetched| && FewUnreturned(c, s, j)
    ensures j < |Apply(c, s, l).fetched| && FewUnreturned(c, Apply(c, s, l), j)
  {
    var s' := Apply(c, s, l);
    StepFinishes(c, s, l);
    StepConserves(c, s, l);
    if s.fetched[j] in MessagesOf(s.finished) {
      NoMoreUnreturned(c, s, s', j);
    } else if s.fetched[j] in MessagesOf(s'.finished) {
      OthersHoldTheRest(s', l.worker, j);
    }
  }

  lemma OtherKeepsFew(c: Config, s: State, l: Label, j: nat)
    requires Orderly(c, s) && Conserved(s) && Enabled(c, s, l) && !l.Handled? && Distinct(Apply(c, s, l).fetched)
    requires j < |Apply(c, s, l).fetched| && (j < |s.fetched| ==> FewUnreturned(c, s, j))
    ensures FewUnreturned(c, Apply(c, s, l), j)
  {
    var s' := Apply(c, s, l);
    StepFinishes(c, s, l);
    if s'.fetched[j] in MessagesOf(s.finished) {
      FirstFetchedThere(s, s'.fetched, j);
      NoMoreUnreturned(c, s, s', j);
    }
  }

  lemma StepKeepsFew(c: Config, s: State, l: Label, j: nat)
    requires Orderly(c, s) && Conserved(s) && Enabled(c, s, l) && Distinct(Apply(c, s, l).fetched)
    requires j < |Apply(c, s, l).fetched| && (j < |s.fetched| ==> FewUnreturned(c, s, j))
    ensures FewUnreturned(c, Apply(c, s, l), j)
  {
    if l.Handled? {
      ReturnKeepsFew(c, s, l, j);
    } else {
      OtherKeepsFew(c, s, l, j);
    }
  }

  lemma {:induction false} FewAreUnreturned(c: Config, ls: seq<Label>, j: nat)
    requires CanRun(c, Start(c), ls) && Distinct(Run(c, Start(c), ls).fetched) && j < |Run(c, Start(c), ls).fetched|
    ensures FewUnreturned(c, Run(c, Start(c), ls), j)
  {
    if ls != [] {
      var s, l := Run(c, Start(c), ls[..|ls| - 1]), ls[|ls| - 1];
      EveryStateConserves(c, ls[..|ls| - 1]);
      StepFinishes(c, s, l);
      DistinctPrefix(s.fetched, if l.Fetch? then [l.message] else []);
      if j < |s.fetched| {
        FewAreUnreturned(c, ls[..|ls| - 1], j);
      }
      StepKeepsFew(c, s, l, j);
    }
  }

  lemma CommittedWasHandled(c: Config, ls: seq<Label>, m: Message)
    requires CanRun(c, Start(c), ls) && m in Run(c, Start(c), ls).submitted
    ensures m in MessagesOf(Run(c, Start(c), ls).finished)
  {
    var s := Run(c, Start(c), ls);
    CommitOnlyAfterSuccess(c, ls);
    assert m in multiset(s.submitted);
    SuccessIsAReturn(s.finished, m);
    MessagesAt(s.finished);
  }

  /** Whatever fails, the handlers of all but `workers - 1` of the messages before a committed one have returned. */
  lemma FewArePassed(c: Config, ls: seq<Label>, j: nat)
    requires CanRun(c, Start(c), ls) && Distinct(Run(c, Start(c), ls).fetched)
    requires j < |Run(c, Start(c), ls).fetched| && Run(c, Start(c), ls).fetched[j] in Run(c, Start(c), ls).submitted
    ensures |Unreturned(Run(c, Start(c), ls), j)| <= c.workers - 1
  {
    CommittedWasHandled(c, ls, Run(c, Start(c), ls).fetched[j]);
    FewAreUnreturned(c, ls, j);
  }

  function Numbered(n: nat): seq<Message> {
    if n == 0 then [] else Numbered(n - 1) + [Message(n - 1, 1, "")]
  }

  lemma {:induction false} NumberedAt(n: nat)
    ensures |Numbered(n)| == n && forall i :: 0 <= i < n ==> Numbered(n)[i] == Message(i, 1, "")
  {
    if n > 0 {
      NumberedAt(n - 1);
    }
  }

  /** Each of the first n workers is inside the handler of its message, and nothing has returned. */
  ghost predicate AllBusy(c: Config, s: State, n: nat) {
    && |s.workers| == c.workers && n <= c.workers && s.main.Fetching? && s.jobs == [] && s.fetched == Numbered(n)
    && (forall w :: 0 <= w < n ==> s.workers[w] == Handling(Message(w, 1, "")))
    && (forall w :: n <= w < c.workers ==> s.workers[w].Idle?)
    && s.finished == [] && s.submitted == []
  }

  lemma {:induction false} MakeBusy(c: Config, n: nat) returns (ls: seq<Label>)
    requires c.depth >= 1 && n <= c.workers
    ensures CanRun(c, Start(c), ls) && AllBusy(c, Run(c, Start(c), ls), n)
  {
    ls := [];
    if n > 0 {
      ls := MakeBusy(c, n - 1);
      ls := PassOne(c, Start(c), ls, Message(n - 1, 1, ""), n - 1);
    }
  }

  lemma OneReturned(c: Config, ls: seq<Label>, n: nat) returns (ls': seq<Label>)
    requires CanRun(c, Start(c), ls) && n < c.workers && AllBusy(c, Run(c, Start(c), ls), n + 1)
    ensures CanRun(c, Start(c), ls')
    ensures var s := Run(c, Start(c), ls');
            && s.fetched == Numbered(n + 1) && s.finished == [] + [Finish(Message(n, 1, ""), true)]
            && s.submitted == [Message(n, 1, "")]
  {
    Extend(c, Start(c), ls, Handled(n, true));
    Extend(c, Start(c), ls + [Handled(n, true)], Commit(n));
    ls' := ls + [Handled(n, true)] + [Commit(n)];
  }

  function UpTo(n: nat): set<int> {
    if n == 0 then {} else UpTo(n - 1) + {n - 1}
  }

  lemma {:induction false} CountUpTo(n: nat)
    ensures |UpTo(n)| == n && forall i :: i in UpTo(n) <==> 0 <= i < n
  {
    if n > 0 {
      CountUpTo(n - 1);
    }
  }

  lemma NumberedApart(n: nat)
    ensures Distinct(Numbered(n))
  {
    NumberedAt(n);
  }

  lemma NotTheLast(s: State, n: nat, i: nat)
    requires s.fetched == Numbered(n + 1) && MessagesOf(s.finished) == [Message(n, 1, "")] && i < n
    ensures i < |s.fetched| && s.fetched[i] !in MessagesOf(s.finished)
  {
    NumberedAt(n + 1);
    assert s.fetched[i] == Message(i, 1, "");
  }

  lemma AllUnreturned(s: State, n: nat)
    requires n <= |s.fetched| && forall i :: 0 <= i < n ==> s.fetched[i] !in MessagesOf(s.finished)
    ensures |Unreturned(s, n)| == n
  {
    CountUpTo(n);
    assert Unreturned(s, n) == UpTo(n);
  }

  lemma OnlyTheLast(s: State, n: nat)
    requires s.fetched == Numbered(n + 1) && MessagesOf(s.finished) == [Message(n, 1, "")]
    ensures |s.fetched| == n + 1 && s.fetched[n] == Message(n, 1, "") && |Unreturned(s, n)| == n
  {
    NumberedAt(n + 1);
    forall i | 0 <= i < n ensures s.fetched[i] !in MessagesOf(s.finished) {
      NotTheLast(s, n, i);
    }
    AllUnreturned(s, n);
  }

  /** And no fewer, without any failure: the last of `workers` messages can be committed before all the others. */
  lemma AsManyCanBePassed(c: Config) returns (ls: seq<Label>)
    requires c.workers >= 1 && c.depth >= 1
    ensures CanRun(c, Start(c), ls)
    ensures var s := Run(c, Start(c), ls);
            && |s.fetched| == c.workers && Distinct(s.fetched) && AllOk(s)
            && s.fetched[c.workers - 1] in s.submitted
            && |Unreturned(s, c.workers - 1)| == c.workers - 1
  {
    var n: nat := c.workers - 1;
    ls := MakeBusy(c, n + 1);
    ls := OneReturned(c, ls, n);
    FinishOneMore([], Finish(Message(n, 1, ""), true));
    NumberedApart(n + 1);
    OnlyTheLast(Run(c, Start(c), ls), n);
  }
}
