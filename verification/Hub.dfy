/**
 The broadcast hub of internal/realtime/hub.go. Subscribing and the first half of cancelling run under the write
 lock; publishers hold the read lock together, each sending to its key's channels one by one, in any order; the
 channel is closed after the write lock has been released.
 */
module Hub {
  const BUFFER_SIZE := 8

  /** The hub's two maps, as one map over two kinds of key. */
  datatype Key = Owner(id: int) | Listing(id: int)

  /**
   A subscriber's channel. `accepted` is everything ever put into the buffer and `received` what the subscriber has
   taken out; `due` holds the payloads of the publishes that found the channel in the map when they began.
   */
  datatype Channel = Channel(
    key: Key, buffer: seq<string>, closed: bool, cancelled: bool,
    accepted: seq<string>, received: seq<string>, dropped: multiset<string>, due: multiset<string>)

  /** A publish in progress and the channels it has not reached yet. */
  datatype Publish = Publish(key: Key, payload: string, left: set<int>)

  type Subscribers = map<Key, set<int>>

  datatype State = State(subs: Subscribers, channels: map<int, Channel>, publishing: map<int, Publish>, panicked: bool)

  datatype Label =
    | Subscribe(ch: int, key: Key)
    | Begin(p: int, key: Key, payload: string)
    | Send(p: int, ch: int)
    | End(p: int)
    | Receive(ch: int)
    | Remove(ch: int)
    | Close(ch: int)

  const EMPTY := State(map[], map[], map[], false)

  function SubscribersOf(subs: Subscribers, key: Key): set<int> {
    if key in subs then subs[key] else {}
  }

  function AddSub(subs: Subscribers, key: Key, ch: int): Subscribers {
    subs[key := SubscribersOf(subs, key) + {ch}]
  }

  /** delete(subs[key], ch), and the key with it when no subscriber is left. */
  function DropSub(subs: Subscribers, key: Key, ch: int): Subscribers {
    var rest := SubscribersOf(subs, key) - {ch};
    if rest == {} then subs - {key} else subs[key := rest]
  }

  function NewChannel(key: Key): Channel {
    Channel(key, [], false, false, [], [], multiset{}, multiset{})
  }

  /** The non-blocking send. */
  function Offer(c: Channel, payload: string): Channel {
    if |c.buffer| < BUFFER_SIZE then c.(buffer := c.buffer + [payload], accepted := c.accepted + [payload])
    else c.(dropped := c.dropped + multiset{payload})
  }

  /** The write lock is free of readers; `Remove` is used once for each channel, and `Close` once after it. */
  predicate Enabled(s: State, l: Label) {
    !s.panicked &&
    match l
    case Subscribe(ch, _) => ch !in s.channels && s.publishing == map[]
    case Begin(p, _, _) => p !in s.publishing
    case Send(p, ch) => p in s.publishing && ch in s.publishing[p].left && ch in s.channels
    case End(p) => p in s.publishing && s.publishing[p].left == {}
    case Receive(ch) => ch in s.channels && s.channels[ch].buffer != []
    case Remove(ch) => ch in s.channels && !s.channels[ch].cancelled && s.publishing == map[]
    case Close(ch) => ch in s.channels && s.channels[ch].cancelled && !s.channels[ch].closed
  }

  function Apply(s: State, l: Label): State
    requires Enabled(s, l)
  {
    match l
    case Subscribe(ch, key) =>
      s.(subs := AddSub(s.subs, key, ch), channels := s.channels[ch := NewChannel(key)])
    case Begin(p, key, payload) =>
      var targets := SubscribersOf(s.subs, key);
      s.(publishing := s.publishing[p := Publish(key, payload, targets)],
         channels := map ch | ch in s.channels ::
           if ch in targets then s.channels[ch].(due := s.channels[ch].due + multiset{payload}) else s.channels[ch])
    case Send(p, ch) =>
      var pub := s.publishing[p];
      s.(publishing := s.publishing[p := pub.(left := pub.left - {ch})],
         panicked := s.channels[ch].closed,
         channels := s.channels[ch := Offer(s.channels[ch], pub.payload)])
    case End(p) => s.(publishing := s.publishing - {p})
    case Receive(ch) =>
      var c := s.channels[ch];
      s.(channels := s.channels[ch := c.(buffer := c.buffer[1..], received := c.received + [c.buffer[0]])])
    case Remove(ch) =>
      s.(subs := DropSub(s.subs, s.channels[ch].key, ch), channels := s.channels[ch := s.channels[ch].(cancelled := true)])
    case Close(ch) => s.(channels := s.channels[ch := s.channels[ch].(closed := true)])
  }

  predicate CanRun(ls: seq<Label>)
    decreases |ls|, 0
  {
    ls == [] || (CanRun(ls[..|ls| - 1]) && Enabled(Run(ls[..|ls| - 1]), ls[|ls| - 1]))
  }

  /** The hub after any interleaving `ls` of subscribers, publishers and cancellations. */
  function Run(ls: seq<Label>): State
    requires CanRun(ls)
    decreases |ls|, 1
  {
    if ls == [] then EMPTY else Apply(Run(ls[..|ls| - 1]), ls[|ls| - 1])
  }

  // ---------- what every state keeps ----------

  /** The map holds exactly the channels that are not cancelled, under their keys, and no empty set. */
  ghost predicate Registered(s: State) {
    && (forall key :: key in s.subs ==> s.subs[key] != {})
    && (forall key, ch :: key in s.subs && ch in s.subs[key] ==> ch in s.channels && s.channels[ch].key == key && !s.channels[ch].cancelled)
    && (forall ch :: ch in s.channels && !s.channels[ch].cancelled ==> ch in SubscribersOf(s.subs, s.channels[ch].key))
  }

  /** Publishers in progress only hold channels that are still registered under their key. */
  ghost predicate LeftRegistered(s: State) {
    forall p, ch :: p in s.publishing && ch in s.publishing[p].left ==> ch in SubscribersOf(s.subs, s.publishing[p].key)
  }

  predicate Sound(c: Channel) {
    (c.closed ==> c.cancelled) && |c.buffer| <= BUFFER_SIZE && c.accepted == c.received + c.buffer
  }

  ghost predicate Channels(s: State) {
    forall ch :: ch in s.channels ==> Sound(s.channels[ch])
  }

  /** The publishers of a payload that still have to reach the channel. */
  function Pending(publishing: map<int, Publish>, ch: int, payload: string): set<int> {
    set p | p in publishing && ch in publishing[p].left && publishing[p].payload == payload
  }

  ghost predicate Counted(s: State, ch: int, x: string)
    requires ch in s.channels
  {
    var c := s.channels[ch];
    multiset(c.accepted)[x] + c.dropped[x] + |Pending(s.publishing, ch, x)| == c.due[x]
  }

  ghost predicate Accounts(s: State) {
    forall ch, x :: ch in s.channels ==> Counted(s, ch, x)
  }

  ghost predicate Inv(s: State) {
    !s.panicked && Registered(s) && LeftRegistered(s) && Channels(s) && Accounts(s)
  }

  lemma RegisteredStays(s: State, s': State)
    requires Registered(s) && s'.subs == s.subs && s'.channels.Keys == s.channels.Keys
    requires forall ch :: ch in s.channels ==>
               s'.channels[ch].key == s.channels[ch].key && s'.channels[ch].cancelled == s.channels[ch].cancelled
    ensures Registered(s')
  {
  }

  lemma SubscribeRegisters(s: State, ch: int, key: Key)
    requires Registered(s) && ch !in s.channels
    ensures Registered(s.(subs := AddSub(s.subs, key, ch), channels := s.channels[ch := NewChannel(key)]))
  {
  }

  lemma RemoveUnregisters(s: State, ch: int)
    requires Registered(s) && ch in s.channels && !s.channels[ch].cancelled
    ensures Registered(s.(subs := DropSub(s.subs, s.channels[ch].key, ch),
                          channels := s.channels[ch := s.channels[ch].(cancelled := true)]))
  {
  }

  lemma OtherStepsRegisterNobody(s: State, l: Label)
    requires Enabled(s, l) && !l.Subscribe? && !l.Remove?
    ensures Apply(s, l).subs == s.subs && Apply(s, l).channels.Keys == s.channels.Keys
  {
  }

  lemma OtherStepsKeepTheKey(s: State, l: Label, ch: int)
    requires Enabled(s, l) && !l.Subscribe? && !l.Remove? && ch in s.channels
    ensures ch in Apply(s, l).channels
    ensures Apply(s, l).channels[ch].key == s.channels[ch].key
    ensures Apply(s, l).channels[ch].cancelled == s.channels[ch].cancelled
  {
  }

  lemma StepKeepsRegistered(s: State, l: Label)
    requires Registered(s) && Enabled(s, l)
    ensures Registered(Apply(s, l))
  {
    if l.Subscribe? {
      SubscribeRegisters(s, l.ch, l.key);
    } else if l.Remove? {
      RemoveUnregisters(s, l.ch);
    } else {
      OtherStepsRegisterNobody(s, l);
      forall ch | ch in s.channels
        ensures Apply(s, l).channels[ch].key == s.channels[ch].key
        ensures Apply(s, l).channels[ch].cancelled == s.channels[ch].cancelled
      {
        OtherStepsKeepTheKey(s, l, ch);
      }
      RegisteredStays(s, Apply(s, l));
    }
  }

  lemma StepKeepsLeft(s: State, l: Label)
    requires Inv(s) && Enabled(s, l)
    ensures LeftRegistered(Apply(s, l)) && !Apply(s, l).panicked
  {
    if l.Send? {
      assert l.ch in SubscribersOf(s.subs, s.publishing[l.p].key);
      assert Sound(s.channels[l.ch]);
    }
  }

  lemma StepKeepsChannels(s: State, l: Label)
    requires Inv(s) && Enabled(s, l)
    ensures Channels(Apply(s, l))
  {
    if l.Receive? {
      var c := s.channels[l.ch];
      assert Sound(c);
      assert c.received + c.buffer == (c.received + [c.buffer[0]]) + c.buffer[1..];
    } else if l.Send? {
      var c := s.channels[l.ch];
      assert Sound(c);
      assert (c.received + c.buffer) + [s.publishing[l.p].payload] == c.received + (c.buffer + [s.publishing[l.p].payload]);
    }
  }

  lemma PendingOfBegin(s: State, l: Label, ch: int, x: string)
    requires Inv(s) && l.Begin? && Enabled(s, l)
    ensures Pending(Apply(s, l).publishing, ch, x)
         == Pending(s.publishing, ch, x) + (if ch in SubscribersOf(s.subs, l.key) && l.payload == x then {l.p} else {})
  {
  }

  lemma PendingOfSend(s: State, l: Label, ch: int, x: string)
    requires Inv(s) && l.Send? && Enabled(s, l)
    ensures Pending(Apply(s, l).publishing, ch, x)
         == Pending(s.publishing, ch, x) - (if ch == l.ch then {l.p} else {})
    ensures ch == l.ch ==> (l.p in Pending(s.publishing, ch, x) <==> s.publishing[l.p].payload == x)
  {
  }

  lemma PendingOfEnd(s: State, l: Label, ch: int, x: string)
    requires Inv(s) && l.End? && Enabled(s, l)
    ensures Pending(Apply(s, l).publishing, ch, x) == Pending(s.publishing, ch, x)
  {
  }

  lemma NothingPending(publishing: map<int, Publish>, ch: int, x: string)
    requires publishing == map[]
    ensures Pending(publishing, ch, x) == {}
  {
  }

  lemma OfferCounts(c: Channel, payload: string, x: string)
    ensures multiset(Offer(c, payload).accepted)[x] + Offer(c, payload).dropped[x]
         == multiset(c.accepted)[x] + c.dropped[x] + if x == payload then 1 else 0
  {
  }

  lemma StepKeepsCount(s: State, l: Label, ch: int, x: string)
    requires Inv(s) && Enabled(s, l) && ch in Apply(s, l).channels
    ensures Counted(Apply(s, l), ch, x)
  {
    if ch in s.channels {
      assert Counted(s, ch, x);
    }
    match l
    case Begin(_, _, _) => PendingOfBegin(s, l, ch, x);
    case Send(p, _) =>
      PendingOfSend(s, l, ch, x);
      OfferCounts(s.channels[l.ch], s.publishing[p].payload, x);
    case End(_) => PendingOfEnd(s, l, ch, x);
    case Subscribe(_, _) => NothingPending(s.publishing, ch, x);
    case _ =>
  }

  lemma {:induction false} EveryStateIsSound(ls: seq<Label>)
    requires CanRun(ls)
    ensures Inv(Run(ls))
  {
    if ls != [] {
      var s, l := Run(ls[..|ls| - 1]), ls[|ls| - 1];
      EveryStateIsSound(ls[..|ls| - 1]);
      StepKeepsRegistered(s, l);
      StepKeepsLeft(s, l);
      StepKeepsChannels(s, l);
      forall ch, x | ch in Apply(s, l).channels ensures Counted(Apply(s, l), ch, x) {
        StepKeepsCount(s, l, ch, x);
      }
    }
  }

  /** No interleaving sends on a closed channel, and no channel in the map is closed. */
  lemma NeverSendsOnClosed(ls: seq<Label>)
    requires CanRun(ls)
    ensures !Run(ls).panicked
    ensures forall key, ch :: key in Run(ls).subs && ch in Run(ls).subs[key] ==>
              ch in Run(ls).channels && !Run(ls).channels[ch].closed && Run(ls).channels[ch].key == key
    ensures forall key :: key in Run(ls).subs ==> Run(ls).subs[key] != {}
  {
    EveryStateIsSound(ls);
    var s := Run(ls);
    forall key, ch | key in s.subs && ch in s.subs[key] ensures ch in s.channels && !s.channels[ch].closed && s.channels[ch].key == key {
      assert Sound(s.channels[ch]);
    }
  }

  // ---------- what a subscriber is owed, read off the calls alone ----------

  /** The channel was subscribed to the key and its cancellation has not reached the map. */
  predicate Live(ls: seq<Label>, ch: int, key: Key) {
    ls != [] &&
    var before, l := ls[..|ls| - 1], ls[|ls| - 1];
    if l.Subscribe? && l.ch == ch then l.key == key
    else !(l.Remove? && l.ch == ch) && Live(before, ch, key)
  }

  /** The payloads published on the key while the channel was live, in the order the publishes began. */
  function Published(ls: seq<Label>, ch: int, key: Key): seq<string> {
    if ls == [] then []
    else
      var before, l := ls[..|ls| - 1], ls[|ls| - 1];
      if l.Begin? && l.key == key && Live(before, ch, key) then Published(before, ch, key) + [l.payload]
      else Published(before, ch, key)
  }

  /** The state agrees with the calls about one channel and one key. */
  ghost predicate AsCalled(s: State, ls: seq<Label>, ch: int, key: Key) {
    && (Live(ls, ch, key) <==> ch in s.channels && s.channels[ch].key == key && !s.channels[ch].cancelled)
    && (ch !in s.channels ==> Published(ls, ch, key) == [])
    && (ch in s.channels && s.channels[ch].key == key ==> s.channels[ch].due == multiset(Published(ls, ch, key)))
  }

  predicate LiveIn(s: State, ch: int, key: Key) {
    ch in s.channels && s.channels[ch].key == key && !s.channels[ch].cancelled
  }

  /** What a step does to one channel, read off the label. */
  ghost predicate Moves(s: State, l: Label, s': State, ch: int) {
    && (ch in s'.channels <==> ch in s.channels || (l.Subscribe? && l.ch == ch))
    && (l.Subscribe? && l.ch == ch ==> ch !in s.channels && s'.channels[ch] == NewChannel(l.key))
    && (l.Begin? ==> (ch in SubscribersOf(s.subs, l.key) <==> LiveIn(s, ch, l.key)))
    && (ch in s.channels ==>
          var c, c' := s.channels[ch], s'.channels[ch];
          && c'.key == c.key
          && (c'.cancelled <==> c.cancelled || (l.Remove? && l.ch == ch))
          && c'.due == (if l.Begin? && LiveIn(s, ch, l.key) then c.due + multiset{l.payload} else c.due)
          && (c'.accepted == c.accepted
              || (l.Send? && l.ch == ch && l.p in s.publishing && ch in s.publishing[l.p].left
                  && c'.accepted == c.accepted + [s.publishing[l.p].payload])))
  }

  lemma StepMoves(s: State, l: Label, ch: int)
    requires Registered(s) && Enabled(s, l)
    ensures Moves(s, l, Apply(s, l), ch)
  {
    if l.Begin? {
      assert ch in SubscribersOf(s.subs, l.key) <==> LiveIn(s, ch, l.key);
    }
  }

  lemma StepAsCalled(s: State, s': State, ls: seq<Label>, ch: int, key: Key)
    requires ls != [] && Moves(s, ls[|ls| - 1], s', ch) && AsCalled(s, ls[..|ls| - 1], ch, key)
    ensures AsCalled(s', ls, ch, key)
  {
  }

  lemma {:induction false} EveryStateAsCalled(ls: seq<Label>, ch: int, key: Key)
    requires CanRun(ls)
    ensures AsCalled(Run(ls), ls, ch, key)
  {
    if ls != [] {
      EveryStateAsCalled(ls[..|ls| - 1], ch, key);
      EveryStateIsSound(ls[..|ls| - 1]);
      StepMoves(Run(ls[..|ls| - 1]), ls[|ls| - 1], ch);
      StepAsCalled(Run(ls[..|ls| - 1]), Run(ls), ls, ch, key);
    }
  }

  /** No publish under way still has to reach the channel. */
  ghost predicate NoneLeft(s: State, ch: int) {
    forall p :: p in s.publishing ==> ch !in s.publishing[p].left
  }

  lemma SameCounts(a: multiset<string>, b: multiset<string>)
    requires forall x :: a[x] == b[x]
    ensures a == b
  {
  }

  lemma NothingPendingFor(s: State, ch: int, x: string)
    requires NoneLeft(s, ch)
    ensures Pending(s.publishing, ch, x) == {}
  {
    EmptyWithoutMembers(Pending(s.publishing, ch, x));
  }

  /** Each payload published has been accepted, dropped or is still to be offered, exactly as often as published. */
  ghost predicate ExactAccount(s: State, ch: int, published: seq<string>)
    requires ch in s.channels
  {
    forall x :: multiset(s.channels[ch].accepted)[x] + s.channels[ch].dropped[x] + |Pending(s.publishing, ch, x)|
                == multiset(published)[x]
  }

  lemma CountedExactly(s: State, ch: int, published: seq<string>)
    requires Accounts(s) && ch in s.channels && s.channels[ch].due == multiset(published)
    ensures ExactAccount(s, ch, published)
  {
    forall x
      ensures multiset(s.channels[ch].accepted)[x] + s.channels[ch].dropped[x] + |Pending(s.publishing, ch, x)|
              == multiset(published)[x]
    {
      assert Counted(s, ch, x);
    }
  }

  lemma CountedAll(s: State, ch: int, published: seq<string>)
    requires ch in s.channels && NoneLeft(s, ch) && ExactAccount(s, ch, published)
    ensures multiset(s.channels[ch].accepted) + s.channels[ch].dropped == multiset(published)
  {
    forall x ensures (multiset(s.channels[ch].accepted) + s.channels[ch].dropped)[x] == multiset(published)[x] {
      NothingPendingFor(s, ch, x);
    }
    SameCounts(multiset(s.channels[ch].accepted) + s.channels[ch].dropped, multiset(published));
  }

  /**
   Subscribers receive what was accepted for them, in order, at most eight messages behind. At every moment each
   payload published on their own key while they were subscribed has been accepted, dropped, or is still to be offered
   by a publish under way, exactly as often as it was published; once no publish has to reach the channel any more,
   accepted and dropped payloads are all of them.
   */
  lemma EveryPublishIsDeliveredOrDropped(ls: seq<Label>, ch: int)
    requires CanRun(ls) && ch in Run(ls).channels
    ensures var s := Run(ls);
            var c := s.channels[ch];
            && c.accepted == c.received + c.buffer && |c.buffer| <= 8
            && ExactAccount(s, ch, Published(ls, ch, c.key))
            && (NoneLeft(s, ch) ==> multiset(c.accepted) + c.dropped == multiset(Published(ls, ch, c.key)))
  {
    EveryStateIsSound(ls);
    var s := Run(ls);
    var published := Published(ls, ch, s.channels[ch].key);
    EveryStateAsCalled(ls, ch, s.channels[ch].key);
    assert Sound(s.channels[ch]);
    CountedExactly(s, ch, published);
    if NoneLeft(s, ch) {
      CountedAll(s, ch, published);
    }
  }

  /** A message is dropped only on a full buffer, and a publish does not touch the channels of other keys. */
  lemma DropsOnlyWhenFull(ls: seq<Label>, l: Label, ch: int)
    requires CanRun(ls) && Enabled(Run(ls), l) && ch in Run(ls).channels
    ensures var before, after := Run(ls).channels[ch], Apply(Run(ls), l).channels[ch];
            && (after.dropped != before.dropped ==>
                  l.Send? && |before.buffer| == 8
                  && after == before.(dropped := before.dropped + multiset{Run(ls).publishing[l.p].payload}))
            && (l.Send? && Run(ls).publishing[l.p].key != before.key ==> after == before)
  {
    EveryStateIsSound(ls);
    var s := Run(ls);
    assert Sound(s.channels[ch]);
    if l.Send? {
      assert l.ch in SubscribersOf(s.subs, s.publishing[l.p].key);
    }
  }

  // ---------- what can always happen ----------

  /** Whatever is buffered can be received, also after the channel has been closed. */
  lemma BufferedCanBeReceived(ls: seq<Label>, ch: int)
    requires CanRun(ls) && ch in Run(ls).channels && Run(ls).channels[ch].buffer != []
    ensures Enabled(Run(ls), Receive(ch))
    ensures Apply(Run(ls), Receive(ch)).channels[ch].received
         == Run(ls).channels[ch].received + [Run(ls).channels[ch].buffer[0]]
  {
    EveryStateIsSound(ls);
  }

  /** Publishing never waits: it can begin at any time, beside others, offer to any channel left, and end. */
  lemma PublishNeverWaits(ls: seq<Label>, p: int, key: Key, payload: string)
    requires CanRun(ls)
    ensures p !in Run(ls).publishing ==> Enabled(Run(ls), Begin(p, key, payload))
    ensures p in Run(ls).publishing ==>
              forall ch :: ch in Run(ls).publishing[p].left ==> Enabled(Run(ls), Send(p, ch))
    ensures p in Run(ls).publishing && Run(ls).publishing[p].left == {} ==> Enabled(Run(ls), End(p))
  {
    EveryStateIsSound(ls);
    var s := Run(ls);
    if p in s.publishing {
      forall ch | ch in s.publishing[p].left ensures ch in s.channels {
        assert ch in SubscribersOf(s.subs, s.publishing[p].key);
      }
    }
  }

  /** Subscribing and cancelling wait for publishes only; closing waits for nothing. */
  lemma WritersWaitForPublishes(ls: seq<Label>, ch: int, key: Key)
    requires CanRun(ls)
    ensures ch !in Run(ls).channels && Run(ls).publishing == map[] ==> Enabled(Run(ls), Subscribe(ch, key))
    ensures ch in Run(ls).channels && !Run(ls).channels[ch].cancelled && Run(ls).publishing == map[] ==>
              Enabled(Run(ls), Remove(ch))
    ensures ch in Run(ls).channels && Run(ls).channels[ch].cancelled && !Run(ls).channels[ch].closed ==>
              Enabled(Run(ls), Close(ch))
  {
    EveryStateIsSound(ls);
  }

  // ---------- the order of messages ----------

  /** `xs` is `ys` with some elements left out. */
  predicate Subsequence(xs: seq<string>, ys: seq<string>) {
    xs == [] ||
    (ys != []
     && (Subsequence(xs, ys[..|ys| - 1])
         || (xs[|xs| - 1] == ys[|ys| - 1] && Subsequence(xs[..|xs| - 1], ys[..|ys| - 1]))))
  }

  lemma SubsequenceGrows(xs: seq<string>, ys: seq<string>, y: string)
    requires Subsequence(xs, ys)
    ensures Subsequence(xs, ys + [y]) && Subsequence(xs + [y], ys + [y])
  {
    assert (ys + [y])[..|ys + [y]| - 1] == ys && (xs + [y])[..|xs + [y]| - 1] == xs;
  }

  /** No publish on the key begins while another one on it is under way. */
  ghost predicate OneAtATime(ls: seq<Label>, key: Key)
    requires CanRun(ls)
  {
    ls == [] ||
    var before, l := ls[..|ls| - 1], ls[|ls| - 1];
    && OneAtATime(before, key)
    && (l.Begin? && l.key == key ==>
          forall p :: p in Run(before).publishing ==> Run(before).publishing[p].key != key)
  }

  ghost predicate AtMostOne(publishing: map<int, Publish>, key: Key) {
    forall p, q :: p in publishing && q in publishing && publishing[p].key == key && publishing[q].key == key ==> p == q
  }

  /** What a publish still has to offer the channel is the latest payload on its key. */
  ghost predicate LatestLeft(s: State, p: int, ch: int, published: seq<string>)
    requires ch in s.channels
  {
    p in s.publishing && ch in s.publishing[p].left ==>
      && published != [] && s.publishing[p].payload == published[|published| - 1]
      && Subsequence(s.channels[ch].accepted, published[..|published| - 1])
  }

  ghost predicate InSequence(s: State, ls: seq<Label>, ch: int, key: Key) {
    && AtMostOne(s.publishing, key)
    && (ch in s.channels && s.channels[ch].key == key ==>
          Subsequence(s.channels[ch].accepted, Published(ls, ch, key))
          && forall p :: LatestLeft(s, p, ch, Published(ls, ch, key)))
  }

  /** A publish that has not reached a channel is on its key. */
  ghost predicate OnKey(s: State, ch: int, key: Key) {
    ch in s.channels && s.channels[ch].key == key ==>
      forall p :: p in s.publishing && ch in s.publishing[p].left ==> s.publishing[p].key == key
  }

  lemma LeftOnKey(s: State, ch: int, key: Key)
    requires Inv(s)
    ensures OnKey(s, ch, key)
  {
    forall p | p in s.publishing && ch in s.publishing[p].left && ch in s.channels && s.channels[ch].key == key
      ensures s.publishing[p].key == key
    {
      assert ch in SubscribersOf(s.subs, s.publishing[p].key);
    }
  }

  /** What a step does to the publishes under way. */
  ghost predicate MovesPublishes(s: State, l: Label, s': State) {
    match l
    case Begin(p, key, payload) =>
      && p !in s.publishing
      && s'.publishing == s.publishing[p := Publish(key, payload, SubscribersOf(s.subs, key))]
    case Send(p, ch) =>
      && p in s.publishing && ch in s.publishing[p].left
      && s'.publishing == s.publishing[p := s.publishing[p].(left := s.publishing[p].left - {ch})]
    case End(p) => s'.publishing == s.publishing - {p}
    case _ => s'.publishing == s.publishing
  }

  lemma StepMovesPublishes(s: State, l: Label)
    requires Enabled(s, l)
    ensures MovesPublishes(s, l, Apply(s, l))
  {
  }

  lemma BeginAlone(s: State, s': State, l: Label, key: Key)
    requires l.Begin? && MovesPublishes(s, l, s') && AtMostOne(s.publishing, key)
    requires l.key == key ==> forall p :: p in s.publishing ==> s.publishing[p].key != key
    ensures AtMostOne(s'.publishing, key)
  {
  }

  /** A publish on the key makes its payload the latest one for the channel, if that is live. */
  lemma BeginLatest(s: State, s': State, l: Label, ch: int, key: Key, before: seq<string>, p: int)
    requires l.Begin? && Moves(s, l, s', ch) && MovesPublishes(s, l, s')
    requires ch in s.channels && s.channels[ch].key == key && LatestLeft(s, p, ch, before)
    requires Subsequence(s.channels[ch].accepted, before) && OnKey(s, ch, key)
    requires l.key == key ==> forall q :: q in s.publishing ==> s.publishing[q].key != key
    ensures LatestLeft(s', p, ch, if LiveIn(s, ch, l.key) then before + [l.payload] else before)
  {
    assert (before + [l.payload])[..|before + [l.payload]| - 1] == before;
  }

  lemma BeginPublished(s: State, ls: seq<Label>, ch: int, key: Key)
    requires ls != [] && ls[|ls| - 1].Begin? && AsCalled(s, ls[..|ls| - 1], ch, key)
    requires ch in s.channels && s.channels[ch].key == key
    ensures Published(ls, ch, key)
         == Published(ls[..|ls| - 1], ch, key)
            + if LiveIn(s, ch, ls[|ls| - 1].key) then [ls[|ls| - 1].payload] else []
  {
  }

  lemma BeginInSequence(s: State, s': State, ls: seq<Label>, ch: int, key: Key)
    requires ls != [] && ls[|ls| - 1].Begin?
    requires Moves(s, ls[|ls| - 1], s', ch) && MovesPublishes(s, ls[|ls| - 1], s')
    requires InSequence(s, ls[..|ls| - 1], ch, key) && AsCalled(s, ls[..|ls| - 1], ch, key) && OnKey(s, ch, key)
    requires ls[|ls| - 1].key == key ==> forall p :: p in s.publishing ==> s.publishing[p].key != key
    ensures InSequence(s', ls, ch, key)
  {
    var l, before := ls[|ls| - 1], Published(ls[..|ls| - 1], ch, key);
    BeginAlone(s, s', l, key);
    if ch in s.channels && s.channels[ch].key == key {
      BeginPublished(s, ls, ch, key);
      var after := if LiveIn(s, ch, l.key) then before + [l.payload] else before;
      assert Published(ls, ch, key) == after;
      SubsequenceGrows(s.channels[ch].accepted, before, l.payload);
      forall p ensures LatestLeft(s', p, ch, after) {
        assert LatestLeft(s, p, ch, before);
        BeginLatest(s, s', l, ch, key, before, p);
      }
    }
  }

  lemma SendInSequence(s: State, s': State, ls: seq<Label>, ch: int, key: Key)
    requires ls != [] && ls[|ls| - 1].Send?
    requires Moves(s, ls[|ls| - 1], s', ch) && MovesPublishes(s, ls[|ls| - 1], s')
    requires InSequence(s, ls[..|ls| - 1], ch, key) && OnKey(s, ch, key)
    ensures InSequence(s', ls, ch, key)
  {
    var l, published := ls[|ls| - 1], Published(ls[..|ls| - 1], ch, key);
    assert Published(ls, ch, key) == published;
    if ch in s.channels && s.channels[ch].key == key {
      if ch == l.ch {
        assert LatestLeft(s, l.p, ch, published);
        SubsequenceGrows(s.channels[ch].accepted, published[..|published| - 1], s.publishing[l.p].payload);
        assert published[..|published| - 1] + [s.publishing[l.p].payload] == published;
      }
      forall p ensures LatestLeft(s', p, ch, published) {
        assert LatestLeft(s, p, ch, published);
      }
    }
  }

  lemma OtherInSequence(s: State, s': State, ls: seq<Label>, ch: int, key: Key)
    requires ls != [] && !ls[|ls| - 1].Send? && !ls[|ls| - 1].Begin?
    requires Moves(s, ls[|ls| - 1], s', ch) && MovesPublishes(s, ls[|ls| - 1], s')
    requires InSequence(s, ls[..|ls| - 1], ch, key) && AsCalled(s, ls[..|ls| - 1], ch, key)
    requires ls[|ls| - 1].Subscribe? ==> s.publishing == map[]
    ensures InSequence(s', ls, ch, key)
  {
    var published := Published(ls[..|ls| - 1], ch, key);
    assert Published(ls, ch, key) == published;
    if ch in s.channels && s.channels[ch].key == key {
      forall p ensures LatestLeft(s', p, ch, published) {
        assert LatestLeft(s, p, ch, published);
      }
    }
  }

  lemma StepInSequence(s: State, s': State, ls: seq<Label>, ch: int, key: Key)
    requires ls != [] && Moves(s, ls[|ls| - 1], s', ch) && MovesPublishes(s, ls[|ls| - 1], s')
    requires InSequence(s, ls[..|ls| - 1], ch, key) && AsCalled(s, ls[..|ls| - 1], ch, key)
    requires OnKey(s, ch, key)
    requires ls[|ls| - 1].Subscribe? ==> s.publishing == map[]
    requires ls[|ls| - 1].Begin? && ls[|ls| - 1].key == key ==>
               forall p :: p in s.publishing ==> s.publishing[p].key != key
    ensures InSequence(s', ls, ch, key)
  {
    match ls[|ls| - 1]
    case Begin(_, _, _) => BeginInSequence(s, s', ls, ch, key);
    case Send(_, _) => SendInSequence(s, s', ls, ch, key);
    case _ => OtherInSequence(s, s', ls, ch, key);
  }

  /** When the publishes on a key do not overlap, its subscribers receive them in order, but for the dropped ones. */
  lemma {:induction false} MessagesArriveInOrder(ls: seq<Label>, ch: int, key: Key)
    requires CanRun(ls) && OneAtATime(ls, key)
    ensures InSequence(Run(ls), ls, ch, key)
    ensures ch in Run(ls).channels && Run(ls).channels[ch].key == key ==>
      Subsequence(Run(ls).channels[ch].accepted, Published(ls, ch, key))
  {
    if ls != [] {
      var before, l := ls[..|ls| - 1], ls[|ls| - 1];
      MessagesArriveInOrder(before, ch, key);
      EveryStateIsSound(before);
      EveryStateAsCalled(before, ch, key);
      LeftOnKey(Run(before), ch, key);
      StepMoves(Run(before), l, ch);
      StepMovesPublishes(Run(before), l);
      StepInSequence(Run(before), Run(ls), ls, ch, key);
    }
  }

  // ---------- the hub's own code ----------

  /** One offer to each of the targets, whatever the order. */
  function OfferAll(channels: map<int, Channel>, targets: set<int>, payload: string): map<int, Channel> {
    map ch | ch in channels :: if ch in targets then Offer(channels[ch], payload) else channels[ch]
  }

  lemma OfferOneMore(channels: map<int, Channel>, targets: set<int>, ch: int, payload: string)
    requires ch in channels && ch !in targets
    ensures OfferAll(channels, targets + {ch}, payload)
         == OfferAll(channels, targets, payload)[ch := Offer(channels[ch], payload)]
  {
  }

  class Registry {
    var subs: Subscribers
    var channels: map<int, Channel>

    ghost predicate Valid()
      reads this
    {
      Registered(State(subs, channels, map[], false)) && Channels(State(subs, channels, map[], false))
    }

    constructor ()
      ensures Valid() && subs == map[] && channels == map[]
    {
      subs, channels := map[], map[];
    }

    method SubscribeTo(key: Key, ch: int)
      requires Valid() && ch !in channels
      modifies this
      ensures Valid()
      ensures State(subs, channels, map[], false)
           == Apply(State(old(subs), old(channels), map[], false), Subscribe(ch, key))
    {
      ghost var before := State(subs, channels, map[], false);
      channels := channels[ch := NewChannel(key)];
      if key !in subs {
        subs := subs[key := {}];
      }
      subs := subs[key := subs[key] + {ch}];
      StepKeepsRegistered(before, Subscribe(ch, key));
    }

    /** The first half of cancelling, under the lock. */
    method RemoveChannel(ch: int)
      requires Valid() && ch in channels && !channels[ch].cancelled
      modifies this
      ensures Valid()
      ensures State(subs, channels, map[], false) == Apply(State(old(subs), old(channels), map[], false), Remove(ch))
    {
      ghost var before := State(subs, channels, map[], false);
      var key := channels[ch].key;
      channels := channels[ch := channels[ch].(cancelled := true)];
      subs := subs[key := subs[key] - {ch}];
      if |subs[key]| == 0 {
        subs := subs - {key};
      }
      assert subs == DropSub(before.subs, key, ch);
      StepKeepsRegistered(before, Remove(ch));
    }

    /** A publish that runs alone offers the payload once to each channel of its key, in whatever order it meets them. */
    method PublishTo(key: Key, payload: string)
      requires Valid()
      modifies this`channels
      ensures Valid()
      ensures channels == OfferAll(old(channels), SubscribersOf(subs, key), payload)
    {
      ghost var before := State(subs, channels, map[], false);
      assert forall ch :: ch in SubscribersOf(subs, key) ==> ch in channels;
      var offered := OfferEach(channels, SubscribersOf(subs, key), payload);
      channels := offered;
      forall ch | ch in channels ensures Sound(channels[ch]) {
        assert Sound(before.channels[ch]);
      }
      RegisteredStays(before, State(subs, channels, map[], false));
    }
  }

  lemma EmptyWithoutMembers(s: set<int>)
    ensures (forall x :: x !in s) ==> s == {}
  {
    if forall x :: x !in s {
      assert s == {};
    }
  }

  /** The loop over the channels of a key. */
  method OfferEach(channels: map<int, Channel>, targets: set<int>, payload: string) returns (offered: map<int, Channel>)
    requires targets <= channels.Keys
    ensures offered == OfferAll(channels, targets, payload)
  {
    offered := channels;
    var left := targets;
    while left != {}
      invariant left <= targets
      invariant offered == OfferAll(channels, targets - left, payload)
      decreases |left|
    {
      EmptyWithoutMembers(left);
      var ch :| ch in left;
      ghost var done := targets - left;
      OfferOneMore(channels, done, ch, payload);
      offered := offered[ch := Offer(offered[ch], payload)];
      left := left - {ch};
      assert targets - left == done + {ch};
    }
    assert targets - left == targets;
  }
}
