/**
 The fixed-window rate limiter of internal/cache/ratelimiter.go. Replicas share one Redis; reading the clock and
 INCR are one step, and the EXPIRE that the first request of a window sends may run at any later moment, or never.
 Times are milliseconds.
 */
module RateLimiter {
  import opened Wrappers
  import opened Text

  /** The limit, and the length of a window in milliseconds. */
  datatype Config = Config(max: int, window: nat)

  /** int64(window.Seconds()), the length of a slot in seconds. */
  function SlotSeconds(c: Config): nat {
    c.window / 1000
  }

  /** The length of a slot, and of a key's expiry, in milliseconds. */
  function SlotLength(c: Config): nat {
    1000 * SlotSeconds(c)
  }

  function SlotAt(c: Config, now: nat): nat
    requires c.window >= 1000
  {
    now / 1000 / SlotSeconds(c)
  }

  function WindowKey(key: string, slot: int): string {
    "gearshare:ratelimit:" + key + [':'] + PrintInt(slot)
  }

  datatype Counter = Counter(count: nat, expiresAt: Option<int>)

  type Redis = map<string, Counter>

  predicate Alive(redis: Redis, key: string, now: int) {
    key in redis && (redis[key].expiresAt.None? || now < redis[key].expiresAt.value)
  }

  /** INCR: an absent or expired key starts at one, without expiry. */
  function Incremented(redis: Redis, key: string, now: int): Counter {
    if Alive(redis, key, now) then redis[key].(count := redis[key].count + 1) else Counter(1, None)
  }

  datatype Arrival = Arrival(key: string, at: nat, slot: nat, allowed: bool)

  datatype State = State(redis: Redis, toExpire: set<string>, clock: nat, log: seq<Arrival>)

  datatype Label =
    | Request(key: string, now: nat)
    | Expire(key: string, slot: nat, now: nat)

  const EMPTY := State(map[], {}, 0, [])

  predicate Enabled(c: Config, s: State, l: Label) {
    l.now >= s.clock && (l.Expire? ==> WindowKey(l.key, l.slot) in s.toExpire)
  }

  function Apply(c: Config, s: State, l: Label): State
    requires c.window >= 1000
  {
    match l
    case Request(key, now) =>
      var slot := SlotAt(c, now);
      var wk := WindowKey(key, slot);
      var counter := Incremented(s.redis, wk, now);
      State(s.redis[wk := counter], if counter.count == 1 then s.toExpire + {wk} else s.toExpire, now,
            s.log + [Arrival(key, now, slot, counter.count <= c.max)])
    case Expire(key, slot, now) =>
      var wk := WindowKey(key, slot);
      State(if wk in s.redis then s.redis[wk := s.redis[wk].(expiresAt := Some(now + SlotLength(c)))] else s.redis,
            s.toExpire - {wk}, now, s.log)
  }

  predicate CanRun(c: Config, ls: seq<Label>)
    requires c.window >= 1000
    decreases |ls|, 0
  {
    ls == [] || (CanRun(c, ls[..|ls| - 1]) && Enabled(c, Run(c, ls[..|ls| - 1]), ls[|ls| - 1]))
  }

  function Run(c: Config, ls: seq<Label>): State
    requires c.window >= 1000 && CanRun(c, ls)
    decreases |ls|, 1
  {
    if ls == [] then EMPTY else Apply(c, Run(c, ls[..|ls| - 1]), ls[|ls| - 1])
  }

  class Limiter {
    var redis: Redis

    constructor ()
      ensures redis == map[]
    {
      redis := map[];
    }

    /** Allow, when its EXPIRE runs at once; `None` is the division by zero that a window below one second causes. */
    method Allow(c: Config, key: string, now: nat) returns (allowed: Option<bool>)
      modifies this
      ensures allowed.None? <==> c.window < 1000
      ensures allowed.None? ==> redis == old(redis)
      ensures allowed.Some? ==>
        var wk := WindowKey(key, SlotAt(c, now));
        var counter := Incremented(old(redis), wk, now);
        && allowed.value == (counter.count <= c.max)
        && redis == old(redis)[wk := if counter.count == 1 then Counter(1, Some(now + SlotLength(c))) else counter]
    {
      if SlotSeconds(c) == 0 {
        return None;
      }
      var wk := WindowKey(key, SlotAt(c, now));
      var counter := Incremented(redis, wk, now);
      redis := redis[wk := counter];
      if counter.count == 1 {
        redis := redis[wk := redis[wk].(expiresAt := Some(now + SlotLength(c)))];
      }
      return Some(counter.count <= c.max);
    }
  }

  // ---------- keys and slots ----------

  /** Different keys and slots never share a counter. */
  lemma WindowKeyOneToOne(key: string, slot: int, key': string, slot': int)
    ensures WindowKey(key, slot) == WindowKey(key', slot') <==> key == key' && slot == slot'
  {
    if WindowKey(key, slot) == WindowKey(key', slot') {
      PrintIntChars(slot);
      PrintIntChars(slot');
      LastSeparator("gearshare:ratelimit:" + key, PrintInt(slot), "gearshare:ratelimit:" + key', PrintInt(slot'), ':');
      assert key == ("gearshare:ratelimit:" + key)[20..] && key' == ("gearshare:ratelimit:" + key')[20..];
      PrintIntOneToOne(slot, slot');
    }
  }

  /** A counter's key as it stands in Redis: the 60-second slot of second 125 is number 2. */
  lemma KnownKey(c: Config)
    requires c.window == 60_000
    ensures SlotAt(c, 125_000) == 2 && WindowKey("ip:1", 2) == "gearshare:ratelimit:ip:1:2"
  {
    assert PrintInt(2) == "2";
  }

  lemma DivBounds(n: int, d: int)
    requires d > 0
    ensures n / d * d <= n < n / d * d + d
  {
  }

  lemma SlotBounds(c: Config, now: nat)
    requires c.window >= 1000
    ensures SlotAt(c, now) * SlotLength(c) <= now < (SlotAt(c, now) + 1) * SlotLength(c)
  {
    var w, q := SlotSeconds(c), now / 1000;
    var k := q / w;
    DivBounds(now, 1000);
    DivBounds(q, w);
    assert k * (1000 * w) == 1000 * (k * w);
    assert (k + 1) * (1000 * w) == 1000 * (k * w + w);
  }

  // ---------- counting ----------

  predicate InSlot(a: Arrival, key: string, slot: int) {
    a.key == key && a.slot == slot
  }

  function Arrivals(log: seq<Arrival>, key: string, slot: int): nat {
    if log == [] then 0
    else Arrivals(log[..|log| - 1], key, slot) + if InSlot(log[|log| - 1], key, slot) then 1 else 0
  }

  function Admitted(log: seq<Arrival>, key: string, slot: int): nat {
    if log == [] then 0
    else
      Admitted(log[..|log| - 1], key, slot)
      + if InSlot(log[|log| - 1], key, slot) && log[|log| - 1].allowed then 1 else 0
  }

  /** Admissions of a key in the interval [from, until). */
  function AdmittedWithin(log: seq<Arrival>, key: string, from: int, until: int): nat {
    if log == [] then 0
    else
      AdmittedWithin(log[..|log| - 1], key, from, until)
      + if log[|log| - 1].key == key && log[|log| - 1].allowed && from <= log[|log| - 1].at < until then 1 else 0
  }

  function AtMost(max: int, n: nat): nat {
    if max <= 0 then 0 else if n <= max then n else max
  }

  // ---------- what every run keeps ----------

  function CountOf(redis: Redis, wk: string): nat {
    if wk in redis then redis[wk].count else 0
  }

  /** A key's expiry, once set, is not inside its own slot. */
  ghost predicate OutlivesSlot(c: Config, redis: Redis, key: string, slot: nat) {
    WindowKey(key, slot) in redis && redis[WindowKey(key, slot)].expiresAt.Some? ==>
      redis[WindowKey(key, slot)].expiresAt.value >= (slot + 1) * SlotLength(c)
  }

  /** One key and slot: the counter is the number of arrivals, and min(max, arrivals) of them were admitted. */
  ghost predicate SlotInv(c: Config, s: State, key: string, slot: nat) {
    && CountOf(s.redis, WindowKey(key, slot)) == Arrivals(s.log, key, slot)
    && OutlivesSlot(c, s.redis, key, slot)
    && (WindowKey(key, slot) in s.toExpire ==> slot * SlotLength(c) <= s.clock)
    && Admitted(s.log, key, slot) == AtMost(c.max, Arrivals(s.log, key, slot))
  }

  lemma RequestInOwnSlot(c: Config, s: State, key: string, now: nat)
    requires c.window >= 1000 && now >= s.clock && SlotInv(c, s, key, SlotAt(c, now))
    ensures SlotInv(c, Apply(c, s, Request(key, now)), key, SlotAt(c, now))
  {
    SlotBounds(c, now);
    var s' := Apply(c, s, Request(key, now));
    var slot := SlotAt(c, now);
    var wk := WindowKey(key, slot);
    assert s'.log[..|s'.log| - 1] == s.log;
    assert wk in s.redis ==> Alive(s.redis, wk, now);
    assert s'.redis[wk].count == Arrivals(s.log, key, slot) + 1;
  }

  lemma RequestInOtherSlot(c: Config, s: State, l: Label, key: string, slot: nat)
    requires c.window >= 1000 && l.Request? && l.now >= s.clock && SlotInv(c, s, key, slot)
    requires l.key != key || SlotAt(c, l.now) != slot
    ensures SlotInv(c, Apply(c, s, l), key, slot)
  {
    WindowKeyOneToOne(l.key, SlotAt(c, l.now), key, slot);
    assert Apply(c, s, l).log[..|s.log|] == s.log;
  }

  lemma ExpireKeeps(c: Config, s: State, l: Label, key: string, slot: nat)
    requires c.window >= 1000 && l.Expire? && Enabled(c, s, l) && SlotInv(c, s, key, slot)
    ensures SlotInv(c, Apply(c, s, l), key, slot)
  {
    WindowKeyOneToOne(l.key, l.slot, key, slot);
    assert (slot + 1) * SlotLength(c) == slot * SlotLength(c) + SlotLength(c);
  }

  lemma {:induction false} EverySlotCounts(c: Config, ls: seq<Label>, key: string, slot: nat)
    requires c.window >= 1000 && CanRun(c, ls)
    ensures SlotInv(c, Run(c, ls), key, slot)
  {
    if ls != [] {
      var s, l := Run(c, ls[..|ls| - 1]), ls[|ls| - 1];
      EverySlotCounts(c, ls[..|ls| - 1], key, slot);
      if l.Expire? {
        ExpireKeeps(c, s, l, key, slot);
      } else if l.key == key && SlotAt(c, l.now) == slot {
        RequestInOwnSlot(c, s, key, l.now);
      } else {
        RequestInOtherSlot(c, s, l, key, slot);
      }
    }
  }

  /** For any arrivals, in any slot, exactly min(max, arrivals) requests of a key are admitted. */
  lemma SlotAdmitsExactly(c: Config, ls: seq<Label>, key: string, slot: nat)
    requires c.window >= 1000 && CanRun(c, ls)
    ensures Admitted(Run(c, ls).log, key, slot) == AtMost(c.max, Arrivals(Run(c, ls).log, key, slot))
  {
    EverySlotCounts(c, ls, key, slot);
  }

  /** A counter is never lost while its slot lasts. */
  lemma CounterLivesThroughItsSlot(c: Config, ls: seq<Label>, key: string, now: nat)
    requires c.window >= 1000 && CanRun(c, ls) && now >= Run(c, ls).clock
    requires WindowKey(key, SlotAt(c, now)) in Run(c, ls).redis
    ensures Alive(Run(c, ls).redis, WindowKey(key, SlotAt(c, now)), now)
  {
    EverySlotCounts(c, ls, key, SlotAt(c, now));
    SlotBounds(c, now);
  }

  // ---------- the expiry ----------

  /** How often the run sets the expiry of a slot's counter. */
  function Expiries(ls: seq<Label>, key: string, slot: int): nat {
    if ls == [] then 0
    else
      Expiries(ls[..|ls| - 1], key, slot)
      + if ls[|ls| - 1].Expire? && ls[|ls| - 1].key == key && ls[|ls| - 1].slot == slot then 1 else 0
  }

  /** The expiry is set once or still to be set, by the first request; and it is at most one slot away. */
  ghost predicate ExpiryInv(c: Config, s: State, ls: seq<Label>, key: string, slot: nat) {
    var wk := WindowKey(key, slot);
    && Expiries(ls, key, slot) + (if wk in s.toExpire then 1 else 0) == (if Arrivals(s.log, key, slot) > 0 then 1 else 0)
    && (wk in s.redis ==> (s.redis[wk].expiresAt.Some? <==> Expiries(ls, key, slot) == 1))
    && (wk in s.redis && s.redis[wk].expiresAt.Some? ==> s.redis[wk].expiresAt.value <= s.clock + SlotLength(c))
    && (Arrivals(s.log, key, slot) > 0 ==> wk in s.redis)
  }

  lemma RequestKeepsExpiry(c: Config, s: State, ls: seq<Label>, key: string, slot: nat)
    requires c.window >= 1000 && ls != [] && ls[|ls| - 1].Request? && ls[|ls| - 1].now >= s.clock
    requires ls[|ls| - 1].key == key && SlotAt(c, ls[|ls| - 1].now) == slot
    requires ExpiryInv(c, s, ls[..|ls| - 1], key, slot) && SlotInv(c, s, key, slot)
    ensures ExpiryInv(c, Apply(c, s, ls[|ls| - 1]), ls, key, slot)
  {
    var now := ls[|ls| - 1].now;
    SlotBounds(c, now);
    assert Apply(c, s, ls[|ls| - 1]).log[..|s.log|] == s.log;
    assert WindowKey(key, slot) in s.redis ==> Alive(s.redis, WindowKey(key, slot), now);
  }

  lemma OtherRequestKeepsExpiry(c: Config, s: State, ls: seq<Label>, key: string, slot: nat)
    requires c.window >= 1000 && ls != [] && ls[|ls| - 1].Request? && ls[|ls| - 1].now >= s.clock
    requires ls[|ls| - 1].key != key || SlotAt(c, ls[|ls| - 1].now) != slot
    requires ExpiryInv(c, s, ls[..|ls| - 1], key, slot)
    ensures ExpiryInv(c, Apply(c, s, ls[|ls| - 1]), ls, key, slot)
  {
    WindowKeyOneToOne(ls[|ls| - 1].key, SlotAt(c, ls[|ls| - 1].now), key, slot);
    assert Apply(c, s, ls[|ls| - 1]).log[..|s.log|] == s.log;
  }

  lemma ExpireKeepsExpiry(c: Config, s: State, ls: seq<Label>, key: string, slot: nat)
    requires c.window >= 1000 && ls != [] && ls[|ls| - 1].Expire? && Enabled(c, s, ls[|ls| - 1])
    requires ExpiryInv(c, s, ls[..|ls| - 1], key, slot)
    ensures ExpiryInv(c, Apply(c, s, ls[|ls| - 1]), ls, key, slot)
  {
    WindowKeyOneToOne(ls[|ls| - 1].key, ls[|ls| - 1].slot, key, slot);
  }

  /** Exactly the first request of a slot sets its counter's expiry, once, and to at most one slot length ahead. */
  lemma {:induction false} ExpirySetOnce(c: Config, ls: seq<Label>, key: string, slot: nat)
    requires c.window >= 1000 && CanRun(c, ls)
    ensures ExpiryInv(c, Run(c, ls), ls, key, slot)
  {
    if ls != [] {
      var before, l := ls[..|ls| - 1], ls[|ls| - 1];
      ExpirySetOnce(c, before, key, slot);
      EverySlotCounts(c, before, key, slot);
      if l.Expire? {
        ExpireKeepsExpiry(c, Run(c, before), ls, key, slot);
      } else if l.key == key && SlotAt(c, l.now) == slot {
        RequestKeepsExpiry(c, Run(c, before), ls, key, slot);
      } else {
        OtherRequestKeepsExpiry(c, Run(c, before), ls, key, slot);
      }
    }
  }

  // ---------- the bound over any interval ----------

  ghost predicate SlotsRight(c: Config, log: seq<Arrival>)
    requires c.window >= 1000
  {
    forall i :: 0 <= i < |log| ==> log[i].slot == SlotAt(c, log[i].at)
  }

  lemma {:induction false} LogSlotsRight(c: Config, ls: seq<Label>)
    requires c.window >= 1000 && CanRun(c, ls)
    ensures SlotsRight(c, Run(c, ls).log)
  {
    if ls != [] {
      LogSlotsRight(c, ls[..|ls| - 1]);
    }
  }

  /** From products that are apart to factors that are apart. */
  lemma Ordered(a: int, b: int, n: int)
    requires n > 0 && a * n < b * n
    ensures a < b
  {
    assert (a - b) * n == a * n - b * n;
    KeepsSign(a - b, n);
  }

  lemma KeepsSign(d: int, n: int)
    requires n > 0
    ensures d >= 0 ==> d * n >= 0
  {
  }

  lemma SlotsInOrder(c: Config, a: nat, b: nat)
    requires c.window >= 1000 && a <= b
    ensures SlotAt(c, a) <= SlotAt(c, b)
  {
    SlotBounds(c, a);
    SlotBounds(c, b);
    Ordered(SlotAt(c, a), SlotAt(c, b) + 1, SlotLength(c));
  }

  /** Admissions of a key in the n slots from `lo` on. */
  function Total(log: seq<Arrival>, key: string, lo: int, n: nat): nat {
    if n == 0 then 0 else Total(log, key, lo, n - 1) + Admitted(log, key, lo + n - 1)
  }

  lemma {:induction false} TotalOneMore(log: seq<Arrival>, a: Arrival, key: string, lo: int, n: nat)
    ensures Total(log + [a], key, lo, n)
         == Total(log, key, lo, n) + if a.key == key && a.allowed && lo <= a.slot < lo + n then 1 else 0
  {
    if n > 0 {
      TotalOneMore(log, a, key, lo, n - 1);
      assert (log + [a])[..|log + [a]| - 1] == log;
    }
  }

  lemma {:induction false} NoneAdmittedYet(key: string, lo: int, n: nat)
    ensures Total([], key, lo, n) == 0
  {
    if n > 0 {
      NoneAdmittedYet(key, lo, n - 1);
    }
  }

  /** How many slots the interval [from, until) meets. */
  function SlotsMet(c: Config, from: nat, until: nat): int
    requires c.window >= 1000 && from < until
  {
    SlotAt(c, until - 1) - SlotAt(c, from) + 1
  }

  lemma {:induction false} WithinSlotsMet(c: Config, log: seq<Arrival>, key: string, from: nat, until: nat)
    requires c.window >= 1000 && from < until && SlotsRight(c, log)
    ensures SlotsMet(c, from, until) >= 1
    ensures AdmittedWithin(log, key, from, until) <= Total(log, key, SlotAt(c, from), SlotsMet(c, from, until))
  {
    SlotsInOrder(c, from, until - 1);
    if log == [] {
      NoneAdmittedYet(key, SlotAt(c, from), SlotsMet(c, from, until));
    } else {
      var before, last := log[..|log| - 1], log[|log| - 1];
      WithinSlotsMet(c, before, key, from, until);
      assert log == before + [last];
      TotalOneMore(before, last, key, SlotAt(c, from), SlotsMet(c, from, until));
      if from <= last.at < until {
        SlotsInOrder(c, from, last.at);
        SlotsInOrder(c, last.at, until - 1);
      }
    }
  }

  lemma {:induction false} TotalAtMost(c: Config, ls: seq<Label>, key: string, lo: nat, n: nat)
    requires c.window >= 1000 && CanRun(c, ls) && c.max >= 0
    ensures Total(Run(c, ls).log, key, lo, n) <= n * c.max
  {
    if n > 0 {
      TotalAtMost(c, ls, key, lo, n - 1);
      SlotAdmitsExactly(c, ls, key, lo + n - 1);
      assert n * c.max == (n - 1) * c.max + c.max;
    }
  }

  /** Every interval admits at most the limit for each slot it meets. */
  lemma AnyIntervalAdmitsAtMost(c: Config, ls: seq<Label>, key: string, from: nat, until: nat)
    requires c.window >= 1000 && CanRun(c, ls) && c.max >= 0 && from < until
    ensures AdmittedWithin(Run(c, ls).log, key, from, until) <= SlotsMet(c, from, until) * c.max
  {
    LogSlotsRight(c, ls);
    WithinSlotsMet(c, Run(c, ls).log, key, from, until);
    TotalAtMost(c, ls, key, SlotAt(c, from), SlotsMet(c, from, until));
  }

  /**
   The number of slots that an interval of one window length can meet. A slot is the window cut to whole seconds, so
   a window that is longer by two milliseconds or more can hold a whole slot and a bit of both its neighbours.
   */
  function MostSlots(c: Config): nat {
    if c.window <= SlotLength(c) + 1 then 2 else 3
  }

  lemma WindowMeetsFewSlots(c: Config, from: nat)
    requires c.window >= 1000
    ensures SlotsMet(c, from, from + c.window) <= MostSlots(c)
  {
    var n := SlotLength(c);
    SlotBounds(c, from);
    SlotBounds(c, from + c.window - 1);
    var j, k := SlotAt(c, from), SlotAt(c, from + c.window - 1);
    DivBounds(c.window, 1000);
    assert (j + 1) * n + n == (j + 2) * n;
    assert (j + 2) * n + n == (j + 3) * n;
    Ordered(k, j + MostSlots(c), n);
  }

  lemma AtMostTimes(a: int, b: int, max: int)
    requires a <= b && max >= 0
    ensures a * max <= b * max
  {
  }

  /**
   Every interval of one window length, wherever it starts, admits at most twice the limit, or three times if the
   window is longer than its slots by two milliseconds or more.
   */
  lemma AnyWindowAdmitsAtMost(c: Config, ls: seq<Label>, key: string, from: nat)
    requires c.window >= 1000 && CanRun(c, ls) && c.max >= 0
    ensures AdmittedWithin(Run(c, ls).log, key, from, from + c.window) <= MostSlots(c) * c.max
  {
    AnyIntervalAdmitsAtMost(c, ls, key, from, from + c.window);
    WindowMeetsFewSlots(c, from);
    AtMostTimes(SlotsMet(c, from, from + c.window), MostSlots(c), c.max);
  }

  // ---------- and the bound is reached ----------

  /** A request below the limit is admitted. */
  lemma OneMore(c: Config, s: State, a: Arrival)
    requires c.window >= 1000 && a.at >= s.clock && a.slot == SlotAt(c, a.at) && a.allowed
    requires CountOf(s.redis, WindowKey(a.key, a.slot)) < c.max && OutlivesSlot(c, s.redis, a.key, a.slot)
    ensures Apply(c, s, Request(a.key, a.at)).log == s.log + [a]
    ensures Apply(c, s, Request(a.key, a.at)).clock == a.at
  {
  }

  lemma CountOneMore(log: seq<Arrival>, a: Arrival, key: string, slot: int, from: int, until: int)
    ensures Arrivals(log + [a], key, slot) == Arrivals(log, key, slot) + if InSlot(a, key, slot) then 1 else 0
    ensures AdmittedWithin(log + [a], key, from, until)
         == AdmittedWithin(log, key, from, until) + if a.key == key && a.allowed && from <= a.at < until then 1 else 0
  {
    assert (log + [a])[..|log + [a]| - 1] == log;
  }

  function Repeat(a: Arrival, n: nat): seq<Arrival> {
    if n == 0 then [] else Repeat(a, n - 1) + [a]
  }

  lemma AppendRepeated(log: seq<Arrival>, a: Arrival, n: nat)
    requires n > 0
    ensures log + Repeat(a, n) == log + Repeat(a, n - 1) + [a]
  {
  }

  lemma {:induction false} CountRepeated(log: seq<Arrival>, a: Arrival, n: nat, slot: int, from: int, until: int)
    requires a.allowed
    ensures Arrivals(log + Repeat(a, n), a.key, slot) == Arrivals(log, a.key, slot) + if a.slot == slot then n else 0
    ensures AdmittedWithin(log + Repeat(a, n), a.key, from, until)
         == AdmittedWithin(log, a.key, from, until) + if from <= a.at < until then n else 0
  {
    if n == 0 {
      assert log + Repeat(a, n) == log;
    } else {
      CountRepeated(log, a, n - 1, slot, from, until);
      CountOneMore(log + Repeat(a, n - 1), a, a.key, slot, from, until);
      AppendRepeated(log, a, n);
    }
  }

  lemma Extend(c: Config, ls: seq<Label>, l: Label)
    requires c.window >= 1000 && CanRun(c, ls) && Enabled(c, Run(c, ls), l)
    ensures CanRun(c, ls + [l]) && Run(c, ls + [l]) == Apply(c, Run(c, ls), l)
  {
    assert (ls + [l])[..|ls + [l]| - 1] == ls;
  }

  lemma BurstStep(c: Config, ls: seq<Label>, a: Arrival) returns (ls': seq<Label>)
    requires c.window >= 1000 && CanRun(c, ls) && a.at >= Run(c, ls).clock && a.slot == SlotAt(c, a.at) && a.allowed
    requires Arrivals(Run(c, ls).log, a.key, a.slot) < c.max
    ensures CanRun(c, ls') && Run(c, ls').clock == a.at && Run(c, ls').log == Run(c, ls).log + [a]
  {
    var l := Request(a.key, a.at);
    EverySlotCounts(c, ls, a.key, a.slot);
    OneMore(c, Run(c, ls), a);
    Extend(c, ls, l);
    ls' := ls + [l];
  }

  lemma StillBelow(log: seq<Arrival>, a: Arrival, n: nat, max: int)
    requires a.allowed && Arrivals(log, a.key, a.slot) + n < max
    ensures Arrivals(log + Repeat(a, n), a.key, a.slot) < max
  {
    CountRepeated(log, a, n, a.slot, 0, 0);
  }

  /** `ls'` extends `ls` by n admitted copies of one arrival. */
  ghost predicate Extends(c: Config, ls: seq<Label>, ls': seq<Label>, a: Arrival, n: nat)
    requires c.window >= 1000 && CanRun(c, ls)
  {
    && CanRun(c, ls')
    && Run(c, ls').clock <= a.at
    && Run(c, ls').log == Run(c, ls).log + Repeat(a, n)
  }

  lemma ExtendsByNone(c: Config, ls: seq<Label>, a: Arrival)
    requires c.window >= 1000 && CanRun(c, ls) && a.at >= Run(c, ls).clock
    ensures Extends(c, ls, ls, a, 0)
  {
    assert Run(c, ls).log + Repeat(a, 0) == Run(c, ls).log;
  }

  lemma ExtendsByOne(c: Config, ls: seq<Label>, before: seq<Label>, a: Arrival, n: nat) returns (ls': seq<Label>)
    requires c.window >= 1000 && CanRun(c, ls) && n > 0 && Extends(c, ls, before, a, n - 1)
    requires a.at >= Run(c, ls).clock && a.slot == SlotAt(c, a.at) && a.allowed
    requires Arrivals(Run(c, ls).log, a.key, a.slot) + n <= c.max
    ensures Extends(c, ls, ls', a, n)
  {
    StillBelow(Run(c, ls).log, a, n - 1, c.max);
    ls' := BurstStep(c, before, a);
    AppendRepeated(Run(c, ls).log, a, n);
  }

  /** Requests below the limit, all at one moment. */
  lemma {:induction false} Burst(c: Config, ls: seq<Label>, a: Arrival, n: nat) returns (ls': seq<Label>)
    requires c.window >= 1000 && CanRun(c, ls) && a.at >= Run(c, ls).clock && a.slot == SlotAt(c, a.at) && a.allowed
    requires Arrivals(Run(c, ls).log, a.key, a.slot) + n <= c.max
    ensures Extends(c, ls, ls', a, n)
    decreases n
  {
    if n == 0 {
      ls' := ls;
      ExtendsByNone(c, ls, a);
    } else {
      var before := Burst(c, ls, a, n - 1);
      ls' := ExtendsByOne(c, ls, before, a, n);
    }
  }

  /** Slot k starts at k slot lengths. */
  lemma SlotStart(c: Config, k: nat)
    requires c.window >= 1000
    ensures 0 <= k * SlotLength(c) && SlotAt(c, k * SlotLength(c)) == k
    ensures k > 0 ==> 0 <= k * SlotLength(c) - 1 && SlotAt(c, k * SlotLength(c) - 1) == k - 1
  {
    var n := SlotLength(c);
    SlotOf(c, k * n, k);
    if k > 0 {
      assert (k - 1) * n == k * n - n;
      SlotOf(c, k * n - 1, k - 1);
    }
  }

  lemma SlotOf(c: Config, at: nat, k: nat)
    requires c.window >= 1000 && k * SlotLength(c) <= at < (k + 1) * SlotLength(c)
    ensures SlotAt(c, at) == k
  {
    SlotBounds(c, at);
    Ordered(SlotAt(c, at), k + 1, SlotLength(c));
    Ordered(k, SlotAt(c, at) + 1, SlotLength(c));
  }

  /** The limit's requests at one moment of a slot that has had none: all are admitted, and other slots see none. */
  lemma AddBurst(c: Config, ls: seq<Label>, a: Arrival, from: int, until: int) returns (ls': seq<Label>)
    requires c.window >= 1000 && c.max >= 0 && CanRun(c, ls) && a.at >= Run(c, ls).clock
    requires a.slot == SlotAt(c, a.at) && a.allowed && Arrivals(Run(c, ls).log, a.key, a.slot) == 0
    requires from <= a.at < until
    ensures CanRun(c, ls') && Run(c, ls').clock <= a.at
    ensures AdmittedWithin(Run(c, ls').log, a.key, from, until)
         == AdmittedWithin(Run(c, ls).log, a.key, from, until) + c.max
    ensures SameElsewhere(Run(c, ls).log, Run(c, ls').log, a)
  {
    ls' := Burst(c, ls, a, c.max);
    var log := Run(c, ls).log;
    CountRepeated(log, a, c.max, a.slot, from, until);
    forall slot | slot != a.slot ensures Arrivals(log + Repeat(a, c.max), a.key, slot) == Arrivals(log, a.key, slot) {
      CountRepeated(log, a, c.max, slot, from, until);
    }
  }

  ghost predicate SameElsewhere(log: seq<Arrival>, log': seq<Arrival>, a: Arrival) {
    forall slot :: slot != a.slot ==> Arrivals(log', a.key, slot) == Arrivals(log, a.key, slot)
  }

  lemma TwoBursts(c: Config, a: Arrival, b: Arrival, from: int, until: int) returns (ls: seq<Label>)
    requires c.window >= 1000 && c.max >= 0 && a.allowed && b.allowed && a.key == b.key && a.slot != b.slot
    requires a.slot == SlotAt(c, a.at) && b.slot == SlotAt(c, b.at)
    requires from <= a.at <= b.at < until
    ensures CanRun(c, ls) && Run(c, ls).clock <= b.at
    ensures AdmittedWithin(Run(c, ls).log, a.key, from, until) == 2 * c.max
    ensures forall slot :: slot != a.slot && slot != b.slot ==> Arrivals(Run(c, ls).log, a.key, slot) == 0
  {
    var first := AddBurst(c, [], a, from, until);
    ls := AddBurst(c, first, b, from, until);
  }

  lemma ThreeBursts(c: Config, a: Arrival, b: Arrival, d: Arrival, from: int, until: int) returns (ls: seq<Label>)
    requires c.window >= 1000 && c.max >= 0 && a.allowed && b.allowed && d.allowed && a.key == b.key == d.key
    requires a.slot == SlotAt(c, a.at) && b.slot == SlotAt(c, b.at) && d.slot == SlotAt(c, d.at)
    requires a.slot != b.slot && a.slot != d.slot && b.slot != d.slot
    requires from <= a.at <= b.at <= d.at < until
    ensures CanRun(c, ls) && AdmittedWithin(Run(c, ls).log, a.key, from, until) == 3 * c.max
  {
    var first := TwoBursts(c, a, b, from, until);
    ls := AddBurst(c, first, d, from, until);
  }

  lemma SlotEdges(c: Config)
    requires c.window >= 1000
    ensures SlotLength(c) >= 1
    ensures SlotAt(c, SlotLength(c) - 1) == 0 && SlotAt(c, SlotLength(c)) == 1 && SlotAt(c, 2 * SlotLength(c)) == 2
  {
    SlotStart(c, 1);
    SlotStart(c, 2);
  }

  lemma WindowSpan(c: Config)
    requires c.window >= 1000
    ensures 1 <= SlotLength(c) <= c.window
    ensures MostSlots(c) == 3 ==> 2 * SlotLength(c) < SlotLength(c) - 1 + c.window
  {
    DivBounds(c.window, 1000);
  }

  lemma BurstsAtEdges(c: Config, key: string, n: nat, until: int, slots: nat) returns (ls: seq<Label>)
    requires c.window >= 1000 && c.max >= 0 && 1 <= n < until
    requires SlotAt(c, n - 1) == 0 && SlotAt(c, n) == 1 && SlotAt(c, 2 * n) == 2
    requires slots == 2 || (slots == 3 && 2 * n < until)
    ensures CanRun(c, ls) && AdmittedWithin(Run(c, ls).log, key, n - 1, until) == slots * c.max
  {
    var a, b := Arrival(key, n - 1, 0, true), Arrival(key, n, 1, true);
    if slots == 2 {
      ls := TwoBursts(c, a, b, n - 1, until);
    } else {
      ls := ThreeBursts(c, a, b, Arrival(key, 2 * n, 2, true), n - 1, until);
    }
  }

  /**
   The bound is reached, by the limit's requests at the end of one slot, as many at the start of the next, and for a
   long enough window as many at the start of the one after that.
   */
  lemma WindowBoundIsReached(c: Config, key: string) returns (ls: seq<Label>, from: nat)
    requires c.window >= 1000 && c.max >= 0
    ensures CanRun(c, ls)
    ensures AdmittedWithin(Run(c, ls).log, key, from, from + c.window) == MostSlots(c) * c.max
  {
    SlotEdges(c);
    WindowSpan(c);
    from := SlotLength(c) - 1;
    ls := BurstsAtEdges(c, key, SlotLength(c), from + c.window, MostSlots(c));
  }
}
