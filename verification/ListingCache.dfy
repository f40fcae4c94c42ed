/**
 The cache-aside reads of internal/cache/listing_cache.go and internal/listing/handler.go. A payload is an
 arbitrary value in the class; in the machine it is the query it answers and the moment its data were read.
 Times are milliseconds on one clock.
 */
module ListingCache {
  import opened Wrappers
  import opened Text

  datatype Query =
    | Feed(limit: int, offset: int)
    | Detail(id: int)

  /** feedKey and detailKey. */
  function Key(q: Query): string {
    match q
    case Feed(limit, offset) => "gearshare:listing:feed:" + PrintInt(limit) + [':'] + PrintInt(offset)
    case Detail(id) => "gearshare:listing:detail:" + PrintInt(id)
  }

  datatype Entry<P> = Entry(payload: P, expiresAt: int)

  type Redis<P> = map<string, Entry<P>>

  /** GET: a failing or absent Redis is a miss. */
  function Lookup<P>(redis: Redis<P>, q: Query, now: int, up: bool): Option<P> {
    if up && Key(q) in redis && now < redis[Key(q)].expiresAt then Some(redis[Key(q)].payload) else None
  }

  /** SET with an expiry, whose failure is ignored. */
  function Stored<P>(redis: Redis<P>, q: Query, payload: P, now: int, ttl: nat, up: bool): Redis<P> {
    if up then redis[Key(q) := Entry(payload, now + ttl)] else redis
  }

  /** DEL, whose failure is ignored too. */
  function Dropped<P>(redis: Redis<P>, q: Query, up: bool): Redis<P> {
    if up then redis - {Key(q)} else redis
  }

  const DEFAULT_LIMIT := 20
  const MAX_LIMIT := 100

  // ---------- keys ----------

  lemma FeedKeyOneToOne(limit: int, offset: int, limit': int, offset': int)
    requires Key(Feed(limit, offset)) == Key(Feed(limit', offset'))
    ensures limit == limit' && offset == offset'
  {
    var a, a' := "gearshare:listing:feed:" + PrintInt(limit), "gearshare:listing:feed:" + PrintInt(limit');
    PrintIntChars(offset);
    PrintIntChars(offset');
    LastSeparator(a, PrintInt(offset), a', PrintInt(offset'), ':');
    assert PrintInt(limit) == a[23..] && PrintInt(limit') == a'[23..];
    PrintIntOneToOne(limit, limit');
    PrintIntOneToOne(offset, offset');
  }

  lemma DetailKeyOneToOne(id: int, id': int)
    requires Key(Detail(id)) == Key(Detail(id'))
    ensures id == id'
  {
    assert PrintInt(id) == Key(Detail(id))[25..] && PrintInt(id') == Key(Detail(id'))[25..];
    PrintIntOneToOne(id, id');
  }

  /** No two queries share a key, so no page is ever served for another one. */
  lemma KeyOneToOne(q: Query, q': Query)
    ensures Key(q) == Key(q') <==> q == q'
  {
    if Key(q) == Key(q') {
      assert Key(q)[18] == if q.Feed? then 'f' else 'd';
      assert Key(q')[18] == if q'.Feed? then 'f' else 'd';
      if q.Feed? {
        FeedKeyOneToOne(q.limit, q.offset, q'.limit, q'.offset);
      } else {
        DetailKeyOneToOne(q.id, q'.id);
      }
    }
  }

  /** The keys of the default page and of a listing, as they stand in Redis. */
  lemma KnownKeys()
    ensures Key(Feed(20, 0)) == "gearshare:listing:feed:20:0"
    ensures Key(Detail(7)) == "gearshare:listing:detail:7"
  {
    assert PrintInt(20) == "20" && PrintInt(0) == "0" && PrintInt(7) == "7";
  }

  // ---------- the cache and the handler ----------

  class Cache<P(==)> {
    const ttl: nat
    var redis: Redis<P>
    // What was last stored for each query and not dropped since.
    ghost var entries: map<Query, Entry<P>>

    /** The keys are as good as the queries themselves. */
    ghost predicate Valid()
      reads this
    {
      && ttl > 0
      && (forall q :: Key(q) in redis <==> q in entries)
      && (forall q :: q in entries ==> redis[Key(q)] == entries[q])
    }

    constructor (ttl: nat)
      requires ttl > 0
      ensures Valid() && this.ttl == ttl && redis == map[] && entries == map[]
    {
      this.ttl := ttl;
      redis, entries := map[], map[];
    }

    /** A hit is the payload last stored for this very query, unexpired. */
    method Get(q: Query, now: int, up: bool) returns (r: Option<P>)
      requires Valid()
      ensures r.Some? <==> up && q in entries && now < entries[q].expiresAt
      ensures r.Some? ==> r.value == entries[q].payload
      ensures r == Lookup(redis, q, now, up)
    {
      if up && Key(q) in redis && now < redis[Key(q)].expiresAt {
        return Some(redis[Key(q)].payload);
      }
      return None;
    }

    method Set(q: Query, payload: P, now: int, up: bool)
      requires Valid()
      modifies this
      ensures Valid()
      ensures entries == if up then old(entries)[q := Entry(payload, now + ttl)] else old(entries)
      ensures redis == Stored(old(redis), q, payload, now, ttl, up)
    {
      if up {
        redis := redis[Key(q) := Entry(payload, now + ttl)];
        entries := entries[q := Entry(payload, now + ttl)];
      }
      forall q' ensures Key(q') == Key(q) <==> q' == q {
        KeyOneToOne(q, q');
      }
    }

    /** Either deletion may fail unnoticed. Of all the feed pages, only the default one is dropped. */
    method InvalidateDetail(id: int, upDetail: bool, upFeed: bool)
      requires Valid()
      modifies this
      ensures Valid()
      ensures entries == old(entries) - (if upDetail then {Detail(id)} else {}) - (if upFeed then {Feed(20, 0)} else {})
      ensures redis == Dropped(Dropped(old(redis), Detail(id), upDetail), Feed(DEFAULT_LIMIT, 0), upFeed)
    {
      Del(Detail(id), upDetail);
      Del(Feed(DEFAULT_LIMIT, 0), upFeed);
    }

    method Del(q: Query, up: bool)
      requires Valid()
      modifies this
      ensures Valid()
      ensures entries == if up then old(entries) - {q} else old(entries)
      ensures redis == Dropped(old(redis), q, up)
    {
      if up {
        redis := redis - {Key(q)};
        entries := entries - {q};
      }
      forall q' ensures Key(q') == Key(q) <==> q' == q {
        KeyOneToOne(q, q');
      }
    }
  }

  datatype Error = BadRequest | NotFound | Internal

  class Handler<P(==)> {
    const cache: Cache?<P>

    ghost predicate Valid()
      reads this, cache
    {
      cache != null ==> cache.Valid()
    }

    constructor (cache: Cache?<P>)
      requires cache != null ==> cache.Valid()
      ensures Valid() && this.cache == cache
    {
      this.cache := cache;
    }

    /** What is cached under a query; a nil cache always misses. */
    ghost function Cached(q: Query, now: int, up: bool): Option<P>
      reads this, cache
    {
      if cache == null then None else Lookup(cache.redis, q, now, up)
    }

    /** A hit is served as it is; a miss serves and stores what the service loads, unless that fails. */
    ghost predicate Answered(q: Query, load: Result<P, Error>, later: int, up: bool,
                             before: Option<P>, redis: Redis<P>, r: Result<P, Error>)
      reads this, cache
    {
      && r == (if before.Some? then Ok(before.value) else load)
      && (cache != null ==>
            cache.redis == if before.Some? || load.Err? then redis else Stored(redis, q, load.value, later, cache.ttl, up))
    }

    ghost function Contents(): Redis<P>
      reads this, cache
    {
      if cache == null then map[] else cache.redis
    }

    method Serve(q: Query, load: Result<P, Error>, now: int, later: int, up: bool, upLater: bool)
      returns (r: Result<P, Error>)
      requires Valid()
      modifies cache
      ensures Valid()
      ensures Answered(q, load, later, upLater, old(Cached(q, now, up)), old(Contents()), r)
    {
      if cache != null {
        var hit := cache.Get(q, now, up);
        if hit.Some? {
          return Ok(hit.value);
        }
      }
      if load.Ok? && cache != null {
        cache.Set(q, load.value, later, upLater);
      }
      return load;
    }

    method GetFeed(limitParam: string, offsetParam: string, service: Query -> Option<P>, now: int, later: int,
                   up: bool, upLater: bool)
      returns (r: Result<P, Error>)
      requires Valid()
      modifies cache
      ensures Valid()
      ensures
        var q := Page(limitParam, offsetParam);
        Answered(q, OrError(service(q), Internal), later, upLater, old(Cached(q, now, up)), old(Contents()), r)
      ensures r.Err? <==>
        var q := Page(limitParam, offsetParam);
        old(Cached(q, now, up)).None? && service(q).None?
      ensures r.Err? ==> r.error == Internal
    {
      var limit, offset := DEFAULT_LIMIT, 0;
      if limitParam != "" {
        var n := ParseInt64(limitParam);
        if n.Some? && n.value > 0 && n.value <= MAX_LIMIT {
          limit := n.value;
        }
      }
      if offsetParam != "" {
        var n := ParseInt64(offsetParam);
        if n.Some? && n.value >= 0 {
          offset := n.value;
        }
      }
      r := Serve(Feed(limit, offset), OrError(service(Feed(limit, offset)), Internal), now, later, up, upLater);
    }

    method GetDetail(idParam: string, service: Query -> Option<P>, now: int, later: int, up: bool, upLater: bool)
      returns (r: Result<P, Error>)
      requires Valid()
      modifies cache
      ensures Valid()
      ensures ParseInt64(idParam).None? ==> r == Err(BadRequest) && Contents() == old(Contents())
      ensures ParseInt64(idParam).Some? ==>
        var q := Detail(ParseInt64(idParam).value);
        Answered(q, OrError(service(q), NotFound), later, upLater, old(Cached(q, now, up)), old(Contents()), r)
        && (r.Err? <==> old(Cached(q, now, up)).None? && service(q).None?)
        && (r.Err? ==> r.error == NotFound)
    {
      var id := ParseInt64(idParam);
      if id.None? {
        return Err(BadRequest);
      }
      r := Serve(Detail(id.value), OrError(service(Detail(id.value)), NotFound), now, later, up, upLater);
    }
  }

  function OrError<P>(answer: Option<P>, error: Error): Result<P, Error> {
    if answer.Some? then Ok(answer.value) else Err(error)
  }

  /** The page a request names; a missing, malformed or out-of-range parameter takes its default. */
  function Page(limitParam: string, offsetParam: string): (q: Query)
    ensures q.Feed? && 1 <= q.limit <= MAX_LIMIT && 0 <= q.offset <= MAX_INT64
  {
    var limit, offset := ParseInt64(limitParam), ParseInt64(offsetParam);
    Feed(if limit.Some? && 1 <= limit.value <= MAX_LIMIT then limit.value else DEFAULT_LIMIT,
         if offset.Some? && offset.value >= 0 then offset.value else 0)
  }

  /** Every page within bounds is reached by printing its numbers; other numbers lead to the defaults. */
  lemma PageOfPrinted(limit: int, offset: int)
    requires MIN_INT64 <= limit <= MAX_INT64 && MIN_INT64 <= offset <= MAX_INT64
    ensures Page(PrintInt(limit), PrintInt(offset)) == Feed(limit, offset) <==> 1 <= limit <= MAX_LIMIT && offset >= 0
  {
    ParsePrintInt(limit);
    ParsePrintInt(offset);
  }

  /** Page size 20 for any limit that is not a number from 1 to 100, and offset 0 for any that is not a natural number. */
  lemma PageDefaults(limitParam: string, offsetParam: string)
    ensures (forall n :: IsNumeral(limitParam, n) ==> !(1 <= n <= 100)) ==> Page(limitParam, offsetParam).limit == 20
    ensures (forall n :: IsNumeral(offsetParam, n) ==> !(0 <= n <= MAX_INT64)) ==> Page(limitParam, offsetParam).offset == 0
    ensures forall n :: IsNumeral(limitParam, n) && 1 <= n <= 100 ==> Page(limitParam, offsetParam).limit == n
    ensures forall n :: IsNumeral(offsetParam, n) && 0 <= n <= MAX_INT64 ==> Page(limitParam, offsetParam).offset == n
  {
    if ParseInt64(limitParam).Some? {
      ParseInt64Iff(limitParam, ParseInt64(limitParam).value);
    }
    if ParseInt64(offsetParam).Some? {
      ParseInt64Iff(offsetParam, ParseInt64(offsetParam).value);
    }
    forall n | IsNumeral(limitParam, n) && 1 <= n <= 100 ensures Page(limitParam, offsetParam).limit == n {
      ParseInt64Iff(limitParam, n);
    }
    forall n | IsNumeral(offsetParam, n) && 0 <= n <= MAX_INT64 ensures Page(limitParam, offsetParam).offset == n {
      ParseInt64Iff(offsetParam, n);
    }
  }

  // ---------- concurrent requests ----------

  /** `ttl` is the entries' lifetime, `delay` a bound on the time a request takes from its read to its store. */
  datatype Config = Config(ttl: nat, delay: nat)

  /** A body: the query it answers and the moment its data were read. */
  datatype Reading = Reading(query: Query, at: int)

  datatype Phase =
    | Missed(query: Query)
    | Loaded(reading: Reading)

  datatype Served = Served(query: Query, reading: Reading, at: int, hit: bool)

  datatype State = State(redis: Redis<Reading>, phases: map<int, Phase>, clock: int, log: seq<Served>)

  datatype Label =
    | Look(call: int, query: Query, now: int, up: bool)
    | Load(call: int, now: int)
    | LoadFails(call: int, now: int)
    | Store(call: int, now: int, up: bool)
    | Drop(query: Query, now: int, up: bool)

  const EMPTY := State(map[], map[], 0, [])

  predicate Enabled(c: Config, s: State, l: Label) {
    && l.now >= s.clock
    && match l
       case Look(call, _, _, _) => call !in s.phases
       case Load(call, _) => call in s.phases && s.phases[call].Missed?
       case LoadFails(call, _) => call in s.phases && s.phases[call].Missed?
       case Store(call, now, _) =>
         call in s.phases && s.phases[call].Loaded? && now <= s.phases[call].reading.at + c.delay
       case Drop(_, _, _) => true
  }

  function Apply(c: Config, s: State, l: Label): State
    requires Enabled(c, s, l)
  {
    match l
    case Look(call, query, now, up) =>
      (match Lookup(s.redis, query, now, up)
       case Some(reading) => s.(clock := now, log := s.log + [Served(query, reading, now, true)])
       case None => s.(clock := now, phases := s.phases[call := Missed(query)]))
    case Load(call, now) =>
      s.(clock := now, phases := s.phases[call := Loaded(Reading(s.phases[call].query, now))])
    case LoadFails(call, now) =>
      s.(clock := now, phases := s.phases - {call})
    case Store(call, now, up) =>
      var reading := s.phases[call].reading;
      s.(clock := now, phases := s.phases - {call},
         redis := Stored(s.redis, reading.query, reading, now, c.ttl, up),
         log := s.log + [Served(reading.query, reading, now, false)])
    case Drop(query, now, up) =>
      s.(clock := now, redis := Dropped(s.redis, query, up))
  }

  predicate CanRun(c: Config, ls: seq<Label>)
    decreases |ls|, 0
  {
    ls == [] || (CanRun(c, ls[..|ls| - 1]) && Enabled(c, Run(c, ls[..|ls| - 1]), ls[|ls| - 1]))
  }

  function Run(c: Config, ls: seq<Label>): State
    requires CanRun(c, ls)
    decreases |ls|, 1
  {
    if ls == [] then EMPTY else Apply(c, Run(c, ls[..|ls| - 1]), ls[|ls| - 1])
  }

  lemma Extend(c: Config, ls: seq<Label>, l: Label)
    requires CanRun(c, ls) && Enabled(c, Run(c, ls), l)
    ensures CanRun(c, ls + [l]) && Run(c, ls + [l]) == Apply(c, Run(c, ls), l)
  {
    assert (ls + [l])[..|ls + [l]| - 1] == ls;
  }

  /** An entry leaves only by being dropped, and changes only by being stored again. */
  lemma EntriesStay(c: Config, s: State, l: Label, q: Query)
    requires Enabled(c, s, l)
    requires !(l.Drop? && l.query == q && l.up) && !(l.Store? && s.phases[l.call].reading.query == q && l.up)
    ensures Key(q) in Apply(c, s, l).redis <==> Key(q) in s.redis
    ensures Key(q) in s.redis ==> Apply(c, s, l).redis[Key(q)] == s.redis[Key(q)]
  {
    if l.Drop? {
      KeyOneToOne(l.query, q);
    } else if l.Store? {
      KeyOneToOne(s.phases[l.call].reading.query, q);
    }
  }

  // ---------- bounded staleness ----------

  /** An answer to the right query, from data read less than `delay + ttl` ago. */
  ghost predicate Recent(c: Config, v: Served) {
    v.reading.query == v.query && v.reading.at <= v.at < v.reading.at + c.delay + c.ttl
  }

  ghost predicate EntryOk(c: Config, s: State, q: Query) {
    Key(q) in s.redis ==>
      && s.redis[Key(q)].payload.query == q
      && s.redis[Key(q)].payload.at <= s.clock
      && s.redis[Key(q)].expiresAt <= s.redis[Key(q)].payload.at + c.delay + c.ttl
  }

  ghost predicate Inv(c: Config, s: State) {
    && (forall q :: EntryOk(c, s, q))
    && (forall call :: call in s.phases && s.phases[call].Loaded? ==> s.phases[call].reading.at <= s.clock)
    && (forall i :: 0 <= i < |s.log| ==> Recent(c, s.log[i]))
  }

  lemma StepEntry(c: Config, s: State, l: Label, q: Query)
    requires Inv(c, s) && Enabled(c, s, l)
    ensures EntryOk(c, Apply(c, s, l), q)
  {
    assert EntryOk(c, s, q);
    if l.Store? {
      KeyOneToOne(s.phases[l.call].reading.query, q);
    } else if l.Drop? {
      KeyOneToOne(l.query, q);
    }
  }

  lemma StepInv(c: Config, s: State, l: Label)
    requires c.ttl > 0 && Inv(c, s) && Enabled(c, s, l)
    ensures Inv(c, Apply(c, s, l))
  {
    forall q ensures EntryOk(c, Apply(c, s, l), q) {
      StepEntry(c, s, l, q);
    }
    if l.Look? {
      assert EntryOk(c, s, l.query);
    }
  }

  lemma {:induction false} RunInv(c: Config, ls: seq<Label>)
    requires c.ttl > 0 && CanRun(c, ls)
    ensures Inv(c, Run(c, ls))
  {
    if ls != [] {
      RunInv(c, ls[..|ls| - 1]);
      StepInv(c, Run(c, ls[..|ls| - 1]), ls[|ls| - 1]);
    }
  }

  /** Under every interleaving each body served answers its own query with data less than `delay + ttl` old. */
  lemma BoundedStaleness(c: Config, ls: seq<Label>, i: nat)
    requires c.ttl > 0 && CanRun(c, ls) && i < |Run(c, ls).log|
    ensures Recent(c, Run(c, ls).log[i])
  {
    RunInv(c, ls);
  }

  /** The bound is tight: a body of age `delay + ttl - 1` can be served. */
  lemma StalenessIsReached(c: Config, q: Query) returns (ls: seq<Label>)
    requires c.ttl > 0
    ensures CanRun(c, ls)
    ensures Run(c, ls).log != []
    ensures var v := Run(c, ls).log[|Run(c, ls).log| - 1]; v.query == q && v.at - v.reading.at == c.delay + c.ttl - 1
  {
    var l0, l1, l2 := Look(0, q, 0, true), Load(0, 0), Store(0, c.delay, true);
    var l3 := Look(1, q, c.delay + c.ttl - 1, true);
    Extend(c, [], l0);
    Extend(c, [] + [l0], l1);
    Extend(c, [] + [l0] + [l1], l2);
    Extend(c, [] + [l0] + [l1] + [l2], l3);
    ls := [] + [l0] + [l1] + [l2] + [l3];
  }

  // ---------- what an invalidation guarantees ----------

  /** Some request read the data before `t` and may still store them at `t`. */
  ghost predicate StaleReader(c: Config, s: State, q: Query, t: int) {
    exists call :: call in s.phases && StaleCall(c, s.phases[call], q, t)
  }

  predicate StaleCall(c: Config, p: Phase, q: Query, t: int) {
    p.Loaded? && p.reading.query == q && p.reading.at < t <= p.reading.at + c.delay
  }

  /** An old entry is there to be hit. */
  predicate OldEntry(s: State, q: Query, t: int) {
    Key(q) in s.redis && s.redis[Key(q)].payload.at < t < s.redis[Key(q)].expiresAt
  }

  /** Every hit on the query from position n of the log on serves data read at `t` or later. */
  ghost predicate HitsReread(log: seq<Served>, q: Query, n: nat, t: int) {
    forall i :: n <= i < |log| && log[i].hit && log[i].query == q ==> log[i].reading.at >= t
  }

  predicate CanGoOn(c: Config, ls: seq<Label>, l: Label, after: seq<Label>) {
    CanRun(c, ls + [l] + after)
  }

  /** However the run goes on after the drop `l`, hits serve data read since. */
  ghost predicate RereadGuaranteed(c: Config, ls: seq<Label>, l: Label)
    requires l.Drop? && CanRun(c, ls)
  {
    forall after :: CanGoOn(c, ls, l, after) ==>
      HitsReread(Run(c, ls + [l] + after).log, l.query, |Run(c, ls).log|, l.now)
  }

  ghost predicate Reread(c: Config, s: State, q: Query, n: nat, t: int) {
    && s.clock >= t
    && n <= |s.log|
    && (Key(q) in s.redis ==> s.redis[Key(q)].payload.at >= t || s.redis[Key(q)].expiresAt <= t)
    && (forall call :: call in s.phases && s.phases[call].Loaded? && s.phases[call].reading.query == q ==>
          s.phases[call].reading.at >= t || s.phases[call].reading.at + c.delay < t)
    && HitsReread(s.log, q, n, t)
  }

  lemma StepReread(c: Config, s: State, l: Label, q: Query, n: nat, t: int)
    requires Enabled(c, s, l) && Reread(c, s, q, n, t)
    ensures Reread(c, Apply(c, s, l), q, n, t)
  {
    if l.Store? {
      KeyOneToOne(s.phases[l.call].reading.query, q);
    } else if l.Drop? {
      KeyOneToOne(l.query, q);
    }
  }

  /** The drop met neither a reader it overtook nor, if it failed, an old entry. */
  ghost predicate DropHolds(c: Config, s: State, l: Label)
    requires l.Drop?
  {
    !StaleReader(c, s, l.query, l.now) && (l.up || !OldEntry(s, l.query, l.now))
  }

  lemma RereadAfterDrop(c: Config, s: State, l: Label)
    requires l.Drop? && Enabled(c, s, l) && DropHolds(c, s, l)
    ensures Reread(c, Apply(c, s, l), l.query, |s.log|, l.now)
  {
    forall call | call in s.phases && s.phases[call].Loaded? && s.phases[call].reading.query == l.query
      ensures s.phases[call].reading.at >= l.now || s.phases[call].reading.at + c.delay < l.now
    {
      assert !StaleCall(c, s.phases[call], l.query, l.now);
    }
  }

  lemma {:induction false} RunReread(c: Config, ls: seq<Label>, l: Label, after: seq<Label>)
    requires l.Drop? && CanRun(c, ls) && CanGoOn(c, ls, l, after) && DropHolds(c, Run(c, ls), l)
    ensures Reread(c, Run(c, ls + [l] + after), l.query, |Run(c, ls).log|, l.now)
  {
    var all := ls + [l] + after;
    if after == [] {
      assert all[..|all| - 1] == ls;
      RereadAfterDrop(c, Run(c, ls), l);
    } else {
      assert all[..|all| - 1] == ls + [l] + after[..|after| - 1];
      RunReread(c, ls, l, after[..|after| - 1]);
      StepReread(c, Run(c, all[..|all| - 1]), all[|all| - 1], l.query, |Run(c, ls).log|, l.now);
    }
  }

  /** A reader overtaken by the drop stores its old data behind it, and the next request hits them. */
  lemma StaleStore(c: Config, s: State, l: Label, call: int)
    requires c.ttl > 0 && l.Drop? && Enabled(c, s, l)
    requires call in s.phases && StaleCall(c, s.phases[call], l.query, l.now)
    ensures
      var s1 := Apply(c, s, l);
      && Enabled(c, s1, Store(call, l.now, true))
      && var s2 := Apply(c, s1, Store(call, l.now, true));
      && Enabled(c, s2, Look(call, l.query, l.now, true))
      && Apply(c, s2, Look(call, l.query, l.now, true)).log
         == s.log + [Served(l.query, s.phases[call].reading, l.now, false)]
                  + [Served(l.query, s.phases[call].reading, l.now, true)]
  {
  }

  lemma StaleReaderResurrects(c: Config, ls: seq<Label>, l: Label, call: int) returns (after: seq<Label>)
    requires c.ttl > 0 && l.Drop? && CanRun(c, ls) && Enabled(c, Run(c, ls), l)
    requires call in Run(c, ls).phases && StaleCall(c, Run(c, ls).phases[call], l.query, l.now)
    ensures CanGoOn(c, ls, l, after)
    ensures !HitsReread(Run(c, ls + [l] + after).log, l.query, |Run(c, ls).log|, l.now)
  {
    var s := Run(c, ls);
    var l1, l2 := Store(call, l.now, true), Look(call, l.query, l.now, true);
    StaleStore(c, s, l, call);
    Extend(c, ls, l);
    Extend(c, ls + [l], l1);
    Extend(c, ls + [l] + [l1], l2);
    after := [l1, l2];
    assert ls + [l] + [l1] + [l2] == ls + [l] + after;
    var log := Run(c, ls + [l] + after).log;
    assert log[|s.log| + 1] == Served(l.query, s.phases[call].reading, l.now, true);
  }

  lemma {:induction false} NewCall(calls: set<int>) returns (call: int)
    ensures forall k :: k in calls ==> k < call
    decreases |calls|
  {
    if k :| k in calls {
      var rest := NewCall(calls - {k});
      assert forall j :: j in calls ==> j == k || j in calls - {k};
      call := if k < rest then rest else k + 1;
    } else {
      call := 0;
    }
  }

  lemma OldEntryHit(c: Config, s: State, l: Label, call: int)
    requires l.Drop? && !l.up && Enabled(c, s, l) && OldEntry(s, l.query, l.now) && call !in s.phases
    ensures Enabled(c, Apply(c, s, l), Look(call, l.query, l.now, true))
    ensures Apply(c, Apply(c, s, l), Look(call, l.query, l.now, true)).log
         == s.log + [Served(l.query, s.redis[Key(l.query)].payload, l.now, true)]
  {
  }

  /** A drop that failed leaves the old entry, and the next request hits it. */
  lemma FailedDropKeeps(c: Config, ls: seq<Label>, l: Label) returns (after: seq<Label>)
    requires l.Drop? && !l.up && CanRun(c, ls) && Enabled(c, Run(c, ls), l) && OldEntry(Run(c, ls), l.query, l.now)
    ensures CanGoOn(c, ls, l, after)
    ensures !HitsReread(Run(c, ls + [l] + after).log, l.query, |Run(c, ls).log|, l.now)
  {
    var s := Run(c, ls);
    var call := NewCall(s.phases.Keys);
    var look := Look(call, l.query, l.now, true);
    OldEntryHit(c, s, l, call);
    Extend(c, ls, l);
    Extend(c, ls + [l], look);
    after := [look];
    var log := Run(c, ls + [l] + after).log;
    assert log[|s.log|] == Served(l.query, s.redis[Key(l.query)].payload, l.now, true);
  }

  /**
   After a drop all later hits serve data read since it, exactly when it overtook no reader, and it succeeded or met
   no old entry.
   */
  lemma InvalidationHoldsIff(c: Config, ls: seq<Label>, l: Label)
    requires c.ttl > 0 && l.Drop? && CanRun(c, ls) && Enabled(c, Run(c, ls), l)
    ensures RereadGuaranteed(c, ls, l) <==> DropHolds(c, Run(c, ls), l)
  {
    if StaleReader(c, Run(c, ls), l.query, l.now) {
      var call :| call in Run(c, ls).phases && StaleCall(c, Run(c, ls).phases[call], l.query, l.now);
      var after := StaleReaderResurrects(c, ls, l, call);
    } else if !l.up && OldEntry(Run(c, ls), l.query, l.now) {
      var after := FailedDropKeeps(c, ls, l);
    } else {
      forall after | CanGoOn(c, ls, l, after)
        ensures HitsReread(Run(c, ls + [l] + after).log, l.query, |Run(c, ls).log|, l.now)
      {
        RunReread(c, ls, l, after);
      }
    }
  }

  /** The two deletions of an invalidation, both successful. */
  function DropDetail(id: int, t: int): Label {
    Drop(Detail(id), t, true)
  }

  function DropPage(t: int): Label {
    Drop(Feed(DEFAULT_LIMIT, 0), t, true)
  }

  lemma DropsElsewhere(c: Config, s: State, id: int, q: Query, t: int)
    requires t >= s.clock && q.Feed?
    ensures
      var s2 := Apply(c, Apply(c, s, DropDetail(id, t)), DropPage(t));
      && s2.log == s.log && s2.phases == s.phases && s2.clock == t
      && Lookup(s2.redis, q, t, true) == if q == Feed(DEFAULT_LIMIT, 0) then None else Lookup(s.redis, q, t, true)
  {
    KeyOneToOne(q, Detail(id));
    KeyOneToOne(q, Feed(DEFAULT_LIMIT, 0));
  }

  lemma Invalidated(c: Config, ls: seq<Label>, id: int, q: Query, t: int)
    requires CanRun(c, ls) && t >= Run(c, ls).clock && q.Feed?
    ensures CanRun(c, ls + [DropDetail(id, t)] + [DropPage(t)])
    ensures
      var s, s2 := Run(c, ls), Run(c, ls + [DropDetail(id, t)] + [DropPage(t)]);
      && s2.log == s.log && s2.phases == s.phases && s2.clock == t
      && Lookup(s2.redis, q, t, true) == if q == Feed(DEFAULT_LIMIT, 0) then None else Lookup(s.redis, q, t, true)
  {
    DropsElsewhere(c, Run(c, ls), id, q, t);
    Extend(c, ls, DropDetail(id, t));
    Extend(c, ls + [DropDetail(id, t)], DropPage(t));
  }

  lemma LookExtends(c: Config, ls: seq<Label>, q: Query, t: int, call: int)
    requires CanRun(c, ls) && t >= Run(c, ls).clock && call !in Run(c, ls).phases
    ensures CanRun(c, ls + [Look(call, q, t, true)])
    ensures
      var found := Lookup(Run(c, ls).redis, q, t, true);
      Run(c, ls + [Look(call, q, t, true)]).log
      == Run(c, ls).log + if found.Some? then [Served(q, found.value, t, true)] else []
  {
    Extend(c, ls, Look(call, q, t, true));
  }

  /** Right after an invalidation that succeeded a cached page still hits its old data, unless it is the default page. */
  lemma OtherPagesSurvive(c: Config, ls: seq<Label>, id: int, q: Query, t: int, call: int)
    requires CanRun(c, ls) && t >= Run(c, ls).clock && call !in Run(c, ls).phases
    requires q.Feed? && Lookup(Run(c, ls).redis, q, t, true).Some?
    ensures
      var all := ls + [DropDetail(id, t)] + [DropPage(t)] + [Look(call, q, t, true)];
      && CanRun(c, all)
      && Run(c, all).log == Run(c, ls).log
         + if q == Feed(DEFAULT_LIMIT, 0) then []
           else [Served(q, Lookup(Run(c, ls).redis, q, t, true).value, t, true)]
  {
    Invalidated(c, ls, id, q, t);
    LookExtends(c, ls + [DropDetail(id, t)] + [DropPage(t)], q, t, call);
  }
}
