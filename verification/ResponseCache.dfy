/** The response cache (`plugin/cache/handler.go`, `cache.go`, `item.go`). Times and durations
    are nanoseconds; the hash is any function, so different questions may share a key.  */
module ResponseCache {
  import opened Llrb
  import opened Messages
  import opened Shards
  import Zones

  /** `strings.ToLower` */
  function Lower(s: string): string {
    Zones.LowerLabel(s)
  }

  /** `strings.EqualFold` */
  predicate EqualFold(a: string, b: string) {
    Lower(a) == Lower(b)
  }

  datatype Request = Request(qname: string, qtype: nat, wantsDo: bool, ad: bool)

  /** `Request.Match`: the reply is for this question. */
  predicate Matches(req: Request, m: Msg) {
    |m.question| == 1 && m.response && Lower(m.question[0].name) == Lower(req.qname) && m.question[0].qtype == req.qtype
  }

  datatype Config = Config(
    minpttl: int, pttl: int, minnttl: int, nttl: int, failttl: int,
    staleUpTo: int, verifyStale: bool, keepttl: bool,
    hash: (string, nat, bool) -> Key,
    served: string -> bool, pexcept: string -> bool, nexcept: string -> bool)

  const WORD: int := 0x1_0000_0000

  /** TTLs in seconds fit 32 bits. */
  predicate ConfigOk(cfg: Config) {
    WholeSeconds(cfg.pttl) < WORD && WholeSeconds(cfg.nttl) < WORD && WholeSeconds(cfg.failttl) < WORD
  }

  datatype Item = Item(
    name: string, qtype: nat, rcode: nat, ad: bool, ra: bool,
    answer: seq<Rec>, ns: seq<Rec>, extra: seq<Rec>, wildcard: string, origTTL: nat, stored: int)

  /** `newItem`, for a positive duration */
  function NewItem(m: Msg, now: int, d: int, wildcard: string): Item
    requires d > 0
  {
    var q := if m.question != [] then m.question[0] else Question("", 0);
    Item(q.name, q.qtype, m.rcode, m.ad, m.ra, m.answer, m.ns, NonOpt(m.extra), wildcard, WholeSeconds(d), now)
  }

  /** `ttl`: seconds left, negative when the item is stale. */
  function Ttl(i: Item, now: int): int {
    i.origTTL - WholeSeconds(now - i.stored)
  }

  // ----- what may be cached, and for how long

  predicate Uncacheable(k: Kind) {
    k in {OtherError, Meta, Update}
  }

  predicate Negative(k: Kind) {
    k in {Kind.NameError, Kind.NoData, ServerError}
  }

  predicate Excepted(cfg: Config, k: Kind, name: string) {
    if Negative(k) then cfg.nexcept(name) else cfg.pexcept(name)
  }

  /** How long `WriteMsg` keeps a reply whose smallest TTL is `msgTTL`. */
  function Duration(cfg: Config, k: Kind, msgTTL: int): int {
    if k == Kind.NameError || k == Kind.NoData then ComputeTTL(msgTTL, cfg.minnttl, cfg.nttl)
    else if k == ServerError then cfg.failttl
    else ComputeTTL(msgTTL, cfg.minpttl, cfg.pttl)
  }

  /** What `MinimalTTL` may answer. */
  ghost predicate IsMsgTTL(m: Msg, k: Kind, d: int) {
    if k !in {Kind.NoError, Kind.NameError, Kind.NoData} || NoRecords(m) then d == MINIMAL_DEFAULT_TTL
    else IsSmallest(Counted(m), d)
  }

  /** A reply that was stored: for which request, when, and for how long; `excepts` tells whether
      the writer knew the excepted zones, which those of refreshes do not. */
  datatype Event = Event(excepts: bool, req: Request, msg: Msg, valid: Rec -> bool, kind: Kind, msgTTL: int, at: int, duration: int, wildcard: string)

  /** Only whole replies of a cacheable class to their own question are stored, with a positive duration. */
  ghost predicate EventOk(cfg: Config, e: Event) {
    && Classifies(e.msg, e.valid, e.kind) && !e.msg.truncated && !Uncacheable(e.kind)
    && Matches(e.req, e.msg) && !(e.excepts && Excepted(cfg, e.kind, e.msg.question[0].name))
    && IsMsgTTL(e.msg, e.kind, e.msgTTL)
    && e.duration == Duration(cfg, e.kind, e.msgTTL) > 0
  }

  /** `i` was stored under `k` by the event. */
  ghost predicate StoredBy(cfg: Config, e: Event, k: Key, i: Item, negative: bool) {
    && EventOk(cfg, e) && Negative(e.kind) == negative
    && k == cfg.hash(Lower(e.req.qname), e.req.qtype, e.req.wantsDo)
    && i == NewItem(e.msg, e.at, e.duration, e.wildcard)
  }

  ghost predicate Recorded(cfg: Config, history: seq<Event>, k: Key, i: Item, negative: bool) {
    exists n :: 0 <= n < |history| && StoredBy(cfg, history[n], k, i, negative)
  }

  ghost predicate AllRecorded(cfg: Config, history: seq<Event>, contents: map<Key, Item>, negative: bool) {
    forall k :: k in contents ==> Recorded(cfg, history, k, contents[k], negative)
  }

  // ----- which items are served

  predicate MatchesItem(i: Item, req: Request) {
    req.qtype == i.qtype && EqualFold(req.qname, i.name)
  }

  predicate Servable(cfg: Config, i: Item, req: Request, now: int) {
    var ttl := Ttl(i, now);
    MatchesItem(i, req) && (ttl > 0 || (cfg.staleUpTo > 0 && -ttl < WholeSeconds(cfg.staleUpTo)))
  }

  /** `getIgnoreTTL`: denials first. */
  ghost function Pick(cfg: Config, n: map<Key, Item>, p: map<Key, Item>, req: Request, now: int): Option<Item> {
    var k := cfg.hash(Lower(req.qname), req.qtype, req.wantsDo);
    if k in n && Servable(cfg, n[k], req, now) then Some(n[k])
    else if k in p && Servable(cfg, p[k], req, now) then Some(p[k])
    else None
  }

  /** The reply of an event was to this question, and it is fresh or in the stale window. */
  predicate Usable(cfg: Config, e: Event, req: Request, now: int) {
    && e.req.qtype == req.qtype && Lower(e.req.qname) == Lower(req.qname)
    && (now < e.at + WholeSeconds(e.duration) * SECOND
        || (cfg.staleUpTo > 0 && now < e.at + (WholeSeconds(e.duration) + WholeSeconds(cfg.staleUpTo)) * SECOND))
  }

  /** A hit: stored from a reply to this question, and fresh or in the stale window. */
  ghost predicate IsHit(cfg: Config, e: Event, i: Item, req: Request, now: int) {
    EventOk(cfg, e) && i == NewItem(e.msg, e.at, e.duration, e.wildcard) && Usable(cfg, e, req, now)
  }

  /** Whole seconds that have passed are fewer than `n` exactly until `n` seconds have passed. */
  lemma SecondsPassed(age: int, n: int)
    requires age >= 0
    ensures WholeSeconds(age) < n <==> age < n * SECOND
  {
    assert age == WholeSeconds(age) * SECOND + age % SECOND;
  }

  /** An item is served exactly when the reply it was stored from can be used. */
  lemma {:induction false} ServableExactly(cfg: Config, e: Event, req: Request, now: int)
    requires EventOk(cfg, e) && e.at <= now
    ensures Servable(cfg, NewItem(e.msg, e.at, e.duration, e.wildcard), req, now) <==> Usable(cfg, e, req, now)
  {
    var i := NewItem(e.msg, e.at, e.duration, e.wildcard);
    SecondsPassed(now - e.at, i.origTTL);
    SecondsPassed(now - e.at, i.origTTL + WholeSeconds(cfg.staleUpTo));
  }

  lemma {:induction false} PickIsHit(cfg: Config, history: seq<Event>, n: map<Key, Item>, p: map<Key, Item>, req: Request, now: int)
    requires AllRecorded(cfg, history, n, true) && AllRecorded(cfg, history, p, false)
    requires forall j :: 0 <= j < |history| ==> history[j].at <= now
    ensures var r := Pick(cfg, n, p, req, now);
            r.Some? ==> Justifies(cfg, history, r.value, req, now)
  {
    var k, r := cfg.hash(Lower(req.qname), req.qtype, req.wantsDo), Pick(cfg, n, p, req, now);
    if r.Some? {
      var negative := k in n && Servable(cfg, n[k], req, now);
      var j :| 0 <= j < |history| && StoredBy(cfg, history[j], k, r.value, negative);
      ServableExactly(cfg, history[j], req, now);
      assert IsHit(cfg, history[j], r.value, req, now);
    }
  }

  // ----- TTL arithmetic

  /** The time a reply is built for: moved back for a stale item, and the time of storage with `keepttl`. */
  function ServeTime(cfg: Config, i: Item, now: int): int {
    if cfg.keepttl then i.stored
    else if Ttl(i, now) < 0 then now + Ttl(i, now) * SECOND
    else now
  }

  /** The TTL of a reply: what is left of the original one, nothing for a stale item, and all of
      it with `keepttl`. It fits 32 bits. */
  lemma {:induction false} ServedTTL(cfg: Config, i: Item, now: int)
    requires i.stored <= now && i.origTTL < WORD
    ensures var ttl := Ttl(i, ServeTime(cfg, i, now)); var left := i.origTTL - (now - i.stored) / SECOND;
            0 <= ttl < WORD && ttl == if cfg.keepttl then i.origTTL else if left < 0 then 0 else left
  {
    var age, ttl := now - i.stored, Ttl(i, now);
    if !cfg.keepttl && ttl < 0 {
      assert age == age / SECOND * SECOND + age % SECOND;
      assert age + ttl * SECOND == i.origTTL * SECOND + age % SECOND;
      assert (age + ttl * SECOND) / SECOND == i.origTTL;
    }
  }

  lemma WholeSecondsMonotone(a: int, b: int)
    requires a <= b
    ensures WholeSeconds(a) <= WholeSeconds(b)
  {
  }

  /** The configured limits for a class of replies. */
  function MinTTL(cfg: Config, k: Kind): int {
    if k == Kind.NameError || k == Kind.NoData then cfg.minnttl else cfg.minpttl
  }

  function MaxTTL(cfg: Config, k: Kind): int {
    if k == Kind.NameError || k == Kind.NoData then cfg.nttl else cfg.pttl
  }

  /** A stored TTL is at most the configured maximum, and at most the TTL of every record of the
      reply or the configured minimum, whichever is larger. */
  lemma {:induction false} StoredTTL(cfg: Config, e: Event, r: Rec)
    requires EventOk(cfg, e) && e.kind in {Kind.NoError, Kind.NameError, Kind.NoData} && r in Counted(e.msg)
    ensures var ttl := NewItem(e.msg, e.at, e.duration, e.wildcard).origTTL;
            && ttl <= WholeSeconds(MaxTTL(cfg, e.kind))
            && (ttl <= r.ttl || ttl <= WholeSeconds(MinTTL(cfg, e.kind)))
  {
    var i :| 0 <= i < |Counted(e.msg)| && Counted(e.msg)[i] == r;
    NothingCounted(e.msg);
    assert IsSmallest(Counted(e.msg), e.msgTTL) && e.msgTTL <= r.ttl * SECOND;
    WholeSecondsMonotone(e.duration, MaxTTL(cfg, e.kind));
    if e.duration <= e.msgTTL {
      WholeSecondsMonotone(e.duration, r.ttl * SECOND);
    } else {
      WholeSecondsMonotone(e.duration, MinTTL(cfg, e.kind));
    }
  }

  /** A stored TTL is the one for failures, or the smallest TTL of the reply brought between the
      configured limits. */
  lemma {:induction false} StoredTTLWithin(cfg: Config, e: Event)
    requires EventOk(cfg, e) && MinTTL(cfg, e.kind) <= MaxTTL(cfg, e.kind)
    ensures var ttl, lo, hi := NewItem(e.msg, e.at, e.duration, e.wildcard).origTTL, MinTTL(cfg, e.kind), MaxTTL(cfg, e.kind);
            if e.kind == ServerError then ttl == WholeSeconds(cfg.failttl)
            else
              && WholeSeconds(lo) <= ttl <= WholeSeconds(hi)
              && (lo <= e.msgTTL <= hi ==> ttl == WholeSeconds(e.msgTTL))
  {
    if e.kind != ServerError {
      WholeSecondsMonotone(e.duration, MaxTTL(cfg, e.kind));
      WholeSecondsMonotone(MinTTL(cfg, e.kind), e.duration);
    }
  }

  lemma {:induction false} StoredFits(cfg: Config, e: Event)
    requires ConfigOk(cfg) && EventOk(cfg, e)
    ensures NewItem(e.msg, e.at, e.duration, e.wildcard).origTTL < WORD
  {
    var d := e.duration;
    WholeSecondsMonotone(d, if e.kind == ServerError then cfg.failttl else if Negative(e.kind) then cfg.nttl else cfg.pttl);
  }

  // ----- replies

  ghost predicate WithTTL(rrs: seq<Rec>, from: seq<Rec>, ttl: int) {
    ttl >= 0 && |rrs| == |from| && forall i :: 0 <= i < |rrs| ==> rrs[i] == from[i].(ttl := ttl)
  }

  /** `toMsg` */
  method ToMsg(i: Item, req: Request, now: int) returns (m: Msg)
    requires Ttl(i, now) >= 0
    ensures IsReply(m, i, req, Ttl(i, now))
  {
    var ttl := Ttl(i, now);
    var answer := FilterRRs(i.answer, ttl);
    var ns := FilterRRs(i.ns, ttl);
    var extra := FilterRRs(i.extra, ttl);
    m := Msg(true, 0, false, i.ad && (req.wantsDo || req.ad), i.ra, i.rcode, [Question(req.qname, req.qtype)], answer, ns, extra);
  }

  ghost predicate IsCapped(r: Msg, m: Msg, req: Request, duration: int) {
    var ttl := if duration >= 0 then WholeSeconds(duration) else 0;
    && WithTTL(r.answer, NonOpt(m.answer), ttl) && WithTTL(r.ns, NonOpt(m.ns), ttl) && WithTTL(r.extra, NonOpt(m.extra), ttl)
    && r == m.(answer := r.answer, ns := r.ns, extra := r.extra, ad := m.ad && (req.wantsDo || req.ad))
  }

  /** The reply `WriteMsg` passes on. */
  method Capped(m: Msg, req: Request, duration: int) returns (r: Msg)
    ensures IsCapped(r, m, req, duration)
  {
    var ttl := if duration >= 0 then WholeSeconds(duration) else 0;
    var answer := FilterRRs(m.answer, ttl);
    var ns := FilterRRs(m.ns, ttl);
    var extra := FilterRRs(m.extra, ttl);
    r := m.(answer := answer, ns := ns, extra := extra, ad := m.ad && (req.wantsDo || req.ad));
  }

  /** What a reply of the next plugin brings along: the signature check, two readings of the
      clock and the wildcard it came from. */
  datatype Arrival = Arrival(msg: Msg, valid: Rec -> bool, at: int, wildcard: string)

  /** A cacheable message has a question: `key` reads it unconditionally. */
  ghost predicate HasQuestion(a: Arrival) {
    a.msg.question != [] || a.msg.truncated || forall k :: Classifies(a.msg, a.valid, k) ==> Uncacheable(k)
  }

  /** What `key` comes to. */
  datatype KeyResult = NoKey | Keyed(key: Key) | IndexError

  /** `key`: nothing for replies that are not stored; otherwise it reads the first question. */
  function KeyOf(cfg: Config, req: Request, m: Msg, k: Kind): KeyResult {
    if m.truncated then NoKey
    else if Uncacheable(k) then NoKey
    else if m.question == [] then IndexError
    else Keyed(cfg.hash(Lower(req.qname), m.question[0].qtype, req.wantsDo))
  }

  /** `key` reads past an empty list of questions exactly when a reply that would be stored has none. */
  lemma {:induction false} KeyPanicsExactly(cfg: Config, req: Request, a: Arrival, k: Kind)
    requires Classifies(a.msg, a.valid, k)
    ensures KeyOf(cfg, req, a.msg, k) == IndexError <==> !HasQuestion(a)
  {
    OneClass(a.msg, a.valid);
  }

  /** A failure reply without a question is such a reply. */
  lemma KeyPanics(cfg: Config, req: Request, a: Arrival)
    requires a.msg == Msg(true, 0, false, false, false, RCODE_SERVER_FAILURE, [], [], [], [])
    ensures Classifies(a.msg, a.valid, ServerError) && KeyOf(cfg, req, a.msg, ServerError) == IndexError && !HasQuestion(a)
  {
    KeyPanicsExactly(cfg, req, a, ServerError);
  }

  class Cache {
    const cfg: Config
    const ncache: Shards.Cache<Item>
    const pcache: Shards.Cache<Item>
    ghost var history: seq<Event>

    ghost predicate Valid()
      reads this, ncache, pcache, ncache.shards, pcache.shards
    {
      && ConfigOk(cfg) && Apart(ncache, pcache) && ncache.Valid() && pcache.Valid()
      && AllRecorded(cfg, history, ncache.contents, true) && AllRecorded(cfg, history, pcache.contents, false)
    }

    ghost predicate NotAfter(now: int)
      reads this
    {
      forall j :: 0 <= j < |history| ==> history[j].at <= now
    }

    constructor (cfg: Config, ncap: int, pcap: int)
      requires ConfigOk(cfg)
      ensures Valid() && this.cfg == cfg && history == []
      ensures fresh(ncache) && fresh(pcache) && fresh(ncache.shards) && fresh(pcache.shards)
      ensures ncache.shardCap == ShardCap(ncap) && pcache.shardCap == ShardCap(pcap)
    {
      this.cfg := cfg;
      history := [];
      ncache := new Shards.Cache(ncap);
      pcache := new Shards.Cache(pcap);
    }

    /** The cached item for a question, fresh or stale. */
    method GetIgnoreTTL(now: int, req: Request) returns (i: Option<Item>)
      requires Valid() && NotAfter(now)
      ensures i == Pick(cfg, ncache.contents, pcache.contents, req, now)
      ensures i.Some? ==> Justifies(cfg, history, i.value, req, now)
    {
      PickIsHit(cfg, history, ncache.contents, pcache.contents, req, now);
      var k := cfg.hash(Lower(req.qname), req.qtype, req.wantsDo);
      i := ncache.Get(k);
      if i.Some? && Servable(cfg, i.value, req, now) {
        return;
      }
      i := pcache.Get(k);
      if i.Some? && Servable(cfg, i.value, req, now) {
        return;
      }
      return None;
    }

    /** The record an arrival leaves when it is stored. */
    static ghost function EventOf(excepts: bool, req: Request, a: Arrival, k: Kind, msgTTL: int, d: int): Event {
      Event(excepts, req, a.msg, a.valid, k, msgTTL, a.at, d, a.wildcard)
    }

    /** Notes a stored reply. */
    ghost method Note(e: Event)
      requires ConfigOk(cfg) && Apart(ncache, pcache) && ncache.Valid() && pcache.Valid()
      requires AllRecorded(cfg, history + [e], ncache.contents, true) && AllRecorded(cfg, history + [e], pcache.contents, false)
      modifies this`history
      ensures Valid() && history == old(history) + [e]
    {
      history := history + [e];
    }

    /** `set`, in the cache for positive replies. */
    method SetPositive(ghost e: Event, key: Key, i: Item)
      requires Valid() && StoredBy(cfg, e, key, i, false)
      modifies this`history, pcache, pcache.shards
      ensures Valid() && history == old(history) + [e]
      ensures Replaces(old(pcache.contents), pcache.contents, key, i) && ncache.contents == old(ncache.contents)
    {
      AddTo(pcache, ncache, key, i);
      ReplacedRecords(cfg, history, e, old(pcache.contents), pcache.contents, key, i, false);
      KeptRecords(cfg, history, e, ncache.contents, ncache.contents, true);
      Note(e);
    }

    /** Removes a denial. */
    method Forget(key: Key)
      requires Valid()
      modifies ncache, ncache.shards
      ensures Valid() && pcache.contents == old(pcache.contents) && ncache.contents == old(ncache.contents) - {key}
    {
      FewerRecords(cfg, history, ncache.contents, key, true);
      RemoveFrom(ncache, pcache, key);
    }

    /** `set`, in the cache for denials and failures. */
    method SetNegative(ghost e: Event, key: Key, i: Item)
      requires Valid() && StoredBy(cfg, e, key, i, true)
      modifies this`history, ncache, ncache.shards
      ensures Valid() && history == old(history) + [e]
      ensures Replaces(old(ncache.contents), ncache.contents, key, i) && pcache.contents == old(pcache.contents)
    {
      AddTo(ncache, pcache, key, i);
      ReplacedRecords(cfg, history, e, old(ncache.contents), ncache.contents, key, i, true);
      KeptRecords(cfg, history, e, pcache.contents, pcache.contents, false);
      Note(e);
    }

    /** The part of `WriteMsg` that stores a reply with a key, and `set`. */
    method Store(req: Request, a: Arrival, key: Key, mt: Kind, ghost msgTTL: int, duration: int, prefetch: bool, excepts: bool) returns (ghost e: Option<Event>)
      requires Valid() && Classifies(a.msg, a.valid, mt) && !a.msg.truncated && !Uncacheable(mt) && a.msg.question != []
      requires KeyOf(cfg, req, a.msg, mt) == Keyed(key) && IsMsgTTL(a.msg, mt, msgTTL) && duration == Duration(cfg, mt, msgTTL)
      modifies this`history, ncache, ncache.shards, pcache, pcache.shards
      ensures Valid() && history == old(history) + (if e.Some? then [e.value] else [])
      ensures e.Some? <==> duration > 0 && Matches(req, a.msg) && !(excepts && Excepted(cfg, mt, a.msg.question[0].name))
      ensures e.Some? ==> e.value == EventOf(excepts, req, a, mt, msgTTL, duration)
      ensures Changed(cfg, old(ncache.contents), old(pcache.contents), ncache.contents, pcache.contents, e, prefetch)
    {
      e := None;
      if duration > 0 && Matches(req, a.msg) && !(excepts && Excepted(cfg, mt, a.msg.question[0].name)) {
        var i := NewItem(a.msg, a.at, duration, a.wildcard);
        e := Some(EventOf(excepts, req, a, mt, msgTTL, duration));
        if Negative(mt) {
          SetNegative(e.value, key, i);
        } else {
          SetPositive(e.value, key, i);
          if prefetch {
            Forget(key);
          }
        }
      }
    }

    /** `ResponseWriter.WriteMsg`: stores exactly what may be stored, and passes the reply on with
        the TTL it is, or would be, stored with, unless it only refreshes the cache. */
    method WriteMsg(req: Request, a: Arrival, prefetch: bool, excepts: bool)
      returns (reply: Option<Msg>, ghost e: Option<Event>, ghost w: Weighed)
      requires Valid() && HasQuestion(a)
      modifies this`history, ncache, ncache.shards, pcache, pcache.shards
      ensures Valid() && history == old(history) + (if e.Some? then [e.value] else [])
      ensures IsWeighed(a, w)
      ensures e.Some? <==> MayStore(cfg, req, a, w, excepts)
      ensures e.Some? ==> e.value == EventOf(excepts, req, a, w.kind, w.msgTTL, Duration(cfg, w.kind, w.msgTTL))
      ensures Changed(cfg, old(ncache.contents), old(pcache.contents), ncache.contents, pcache.contents, e, prefetch)
      ensures reply.None? <==> prefetch
      ensures reply.Some? ==> IsCapped(reply.value, a.msg, req, Duration(cfg, w.kind, w.msgTTL))
    {
      var mt := Typify(a.msg, a.valid);
      var key := KeyOf(cfg, req, a.msg, mt);
      KeyPanicsExactly(cfg, req, a, mt);
      var msgTTL := MinimalTTL(a.msg, mt);
      var duration := Duration(cfg, mt, msgTTL);
      e, w := None, Weighed(mt, msgTTL);
      if key.Keyed? {
        e := Store(req, a, key.key, mt, msgTTL, duration, prefetch, excepts);
      }
      if prefetch {
        return None, e, w;
      }
      var m := Capped(a.msg, req, duration);
      return Some(m), e, w;
    }

    /** The reply built from an item that was found at `now`. */
    method Serve(req: Request, now: int, i: Item) returns (m: Msg)
      requires ConfigOk(cfg) && Justifies(cfg, history, i, req, now)
      ensures ServedFrom(cfg, history, m, i, req, now)
    {
      ghost var j :| 0 <= j < |history| && history[j].at <= now && IsHit(cfg, history[j], i, req, now);
      StoredFits(cfg, history[j]);
      ServedTTL(cfg, i, now);
      m := ToMsg(i, req, ServeTime(cfg, i, now));
    }

    /** `ServeDNS` up to the point where it has a reply or asks the next plugin. A stale item is
        kept when it has to be verified first. */
    method LookUp(req: Request, now: int) returns (d: Decision)
      requires Valid() && NotAfter(now)
      ensures LookedRight(cfg, history, ncache.contents, pcache.contents, req, now, d)
      ensures d.Reply? ==> ServedFrom(cfg, history, d.hit, d.item, req, now)
      ensures d.Ask? && d.kept.Some? ==> Justifies(cfg, history, d.kept.value, req, now)
    {
      if !cfg.served(Lower(req.qname)) {
        return Pass;
      }
      PickExactly(cfg, history, ncache.contents, pcache.contents, req, now);
      var i := GetIgnoreTTL(now, req);
      if i.None? {
        return Ask(None);
      }
      SecondsPassed(now - i.value.stored, i.value.origTTL + 1);
      if Ttl(i.value, now) < 0 && cfg.verifyStale {
        return Ask(i);
      }
      var m := Serve(req, now, i.value);
      return Reply(m, i.value);
    }

    /** The next plugin writes a message for a query that asked it: through the cache's writer, and
        past the test of the stale writer, which has neither the exceptions nor the AD bit. */
    method WriteFor(q: Asked, a: Arrival) returns (q': Asked, reply: Option<Msg>, ghost e: Option<Event>, ghost w: Weighed)
      requires Valid() && HasQuestion(a)
      modifies this`history, ncache, ncache.shards, pcache, pcache.shards
      ensures Valid() && history == old(history) + (if e.Some? then [e.value] else []) && q' == q.(refreshed := reply.Some?)
      ensures reply.Some? <==> Accepts(q, a)
      ensures reply.Some? ==> IsWeighed(a, w) && IsCapped(reply.value, a.msg, KnownTo(q), Duration(cfg, w.kind, w.msgTTL))
      ensures e.Some? <==> Accepts(q, a) && MayStore(cfg, KnownTo(q), a, w, q.kept.None?)
      ensures e.Some? ==> e.value == EventOf(q.kept.None?, KnownTo(q), a, w.kind, w.msgTTL, Duration(cfg, w.kind, w.msgTTL))
      ensures Changed(cfg, old(ncache.contents), old(pcache.contents), ncache.contents, pcache.contents, e, false)
    {
      reply, e, w := None, None, Weighed(Kind.NoError, 0);
      if q.kept.None? {
        reply, e, w := WriteMsg(q.req, a, false, true);
      } else if a.msg.rcode == RCODE_SUCCESS || a.msg.rcode == RCODE_NAME_ERROR {
        reply, e, w := WriteMsg(q.req.(ad := false), a, false, false);
      }
      q' := q.(refreshed := reply.Some?);
    }

    /** The refresh that `doPrefetch` starts: nobody is sent the reply. */
    method Prefetch(req: Request, a: Arrival) returns (ghost e: Option<Event>, ghost w: Weighed)
      requires Valid() && HasQuestion(a)
      modifies this`history, ncache, ncache.shards, pcache, pcache.shards
      ensures Valid() && history == old(history) + (if e.Some? then [e.value] else [])
      ensures IsWeighed(a, w) && (e.Some? <==> MayStore(cfg, req, a, w, false))
      ensures e.Some? ==> e.value == EventOf(false, req, a, w.kind, w.msgTTL, Duration(cfg, w.kind, w.msgTTL))
      ensures Changed(cfg, old(ncache.contents), old(pcache.contents), ncache.contents, pcache.contents, e, true)
    {
      var reply;
      reply, e, w := WriteMsg(req, a, true, false);
    }
  }

  /** What `LookUp` decides. */
  datatype Decision =
    | Pass  // not a zone of the cache
    | Reply(hit: Msg, item: Item)
    | Ask(kept: Option<Item>)

  /** The element under `k` was stored from a reply that can be used. */
  ghost predicate Hits(cfg: Config, history: seq<Event>, contents: map<Key, Item>, k: Key, req: Request, now: int) {
    k in contents && exists j :: 0 <= j < |history| && IsHit(cfg, history[j], contents[k], req, now)
  }

  /** An item that can be used is served, unless it is stale and has to be verified first. */
  ghost predicate GivesItem(cfg: Config, i: Item, now: int, d: Decision) {
    if cfg.verifyStale && now >= i.stored + (i.origTTL + 1) * SECOND then d == Ask(Some(i)) else d.Reply? && d.item == i
  }

  /** What a look-up decides, from what was stored and the clock: a denial that can be used comes
      first, then a positive reply that can be used, and without one the next plugin is asked. */
  ghost predicate LookedRight(cfg: Config, history: seq<Event>, n: map<Key, Item>, p: map<Key, Item>, req: Request, now: int, d: Decision) {
    var k := KeyFor(cfg, req);
    if !cfg.served(Lower(req.qname)) then d == Pass
    else if Hits(cfg, history, n, k, req, now) then GivesItem(cfg, n[k], now, d)
    else if Hits(cfg, history, p, k, req, now) then GivesItem(cfg, p[k], now, d)
    else d == Ask(None)
  }

  lemma {:induction false} HitsExactly(cfg: Config, history: seq<Event>, contents: map<Key, Item>, negative: bool, k: Key, req: Request, now: int)
    requires AllRecorded(cfg, history, contents, negative) && forall j :: 0 <= j < |history| ==> history[j].at <= now
    ensures Hits(cfg, history, contents, k, req, now) <==> k in contents && Servable(cfg, contents[k], req, now)
    ensures k in contents ==> contents[k].stored <= now
  {
    if k in contents {
      var j :| 0 <= j < |history| && StoredBy(cfg, history[j], k, contents[k], negative);
      ServableExactly(cfg, history[j], req, now);
      if x :| 0 <= x < |history| && IsHit(cfg, history[x], contents[k], req, now) {
        ServableExactly(cfg, history[x], req, now);
      }
      if Servable(cfg, contents[k], req, now) {
        assert IsHit(cfg, history[j], contents[k], req, now);
      }
    }
  }

  lemma {:induction false} PickExactly(cfg: Config, history: seq<Event>, n: map<Key, Item>, p: map<Key, Item>, req: Request, now: int)
    requires AllRecorded(cfg, history, n, true) && AllRecorded(cfg, history, p, false)
    requires forall j :: 0 <= j < |history| ==> history[j].at <= now
    ensures var k := KeyFor(cfg, req);
            Pick(cfg, n, p, req, now) == if Hits(cfg, history, n, k, req, now) then Some(n[k])
                                         else if Hits(cfg, history, p, k, req, now) then Some(p[k]) else None
    ensures var r := Pick(cfg, n, p, req, now); r.Some? ==> r.value.stored <= now
  {
    HitsExactly(cfg, history, n, true, KeyFor(cfg, req), req, now);
    HitsExactly(cfg, history, p, false, KeyFor(cfg, req), req, now);
  }

  /** A query that waits for the next plugin; `refreshed` tells whether a message was written. */
  datatype Asked = Asked(req: Request, now: int, kept: Option<Item>, refreshed: bool)

  /** The class and smallest TTL of a reply. */
  datatype Weighed = Weighed(kind: Kind, msgTTL: int)

  ghost predicate IsWeighed(a: Arrival, w: Weighed) {
    Classifies(a.msg, a.valid, w.kind) && IsMsgTTL(a.msg, w.kind, w.msgTTL)
  }

  /** What `WriteMsg` stores. */
  ghost predicate MayStore(cfg: Config, req: Request, a: Arrival, w: Weighed, excepts: bool) {
    && !a.msg.truncated && !Uncacheable(w.kind) && Duration(cfg, w.kind, w.msgTTL) > 0
    && Matches(req, a.msg) && !(excepts && Excepted(cfg, w.kind, a.msg.question[0].name))
  }

  /** What the writer of a query knows of the request: that for a stale item not the AD bit. */
  function KnownTo(q: Asked): Request {
    if q.kept.None? then q.req else q.req.(ad := false)
  }

  /** Whether a message for the query is passed on: only some may replace a stale item. */
  predicate Accepts(q: Asked, a: Arrival) {
    q.kept.None? || a.msg.rcode in {RCODE_SUCCESS, RCODE_NAME_ERROR}
  }

  /** The reply is to the question of the request. */
  predicate IsReplyTo(m: Msg, req: Request) {
    m.response && |m.question| == 1 && Lower(m.question[0].name) == Lower(req.qname) && m.question[0].qtype == req.qtype
  }

  /** A reply is stored exactly when it is a whole reply of one of five classes to the question of
      the request, is kept for some time, and its zone is not excepted for its class. */
  lemma {:induction false} MayStoreExactly(cfg: Config, req: Request, a: Arrival, w: Weighed, excepts: bool)
    ensures MayStore(cfg, req, a, w, excepts) <==>
            && !a.msg.truncated && w.kind in {Kind.NoError, Kind.Delegation, Kind.NameError, Kind.NoData, ServerError}
            && IsReplyTo(a.msg, req) && Duration(cfg, w.kind, w.msgTTL) > 0
            && (excepts ==>
                  var name := a.msg.question[0].name;
                  !(if w.kind in {Kind.NoError, Kind.Delegation} then cfg.pexcept(name) else cfg.nexcept(name)))
  {
    assert Matches(req, a.msg) == IsReplyTo(a.msg, req);
    Classes(w.kind);
  }

  /** Five classes are cached, three of them as denials or failures. */
  lemma Classes(k: Kind)
    ensures Uncacheable(k) <==> k !in {Kind.NoError, Kind.Delegation, Kind.NameError, Kind.NoData, ServerError}
    ensures !Uncacheable(k) ==> (Negative(k) <==> k !in {Kind.NoError, Kind.Delegation})
  {
    assert k.NoError? || k.NameError? || k.ServerError? || k.NoData? || k.Delegation? || k.Meta? || k.Update? || k.OtherError?;
  }

  /** A reply passed on: the message with the TTL it is stored with. */
  ghost predicate IsWritten(cfg: Config, q: Asked, a: Arrival, r: Msg) {
    exists w :: IsWeighed(a, w) && IsCapped(r, a.msg, KnownTo(q), Duration(cfg, w.kind, w.msgTTL))
  }

  /** An item was stored by `now` from a reply to this question and is fresh or in the stale window. */
  ghost predicate Justifies(cfg: Config, history: seq<Event>, i: Item, req: Request, now: int) {
    exists j :: 0 <= j < |history| && history[j].at <= now && IsHit(cfg, history[j], i, req, now)
  }

  /** A reply from the cache: the item was stored from a reply to this question that is fresh
      or in the stale window, and its records carry what is left of its TTL. */
  ghost predicate ServedFrom(cfg: Config, history: seq<Event>, m: Msg, i: Item, req: Request, now: int) {
    Justifies(cfg, history, i, req, now) && IsReplyAt(cfg, m, i, req, now)
  }

  /** The reply from an item, with what is left of its TTL. */
  ghost predicate IsReplyAt(cfg: Config, m: Msg, i: Item, req: Request, now: int) {
    var left := i.origTTL - (now - i.stored) / SECOND;
    IsReply(m, i, req, if cfg.keepttl then i.origTTL else if left < 0 then 0 else left)
  }

  /** The reply from a stored reply: its records without OPT, with what is left of the TTL they are
      stored with, and its code and flags; AD only for clients that want it. */
  ghost predicate RepliesWith(cfg: Config, e: Event, m: Msg, req: Request, now: int) {
    var whole := WholeSeconds(e.duration);
    var left := whole - (now - e.at) / SECOND;
    var ttl := if cfg.keepttl then whole else if left < 0 then 0 else left;
    && m.response && m.question == [Question(req.qname, req.qtype)] && m.rcode == e.msg.rcode && m.ra == e.msg.ra
    && m.ad == (e.msg.ad && (req.wantsDo || req.ad))
    && WithTTL(m.answer, NonOpt(e.msg.answer), ttl) && WithTTL(m.ns, NonOpt(e.msg.ns), ttl) && WithTTL(m.extra, NonOpt(e.msg.extra), ttl)
  }

  lemma {:induction false} ItemReplies(cfg: Config, e: Event, m: Msg, req: Request, now: int)
    requires e.duration > 0 && IsReplyAt(cfg, m, NewItem(e.msg, e.at, e.duration, e.wildcard), req, now)
    ensures RepliesWith(cfg, e, m, req, now)
  {
    NonOptTwice(e.msg.extra);
  }

  ghost predicate IsReply(m: Msg, i: Item, req: Request, ttl: int) {
    && m.response && m.question == [Question(req.qname, req.qtype)] && m.rcode == i.rcode && m.ra == i.ra
    && m.ad == (i.ad && (req.wantsDo || req.ad))
    && WithTTL(m.answer, NonOpt(i.answer), ttl) && WithTTL(m.ns, NonOpt(i.ns), ttl) && WithTTL(m.extra, NonOpt(i.extra), ttl)
  }

  /** At most one reply was stored, the one that arrived. */
  ghost predicate Grew(h: seq<Event>, h': seq<Event>, a: Arrival) {
    h' == h || (|h'| == |h| + 1 && h == h'[..|h|] && h'[|h|].msg == a.msg && h'[|h|].at == a.at)
  }

  function KeyFor(cfg: Config, req: Request): Key {
    cfg.hash(Lower(req.qname), req.qtype, req.wantsDo)
  }

  /** What storing does to the caches for denials and for positive replies: the item is in the one for
      its class, at most one other is evicted there, and a refresh with a positive reply removes the denial. */
  ghost predicate Changed(cfg: Config, n: map<Key, Item>, p: map<Key, Item>, n': map<Key, Item>, p': map<Key, Item>, e: Option<Event>, prefetch: bool) {
    match e
    case None => n' == n && p' == p
    case Some(e) =>
      && e.duration > 0
      && var k, i := KeyFor(cfg, e.req), NewItem(e.msg, e.at, e.duration, e.wildcard);
         if e.kind in {Kind.NameError, Kind.NoData, ServerError} then p' == p && Replaces(n, n', k, i)
         else Replaces(p, p', k, i) && n' == if prefetch then n - {k} else n
  }

  /** `new` is `old_` with `i` under `key`, less at most one other element. */
  ghost predicate Replaces(old_: map<Key, Item>, new_: map<Key, Item>, key: Key, i: Item) {
    new_ == old_[key := i] || exists victim :: victim in old_ && victim != key && new_ == (old_ - {victim})[key := i]
  }

  /** Two caches share nothing. */
  ghost predicate Apart(c: Shards.Cache<Item>, d: Shards.Cache<Item>) {
    c != d && forall i, j :: 0 <= i < |c.shards| && 0 <= j < |d.shards| ==> c.shards[i] != d.shards[j]
  }

  method AddTo(c: Shards.Cache<Item>, ghost other: Shards.Cache<Item>, key: Key, i: Item)
    requires c.Valid() && other.Valid() && (Apart(c, other) || Apart(other, c))
    modifies c, c.shards
    ensures c.Valid() && other.Valid() && other.contents == old(other.contents)
    ensures Replaces(old(c.contents), c.contents, key, i)
  {
    var evicted;
    ghost var victim;
    evicted, victim := c.Add(key, i);
  }

  method RemoveFrom(c: Shards.Cache<Item>, ghost other: Shards.Cache<Item>, key: Key)
    requires c.Valid() && other.Valid() && (Apart(c, other) || Apart(other, c))
    modifies c, c.shards
    ensures c.Valid() && other.Valid() && other.contents == old(other.contents)
    ensures c.contents == old(c.contents) - {key}
  {
    c.Remove(key);
  }

  lemma FewerRecords(cfg: Config, history: seq<Event>, contents: map<Key, Item>, key: Key, negative: bool)
    requires AllRecorded(cfg, history, contents, negative)
    ensures AllRecorded(cfg, history, contents - {key}, negative)
  {
  }

  lemma {:induction false} KeptRecords(cfg: Config, history: seq<Event>, e: Event, old_: map<Key, Item>, new_: map<Key, Item>, negative: bool)
    requires AllRecorded(cfg, history, old_, negative)
    requires forall k :: k in new_ ==> k in old_ && new_[k] == old_[k]
    ensures AllRecorded(cfg, history + [e], new_, negative)
  {
    var h := history + [e];
    forall k | k in new_
      ensures Recorded(cfg, h, k, new_[k], negative)
    {
      var n :| 0 <= n < |history| && StoredBy(cfg, history[n], k, old_[k], negative);
      assert h[n] == history[n];
    }
  }

  lemma {:induction false} ReplacedRecords(cfg: Config, history: seq<Event>, e: Event, old_: map<Key, Item>, new_: map<Key, Item>, key: Key, i: Item, negative: bool)
    requires AllRecorded(cfg, history, old_, negative) && Replaces(old_, new_, key, i) && StoredBy(cfg, e, key, i, negative)
    ensures AllRecorded(cfg, history + [e], new_, negative)
  {
    var h, rest := history + [e], new_ - {key};
    KeptRecords(cfg, history, e, old_, rest, negative);
    assert h[|history|] == e;
    forall k | k in new_
      ensures Recorded(cfg, h, k, new_[k], negative)
    {
      if k != key {
        assert k in rest && rest[k] == new_[k];
      }
    }
  }

  // ----- whole runs

  /** A step of the server: a query is looked up, the next plugin writes a message for it or
      returns, or a message for a prefetch arrives. Queries overlap as they like. */
  datatype Step =
    | Look(id: nat, req: Request, time: int)
    | Write(id: nat, a: Arrival)
    | Return(id: nat, time: int)
    | Refresh(req: Request, a: Arrival)

  function Time(s: Step): int {
    match s
    case Look(_, _, t) => t
    case Write(_, a) => a.at
    case Return(_, t) => t
    case Refresh(_, a) => a.at
  }

  ghost predicate StepOk(s: Step) {
    match s
    case Write(_, a) => HasQuestion(a)
    case Refresh(_, a) => HasQuestion(a)
    case _ => true
  }

  /** The clock does not go back from one step to the next. */
  ghost predicate InTime(steps: seq<Step>) {
    (forall n :: 0 <= n < |steps| ==> StepOk(steps[n])) && forall n :: 0 < n < |steps| ==> Time(steps[n - 1]) <= Time(steps[n])
  }

  /** What the client is sent at a step. */
  datatype Outcome =
    | Nothing
    | Written(reply: Msg, asked: Asked)
    | FromCache(hit: Msg, item: Item, req: Request, now: int)

  /** The query was looked up at `now`, before step `n`. */
  ghost predicate LookedUp(steps: seq<Step>, n: int, id: nat, req: Request, now: int) {
    exists m :: 0 <= m < n && m < |steps| && steps[m] == Look(id, req, now)
  }

  /** The item was found when the query was looked up: `marks[m]` replies were stored by then, and
      one of them justifies it. */
  ghost predicate FoundAt(cfg: Config, history: seq<Event>, steps: seq<Step>, marks: seq<int>, id: nat, i: Item, req: Request, now: int) {
    exists m ::
      && 0 <= m < |marks| && m < |steps| && steps[m] == Look(id, req, now) && 0 <= marks[m] <= |history|
      && Justifies(cfg, history[..marks[m]], i, req, now)
  }

  /** What a step may send; there is a mark for it and for each step before it. */
  ghost predicate OutcomeOk(cfg: Config, history: seq<Event>, steps: seq<Step>, marks: seq<int>, out: Outcome) {
    match out
    case Nothing => true
    case Written(r, q) =>
      && 0 < |marks| <= |steps| && var s := steps[|marks| - 1];
         s.Write? && LookedUp(steps, |marks| - 1, s.id, q.req, q.now) && IsWritten(cfg, q, s.a, r)
    case FromCache(hit, i, req, now) =>
      && 0 < |marks| <= |steps| && var s := steps[|marks| - 1];
         (s.Look? || s.Return?) && AnsweredAt(cfg, history, steps, marks, s.id, hit, req, now)
  }

  /** A reply that was stored before the query was looked up could be used then, and is given. */
  ghost predicate AnsweredAt(cfg: Config, history: seq<Event>, steps: seq<Step>, marks: seq<int>, id: nat, hit: Msg, req: Request, now: int) {
    exists m, j ::
      && 0 <= m < |marks| && m < |steps| && steps[m] == Look(id, req, now) && 0 <= j < marks[m] <= |history|
      && Answers(cfg, history[j], hit, req, now)
  }

  ghost predicate Answers(cfg: Config, e: Event, hit: Msg, req: Request, now: int) {
    EventOk(cfg, e) && e.at <= now && Usable(cfg, e, req, now) && RepliesWith(cfg, e, hit, req, now)
  }

  lemma {:induction false} FoundAnswers(cfg: Config, h: seq<Event>, steps: seq<Step>, marks: seq<int>, id: nat, hit: Msg, i: Item, req: Request, now: int)
    requires FoundAt(cfg, h, steps, marks, id, i, req, now) && IsReplyAt(cfg, hit, i, req, now)
    ensures AnsweredAt(cfg, h, steps, marks, id, hit, req, now)
  {
    var m :| 0 <= m < |marks| && m < |steps| && steps[m] == Look(id, req, now) && 0 <= marks[m] <= |h| && Justifies(cfg, h[..marks[m]], i, req, now);
    var p := h[..marks[m]];
    var j :| 0 <= j < |p| && p[j].at <= now && IsHit(cfg, p[j], i, req, now);
    ItemReplies(cfg, p[j], hit, req, now);
    assert p[j] == h[j] && Answers(cfg, h[j], hit, req, now);
  }

  /** Every query that waits was looked up, and what it keeps was found then. */
  ghost predicate WaitingOk(cfg: Config, history: seq<Event>, steps: seq<Step>, marks: seq<int>, open: map<nat, Asked>) {
    forall id :: id in open ==>
      && LookedUp(steps, |marks|, id, open[id].req, open[id].now)
      && (open[id].kept.Some? ==> FoundAt(cfg, history, steps, marks, id, open[id].kept.value, open[id].req, open[id].now))
  }

  ghost predicate OutcomesOk(cfg: Config, history: seq<Event>, steps: seq<Step>, marks: seq<int>, outs: seq<Outcome>) {
    |outs| == |marks| <= |steps| && forall n :: 0 <= n < |outs| ==> OutcomeOk(cfg, history, steps, marks[..n + 1], outs[n])
  }

  function Before(marks: seq<int>, n: nat): int
    requires n <= |marks|
  {
    if n == 0 then 0 else marks[n - 1]
  }

  /** A step stores the message that arrives with it, or nothing. */
  ghost predicate StoredIn(history: seq<Event>, before: int, after: int, s: Step) {
    || after == before
    || (0 <= before && after == before + 1 <= |history| && (s.Write? || s.Refresh?) && history[before].msg == s.a.msg && history[before].at == s.a.at)
  }

  /** `marks[n]` replies were stored by the end of step `n`. */
  ghost predicate Marked(history: seq<Event>, steps: seq<Step>, marks: seq<int>) {
    && |marks| <= |steps| && Before(marks, |marks|) == |history|
    && forall n :: 0 <= n < |marks| ==> MarkedAt(history, steps, marks, n)
  }

  ghost predicate MarkedAt(history: seq<Event>, steps: seq<Step>, marks: seq<int>, n: nat)
    requires n < |marks| <= |steps|
  {
    StoredIn(history, Before(marks, n), marks[n], steps[n])
  }

  /** A decision is carried out. */
  ghost predicate Looked(d: Decision, id: nat, req: Request, now: int, open: map<nat, Asked>, open': map<nat, Asked>, out: Outcome) {
    match d
    case Pass => open' == open && out == Nothing
    case Reply(hit, item) => open' == open && out == FromCache(hit, item, req, now)
    case Ask(kept) => open' == open[id := Asked(req, now, kept, false)] && out == Nothing
  }

  /** What both caches hold. */
  datatype Snap = Snap(n: map<Key, Item>, p: map<Key, Item>)

  /** What a step sends and what it does to the caches, from `h` and `a` to `h'` and `b`. */
  ghost predicate StepRight(cfg: Config, h: seq<Event>, h': seq<Event>, a: Snap, b: Snap, s: Step, out: Outcome) {
    match s
    case Look(_, req, now) =>
      h' == h && b == a && exists d :: LookedRight(cfg, h, a.n, a.p, req, now, d) && Sent(d, req, now, out)
    case Return(_, _) => h' == h && b == a
    case Write(_, _) => exists e :: Stores(cfg, h, h', a, b, e, false)
    case Refresh(_, _) => out == Nothing && exists e :: Stores(cfg, h, h', a, b, e, true)
  }

  ghost predicate Stores(cfg: Config, h: seq<Event>, h': seq<Event>, a: Snap, b: Snap, e: Option<Event>, prefetch: bool) {
    h' == h + (if e.Some? then [e.value] else []) && Changed(cfg, a.n, a.p, b.n, b.p, e, prefetch)
  }

  /** The answer that a decision sends at once. */
  ghost predicate Sent(d: Decision, req: Request, now: int, out: Outcome) {
    out == if d.Reply? then FromCache(d.hit, d.item, req, now) else Nothing
  }

  /** A query is looked up. */
  method ApplyLook(c: Cache, ghost steps: seq<Step>, ghost marks: seq<int>, id: nat, req: Request, now: int, open: map<nat, Asked>)
    returns (open': map<nat, Asked>, out: Outcome, ghost d: Decision)
    requires c.Valid() && |marks| < |steps| && steps[|marks|] == Look(id, req, now) && c.NotAfter(now)
    requires WaitingOk(c.cfg, c.history, steps, marks, open)
    ensures WaitingOk(c.cfg, c.history, steps, marks + [|c.history|], open')
    ensures OutcomeOk(c.cfg, c.history, steps, marks + [|c.history|], out)
    ensures LookedRight(c.cfg, c.history, c.ncache.contents, c.pcache.contents, req, now, d)
    ensures Looked(d, id, req, now, open, open', out)
  {
    open', out := open, Nothing;
    var found := c.LookUp(req, now);
    d := found;
    match found {
      case Pass =>
      case Reply(hit, item) => out := FromCache(hit, item, req, now);
      case Ask(kept) => open' := open[id := Asked(req, now, kept, false)];
    }
    LookedOk(c.cfg, c.history, steps, marks, id, req, now, d, open, open', out);
  }

  lemma {:induction false} LookedOk(cfg: Config, h: seq<Event>, steps: seq<Step>, marks: seq<int>, id: nat, req: Request, now: int,
                                    d: Decision, open: map<nat, Asked>, open': map<nat, Asked>, out: Outcome)
    requires |marks| < |steps| && steps[|marks|] == Look(id, req, now) && WaitingOk(cfg, h, steps, marks, open)
    requires Looked(d, id, req, now, open, open', out)
    requires d.Reply? ==> ServedFrom(cfg, h, d.hit, d.item, req, now)
    requires d.Ask? && d.kept.Some? ==> Justifies(cfg, h, d.kept.value, req, now)
    ensures WaitingOk(cfg, h, steps, marks + [|h|], open') && OutcomeOk(cfg, h, steps, marks + [|h|], out)
  {
    WaitingLater(cfg, h, h, steps, marks, |h|, open);
    FoundNow(cfg, h, steps, marks, id, req, now);
    if d.Reply? {
      FoundAnswers(cfg, h, steps, marks + [|h|], id, d.hit, d.item, req, now);
    }
  }

  /** What is justified at a look-up is found there. */
  lemma {:induction false} FoundNow(cfg: Config, h: seq<Event>, steps: seq<Step>, marks: seq<int>, id: nat, req: Request, now: int)
    requires |marks| < |steps| && steps[|marks|] == Look(id, req, now)
    ensures LookedUp(steps, |marks| + 1, id, req, now)
    ensures forall i :: Justifies(cfg, h, i, req, now) ==> FoundAt(cfg, h, steps, marks + [|h|], id, i, req, now)
  {
    var ms := marks + [|h|];
    assert ms[|marks|] == |h| && h[..|h|] == h;
    forall i | Justifies(cfg, h, i, req, now)
      ensures FoundAt(cfg, h, steps, ms, id, i, req, now)
    {
      assert Justifies(cfg, h[..ms[|marks|]], i, req, now);
    }
  }

  /** The next plugin returns: a stale item that was not refreshed is served after all. */
  method ApplyReturn(c: Cache, ghost steps: seq<Step>, ghost marks: seq<int>, id: nat, open: map<nat, Asked>)
    returns (open': map<nat, Asked>, out: Outcome)
    requires c.Valid() && |marks| < |steps| && steps[|marks|].Return? && steps[|marks|].id == id
    requires WaitingOk(c.cfg, c.history, steps, marks, open)
    ensures WaitingOk(c.cfg, c.history, steps, marks + [|c.history|], open') && open' == open - {id}
    ensures OutcomeOk(c.cfg, c.history, steps, marks + [|c.history|], out)
    ensures if id in open && open[id].kept.Some? && !open[id].refreshed then out.FromCache? && out.item == open[id].kept.value else out == Nothing
  {
    open', out := open, Nothing;
    ReturnedOk(c.cfg, c.history, steps, marks, id, open);
    if id in open {
      var q := open[id];
      open' := open - {id};
      if q.kept.Some? && !q.refreshed {
        var hit := c.Serve(q.req, q.now, q.kept.value);
        out := FromCache(hit, q.kept.value, q.req, q.now);
        ReplyOk(c.cfg, c.history, steps, marks + [|c.history|], id, hit, q.kept.value, q.req, q.now);
      }
    }
  }

  lemma ReplyOk(cfg: Config, h: seq<Event>, steps: seq<Step>, marks: seq<int>, id: nat, hit: Msg, i: Item, req: Request, now: int)
    requires 0 < |marks| <= |steps| && steps[|marks| - 1].Return? && steps[|marks| - 1].id == id
    requires FoundAt(cfg, h, steps, marks, id, i, req, now) && IsReplyAt(cfg, hit, i, req, now)
    ensures OutcomeOk(cfg, h, steps, marks, FromCache(hit, i, req, now))
  {
    FoundAnswers(cfg, h, steps, marks, id, hit, i, req, now);
  }

  lemma {:induction false} ReturnedOk(cfg: Config, h: seq<Event>, steps: seq<Step>, marks: seq<int>, id: nat, open: map<nat, Asked>)
    requires WaitingOk(cfg, h, steps, marks, open)
    ensures WaitingOk(cfg, h, steps, marks + [|h|], open - {id}) && (id !in open ==> open - {id} == open)
    ensures id in open && open[id].kept.Some? ==>
              var q := open[id];
              && FoundAt(cfg, h, steps, marks + [|h|], id, q.kept.value, q.req, q.now)
              && Justifies(cfg, h, q.kept.value, q.req, q.now)
  {
    WaitingLater(cfg, h, h, steps, marks, |h|, open);
    if id in open && open[id].kept.Some? {
      StillFound(cfg, h, steps, marks, id, open[id].kept.value, open[id].req, open[id].now);
    }
  }

  lemma {:induction false} StillFound(cfg: Config, h: seq<Event>, steps: seq<Step>, marks: seq<int>, id: nat, i: Item, req: Request, now: int)
    requires FoundAt(cfg, h, steps, marks, id, i, req, now)
    ensures Justifies(cfg, h, i, req, now)
  {
    var m :| 0 <= m < |marks| && m < |steps| && steps[m] == Look(id, req, now) && 0 <= marks[m] <= |h| && Justifies(cfg, h[..marks[m]], i, req, now);
    JustifiesLater(cfg, h[..marks[m]], h, i, req, now);
  }

  /** The next plugin writes a message. */
  method ApplyWrite(c: Cache, ghost steps: seq<Step>, ghost marks: seq<int>, id: nat, a: Arrival, open: map<nat, Asked>)
    returns (open': map<nat, Asked>, out: Outcome)
    requires c.Valid() && |marks| < |steps| && steps[|marks|] == Write(id, a) && HasQuestion(a)
    requires WaitingOk(c.cfg, c.history, steps, marks, open)
    modifies c`history, c.ncache, c.ncache.shards, c.pcache, c.pcache.shards
    ensures c.Valid() && Grew(old(c.history), c.history, a)
    ensures exists e :: Stores(c.cfg, old(c.history), c.history, old(Snap(c.ncache.contents, c.pcache.contents)), Snap(c.ncache.contents, c.pcache.contents), e, false)
    ensures WaitingOk(c.cfg, c.history, steps, marks + [|c.history|], open')
    ensures OutcomeOk(c.cfg, c.history, steps, marks + [|c.history|], out)
    ensures if id in open && Accepts(open[id], a) then out.Written? && out.asked == open[id] else out == Nothing
    ensures open' == if id in open then open[id := open[id].(refreshed := Accepts(open[id], a))] else open
  {
    open', out := open, Nothing;
    ghost var h, a0 := c.history, Snap(c.ncache.contents, c.pcache.contents);
    ghost var e: Option<Event> := None;
    if id in open {
      var q', reply;
      ghost var w;
      q', reply, e, w := c.WriteFor(open[id], a);
      open' := open[id := q'];
      if reply.Some? {
        out := Written(reply.value, open[id]);
        WrittenOk(c.cfg, c.history, steps, marks, id, a, open, reply.value, w);
      }
    }
    assert Stores(c.cfg, h, c.history, a0, Snap(c.ncache.contents, c.pcache.contents), e, false);
    StillWaiting(c.cfg, h, steps, marks, open, open', id);
    WaitingLater(c.cfg, h, c.history, steps, marks, |c.history|, open');
  }

  lemma {:induction false} WrittenOk(cfg: Config, h: seq<Event>, steps: seq<Step>, marks: seq<int>, id: nat, a: Arrival,
                                     open: map<nat, Asked>, r: Msg, w: Weighed)
    requires |marks| < |steps| && steps[|marks|] == Write(id, a) && id in open
    requires LookedUp(steps, |marks|, id, open[id].req, open[id].now)
    requires IsWeighed(a, w) && IsCapped(r, a.msg, KnownTo(open[id]), Duration(cfg, w.kind, w.msgTTL))
    ensures OutcomeOk(cfg, h, steps, marks + [|h|], Written(r, open[id]))
  {
    assert IsWritten(cfg, open[id], a, r);
  }

  lemma StillWaiting(cfg: Config, h: seq<Event>, steps: seq<Step>, marks: seq<int>, open: map<nat, Asked>, open': map<nat, Asked>, id: nat)
    requires WaitingOk(cfg, h, steps, marks, open)
    requires open' == open || (id in open && exists b :: open' == open[id := open[id].(refreshed := b)])
    ensures WaitingOk(cfg, h, steps, marks, open')
  {
  }

  /** One step, with the queries that wait. */
  method Apply(c: Cache, ghost steps: seq<Step>, ghost marks: seq<int>, s: Step, open: map<nat, Asked>) returns (open': map<nat, Asked>, out: Outcome)
    requires c.Valid() && |marks| < |steps| && steps[|marks|] == s && StepOk(s) && c.NotAfter(Time(s))
    requires WaitingOk(c.cfg, c.history, steps, marks, open)
    modifies c`history, c.ncache, c.ncache.shards, c.pcache, c.pcache.shards
    ensures c.Valid() && old(c.history) <= c.history && c.NotAfter(Time(s))
    ensures StoredIn(c.history, |old(c.history)|, |c.history|, s)
    ensures StepRight(c.cfg, old(c.history), c.history, old(Snap(c.ncache.contents, c.pcache.contents)), Snap(c.ncache.contents, c.pcache.contents), s, out)
    ensures WaitingOk(c.cfg, c.history, steps, marks + [|c.history|], open')
    ensures OutcomeOk(c.cfg, c.history, steps, marks + [|c.history|], out)
  {
    match s {
      case Look(id, req, now) =>
        ghost var d;
        open', out, d := ApplyLook(c, steps, marks, id, req, now, open);
        assert Sent(d, req, now, out);
      case Write(id, a) =>
        open', out := ApplyWrite(c, steps, marks, id, a, open);
      case Return(id, _) =>
        open', out := ApplyReturn(c, steps, marks, id, open);
      case Refresh(req, a) =>
        open', out := open, Nothing;
        ghost var h, a0 := c.history, Snap(c.ncache.contents, c.pcache.contents);
        ghost var e, w := c.Prefetch(req, a);
        assert Stores(c.cfg, h, c.history, a0, Snap(c.ncache.contents, c.pcache.contents), e, true);
        WaitingLater(c.cfg, h, c.history, steps, marks, |c.history|, open);
    }
  }

  lemma {:induction false} JustifiesLater(cfg: Config, h: seq<Event>, h': seq<Event>, i: Item, req: Request, now: int)
    requires Justifies(cfg, h, i, req, now) && h <= h'
    ensures Justifies(cfg, h', i, req, now)
  {
    var j :| 0 <= j < |h| && h[j].at <= now && IsHit(cfg, h[j], i, req, now);
    assert h'[j] == h[j];
  }

  lemma {:induction false} FoundLater(cfg: Config, h: seq<Event>, h': seq<Event>, steps: seq<Step>, marks: seq<int>, marks': seq<int>, id: nat, i: Item, req: Request, now: int)
    requires FoundAt(cfg, h, steps, marks, id, i, req, now) && h <= h' && marks <= marks'
    ensures FoundAt(cfg, h', steps, marks', id, i, req, now)
  {
    var m :| 0 <= m < |marks| && m < |steps| && steps[m] == Look(id, req, now) && 0 <= marks[m] <= |h| && Justifies(cfg, h[..marks[m]], i, req, now);
    assert marks'[m] == marks[m] && h'[..marks[m]] == h[..marks[m]];
  }

  lemma {:induction false} AnsweredLater(cfg: Config, h: seq<Event>, h': seq<Event>, steps: seq<Step>, marks: seq<int>, id: nat, hit: Msg, req: Request, now: int)
    requires AnsweredAt(cfg, h, steps, marks, id, hit, req, now) && h <= h'
    ensures AnsweredAt(cfg, h', steps, marks, id, hit, req, now)
  {
    var m, j :|
      && 0 <= m < |marks| && m < |steps| && steps[m] == Look(id, req, now) && 0 <= j < marks[m] <= |h|
      && Answers(cfg, h[j], hit, req, now);
    assert h'[j] == h[j];
  }

  lemma {:induction false} WaitingLater(cfg: Config, h: seq<Event>, h': seq<Event>, steps: seq<Step>, marks: seq<int>, mark: int, open: map<nat, Asked>)
    requires WaitingOk(cfg, h, steps, marks, open) && h <= h'
    ensures WaitingOk(cfg, h', steps, marks + [mark], open)
  {
    forall id | id in open
      ensures LookedUp(steps, |marks| + 1, id, open[id].req, open[id].now)
      ensures open[id].kept.Some? ==> FoundAt(cfg, h', steps, marks + [mark], id, open[id].kept.value, open[id].req, open[id].now)
    {
      if open[id].kept.Some? {
        FoundLater(cfg, h, h', steps, marks, marks + [mark], id, open[id].kept.value, open[id].req, open[id].now);
      }
    }
  }

  lemma {:induction false} OutcomesLater(cfg: Config, h: seq<Event>, h': seq<Event>, steps: seq<Step>, marks: seq<int>, outs: seq<Outcome>, mark: int, out: Outcome)
    requires OutcomesOk(cfg, h, steps, marks, outs) && |outs| < |steps| && h <= h'
    requires OutcomeOk(cfg, h', steps, marks + [mark], out)
    ensures OutcomesOk(cfg, h', steps, marks + [mark], outs + [out])
  {
    var ms := marks + [mark];
    assert ms[..|ms|] == ms;
    forall n | 0 <= n < |outs|
      ensures OutcomeOk(cfg, h', steps, ms[..n + 1], outs[n])
    {
      assert ms[..n + 1] == marks[..n + 1];
      match outs[n]
      case FromCache(hit, _, req, now) => AnsweredLater(cfg, h, h', steps, marks[..n + 1], steps[n].id, hit, req, now);
      case _ =>
    }
  }

  lemma {:induction false} MarkedLater(h: seq<Event>, h': seq<Event>, steps: seq<Step>, marks: seq<int>)
    requires Marked(h, steps, marks) && h <= h' && |marks| < |steps| && StoredIn(h', |h|, |h'|, steps[|marks|])
    ensures Marked(h', steps, marks + [|h'|])
  {
    var ms := marks + [|h'|];
    forall n | 0 <= n < |ms|
      ensures MarkedAt(h', steps, ms, n)
    {
      if n < |marks| {
        MarkKept(h, h', steps, marks, |h'|, n);
      } else {
        MarkAdded(h', steps, marks, |h|, |h'|);
      }
    }
  }

  lemma {:induction false} MarkKept(h: seq<Event>, h': seq<Event>, steps: seq<Step>, marks: seq<int>, mark: int, n: nat)
    requires n < |marks| < |steps| && h <= h' && MarkedAt(h, steps, marks, n)
    ensures MarkedAt(h', steps, marks + [mark], n)
  {
    assert Before(marks + [mark], n) == Before(marks, n);
  }

  lemma {:induction false} MarkAdded(h: seq<Event>, steps: seq<Step>, marks: seq<int>, before: int, mark: int)
    requires |marks| < |steps| && Before(marks, |marks|) == before && StoredIn(h, before, mark, steps[|marks|])
    ensures MarkedAt(h, steps, marks + [mark], |marks|)
  {
    assert Before(marks + [mark], |marks|) == before;
  }

  /** Step `n`, by what was stored before and after it and what the caches held. */
  ghost predicate RightAt(cfg: Config, history: seq<Event>, steps: seq<Step>, marks: seq<int>, seen: seq<Snap>, outs: seq<Outcome>, n: nat)
    requires n < |outs| == |marks| <= |steps| && |seen| == |marks| + 1
  {
    && 0 <= Before(marks, n) <= |history| && 0 <= marks[n] <= |history|
    && StepRight(cfg, history[..Before(marks, n)], history[..marks[n]], seen[n], seen[n + 1], steps[n], outs[n])
  }

  ghost predicate AllRight(cfg: Config, history: seq<Event>, steps: seq<Step>, marks: seq<int>, seen: seq<Snap>, outs: seq<Outcome>) {
    && |outs| == |marks| <= |steps| && |seen| == |marks| + 1
    && forall n :: 0 <= n < |outs| ==> RightAt(cfg, history, steps, marks, seen, outs, n)
  }

  lemma {:induction false} RightKept(cfg: Config, h: seq<Event>, h': seq<Event>, steps: seq<Step>, marks: seq<int>, seen: seq<Snap>, outs: seq<Outcome>,
                                     mark: int, b: Snap, out: Outcome, n: nat)
    requires n < |outs| == |marks| < |steps| && |seen| == |marks| + 1 && RightAt(cfg, h, steps, marks, seen, outs, n) && h <= h'
    ensures RightAt(cfg, h', steps, marks + [mark], seen + [b], outs + [out], n)
  {
    assert Before(marks + [mark], n) == Before(marks, n);
    assert h'[..marks[n]] == h[..marks[n]] && h'[..Before(marks, n)] == h[..Before(marks, n)];
  }

  lemma {:induction false} RightAdded(cfg: Config, h: seq<Event>, h': seq<Event>, steps: seq<Step>, marks: seq<int>, seen: seq<Snap>, outs: seq<Outcome>,
                                      a: Snap, b: Snap, out: Outcome)
    requires |outs| == |marks| < |steps| && |seen| == |marks| + 1 && h <= h' && Before(marks, |marks|) == |h| && seen[|marks|] == a
    requires StepRight(cfg, h, h', a, b, steps[|marks|], out)
    ensures RightAt(cfg, h', steps, marks + [|h'|], seen + [b], outs + [out], |marks|)
  {
    assert Before(marks + [|h'|], |marks|) == |h|;
    assert h'[..|h|] == h && h'[..|h'|] == h';
  }

  lemma {:induction false} RightLater(cfg: Config, h: seq<Event>, h': seq<Event>, steps: seq<Step>, marks: seq<int>, seen: seq<Snap>, outs: seq<Outcome>,
                                      a: Snap, b: Snap, out: Outcome)
    requires AllRight(cfg, h, steps, marks, seen, outs) && |marks| < |steps| && h <= h' && Before(marks, |marks|) == |h| && seen[|marks|] == a
    requires StepRight(cfg, h, h', a, b, steps[|marks|], out)
    ensures AllRight(cfg, h', steps, marks + [|h'|], seen + [b], outs + [out])
  {
    var ms, ss, os := marks + [|h'|], seen + [b], outs + [out];
    forall n | 0 <= n < |os|
      ensures RightAt(cfg, h', steps, ms, ss, os, n)
    {
      if n < |outs| {
        RightKept(cfg, h, h', steps, marks, seen, outs, |h'|, b, out, n);
      } else {
        RightAdded(cfg, h, h', steps, marks, seen, outs, a, b, out);
      }
    }
  }

  /** What a shard may hold when the cache is given the capacity `size`. */
  function ShardCap(size: int): nat {
    if size / 256 < 4 then 4 else size / 256
  }

  /** Any interleaving of look-ups, arrivals and refreshes: every reply from the cache is justified
      by a reply stored in a step before its query was looked up, every other reply has the TTL it is
      stored with, a look-up is answered from the caches exactly when what they hold can be used, and
      neither cache outgrows its capacity. */
  method Session(cfg: Config, ncap: int, pcap: int, steps: seq<Step>)
    returns (c: Cache, outs: seq<Outcome>, ghost marks: seq<int>, ghost seen: seq<Snap>)
    requires ConfigOk(cfg) && InTime(steps)
    ensures c.Valid() && |outs| == |steps| && Marked(c.history, steps, marks) && OutcomesOk(cfg, c.history, steps, marks, outs)
    ensures AllRight(cfg, c.history, steps, marks, seen, outs) && seen[0] == Snap(map[], map[])
    ensures |c.ncache.contents| <= 256 * ShardCap(ncap) && |c.pcache.contents| <= 256 * ShardCap(pcap)
  {
    c := new Cache(cfg, ncap, pcap);
    outs, marks, seen := [], [], [Snap(map[], map[])];
    var open: map<nat, Asked> := map[];
    for n := 0 to |steps|
      invariant c.Valid() && c.cfg == cfg && |outs| == |marks| == n && (n < |steps| ==> c.NotAfter(Time(steps[n])))
      invariant fresh(c) && fresh(c.ncache) && fresh(c.pcache) && fresh(c.ncache.shards) && fresh(c.pcache.shards)
      invariant WaitingOk(cfg, c.history, steps, marks, open) && Marked(c.history, steps, marks)
      invariant OutcomesOk(cfg, c.history, steps, marks, outs)
      invariant AllRight(cfg, c.history, steps, marks, seen, outs) && seen[0] == Snap(map[], map[])
      invariant seen[n] == Snap(c.ncache.contents, c.pcache.contents)
    {
      ghost var h, a := c.history, Snap(c.ncache.contents, c.pcache.contents);
      var out;
      open, out := Apply(c, steps, marks, steps[n], open);
      ghost var b := Snap(c.ncache.contents, c.pcache.contents);
      OutcomesLater(cfg, h, c.history, steps, marks, outs, |c.history|, out);
      MarkedLater(h, c.history, steps, marks);
      RightLater(cfg, h, c.history, steps, marks, seen, outs, a, b, out);
      outs, marks, seen := outs + [out], marks + [|c.history|], seen + [b];
    }
    c.ncache.Bounded(|c.ncache.shards|);
    c.pcache.Bounded(|c.pcache.shards|);
  }
}
