/** A, AAAA and TXT answers from a service backend (`plugin/backend_lookup.go`,
    `plugin/pkg/dnsutil/cname.go`), for any backend, cyclic service graphs included.  */
module Backend {
  import opened Names
  import opened Records
  import opened Llrb
  import opened Zones

  /** A service, by what its host is: a name, an address, or a name with a text. */
  datatype Service =
    | Alias(host: Name, ttl: nat)
    | Value(rrtype: PlainType, text: string, ttl: nat)

  datatype Found = Found(answer: seq<RR>, truncated: bool)

  /** What the backend answers; `None` is an error. */
  datatype ServiceBackend = ServiceBackend(services: Name -> Option<seq<Service>>, lookup: Name -> Option<Found>)

  /** `checkForApex`: the zone itself is looked up as apex.dns below it, if there is such an entry. */
  function CheckForApex(b: ServiceBackend, zone: Name, q: Name): Option<seq<Service>> {
    if LowerName(q) != zone then b.services(q)
    else
      var apex := b.services(zone + ["dns", "apex"]);
      if apex.Some? then apex else b.services(q)
  }

  function ServicesFor(b: ServiceBackend, zone: Name, q: Name, want: PlainType): Option<seq<Service>> {
    if want == TYPE_TXT then b.services(q) else CheckForApex(b, zone, q)
  }

  predicate Within(zone: Name, n: Name) {
    IsSubDomain(LowerName(zone), LowerName(n))
  }

  function Target(r: RR): Option<Name> {
    match r.data
    case CNAME(t) => Some(t)
    case _ => None
  }

  /** `DuplicateCNAME` */
  method DuplicateCNAME(target: Name, records: seq<RR>) returns (dup: bool)
    ensures dup <==> Duplicate(target, records)
  {
    for i := 0 to |records|
      invariant forall j :: 0 <= j < i ==> Target(records[j]) != Some(target)
    {
      if Target(records[i]) == Some(target) {
        return true;
      }
    }
    return false;
  }

  predicate Duplicate(target: Name, records: seq<RR>) {
    exists i :: 0 <= i < |records| && Target(records[i]) == Some(target)
  }

  // ----- the answer as a tree

  /** A record of the name itself, a CNAME into the zone with what its target gives, or a CNAME
      out of the zone with what the lookup elsewhere gave. */
  datatype Piece = Own(rr: RR) | Chain(cname: RR, rest: seq<Piece>) | Away(cname: RR, answer: seq<RR>)

  function Flatten(ps: seq<Piece>): seq<RR>
    decreases ps
  {
    if ps == [] then [] else Flatten(ps[..|ps| - 1]) + Spelled(ps[|ps| - 1])
  }

  function Spelled(p: Piece): seq<RR>
    decreases p
  {
    match p
    case Own(rr) => [rr]
    case Chain(c, rest) => [c] + Flatten(rest)
    case Away(c, answer) => [c] + answer
  }

  datatype Reply = Failed | Answered(pieces: seq<Piece>, truncated: bool)

  /** The recursion stops at eight previous records. */
  function Left(prev: seq<RR>): nat {
    if |prev| > 7 then 0 else 8 - |prev|
  }

  function Answer(b: ServiceBackend, zone: Name, q: Name, want: PlainType, prev: seq<RR>): Reply
    decreases Left(prev), 2, 0
  {
    match ServicesFor(b, zone, q, want)
    case None => Failed
    case Some(ss) =>
      var (ps, tc) := Gather(b, zone, q, want, prev, ss, |ss|);
      Answered(ps, tc)
  }

  /** What the first `n` services give. */
  function Gather(b: ServiceBackend, zone: Name, q: Name, want: PlainType, prev: seq<RR>, ss: seq<Service>, n: nat): (seq<Piece>, bool)
    requires n <= |ss|
    decreases Left(prev), 1, n
  {
    if n == 0 then ([], false)
    else
      var (ps, tc) := Gather(b, zone, q, want, prev, ss, n - 1);
      var (more, tc') := Contribute(b, zone, q, want, prev, ss, n - 1);
      (ps + more, tc || tc')
  }

  /** A value is new when no earlier service of the same type has it. */
  predicate IsNew(ss: seq<Service>, i: nat)
    requires i < |ss| && ss[i].Value?
  {
    forall j :: 0 <= j < i && ss[j].Value? && ss[j].rrtype == ss[i].rrtype ==> ss[j].text != ss[i].text
  }

  /** What service `i` adds. */
  function Contribute(b: ServiceBackend, zone: Name, q: Name, want: PlainType, prev: seq<RR>, ss: seq<Service>, i: nat): (seq<Piece>, bool)
    requires i < |ss|
    decreases Left(prev), 0, 0, 2
  {
    match ss[i]
    case Value(t, text, ttl) => (if t == want && IsNew(ss, i) then [Own(RR(q, ttl, Plain(t, text)))] else [], false)
    case Alias(host, ttl) => AliasGives(b, zone, q, want, prev, host, ttl)
  }

  /** A CNAME that closes no loop. */
  function Follow(b: ServiceBackend, zone: Name, q: Name, want: PlainType, prev: seq<RR>, c: RR, host: Name): (seq<Piece>, bool)
    requires |prev| <= 7
    decreases Left(prev), 0, 0, 0
  {
    if Within(zone, host) then
      match Answer(b, zone, host, want, prev + [c])
      case Failed => ([], false)
      case Answered(ps, tc) => (if Flatten(ps) != [] then [Chain(c, ps)] else [], tc)
    else
      match b.lookup(host)
      case None => ([], false)
      case Some(f) => ([Away(c, f.answer)], f.truncated && want != TYPE_TXT)
  }

  /** A call of the recursion: the name asked for and the CNAMEs that led to it. */
  datatype Call = Call(q: Name, prev: seq<RR>)

  /** The call itself and all calls it leads to, whether they give records or not. */
  ghost function Calls(b: ServiceBackend, zone: Name, q: Name, want: PlainType, prev: seq<RR>): seq<Call>
    decreases Left(prev), 2, 0
  {
    var ss := ServicesFor(b, zone, q, want);
    [Call(q, prev)] + if ss.Some? then CallsFor(b, zone, q, want, prev, ss.value, |ss.value|) else []
  }

  ghost function CallsFor(b: ServiceBackend, zone: Name, q: Name, want: PlainType, prev: seq<RR>, ss: seq<Service>, n: nat): seq<Call>
    requires n <= |ss|
    decreases Left(prev), 1, n
  {
    if n == 0 then []
    else CallsFor(b, zone, q, want, prev, ss, n - 1) +
         match ss[n - 1]
         case Value(_, _, _) => []
         case Alias(host, ttl) => AliasCalls(b, zone, q, want, prev, host, ttl)
  }

  ghost function AliasCalls(b: ServiceBackend, zone: Name, q: Name, want: PlainType, prev: seq<RR>, host: Name, ttl: nat): seq<Call>
    decreases Left(prev), 0, 0
  {
    if Within(q, host) || |prev| > 7 || Duplicate(host, prev) || !Within(zone, host) then []
    else Calls(b, zone, host, want, prev + [RR(q, ttl, CNAME(host))])
  }

  /** `A`, `AAAA` and `TXT`, which differ in the type they want. */
  method Lookup(b: ServiceBackend, zone: Name, q: Name, want: PlainType, prev: seq<RR>)
    returns (records: seq<RR>, truncated: bool, ok: bool, ghost made: seq<Call>)
    ensures IsReply(Answer(b, zone, q, want, prev), records, truncated, ok)
    ensures made == Calls(b, zone, q, want, prev)
    decreases Left(prev), 1
  {
    records, truncated, made := [], false, [Call(q, prev)];
    var services := ServicesFor(b, zone, q, want);
    if services.None? {
      return [], false, false, made;
    }
    var ss := services.value;
    var dup: set<string> := {};
    for n := 0 to |ss|
      invariant dup == set j | 0 <= j < n && ss[j].Value? && ss[j].rrtype == want :: ss[j].text
      invariant IsReply(Collected(b, zone, q, want, prev, ss, n), records, truncated, true)
      invariant made == [Call(q, prev)] + CallsFor(b, zone, q, want, prev, ss, n)
    {
      var more, tc;
      match ss[n] {
        case Alias(host, ttl) =>
          ghost var calls;
          more, tc, calls := LookupAlias(b, zone, q, want, prev, host, ttl);
          made := made + calls;
        case Value(t, text, ttl) =>
          more, tc := [], false;
          if t == want && text !in dup {
            dup := dup + {text};
            more := [RR(q, ttl, Plain(t, text))];
          }
      }
      OneMore(b, zone, q, want, prev, ss, n, records, truncated, more, tc);
      records, truncated := records + more, truncated || tc;
    }
    ok := true;
  }

  function Collected(b: ServiceBackend, zone: Name, q: Name, want: PlainType, prev: seq<RR>, ss: seq<Service>, n: nat): Reply
    requires n <= |ss|
  {
    var (ps, tc) := Gather(b, zone, q, want, prev, ss, n);
    Answered(ps, tc)
  }

  /** The records, flag and error that stand for a reply. */
  ghost predicate IsReply(r: Reply, records: seq<RR>, truncated: bool, ok: bool) {
    match r
    case Failed => !ok && records == [] && !truncated
    case Answered(ps, tc) => ok && records == Flatten(ps) && truncated == tc
  }

  lemma {:induction false} OneMore(b: ServiceBackend, zone: Name, q: Name, want: PlainType, prev: seq<RR>, ss: seq<Service>, n: nat,
                                   records: seq<RR>, truncated: bool, more: seq<RR>, tc: bool)
    requires n < |ss| && IsReply(Collected(b, zone, q, want, prev, ss, n), records, truncated, true)
    requires var (ps, tc') := Contribute(b, zone, q, want, prev, ss, n); more == Flatten(ps) && tc == tc'
    ensures IsReply(Collected(b, zone, q, want, prev, ss, n + 1), records + more, truncated || tc, true)
  {
    FlattenConcat(Gather(b, zone, q, want, prev, ss, n).0, Contribute(b, zone, q, want, prev, ss, n).0);
  }

  function AliasGives(b: ServiceBackend, zone: Name, q: Name, want: PlainType, prev: seq<RR>, host: Name, ttl: nat): (seq<Piece>, bool)
    decreases Left(prev), 0, 0, 1
  {
    if Within(q, host) || |prev| > 7 || Duplicate(host, prev) then ([], false)
    else Follow(b, zone, q, want, prev, RR(q, ttl, CNAME(host)), host)
  }

  /** A service whose host is a name. */
  method LookupAlias(b: ServiceBackend, zone: Name, q: Name, want: PlainType, prev: seq<RR>, host: Name, ttl: nat)
    returns (records: seq<RR>, truncated: bool, ghost made: seq<Call>)
    ensures made == AliasCalls(b, zone, q, want, prev, host, ttl)
    ensures var (ps, tc) := AliasGives(b, zone, q, want, prev, host, ttl); records == Flatten(ps) && truncated == tc
    decreases Left(prev), 0
  {
    records, truncated, made := [], false, [];
    if Within(q, host) || |prev| > 7 {
      return;
    }
    var c := RR(q, ttl, CNAME(host));
    var d := DuplicateCNAME(host, prev);
    if d {
      return;
    }
    if Within(zone, host) {
      var next, tc, ok;
      next, tc, ok, made := Lookup(b, zone, host, want, prev + [c]);
      if ok && |next| > 0 {
        records := [c] + next;
        FlattenOne(Chain(c, Answer(b, zone, host, want, prev + [c]).pieces));
      }
      return records, tc, made;
    }
    var m1 := b.lookup(host);
    if m1.Some? {
      records, truncated := [c] + m1.value.answer, m1.value.truncated && want != TYPE_TXT;
      FlattenOne(Away(c, m1.value.answer));
    }
  }

  lemma FlattenOne(p: Piece)
    ensures Flatten([p]) == Spelled(p)
  {
    assert [p][..0] == [];
  }

  lemma {:induction false} FlattenConcat(a: seq<Piece>, b: seq<Piece>)
    ensures Flatten(a + b) == Flatten(a) + Flatten(b)
  {
    if b == [] {
      assert a + b == a;
    } else {
      FlattenConcat(a, b[..|b| - 1]);
      assert (a + b)[..|a + b| - 1] == a + b[..|b| - 1];
    }
  }

  // ----- what every answer is made of

  /** The record that goes first is owned by `q`. */
  ghost predicate StartsAt(p: Piece, q: Name) {
    match p
    case Own(rr) => rr.owner == q
    case Chain(c, _) => c.owner == q && c.data.CNAME?
    case Away(c, _) => c.owner == q && c.data.CNAME?
  }

  /** A CNAME may be followed after the records `prev`. */
  ghost predicate MayFollow(c: RR, prev: seq<RR>) {
    |prev| <= 7 && c.data.CNAME? && !Duplicate(c.data.target, prev) && !Within(c.owner, c.data.target)
  }

  ghost predicate PieceOk(zone: Name, q: Name, want: PlainType, prev: seq<RR>, p: Piece)
    decreases p
  {
    && StartsAt(p, q)
    && match p
       case Own(rr) => rr.Type() == want
       case Chain(c, rest) =>
         && MayFollow(c, prev) && Within(zone, c.data.target) && rest != []
         && forall i :: 0 <= i < |rest| ==> PieceOk(zone, c.data.target, want, prev + [c], rest[i])
       case Away(c, _) => MayFollow(c, prev) && !Within(zone, c.data.target)
  }

  ghost predicate PiecesOk(zone: Name, q: Name, want: PlainType, prev: seq<RR>, ps: seq<Piece>) {
    forall i :: 0 <= i < |ps| ==> PieceOk(zone, q, want, prev, ps[i])
  }

  lemma {:induction false} AnswerOk(b: ServiceBackend, zone: Name, q: Name, want: PlainType, prev: seq<RR>)
    ensures var r := Answer(b, zone, q, want, prev); r.Answered? ==> PiecesOk(zone, q, want, prev, r.pieces)
    decreases Left(prev), 2, 0
  {
    var ss := ServicesFor(b, zone, q, want);
    if ss.Some? {
      GatherOk(b, zone, q, want, prev, ss.value, |ss.value|);
    }
  }

  lemma {:induction false} GatherOk(b: ServiceBackend, zone: Name, q: Name, want: PlainType, prev: seq<RR>, ss: seq<Service>, n: nat)
    requires n <= |ss|
    ensures PiecesOk(zone, q, want, prev, Gather(b, zone, q, want, prev, ss, n).0)
    decreases Left(prev), 1, n
  {
    if n > 0 {
      GatherOk(b, zone, q, want, prev, ss, n - 1);
      match ss[n - 1]
      case Value(_, _, _) =>
      case Alias(host, ttl) => AliasOk(b, zone, q, want, prev, host, ttl);
    }
  }

  lemma {:induction false} AliasOk(b: ServiceBackend, zone: Name, q: Name, want: PlainType, prev: seq<RR>, host: Name, ttl: nat)
    ensures PiecesOk(zone, q, want, prev, AliasGives(b, zone, q, want, prev, host, ttl).0)
    decreases Left(prev), 0, 0
  {
    if !Within(q, host) && |prev| <= 7 && !Duplicate(host, prev) && Within(zone, host) {
      AnswerOk(b, zone, host, want, prev + [RR(q, ttl, CNAME(host))]);
    }
  }

  // ----- chains of an answer

  /** `cs` are the CNAMEs met when going down into the answer. */
  ghost predicate Path(ps: seq<Piece>, cs: seq<RR>)
    decreases cs
  {
    cs == [] || exists i :: 0 <= i < |ps| && Enters(ps[i], cs)
  }

  ghost predicate Enters(p: Piece, cs: seq<RR>)
    requires cs != []
    decreases cs, 0
  {
    match p
    case Own(_) => false
    case Chain(c, rest) => c == cs[0] && Path(rest, cs[1..])
    case Away(c, _) => cs == [c]
  }

  /** CNAMEs with different targets, each owned by the target of the one before. */
  ghost predicate Linked(q: Name, cs: seq<RR>) {
    && (forall i :: 0 <= i < |cs| ==> cs[i].data.CNAME?)
    && (cs != [] ==> cs[0].owner == q)
    && (forall i :: 0 < i < |cs| ==> cs[i].owner == cs[i - 1].data.target)
    && forall i, j :: 0 <= i < j < |cs| ==> cs[i].data.target != cs[j].data.target
  }

  lemma {:induction false} PathOk(zone: Name, q: Name, want: PlainType, prev: seq<RR>, ps: seq<Piece>, cs: seq<RR>)
    requires PiecesOk(zone, q, want, prev, ps) && Path(ps, cs)
    ensures cs != [] ==> |prev| + |cs| <= 8
    ensures Linked(q, cs)
    ensures forall i :: 0 <= i < |cs| ==> !Duplicate(cs[i].data.target, prev)
    decreases cs
  {
    if cs != [] {
      var i :| 0 <= i < |ps| && Enters(ps[i], cs);
      var c, tail := cs[0], cs[1..];
      assert PieceOk(zone, q, want, prev, ps[i]);
      if ps[i].Chain? {
        PathOk(zone, c.data.target, want, prev + [c], ps[i].rest, tail);
        PathJoins(q, prev, c, tail);
      }
      assert cs == [c] + tail;
    }
  }

  lemma {:induction false} PathJoins(q: Name, prev: seq<RR>, c: RR, tail: seq<RR>)
    requires c.owner == q && c.data.CNAME? && Linked(c.data.target, tail)
    requires forall i :: 0 <= i < |tail| ==> !Duplicate(tail[i].data.target, prev + [c])
    ensures Linked(q, [c] + tail)
    ensures forall i :: 0 <= i < |tail| ==> !Duplicate(tail[i].data.target, prev)
  {
    forall i | 0 <= i < |tail|
      ensures tail[i].data.target != c.data.target && !Duplicate(tail[i].data.target, prev)
    {
      assert Target((prev + [c])[|prev|]) == Some(c.data.target);
      assert forall j :: 0 <= j < |prev| ==> (prev + [c])[j] == prev[j];
    }
  }

  /** For every backend: no chain of an answer has more than eight CNAMEs, their
      targets are pairwise different, and each is owned by the target of the one before. */
  lemma {:induction false} PathsBounded(b: ServiceBackend, zone: Name, q: Name, want: PlainType, cs: seq<RR>)
    requires Answer(b, zone, q, want, []).Answered? && Path(Answer(b, zone, q, want, []).pieces, cs)
    ensures |cs| <= 8 && Linked(q, cs)
  {
    AnswerOk(b, zone, q, want, []);
    PathOk(zone, q, want, [], Answer(b, zone, q, want, []).pieces, cs);
  }

  // ----- every call of the recursion

  /** A call was reached from `q` over at most eight CNAMEs with different targets, each owned by
      the target of the one before, and asks for the last target. */
  ghost predicate CallOk(q: Name, x: Call) {
    && |x.prev| <= 8 && Linked(q, x.prev)
    && Some(x.q) == if x.prev == [] then Some(q) else Target(x.prev[|x.prev| - 1])
  }

  lemma {:induction false} OneMoreCall(q: Name, x: Call, host: Name, ttl: nat)
    requires CallOk(q, x) && |x.prev| <= 7 && !Duplicate(host, x.prev)
    ensures CallOk(q, Call(host, x.prev + [RR(x.q, ttl, CNAME(host))]))
  {
    assert forall i :: 0 <= i < |x.prev| ==> Target(x.prev[i]) == Some(x.prev[i].data.target);
  }

  lemma {:induction false} CallsOk(b: ServiceBackend, zone: Name, q0: Name, q: Name, want: PlainType, prev: seq<RR>)
    requires CallOk(q0, Call(q, prev))
    ensures forall x :: x in Calls(b, zone, q, want, prev) ==> CallOk(q0, x)
    decreases Left(prev), 2, 0
  {
    var ss := ServicesFor(b, zone, q, want);
    if ss.Some? {
      CallsForOk(b, zone, q0, q, want, prev, ss.value, |ss.value|);
    }
  }

  lemma {:induction false} CallsForOk(b: ServiceBackend, zone: Name, q0: Name, q: Name, want: PlainType, prev: seq<RR>, ss: seq<Service>, n: nat)
    requires CallOk(q0, Call(q, prev)) && n <= |ss|
    ensures forall x :: x in CallsFor(b, zone, q, want, prev, ss, n) ==> CallOk(q0, x)
    decreases Left(prev), 1, n
  {
    if n > 0 {
      CallsForOk(b, zone, q0, q, want, prev, ss, n - 1);
      match ss[n - 1]
      case Value(_, _, _) =>
      case Alias(host, ttl) =>
        if !Within(q, host) && |prev| <= 7 && !Duplicate(host, prev) && Within(zone, host) {
          OneMoreCall(q0, Call(q, prev), host, ttl);
          CallsOk(b, zone, q0, host, want, prev + [RR(q, ttl, CNAME(host))]);
        }
    }
  }

  /** For every backend, cyclic ones included: every call of the recursion is at depth at most
      eight, and the CNAMEs that led to it are a chain with pairwise different targets. */
  lemma {:induction false} CallsBounded(b: ServiceBackend, zone: Name, q: Name, want: PlainType, x: Call)
    requires x in Calls(b, zone, q, want, [])
    ensures CallOk(q, x)
  {
    CallsOk(b, zone, q, q, want, []);
  }

  /** At most `n` aliases per name and `left` more levels: so many calls. */
  function Most(n: nat, left: nat): nat {
    if left == 0 then 1 else 1 + n * Most(n, left - 1)
  }

  /** No name has more than `n` services. */
  ghost predicate AtMost(b: ServiceBackend, n: nat) {
    forall x :: b.services(x).Some? ==> |b.services(x).value| <= n
  }

  /** The number of calls is bounded whatever the service graph: with at most n services per name
      by 1 + n + ... + n^8. */
  lemma {:induction false} CallsCounted(b: ServiceBackend, zone: Name, q: Name, want: PlainType, prev: seq<RR>, n: nat)
    requires AtMost(b, n)
    ensures |Calls(b, zone, q, want, prev)| <= Most(n, Left(prev))
    decreases Left(prev), 2, 0
  {
    var ss := ServicesFor(b, zone, q, want);
    if ss.Some? {
      var k := |ss.value|;
      CallsForCounted(b, zone, q, want, prev, ss.value, k, n);
      if Left(prev) > 0 {
        MoreOf(k, n, Most(n, Left(prev) - 1));
      }
    }
  }

  lemma MoreOf(k: nat, n: nat, m: nat)
    requires k <= n
    ensures k * m <= n * m
  {
  }

  lemma {:induction false} CallsForCounted(b: ServiceBackend, zone: Name, q: Name, want: PlainType, prev: seq<RR>, ss: seq<Service>, k: nat, n: nat)
    requires AtMost(b, n) && k <= |ss|
    ensures |CallsFor(b, zone, q, want, prev, ss, k)| <= if Left(prev) == 0 then 0 else k * Most(n, Left(prev) - 1)
    decreases Left(prev), 1, k
  {
    if k > 0 {
      CallsForCounted(b, zone, q, want, prev, ss, k - 1, n);
      if Left(prev) > 0 {
        var m := Most(n, Left(prev) - 1);
        assert k * m == (k - 1) * m + m;
      }
      match ss[k - 1]
      case Value(_, _, _) =>
      case Alias(host, ttl) =>
        if !Within(q, host) && |prev| <= 7 && !Duplicate(host, prev) && Within(zone, host) {
          CallsCounted(b, zone, host, want, prev + [RR(q, ttl, CNAME(host))], n);
        }
    }
  }

  // ----- in-zone CNAMEs are followed up

  /** Which records of the answer are CNAMEs into the zone that the recursion added. */
  ghost function Marks(ps: seq<Piece>): seq<bool>
    ensures |Marks(ps)| == |Flatten(ps)|
    decreases ps
  {
    if ps == [] then [] else Marks(ps[..|ps| - 1]) + MarksOf(ps[|ps| - 1])
  }

  ghost function MarksOf(p: Piece): seq<bool>
    ensures |MarksOf(p)| == |Spelled(p)|
    decreases p
  {
    match p
    case Own(_) => [false]
    case Chain(_, rest) => [true] + Marks(rest)
    case Away(_, answer) => seq(1 + |answer|, i => false)
  }

  /** Every marked record is a CNAME that is followed at once by a record of its target. */
  ghost predicate FollowedUp(records: seq<RR>, marks: seq<bool>) {
    && |marks| == |records|
    && forall i :: 0 <= i < |marks| && marks[i] ==>
         i + 1 < |records| && records[i].data.CNAME? && records[i + 1].owner == records[i].data.target
  }

  lemma FollowedConcat(a: seq<RR>, ma: seq<bool>, b: seq<RR>, mb: seq<bool>)
    requires FollowedUp(a, ma) && FollowedUp(b, mb)
    ensures FollowedUp(a + b, ma + mb)
  {
    forall i | 0 <= i < |ma + mb| && (ma + mb)[i]
      ensures i + 1 < |a + b| && (a + b)[i].data.CNAME? && (a + b)[i + 1].owner == (a + b)[i].data.target
    {
      if i < |a| {
        assert ma[i];
      } else {
        assert mb[i - |a|];
      }
    }
  }

  lemma {:induction false} FirstOwner(zone: Name, q: Name, want: PlainType, prev: seq<RR>, ps: seq<Piece>)
    requires PiecesOk(zone, q, want, prev, ps) && ps != []
    ensures Flatten(ps) != [] && Flatten(ps)[0].owner == q
    decreases ps
  {
    var n := |ps| - 1;
    assert PieceOk(zone, q, want, prev, ps[n]);
    if n > 0 {
      FirstOwner(zone, q, want, prev, ps[..n]);
    }
  }

  lemma {:induction false} PiecesFollowed(zone: Name, q: Name, want: PlainType, prev: seq<RR>, ps: seq<Piece>)
    requires PiecesOk(zone, q, want, prev, ps)
    ensures FollowedUp(Flatten(ps), Marks(ps))
    decreases ps
  {
    if ps != [] {
      var n := |ps| - 1;
      PiecesFollowed(zone, q, want, prev, ps[..n]);
      PieceFollowed(zone, q, want, prev, ps[n]);
      FollowedConcat(Flatten(ps[..n]), Marks(ps[..n]), Spelled(ps[n]), MarksOf(ps[n]));
    }
  }

  lemma {:induction false} PieceFollowed(zone: Name, q: Name, want: PlainType, prev: seq<RR>, p: Piece)
    requires PieceOk(zone, q, want, prev, p)
    ensures FollowedUp(Spelled(p), MarksOf(p))
    decreases p
  {
    if p.Chain? {
      var c, t := p.cname, p.cname.data.target;
      PiecesFollowed(zone, t, want, prev + [c], p.rest);
      FirstOwner(zone, t, want, prev + [c], p.rest);
      var records, marks := Flatten(p.rest), Marks(p.rest);
      forall i | 0 <= i < |[true] + marks| && ([true] + marks)[i]
        ensures i + 1 < |[c] + records| && ([c] + records)[i].data.CNAME? && ([c] + records)[i + 1].owner == ([c] + records)[i].data.target
      {
        if i > 0 {
          assert marks[i - 1];
        }
      }
    }
  }

  /** For every backend: each in-zone CNAME of an answer is followed at once by a record that
      its target owns. */
  lemma {:induction false} InZoneFollowed(b: ServiceBackend, zone: Name, q: Name, want: PlainType)
    ensures var r := Answer(b, zone, q, want, []); r.Answered? ==> FollowedUp(Flatten(r.pieces), Marks(r.pieces))
  {
    AnswerOk(b, zone, q, want, []);
    var r := Answer(b, zone, q, want, []);
    if r.Answered? {
      PiecesFollowed(zone, q, want, [], r.pieces);
    }
  }
}
