/** CNAME chains: how far `externalLookup` follows them inside a zone, and a server whose
    upstream lookups come back to its own zones (`plugin/file/lookup.go`, `plugin/file/file.go`,
    `plugin/pkg/upstream/upstream.go`).  */
module Chains {
  import opened Names
  import opened Records
  import opened Llrb
  import opened Store
  import opened Zones
  import opened Queries

  // ----- inside one zone

  /** At most one CNAME per name (section 10.1 of RFC 2181). */
  ghost predicate SingleCnames(c: Contents) {
    forall k :: k in c ==> |OfType(c[k], TYPE_CNAME)| <= 1
  }

  /** CNAMEs, each owned by the target of the one before. */
  ghost predicate CnameChain(s: seq<RR>) {
    && (forall i :: 0 <= i < |s| ==> s[i].data.CNAME?)
    && forall i :: 0 < i < |s| ==> s[i].owner == Target(s[i - 1])
  }

  /** Where a chase stops: out of the zone, at the limit, or at a name without a CNAME. */
  ghost predicate ChaseEnds(z: Zone, t: RRType, chain: seq<RR>, tail: seq<RR>, up: Name -> UpReply, result: Result)
    requires chain != []
  {
    var last := Target(chain[|chain| - 1]);
    if last !in z.contents then (tail, result) == Interpret(up(last))
    else
      && result == Success
      && if |chain| == 10 then tail == []
         else TYPE_CNAME !in z.contents[last] && tail == OfType(z.contents[last], t)
  }

  /** Whatever the zone holds, cycles included, a chase adds no more than nine CNAMEs to the first. */
  lemma {:induction false} ChaseBounded(z: Zone, t: RRType, rrs: seq<RR>, i: nat, up: Name -> UpReply) returns (chain: seq<RR>, tail: seq<RR>)
    requires AllProper(z.contents) && SingleCnames(z.contents)
    requires i <= 9 && CnameChain(rrs) && |rrs| == i + 1
    ensures rrs <= chain && CnameChain(chain) && |chain| <= 10
    ensures var r := Chase(z, t, rrs, Target(rrs[i]), i, up);
            r.answer == chain + tail && ChaseEnds(z, t, chain, tail, up, r.result)
    decreases 9 - i
  {
    var c, target := z.contents, Target(rrs[i]);
    if target in c && i <= 8 && OfType(c[target], TYPE_CNAME) != [] {
      var cnames := OfType(c[target], TYPE_CNAME);
      assert cnames == [cnames[0]] && cnames[0].owner == target && cnames[0].Type() == TYPE_CNAME;
      chain, tail := ChaseBounded(z, t, rrs + cnames, i + 1, up);
      assert rrs == (rrs + cnames)[..|rrs|];
    } else {
      chain, tail := rrs, if target !in c then Interpret(up(target)).0 else if i > 8 then [] else OfType(c[target], t);
      assert i > 8 && target in c ==> rrs + [] == rrs;
    }
  }

  // ----- a server of many zones

  /** The zone that serves a name, if any, and what everything else answers. */
  datatype Server = Server(pick: Name -> Option<Zone>, other: (Name, RRType) -> UpReply)

  /** `File.ServeDNS`: the message for a lookup. */
  function ReplyOf(r: Response): UpReply {
    match r.result
    case NameError => Message(NameErrorCode, r.answer)
    case ServerFailure => Message(ServerFailureCode, r.answer)
    case _ => Message(NoErrorCode, r.answer)
  }

  /** A result survives the trip through a message: errors stay errors, and an answer without
      records comes back as no data. */
  lemma ResultPassesThrough(r: Response)
    ensures Interpret(ReplyOf(r)).0 == r.answer
    ensures r.result in {NameError, ServerFailure} ==> Interpret(ReplyOf(r)).1 == r.result
    ensures r.result !in {NameError, ServerFailure} ==> Interpret(ReplyOf(r)).1 == if r.answer == [] then NoData else Success
  {
  }

  function AnswerOf(u: UpReply): seq<RR> {
    Interpret(u).0
  }

  /** A query to the server. Names that a zone does not hold are asked of the server again,
      with the loop counter one higher; the recursion ends because `Lookup` gives up past 8. */
  ghost function Serve(srv: Server, name: Name, t: RRType, loop: nat): UpReply
    decreases 9 - loop, 1
  {
    var q := LowerName(name);
    match srv.pick(q)
    case None => srv.other(name, t)
    case Some(z) => ReplyOf(Lookup(z, q, t, loop, Upstream(srv, t, loop)))
  }

  /** `Upstream.Lookup`, from inside a lookup with this loop count. */
  ghost function Upstream(srv: Server, t: RRType, loop: nat): Name -> UpReply
    decreases 9 - loop, 0
  {
    if loop > 8 then x => Failed else x => Serve(srv, x, t, loop + 1)
  }

  /** The name a chase asks upstream, if it leaves the zone. */
  function ChaseAsks(c: Contents, target: Name, i: nat): Option<Name>
    requires i <= 9
    decreases 9 - i
  {
    if target !in c then Some(target)
    else if i > 8 then None
    else
      var cnames := OfType(c[target], TYPE_CNAME);
      if cnames != [] then ChaseAsks(c, Target(cnames[0]), i + 1) else None
  }

  function NodeAsks(c: Contents, t: RRType, cnames: seq<RR>): Option<Name> {
    if cnames != [] && t != TYPE_CNAME then ChaseAsks(c, Target(cnames[0]), 0) else None
  }

  /** The name a lookup asks upstream. */
  function Asks(z: Zone, q: Name, t: RRType, loop: nat): Option<Name> {
    if Early(z, q, t, loop) then None
    else match Scan(z.contents, z.origin, q, t, 0, None, None)
      case AtDname(_, cname) => NodeAsks(z.contents, t, [cname])
      case AtCut(_) => None
      case Bottom(Some(m), _) => NodeAsks(z.contents, t, OfType(m, TYPE_CNAME))
      case Bottom(None, Some(m)) => NodeAsks(z.contents, t, Owned(OfType(m, TYPE_CNAME), q))
      case Bottom(None, None) => None
  }

  lemma {:induction false} ChaseAsksOnce(z: Zone, t: RRType, rrs: seq<RR>, target: Name, i: nat, up: Name -> UpReply, up': Name -> UpReply)
    requires i <= 9
    requires var a := ChaseAsks(z.contents, target, i); a.Some? ==> up(a.value) == up'(a.value)
    ensures Chase(z, t, rrs, target, i, up) == Chase(z, t, rrs, target, i, up')
    decreases 9 - i
  {
    var c := z.contents;
    if target in c && i <= 8 && OfType(c[target], TYPE_CNAME) != [] {
      var cnames := OfType(c[target], TYPE_CNAME);
      ChaseAsksOnce(z, t, rrs + cnames, Target(cnames[0]), i + 1, up, up');
    }
  }

  lemma {:induction false} NodeAsksOnce(z: Zone, t: RRType, cnames: seq<RR>, rrs: seq<RR>, up: Name -> UpReply, up': Name -> UpReply)
    requires z.apex.soa.Some?
    requires var a := NodeAsks(z.contents, t, cnames); a.Some? ==> up(a.value) == up'(a.value)
    ensures FromNode(z, t, cnames, rrs, up) == FromNode(z, t, cnames, rrs, up')
  {
    if cnames != [] && t != TYPE_CNAME {
      ChaseAsksOnce(z, t, cnames, Target(cnames[0]), 0, up, up');
    }
  }

  /** A lookup depends on upstream only through the one name it asks. */
  lemma {:induction false} AsksOnce(z: Zone, q: Name, t: RRType, loop: nat, up: Name -> UpReply, up': Name -> UpReply)
    requires var a := Asks(z, q, t, loop); a.Some? ==> up(a.value) == up'(a.value)
    ensures Lookup(z, q, t, loop, up) == Lookup(z, q, t, loop, up')
  {
    if !Early(z, q, t, loop) {
      match Scan(z.contents, z.origin, q, t, 0, None, None)
      case AtDname(_, cname) =>
        if t != TYPE_CNAME {
          ChaseAsksOnce(z, t, [cname], Target(cname), 0, up, up');
        }
      case AtCut(_) =>
      case Bottom(Some(m), _) => NodeAsksOnce(z, t, OfType(m, TYPE_CNAME), OfType(m, t), up, up');
      case Bottom(None, Some(m)) => NodeAsksOnce(z, t, Owned(OfType(m, TYPE_CNAME), q), Owned(OfType(m, t), q), up, up');
      case Bottom(None, None) =>
    }
  }

  /** The names asked one after the other when the server answers one query. */
  function Trail(srv: Server, name: Name, t: RRType, loop: nat): seq<Name>
    decreases 9 - loop
  {
    var q := LowerName(name);
    match srv.pick(q)
    case None => [name]
    case Some(z) =>
      match Asks(z, q, t, loop)
      case Some(x) => [name] + Trail(srv, x, t, loop + 1)
      case None => [name]
  }

  /** Re-entry is cut off: a query at loop count 0 visits at most ten names, and one at loop
      count n visits at most 10 - n. */
  lemma {:induction false} TrailBounded(srv: Server, name: Name, t: RRType, loop: nat)
    ensures 1 <= |Trail(srv, name, t, loop)| <= if loop <= 9 then 10 - loop else 1
    decreases 9 - loop
  {
    var q := LowerName(name);
    if srv.pick(q).Some? && Asks(srv.pick(q).value, q, t, loop).Some? {
      TrailBounded(srv, Asks(srv.pick(q).value, q, t, loop).value, t, loop + 1);
    }
  }

  /** The answer depends on nothing but the names of the trail. */
  lemma {:induction false} TrailDecides(srv: Server, srv': Server, name: Name, t: RRType, loop: nat)
    requires forall x :: x in Trail(srv, name, t, loop) ==> srv.pick(LowerName(x)) == srv'.pick(LowerName(x)) && srv.other(x, t) == srv'.other(x, t)
    ensures Serve(srv, name, t, loop) == Serve(srv', name, t, loop)
    decreases 9 - loop
  {
    var q, trail := LowerName(name), Trail(srv, name, t, loop);
    assert trail[0] == name;
    if srv.pick(q).Some? {
      var z := srv.pick(q).value;
      if Asks(z, q, t, loop).Some? {
        var x := Asks(z, q, t, loop).value;
        assert trail[1..] == Trail(srv, x, t, loop + 1);
        TrailDecides(srv, srv', x, t, loop + 1);
      }
      AsksOnce(z, q, t, loop, Upstream(srv, t, loop), Upstream(srv', t, loop));
    }
  }

  // ----- whole answers

  ghost predicate SameName(a: Name, b: Name) {
    LowerName(a) == LowerName(b)
  }

  /** Each record is owned by the name the chain has reached; a CNAME moves it on, a DNAME is
      owned by an ancestor. */
  ghost predicate Follows(name: Name, rrs: seq<RR>)
    decreases rrs
  {
    rrs == [] ||
    var r := rrs[0];
    match r.data
    case CNAME(x) => SameName(r.owner, name) && Follows(x, rrs[1..])
    case DNAME(_) => IsSubDomain(LowerName(r.owner), LowerName(name)) && Follows(name, rrs[1..])
    case _ => SameName(r.owner, name) && Follows(name, rrs[1..])
  }

  /** The name reached. */
  ghost function Reached(name: Name, rrs: seq<RR>): Name
    decreases rrs
  {
    if rrs == [] then name
    else Reached(if rrs[0].data.CNAME? then Target(rrs[0]) else name, rrs[1..])
  }

  lemma {:induction false} FollowsConcat(name: Name, a: seq<RR>, b: seq<RR>)
    requires Follows(name, a) && Follows(Reached(name, a), b)
    ensures Follows(name, a + b)
    decreases a
  {
    if a == [] {
      assert a + b == b;
    } else {
      FollowsConcat(if a[0].data.CNAME? then Target(a[0]) else name, a[1..], b);
      assert (a + b)[0] == a[0] && (a + b)[1..] == a[1..] + b;
    }
  }

  lemma {:induction false} FollowsSame(a: Name, b: Name, rrs: seq<RR>)
    requires SameName(a, b) && Follows(a, rrs)
    ensures Follows(b, rrs)
    decreases rrs
  {
    if rrs != [] && !rrs[0].data.CNAME? {
      FollowsSame(a, b, rrs[1..]);
    }
  }

  /** An RRset of one name. */
  lemma {:induction false} RRsetFollows(name: Name, rrs: seq<RR>, t: RRType)
    requires forall i :: 0 <= i < |rrs| ==> rrs[i].owner == name && rrs[i].Type() == t
    requires t == TYPE_CNAME ==> |rrs| <= 1
    ensures Follows(name, rrs)
    ensures t != TYPE_CNAME ==> Reached(name, rrs) == name
    ensures t == TYPE_CNAME && rrs != [] ==> Reached(name, rrs) == Target(rrs[0])
    decreases rrs
  {
    if rrs != [] {
      assert rrs[0].Type() == t;
      RRsetFollows(name, rrs[1..], t);
    }
  }

  lemma {:induction false} DnamesFollow(k: Name, q: Name, rrs: seq<RR>)
    requires IsSubDomain(k, q) && forall i :: 0 <= i < |rrs| ==> rrs[i].owner == k && rrs[i].data.DNAME?
    ensures Follows(q, rrs) && Reached(q, rrs) == q
    decreases rrs
  {
    if rrs != [] {
      assert IsSubDomain(LowerName(k), LowerName(q));
      DnamesFollow(k, q, rrs[1..]);
    }
  }

  /** Upstream answers follow from the name asked. */
  ghost predicate UpFollows(up: Name -> UpReply) {
    forall x :: Follows(x, AnswerOf(up(x)))
  }

  lemma {:induction false} ReachedConcat(name: Name, a: seq<RR>, b: seq<RR>)
    ensures Reached(name, a + b) == Reached(Reached(name, a), b)
    decreases a
  {
    if a == [] {
      assert a + b == b;
    } else {
      ReachedConcat(if a[0].data.CNAME? then Target(a[0]) else name, a[1..], b);
      assert (a + b)[1..] == a[1..] + b;
    }
  }

  lemma {:induction false} ChaseFollows(z: Zone, t: RRType, name: Name, rrs: seq<RR>, i: nat, up: Name -> UpReply)
    requires AllProper(z.contents) && SingleCnames(z.contents) && UpFollows(up)
    requires i <= 9 && Follows(name, rrs)
    ensures Follows(name, Chase(z, t, rrs, Reached(name, rrs), i, up).answer)
    decreases 9 - i
  {
    var c, target := z.contents, Reached(name, rrs);
    if target !in c {
      FollowsConcat(name, rrs, AnswerOf(up(target)));
    } else if i <= 8 {
      var cnames, last := OfType(c[target], TYPE_CNAME), OfType(c[target], t);
      RRsetFollows(target, cnames, TYPE_CNAME);
      if cnames != [] {
        FollowsConcat(name, rrs, cnames);
        ReachedConcat(name, rrs, cnames);
        ChaseFollows(z, t, name, rrs + cnames, i + 1, up);
      } else {
        RRsetFollows(target, last, t);
        FollowsConcat(name, rrs, last);
      }
    }
  }

  lemma {:induction false} NodeFollows(z: Zone, q: Name, t: RRType, cnames: seq<RR>, rrs: seq<RR>, up: Name -> UpReply)
    requires z.apex.soa.Some? && AllProper(z.contents) && SingleCnames(z.contents) && UpFollows(up)
    requires forall i :: 0 <= i < |cnames| ==> cnames[i].owner == q && cnames[i].Type() == TYPE_CNAME
    requires forall i :: 0 <= i < |rrs| ==> rrs[i].owner == q && rrs[i].Type() == t
    requires |cnames| <= 1 && (t == TYPE_CNAME ==> |rrs| <= 1)
    ensures Follows(q, FromNode(z, t, cnames, rrs, up).answer)
  {
    RRsetFollows(q, cnames, TYPE_CNAME);
    RRsetFollows(q, rrs, t);
    if cnames != [] {
      ChaseFollows(z, t, q, cnames, 0, up);
    }
  }

  /** A zone as the loader leaves it, with its SOA at the origin and no name with two CNAMEs. */
  ghost predicate Tidy(z: Zone) {
    WellFormed(z) && SingleCnames(z.contents) && (z.apex.soa.Some? ==> z.apex.soa.value.owner == z.origin)
  }

  lemma {:induction false} EarlyFollows(z: Zone, q: Name, t: RRType)
    requires Tidy(z)
    ensures Follows(q, LookupEarly(z, q, t).answer)
  {
    if z.apex.soa.Some? && q == z.origin {
      RRsetFollows(q, z.apex.ns, TYPE_NS);
      assert PlaceOf(z.origin, [z.apex.soa.value][0]) == AtSoa;
      RRsetFollows(q, [z.apex.soa.value], TYPE_SOA);
    }
  }

  lemma {:induction false} RedirectFollows(z: Zone, q: Name, t: RRType, up: Name -> UpReply, k: Name, cname: RR)
    requires Tidy(z) && UpFollows(up) && IsSubDomain(k, q) && k in z.contents
    requires cname.owner == q && cname.data.CNAME?
    ensures Follows(q, OfType(z.contents[k], TYPE_DNAME) + [cname])
    ensures Follows(q, OfType(z.contents[k], TYPE_DNAME) + Chase(z, t, [cname], Target(cname), 0, up).answer)
  {
    var dnames := OfType(z.contents[k], TYPE_DNAME);
    assert forall i :: 0 <= i < |dnames| ==> dnames[i].Type() == TYPE_DNAME;
    DnamesFollow(k, q, dnames);
    RRsetFollows(q, [cname], TYPE_CNAME);
    FollowsConcat(q, dnames, [cname]);
    ChaseFollows(z, t, q, [cname], 0, up);
    FollowsConcat(q, dnames, Chase(z, t, [cname], Target(cname), 0, up).answer);
  }

  lemma {:induction false} LookupFollows(z: Zone, q: Name, t: RRType, loop: nat, up: Name -> UpReply)
    requires Tidy(z) && IsSubDomain(z.origin, q) && UpFollows(up)
    ensures Follows(q, Lookup(z, q, t, loop, up).answer)
  {
    var c, o := z.contents, z.origin;
    if Early(z, q, t, loop) {
      EarlyFollows(z, q, t);
    } else if k :| OnPath(o, q, k) && Decides(c, q, t, k) {
      var top := ShortestIsTopmost(c, o, q, t, |k|);
      if HasDnameAbove(c, q, top) {
        var d: seq<RR> := c[top][TYPE_DNAME];
        DnameRedirects(z, q, t, loop, up, top);
        RedirectFollows(z, q, t, up, top, RR(q, d[0].ttl, CNAME(Target(d[0]) + q[|top|..])));
      } else {
        CutDelegates(z, q, t, loop, up, top);
      }
    } else {
      BottomFollows(z, q, t, loop, up);
    }
  }

  lemma {:induction false} BottomFollows(z: Zone, q: Name, t: RRType, loop: nat, up: Name -> UpReply)
    requires Tidy(z) && IsSubDomain(z.origin, q) && UpFollows(up)
    requires NothingDecides(z.contents, z.origin, q, t) && !Early(z, q, t, loop)
    ensures Follows(q, Lookup(z, q, t, loop, up).answer)
  {
    var c := z.contents;
    WalkReachesBottom(z, q, t);
    match Scan(c, z.origin, q, t, 0, None, None)
    case Bottom(Some(m), _) =>
      NodeFollows(z, q, t, OfType(m, TYPE_CNAME), OfType(m, t), up);
    case Bottom(None, Some(m)) =>
      var n, w :| MissingWith(c, z.origin, q, n, w) && w in c && c[w] == m;
      OwnedBy(c, w, TYPE_CNAME, q);
      OwnedBy(c, w, t, q);
      NodeFollows(z, q, t, Owned(OfType(m, TYPE_CNAME), q), Owned(OfType(m, t), q), up);
    case Bottom(None, None) =>
  }

  lemma OwnedBy(c: Contents, w: Name, t: RRType, q: Name)
    requires AllProper(c) && w in c
    ensures var rrs := Owned(OfType(c[w], t), q);
            forall i :: 0 <= i < |rrs| ==> rrs[i].owner == q && rrs[i].Type() == t
  {
    var rrs := OfType(c[w], t);
    assert forall i :: 0 <= i < |rrs| ==> rrs[i].Type() == t;
  }

  /** Zones are tidy and serve only names below their origin; what others answer is a chain. */
  ghost predicate Orderly(srv: Server) {
    && (forall q :: srv.pick(q).Some? ==> Tidy(srv.pick(q).value) && IsSubDomain(srv.pick(q).value.origin, q))
    && forall x, t :: Follows(x, AnswerOf(srv.other(x, t)))
  }

  /** Every answer of the server, across all its zones and re-entries, is one chain that starts
      at the name asked. */
  lemma {:induction false} ServeFollows(srv: Server, name: Name, t: RRType, loop: nat)
    requires Orderly(srv)
    ensures Follows(name, AnswerOf(Serve(srv, name, t, loop)))
    decreases 9 - loop, 1
  {
    var q := LowerName(name);
    if srv.pick(q).Some? {
      var z, up := srv.pick(q).value, Upstream(srv, t, loop);
      UpstreamFollows(srv, t, loop);
      LookupFollows(z, q, t, loop, up);
      LowerTwice(name);
      FollowsSame(q, name, Lookup(z, q, t, loop, up).answer);
    }
  }

  lemma {:induction false} UpstreamFollows(srv: Server, t: RRType, loop: nat)
    requires Orderly(srv)
    ensures UpFollows(Upstream(srv, t, loop))
    decreases 9 - loop, 0
  {
    var up := Upstream(srv, t, loop);
    forall x
      ensures Follows(x, AnswerOf(up(x)))
    {
      if loop <= 8 {
        ServeFollows(srv, x, t, loop + 1);
      }
    }
  }
}
