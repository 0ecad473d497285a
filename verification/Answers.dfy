/** What a lookup answers at the apex, from upstream, and when it denies a name
    (`plugin/file/lookup.go`).  */
module Answers {
  import opened Names
  import opened Records
  import opened Llrb
  import opened Zones
  import opened Queries
  import opened Chains
  import opened Cuts

  /** A zone without a SOA fails; the apex answers for its SOA and NS records; a query that came
      back more than eight times fails; every other query is looked up. */
  lemma {:induction false} ApexAnswers(z: Zone, q: Name, t: RRType, loop: nat, up: Name -> UpReply)
    ensures z.apex.soa.None? ==> Lookup(z, q, t, loop, up) == Response([], [], ServerFailure)
    ensures z.apex.soa.Some? && q == z.origin && t == TYPE_SOA ==>
              Lookup(z, q, t, loop, up) == Response([z.apex.soa.value], z.apex.ns, Success)
    ensures z.apex.soa.Some? && q == z.origin && t == TYPE_NS ==> Lookup(z, q, t, loop, up) == Response(z.apex.ns, [], Success)
    ensures z.apex.soa.Some? && !(q == z.origin && (t == TYPE_SOA || t == TYPE_NS)) && loop > 8 ==>
              Lookup(z, q, t, loop, up) == Response([], [], ServerFailure)
    ensures z.apex.soa.Some? && !(q == z.origin && (t == TYPE_SOA || t == TYPE_NS)) && loop <= 8 ==> !Early(z, q, t, loop)
  {
  }

  /** The answer to an alias whose target is not in the zone: its CNAMEs, what upstream adds, and
      the result upstream stands for. */
  lemma {:induction false} UpstreamTold(z: Zone, q: Name, t: RRType, loop: nat, up: Name -> UpReply)
    requires AllProper(z.contents) && IsSubDomain(z.origin, q) && !Early(z, q, t, loop)
    requires NothingDecides(z.contents, z.origin, q, t) && q in z.contents && IsAlias(z.contents[q], t)
    requires Queries.Target(z.contents[q][TYPE_CNAME][0]) !in z.contents
    ensures var cnames, r := z.contents[q][TYPE_CNAME], Lookup(z, q, t, loop, up);
            r.ns == z.apex.ns &&
            match up(Queries.Target(cnames[0]))
            case Failed => r.answer == cnames && r.result == ServerFailure
            case Silent => r.answer == cnames && r.result == Success
            case Message(rcode, answer) =>
              && r.answer == cnames + answer
              && (r.result == NameError <==> rcode == NameErrorCode)
              && (r.result == ServerFailure <==> rcode == ServerFailureCode)
              && (r.result == NoData <==> rcode == NoErrorCode && answer == [])
              && r.result != Delegation
  {
    StoredNameAnswers(z, q, t, loop, up);
  }

  /** Nothing is stored for a name: no wildcard covers it, and nothing that counts is at or below it. */
  ghost predicate NothingFor(z: Zone, q: Name, t: RRType) {
    && NothingDecides(z.contents, z.origin, q, t) && NoWildcard(z.contents, z.origin, q)
    && forall k :: k in z.contents && IsSubDomain(q, k) ==> k != q && Missed(q, k)
  }

  ghost predicate UpstreamDenies(z: Zone, q: Name, t: RRType, loop: nat, up: Name -> UpReply) {
    match Asks(z, q, t, loop)
    case Some(x) => up(x).Message? && up(x).rcode == NameErrorCode
    case None => false
  }

  lemma {:induction false} ChaseDenies(z: Zone, t: RRType, rrs: seq<RR>, target: Name, up: Name -> UpReply)
    ensures Chase(z, t, rrs, target, 0, up).result == NameError <==>
            match ChaseAsks(z.contents, target, 0)
            case Some(x) => up(x).Message? && up(x).rcode == NameErrorCode
            case None => false
  {
    ChaseGives(z, t, rrs, target, 0, up);
  }

  /** The result is a name error exactly when nothing is stored for the name, or upstream denies
      the name a chase came to. */
  lemma {:induction false} DeniedExactly(z: Zone, q: Name, t: RRType, loop: nat, up: Name -> UpReply)
    requires AllProper(z.contents) && IsSubDomain(z.origin, q) && !Early(z, q, t, loop)
    ensures Lookup(z, q, t, loop, up).result == NameError <==> NothingFor(z, q, t) || UpstreamDenies(z, q, t, loop, up)
  {
    var c, o := z.contents, z.origin;
    var stop := Scan(c, o, q, t, 0, None, None);
    WalkEnds(z, q, t);
    match stop {
      case AtDname(_, cname) => ChaseDenies(z, t, [cname], Queries.Target(cname), up);
      case AtCut(_) =>
      case Bottom(found, wild) =>
        BottomDenies(z, q, t, loop, up, found, wild);
    }
  }

  lemma {:induction false} BottomDenies(z: Zone, q: Name, t: RRType, loop: nat, up: Name -> UpReply, found: Option<RRsets>, wild: Option<RRsets>)
    requires AllProper(z.contents) && IsSubDomain(z.origin, q) && !Early(z, q, t, loop)
    requires Scan(z.contents, z.origin, q, t, 0, None, None) == Bottom(found, wild)
    requires NothingDecides(z.contents, z.origin, q, t)
    ensures Lookup(z, q, t, loop, up).result == NameError <==> NothingFor(z, q, t) || UpstreamDenies(z, q, t, loop, up)
  {
    var c := z.contents;
    WalkReachesBottom(z, q, t);
    if found.Some? {
      var cnames := OfType(found.value, TYPE_CNAME);
      if cnames != [] { ChaseDenies(z, t, cnames, Queries.Target(cnames[0]), up); }
    } else if wild.Some? {
      var cnames := Owned(OfType(wild.value, TYPE_CNAME), q);
      if cnames != [] { ChaseDenies(z, t, cnames, Queries.Target(cnames[0]), up); }
    } else {
      NextTells(c, q);
    }
  }
}
