/** `Zone.Lookup` and `externalLookup` on the tree in place.  */
module LiveLookup {
  import opened Names
  import opened Records
  import opened Llrb
  import opened ZoneTree
  import opened Store
  import opened Transfer
  import opened Queries

  ghost function StoredAt(c: Contents, n: Name): Option<RRsets> {
    if n in c then Some(c[n]) else None
  }

  /** `Tree.Search`, and what the lookup reads of the element: its name and its RRsets. */
  method Find(z: LiveZone, n: Name) returns (name: Name, m: Option<RRsets>)
    requires z.Valid()
    modifies z.tree.view.ix.Values`name
    ensures z.Valid() && z.Value() == old(z.Value()) && m == StoredAt(z.Value().contents, n)
    ensures m.Some? ==> name == n && HoldsCnames(OfType(m.value, TYPE_CNAME))
  {
    assert allocated(Nodes(z.tree.view.shape)) && allocated(z.tree.view.ix.Values);
    var e, found := z.tree.Search(n);
    if e == null {
      return [], None;
    }
    assert e == z.tree.view.ix[n] && e.Valid();
    CnameAt(e.m, n);
    return e.name.value, Some(e.m);
  }

  /** The records under the CNAME type are CNAMEs. */
  ghost predicate HoldsCnames(rrs: seq<RR>) {
    forall i :: 0 <= i < |rrs| ==> rrs[i].data.CNAME?
  }

  lemma CnameAt(m: RRsets, n: Name)
    requires Proper(m, n)
    ensures HoldsCnames(OfType(m, TYPE_CNAME))
  {
    assert forall i :: 0 <= i < |OfType(m, TYPE_CNAME)| ==> OfType(m, TYPE_CNAME)[i].Type() == TYPE_CNAME;
  }

  /** `doLookup` */
  method DoLookup(u: UpReply) returns (rrs: seq<RR>, result: Result)
    ensures (rrs, result) == Interpret(u)
  {
    if u.Failed? {
      return [], ServerFailure;
    }
    if u.Silent? {
      return [], Success;
    }
    if u.rcode == NameErrorCode {
      return u.answer, NameError;
    }
    if u.rcode == ServerFailureCode {
      return u.answer, ServerFailure;
    }
    if u.rcode == NoErrorCode && |u.answer| == 0 {
      return u.answer, NoData;
    }
    return u.answer, Success;
  }

  /** `TypeForWildcard`, on the records of the type */
  method TypeForWildcard(rrs: seq<RR>, q: Name) returns (copied: seq<RR>)
    ensures copied == Owned(rrs, q)
  {
    copied := [];
    for i := 0 to |rrs|
      invariant copied == Owned(rrs, q)[..i]
    {
      copied := copied + [rrs[i].(owner := q)];
    }
  }

  /** The loop of `externalLookup`: an answer, or the target that the zone does not hold. */
  method FollowCnames(z: LiveZone, t: RRType, rrs0: seq<RR>, ghost up: Name -> UpReply)
    returns (rrs: seq<RR>, target: Name, done: Option<Response>)
    requires z.Valid() && rrs0 != [] && HoldsCnames(rrs0)
    modifies z.tree.view.ix.Values`name
    ensures z.Valid() && z.Value() == old(z.Value())
    ensures var r, u := Chase(z.Value(), t, rrs0, Target(rrs0[0]), 0, up), Interpret(up(target));
            r == if done.Some? then done.value else Response(rrs + u.0, z.apex.ns, u.1)
  {
    rrs, target, done := rrs0, rrs0[0].data.target, None;
    var i := 0;
    ghost var value := z.Value();
    var name, elem := Find(z, target);
    while elem.Some?
      invariant z.Valid() && z.Value() == value && 0 <= i <= 9 && elem == StoredAt(value.contents, target)
      invariant elem.Some? ==> i <= 8 && HoldsCnames(OfType(elem.value, TYPE_CNAME))
      invariant Chase(value, t, rrs0, Target(rrs0[0]), 0, up) == Chase(value, t, rrs, target, i, up)
      decreases 9 - i
    {
      var cname := OfType(elem.value, TYPE_CNAME);
      if cname == [] {
        done := Some(Response(rrs + OfType(elem.value, t), z.apex.ns, Success));
        return;
      }
      rrs, target, i := rrs + cname, cname[0].data.target, i + 1;
      name, elem := Find(z, target);
      if elem.Some? && i > 8 {
        done := Some(Response(rrs, z.apex.ns, Success));
        return;
      }
    }
  }

  /** `externalLookup` */
  method ExternalLookup(z: LiveZone, t: RRType, rrs0: seq<RR>, up: Name -> UpReply) returns (r: Response)
    requires z.Valid() && rrs0 != [] && HoldsCnames(rrs0)
    modifies z.tree.view.ix.Values`name
    ensures z.Valid() && z.Value() == old(z.Value()) && r == Chase(z.Value(), t, rrs0, Target(rrs0[0]), 0, up)
  {
    var rrs, target, done := FollowCnames(z, t, rrs0, up);
    if done.Some? {
      return done.value;
    }
    assert allocated(Nodes(z.tree.view.shape)) && allocated(z.tree.view.ix.Values);
    var more, result := DoLookup(up(target));
    assert z.Valid();
    r := Response(rrs + more, z.apex.ns, result);
  }

  /** The wildcard at a level, when there is one; otherwise the one kept so far. */
  method FindWildcard(z: LiveZone, n: Name, kept: Option<RRsets>) returns (wild: Option<RRsets>)
    requires z.Valid()
    modifies z.tree.view.ix.Values`name
    ensures z.Valid() && z.Value() == old(z.Value()) && wild == WildcardAt(z.Value().contents, n, kept)
    ensures wild != kept ==> wild.Some? && HoldsCnames(OfType(wild.value, TYPE_CNAME))
  {
    wild := kept;
    var w := Asterisk(n);
    if w.Some? {
      var name, m := Find(z, w.value);
      if m.Some? {
        wild := m;
      }
    }
  }

  /** What a lookup carries: the CNAMEs among the RRsets are CNAMEs. */
  ghost predicate Sound(m: Option<RRsets>) {
    m.Some? ==> HoldsCnames(OfType(m.value, TYPE_CNAME))
  }

  /** One level of the loop: the name `n` ends the walk, or the walk goes on with what it found. */
  ghost predicate WentOn(c: Contents, n: Name, q: Name, t: RRType, wild: Option<RRsets>, stop: Option<Stop>, elem: Option<RRsets>, wild': Option<RRsets>) {
    if n in c then elem == Some(c[n]) && stop == Judge(c[n], n, q, t) && wild' == wild
    else elem == None && stop == None && wild' == WildcardAt(c, n, wild)
  }

  method VisitLevel(z: LiveZone, n: Name, q: Name, t: RRType, wild: Option<RRsets>)
    returns (stop: Option<Stop>, elem: Option<RRsets>, wild': Option<RRsets>)
    requires z.Valid() && Sound(wild)
    modifies z.tree.view.ix.Values`name
    ensures z.Valid() && z.Value() == old(z.Value()) && WentOn(z.Value().contents, n, q, t, wild, stop, elem, wild')
    ensures Sound(elem) && Sound(wild') && (stop.Some? ==> !stop.value.Bottom? && (stop.value.AtDname? ==> stop.value.cname.data.CNAME?))
  {
    stop, wild' := None, wild;
    var name;
    name, elem := Find(z, n);
    if elem.None? {
      wild' := FindWildcard(z, n, wild);
      return;
    }
    var dnamerrs, nsrrs := OfType(elem.value, TYPE_DNAME), OfType(elem.value, TYPE_NS);
    if dnamerrs != [] && Synthesize(q, dnamerrs[0]).Some? {
      stop := Some(AtDname(dnamerrs, Synthesize(q, dnamerrs[0]).value));
    } else if nsrrs != [] && !(t == TYPE_DS && name == q) {
      stop := Some(AtCut(nsrrs));
    }
  }

  /** The walk of the specification, one level on. */
  lemma ScanOn(c: Contents, origin: Name, q: Name, t: RRType, i: nat, found: Option<RRsets>, wild: Option<RRsets>,
               stop: Option<Stop>, elem: Option<RRsets>, wild': Option<RRsets>)
    requires Level(origin, q, i).Some? && WentOn(c, Level(origin, q, i).value, q, t, wild, stop, elem, wild')
    ensures Scan(c, origin, q, t, i, found, wild) == if stop.Some? then stop.value else Scan(c, origin, q, t, i + 1, elem, wild')
  {
  }

  /** The loop of `Lookup`: label by label from the origin, until a DNAME, a cut or the whole name. */
  method Descend(z: LiveZone, q: Name, t: RRType) returns (s: Stop)
    requires z.Valid()
    modifies z.tree.view.ix.Values`name
    ensures z.Valid() && z.Value() == old(z.Value()) && s == Scan(z.Value().contents, z.origin, q, t, 0, None, None)
    ensures s.Bottom? ==> Sound(s.found) && Sound(s.wild)
    ensures s.AtDname? ==> s.cname.data.CNAME?
  {
    var i, elem, wildElem := 0, None, None;
    ghost var c := z.Value().contents;
    var parts := Level(z.origin, q, i);
    while parts.Some?
      invariant z.Valid() && z.Value() == old(z.Value()) && parts == Level(z.origin, q, i) && Sound(elem) && Sound(wildElem)
      invariant Scan(c, z.origin, q, t, 0, None, None) == Scan(c, z.origin, q, t, i, elem, wildElem)
      decreases |q| + 1 - i
    {
      ghost var elem0, wild0 := elem, wildElem;
      var stop;
      stop, elem, wildElem := VisitLevel(z, parts.value, q, t, wildElem);
      ScanOn(c, z.origin, q, t, i, elem0, wild0, stop, elem, wildElem);
      if stop.Some? {
        return stop.value;
      }
      i := i + 1;
      parts := Level(z.origin, q, i);
    }
    s := Bottom(elem, wildElem);
  }

  /** The test for empty non-terminals: is the next name below `q`? */
  method NextBelow(z: LiveZone, q: Name) returns (b: bool)
    requires z.Valid()
    modifies z.tree.view.ix.Values`name
    ensures z.Valid() && z.Value() == old(z.Value()) && b == NextIsBelow(z.Value().contents, q)
  {
    assert allocated(Nodes(z.tree.view.shape)) && allocated(z.tree.view.ix.Values);
    ghost var c := z.tree.Contents();
    var e, found := z.tree.Next(q);
    if !found {
      return false;
    }
    ghost var k := e.owner;
    assert IsNextName(c, q, k);
    forall j | IsNextName(c, q, j)
      ensures j == k
    {
      CompareFlip(j, k);
    }
    assert allocated(Nodes(z.tree.view.shape)) && allocated(z.tree.view.ix.Values);
    var x := z.tree.NameOf(e);
    b := IsSubDomain(q, x);
  }

  method AnswerFrom(z: LiveZone, t: RRType, cnames: seq<RR>, rrs: seq<RR>, up: Name -> UpReply) returns (r: Response)
    requires z.Valid() && z.apex.soa.Some? && HoldsCnames(cnames)
    modifies z.tree.view.ix.Values`name
    ensures z.Valid() && z.Value() == old(z.Value()) && r == FromNode(z.Value(), t, cnames, rrs, up)
  {
    if cnames != [] && t != TYPE_CNAME {
      r := ExternalLookup(z, t, cnames, up);
    } else if rrs == [] {
      r := Response([], [z.apex.soa.value], NoData);
    } else {
      r := Response(rrs, z.apex.ns, Success);
    }
  }

  method AnswerFromWildcard(z: LiveZone, q: Name, t: RRType, m: RRsets, up: Name -> UpReply) returns (r: Response)
    requires z.Valid() && z.apex.soa.Some? && HoldsCnames(OfType(m, TYPE_CNAME))
    modifies z.tree.view.ix.Values`name
    ensures z.Valid() && z.Value() == old(z.Value())
    ensures r == FromNode(z.Value(), t, Owned(OfType(m, TYPE_CNAME), q), Owned(OfType(m, t), q), up)
  {
    assert allocated(Nodes(z.tree.view.shape)) && allocated(z.tree.view.ix.Values);
    var cnames := TypeForWildcard(OfType(m, TYPE_CNAME), q);
    assert z.Valid();
    var rrs := TypeForWildcard(OfType(m, t), q);
    assert z.Valid();
    r := AnswerFrom(z, t, cnames, rrs, up);
  }

  /** What `Lookup` does after its loop. */
  method Finish(z: LiveZone, q: Name, t: RRType, s: Stop, up: Name -> UpReply) returns (r: Response)
    requires z.Valid() && z.apex.soa.Some?
    requires s.Bottom? ==> Sound(s.found) && Sound(s.wild)
    requires s.AtDname? ==> s.cname.data.CNAME?
    modifies z.tree.view.ix.Values`name
    ensures z.Valid() && z.Value() == old(z.Value()) && r == Conclude(z.Value(), q, t, s, up)
  {
    match s {
      case AtDname(dnames, cname) =>
        if t == TYPE_CNAME {
          r := Response([cname], z.apex.ns, Success);
        } else {
          r := ExternalLookup(z, t, [cname], up);
        }
        r := r.(answer := dnames + r.answer);
      case AtCut(ns) =>
        r := Response([], ns, Delegation);
      case Bottom(Some(m), _) =>
        r := AnswerFrom(z, t, OfType(m, TYPE_CNAME), OfType(m, t), up);
      case Bottom(None, Some(m)) =>
        r := AnswerFromWildcard(z, q, t, m, up);
      case Bottom(None, None) =>
        var b := NextBelow(z, q);
        r := Response([], [z.apex.soa.value], if b then Success else NameError);
    }
  }

  /** `Zone.Lookup` */
  method LookupZone(z: LiveZone, q: Name, t: RRType, loop: nat, up: Name -> UpReply) returns (r: Response)
    requires z.Valid()
    modifies z.tree.view.ix.Values`name
    ensures z.Valid() && z.Value() == old(z.Value()) && r == Lookup(z.Value(), q, t, loop, up)
  {
    var ap := z.apex;
    if ap.soa.None? {
      return Response([], [], ServerFailure);
    }
    if q == z.origin {
      if t == TYPE_SOA {
        return Response([ap.soa.value], ap.ns, Success);
      } else if t == TYPE_NS {
        return Response(ap.ns, [], Success);
      }
    }
    if loop > 8 {
      return Response([], [], ServerFailure);
    }
    var s := Descend(z, q, t);
    r := Finish(z, q, t, s, up);
  }
}
