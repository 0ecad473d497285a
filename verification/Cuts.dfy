/** Which answers of `Zone.Lookup` come from at or below a zone cut (`plugin/file/lookup.go`).  */
module Cuts {
  import opened Names
  import opened Records
  import opened Store
  import opened Zones
  import opened Queries
  import opened Chains

  /** `k` is stored and owns an NS RRset. The NS RRset of the origin is not in the tree. */
  predicate OwnsNs(c: Contents, k: Name) {
    k in c && TYPE_NS in c[k]
  }

  /** `x` is at or below a cut of the zone. */
  ghost predicate BelowCut(c: Contents, origin: Name, x: Name) {
    exists k :: OnPath(origin, x, k) && OwnsNs(c, k)
  }

  ghost predicate NoDname(c: Contents, origin: Name, q: Name) {
    forall k :: OnPath(origin, q, k) ==> !HasDnameAbove(c, q, k)
  }

  /** Without a DNAME on the way, a name is answered rather than delegated exactly when no cut is
      on the way to it, but for a DS query at the cut itself. */
  lemma {:induction false} AnsweredAboveCuts(z: Zone, q: Name, t: RRType, loop: nat, up: Name -> UpReply)
    requires AllProper(z.contents) && IsSubDomain(z.origin, q) && !Early(z, q, t, loop)
    requires NoDname(z.contents, z.origin, q)
    ensures Lookup(z, q, t, loop, up).result != Delegation <==>
            forall k :: OnPath(z.origin, q, k) && OwnsNs(z.contents, k) ==> t == TYPE_DS && k == q
  {
    var c, o := z.contents, z.origin;
    DelegationExactly(z, q, t, loop, up);
    if k :| OnPath(o, q, k) && OwnsNs(c, k) && !(t == TYPE_DS && k == q) {
      assert Decides(c, q, t, k);
      var top := ShortestIsTopmost(c, o, q, t, |k|);
    }
  }

  /** With a cut on the way, the name is not delegated exactly when a DNAME lies at or above all
      cuts of the way. */
  lemma {:induction false} DnameHidesCut(z: Zone, q: Name, t: RRType, loop: nat, up: Name -> UpReply, cut: Name)
    requires AllProper(z.contents) && IsSubDomain(z.origin, q) && !Early(z, q, t, loop)
    requires OnPath(z.origin, q, cut) && IsCut(z.contents, q, t, cut)
    ensures Lookup(z, q, t, loop, up).result != Delegation <==>
            exists d :: OnPath(z.origin, q, d) && HasDnameAbove(z.contents, q, d) && AboveCuts(z.contents, z.origin, q, t, d)
  {
    var c, o := z.contents, z.origin;
    DelegationExactly(z, q, t, loop, up);
    assert Decides(c, q, t, cut);
    var top := ShortestIsTopmost(c, o, q, t, |cut|);
    if d :| OnPath(o, q, d) && HasDnameAbove(c, q, d) && AboveCuts(c, o, q, t, d) {
      assert Decides(c, q, t, d);
      if !HasDnameAbove(c, q, top) {
        OnPathSame(o, q, d, top);
      }
      forall j | Topmost(c, o, q, t, j)
        ensures HasDnameAbove(c, q, j)
      {
        TopmostIsOne(c, o, q, t, j, top);
      }
    } else {
      assert !HasDnameAbove(c, q, top);
    }
  }

  ghost predicate AboveCuts(c: Contents, origin: Name, q: Name, t: RRType, d: Name) {
    forall k :: OnPath(origin, q, k) && IsCut(c, q, t, k) ==> |d| <= |k|
  }

  /** When the wildcard `w` answers, no cut is above it, so it answers from a cut exactly when it
      owns an NS RRset itself. */
  lemma {:induction false} WildcardCuts(z: Zone, q: Name, t: RRType, w: Name)
    requires NothingDecides(z.contents, z.origin, q, t) && q !in z.contents && DeepestWildcard(z.contents, z.origin, q, w)
    ensures forall k :: IsSubDomain(z.origin, k) && k < w ==> !OwnsNs(z.contents, k)
    ensures IsSubDomain(z.origin, w) ==> (BelowCut(z.contents, z.origin, w) <==> TYPE_NS in z.contents[w])
  {
    var c, o := z.contents, z.origin;
    var n :| MissingWith(c, o, q, n, w);
    forall k | IsSubDomain(o, k) && k < w
      ensures !OwnsNs(c, k)
    {
      assert k == w[..|k|] == n[..|k|];
      assert OnPath(o, q, k) && k != q;
      assert !Decides(c, q, t, k);
    }
    if IsSubDomain(o, w) {
      assert OnPath(o, w, w);
      if k :| OnPath(o, w, k) && OwnsNs(c, k) {
        assert k == w || k < w;
      }
    }
  }

  // ----- chases

  /** Some of the records are owned at or below a cut. */
  ghost predicate FromCut(z: Zone, rrs: seq<RR>) {
    exists i :: 0 <= i < |rrs| && BelowCut(z.contents, z.origin, rrs[i].owner)
  }

  /** The stored names a chase for `target` reads, one after the other; it stops after nine. */
  function Met(c: Contents, target: Name, i: nat): seq<Name>
    requires i <= 9
    decreases 9 - i
  {
    if target !in c || i > 8 then []
    else
      var cnames := OfType(c[target], TYPE_CNAME);
      [target] + if cnames != [] then Met(c, Queries.Target(cnames[0]), i + 1) else []
  }

  /** What a stored name has for a chase: its CNAMEs, or else its records of the type. */
  function Given(c: Contents, t: RRType, x: Name): seq<RR> {
    if x !in c then []
    else if OfType(c[x], TYPE_CNAME) != [] then OfType(c[x], TYPE_CNAME)
    else OfType(c[x], t)
  }

  function GivenBy(c: Contents, t: RRType, xs: seq<Name>): seq<RR> {
    if xs == [] then [] else Given(c, t, xs[0]) + GivenBy(c, t, xs[1..])
  }

  /** What comes from upstream when a chase leaves the zone. */
  function FromUpstream(c: Contents, target: Name, i: nat, up: Name -> UpReply): seq<RR>
    requires i <= 9
  {
    match ChaseAsks(c, target, i)
    case Some(x) => Interpret(up(x)).0
    case None => []
  }

  /** The result upstream gave when a chase left the zone; inside the zone it succeeds. */
  function ResultUpstream(c: Contents, target: Name, i: nat, up: Name -> UpReply): Result
    requires i <= 9
  {
    match ChaseAsks(c, target, i)
    case Some(x) => Interpret(up(x)).1
    case None => Success
  }

  /** A chase adds what the names it meets have, and then what comes from upstream, whose result is
      its own; the authority section is that of the apex. */
  lemma {:induction false} ChaseGives(z: Zone, t: RRType, rrs: seq<RR>, target: Name, i: nat, up: Name -> UpReply)
    requires i <= 9
    ensures Chase(z, t, rrs, target, i, up).answer
         == rrs + GivenBy(z.contents, t, Met(z.contents, target, i)) + FromUpstream(z.contents, target, i, up)
    ensures Chase(z, t, rrs, target, i, up).ns == z.apex.ns
    ensures Chase(z, t, rrs, target, i, up).result == ResultUpstream(z.contents, target, i, up)
  {
    ChaseAdds(z, t, rrs, target, i, up);
    ChaseResults(z, t, rrs, target, i, up);
  }

  lemma {:induction false} ChaseResults(z: Zone, t: RRType, rrs: seq<RR>, target: Name, i: nat, up: Name -> UpReply)
    requires i <= 9
    ensures Chase(z, t, rrs, target, i, up).ns == z.apex.ns
    ensures Chase(z, t, rrs, target, i, up).result == ResultUpstream(z.contents, target, i, up)
    decreases 9 - i
  {
    if target in z.contents && i <= 8 && OfType(z.contents[target], TYPE_CNAME) != [] {
      var cnames := OfType(z.contents[target], TYPE_CNAME);
      ChaseResults(z, t, rrs + cnames, Queries.Target(cnames[0]), i + 1, up);
    }
  }

  lemma {:induction false} ChaseAdds(z: Zone, t: RRType, rrs: seq<RR>, target: Name, i: nat, up: Name -> UpReply)
    requires i <= 9
    ensures Chase(z, t, rrs, target, i, up).answer
         == rrs + GivenBy(z.contents, t, Met(z.contents, target, i)) + FromUpstream(z.contents, target, i, up)
    decreases 9 - i
  {
    var c := z.contents;
    if target in c && i <= 8 {
      var cnames := OfType(c[target], TYPE_CNAME);
      if cnames != [] {
        var next := Queries.Target(cnames[0]);
        ChaseAdds(z, t, rrs + cnames, next, i + 1, up);
        assert Met(c, target, i)[1..] == Met(c, next, i + 1);
      } else {
        assert Met(c, target, i)[1..] == [];
      }
    }
  }

  /** Some of the names has something to give and is at or below a cut. */
  ghost predicate GiverBelowCut(z: Zone, t: RRType, xs: seq<Name>) {
    exists x :: x in xs && Given(z.contents, t, x) != [] && BelowCut(z.contents, z.origin, x)
  }

  lemma {:induction false} FromCutConcat(z: Zone, a: seq<RR>, b: seq<RR>)
    ensures FromCut(z, a + b) <==> FromCut(z, a) || FromCut(z, b)
  {
    var s := a + b;
    if i :| 0 <= i < |s| && BelowCut(z.contents, z.origin, s[i].owner) {
      assert if i < |a| then s[i] == a[i] else s[i] == b[i - |a|];
    }
    if i :| 0 <= i < |a| && BelowCut(z.contents, z.origin, a[i].owner) {
      assert s[i] == a[i];
    }
    if i :| 0 <= i < |b| && BelowCut(z.contents, z.origin, b[i].owner) {
      assert s[|a| + i] == b[i];
    }
  }

  lemma {:induction false} OneGives(z: Zone, t: RRType, x: Name)
    requires AllProper(z.contents)
    ensures FromCut(z, Given(z.contents, t, x)) <==> Given(z.contents, t, x) != [] && BelowCut(z.contents, z.origin, x)
  {
    var here := Given(z.contents, t, x);
    assert forall i :: 0 <= i < |here| ==> here[i].owner == x;
    if here != [] {
      assert here[0].owner == x;
    }
  }

  lemma {:induction false} GivenFromCut(z: Zone, t: RRType, xs: seq<Name>)
    requires AllProper(z.contents)
    ensures FromCut(z, GivenBy(z.contents, t, xs)) <==> GiverBelowCut(z, t, xs)
  {
    if xs != [] {
      GivenFromCut(z, t, xs[1..]);
      OneGives(z, t, xs[0]);
      FromCutConcat(z, Given(z.contents, t, xs[0]), GivenBy(z.contents, t, xs[1..]));
      assert forall x :: x in xs <==> x == xs[0] || x in xs[1..];
    }
  }

  /** A chase does not look for cuts: what it takes from the zone comes from at or below one exactly
      when one of the names it meets is at or below one and has something to give. */
  lemma {:induction false} ChaseCuts(z: Zone, t: RRType, rrs: seq<RR>, target: Name, up: Name -> UpReply)
    requires AllProper(z.contents)
    ensures var taken := GivenBy(z.contents, t, Met(z.contents, target, 0));
            && Chase(z, t, rrs, target, 0, up).answer == rrs + taken + FromUpstream(z.contents, target, 0, up)
            && (FromCut(z, taken) <==> GiverBelowCut(z, t, Met(z.contents, target, 0)))
  {
    ChaseGives(z, t, rrs, target, 0, up);
    GivenFromCut(z, t, Met(z.contents, target, 0));
  }

  // ----- zones that answer from a cut

  function Cname(owner: Name, target: Name): RR {
    RR(owner, 0, CNAME(target))
  }

  function Dname(owner: Name, target: Name): RR {
    RR(owner, 0, DNAME(target))
  }

  function Ns(owner: Name): RR {
    RR(owner, 0, NS(["ns"]))
  }

  function Address(owner: Name): RR {
    RR(owner, 0, Plain(TYPE_A, ""))
  }

  lemma OneHop(z: Zone, t: RRType, cname: RR, up: Name -> UpReply)
    requires var x := Queries.Target(cname); x in z.contents && TYPE_CNAME !in z.contents[x]
    ensures Chase(z, t, [cname], Queries.Target(cname), 0, up)
         == Response([cname] + OfType(z.contents[Queries.Target(cname)], t), z.apex.ns, Success)
  {
  }

  const WWW: Name := ["org", "www"]
  const SUB: Name := ["org", "sub"]
  const SUB_NS: Name := ["org", "sub", "ns"]

  /** www is an alias of ns.sub, and sub is delegated. */
  function Aliased(): Contents {
    map[WWW := map[TYPE_CNAME := [Cname(WWW, SUB_NS)]], SUB := map[TYPE_NS := [Ns(SUB)]], SUB_NS := map[TYPE_A := [Address(SUB_NS)]]]
  }

  lemma {:induction false} NothingOnWay()
    ensures AllProper(Aliased()) && NothingDecides(Aliased(), ["org"], WWW, TYPE_A)
  {
    var c := Aliased();
    forall k | OnPath(["org"], WWW, k)
      ensures !Decides(c, WWW, TYPE_A, k)
    {
      assert k == WWW[..|k|];
      assert WWW[..1] == ["org"] && WWW[..2] == WWW;
    }
  }

  /** An address query for www is answered with the address below the cut. */
  lemma {:induction false} AliasIntoCut(z: Zone, up: Name -> UpReply)
    requires z.origin == ["org"] && z.apex.soa.Some? && z.contents == Aliased()
    ensures Lookup(z, WWW, TYPE_A, 0, up) == Response([Cname(WWW, SUB_NS), Address(SUB_NS)], z.apex.ns, Success)
    ensures BelowCut(z.contents, z.origin, SUB_NS)
  {
    NothingOnWay();
    StoredNameAnswers(z, WWW, TYPE_A, 0, up);
    OneHop(z, TYPE_A, Cname(WWW, SUB_NS), up);
    assert SUB_NS[..2] == SUB && OnPath(z.origin, SUB_NS, SUB) && OwnsNs(z.contents, SUB);
  }

  /** A wildcard that owns an NS RRset is a cut, and its address answers for names it covers. */
  lemma {:induction false} WildcardIsCut(z: Zone, up: Name -> UpReply)
    requires var w := ["org", "*"];
             z.origin == ["org"] && z.apex.soa.Some? && z.contents == map[w := map[TYPE_NS := [Ns(w)], TYPE_A := [Address(w)]]]
    ensures var x := ["org", "x"];
            && Lookup(z, x, TYPE_A, 0, up) == Response([Address(x)], z.apex.ns, Success)
            && BelowCut(z.contents, z.origin, ["org", "*"])
  {
    var c, o, x, w := z.contents, z.origin, ["org", "x"], ["org", "*"];
    assert w[1] != x[1];
    assert AllProper(c);
    forall k | OnPath(o, x, k)
      ensures !Decides(c, x, TYPE_A, k) && k !in c
    {
      assert k == x[..|k|];
      assert x[..1] == o && x[..2] == x;
    }
    assert x[..1] + ["*"] == w;
    assert MissingWith(c, o, x, x, w);
    assert forall n, v :: MissingWith(c, o, x, n, v) ==> |n| <= |x|;
    assert DeepestWildcard(c, o, x, w);
    WildcardAnswers(z, x, TYPE_A, 0, up, w);
    assert Owned([Address(w)], x) == [Address(x)];
    assert OnPath(o, w, w) && OwnsNs(c, w);
  }

  /** A DNAME above a cut: a name below both is redirected, not delegated. */
  lemma {:induction false} DnameOverCut(z: Zone, up: Name -> UpReply)
    requires var d, s := ["org", "d"], ["org", "d", "s"];
             && z.origin == ["org"] && z.apex.soa.Some?
             && z.contents == map[d := map[TYPE_DNAME := [Dname(d, ["net"])]], s := map[TYPE_NS := [Ns(s)]]]
    ensures var q := ["org", "d", "s", "x"];
            Lookup(z, q, TYPE_A, 0, up).result != Delegation && BelowCut(z.contents, z.origin, q)
  {
    var c, o, d, s, q := z.contents, z.origin, ["org", "d"], ["org", "d", "s"], ["org", "d", "s", "x"];
    assert AllProper(c);
    assert q[..1] == o && q[..2] == d && q[..3] == s;
    assert OnPath(o, q, s) && OwnsNs(c, s) && IsCut(c, q, TYPE_A, s);
    assert OnPath(o, q, d) && HasDnameAbove(c, q, d);
    forall k | OnPath(o, q, k) && IsCut(c, q, TYPE_A, k)
      ensures |d| <= |k|
    {
      assert k == s;
    }
    DnameHidesCut(z, q, TYPE_A, 0, up, s);
  }
}
