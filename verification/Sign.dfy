/** The NSEC chain of `Signer.Sign` (`plugin/sign/signer.go`): records are inserted while
    the tree is being walked.  */
module Sign {
  import opened Names
  import opened Records
  import opened Llrb
  import opened ZoneTree
  import opened Store
  import opened Walk

  // ----- a part of a tree, and why it survives insertion at stored names

  /** `h'` and `t'` are what shape and value look like from one node on. */
  ghost predicate Within(h: Shape, t: Rbt<Elem>, h': Shape, t': Rbt<Elem>) {
    (h == h' && t == t') || (h.N? && t.Bin? && (Within(h.l, t.left, h', t') || Within(h.r, t.right, h', t')))
  }

  lemma {:induction false} WithinRep(n: Node?, h: Shape, t: Rbt<Elem>, h': Shape, t': Rbt<Elem>)
    requires Rep(n, h, t) && Within(h, t, h', t') && h'.N?
    ensures Nodes(h') <= Nodes(h) && Elems(t') <= Elems(t) && Rep(h'.x, h', t')
  {
    if !(h == h' && t == t') {
      if Within(h.l, t.left, h', t') {
        WithinRep(n.left, h.l, t.left, h', t');
      } else {
        WithinRep(n.right, h.r, t.right, h', t');
      }
    }
  }

  lemma {:induction false} WithinSides(h: Shape, t: Rbt<Elem>, h': Shape, t': Rbt<Elem>)
    requires Within(h, t, h', t') && h'.N? && t'.Bin?
    ensures Within(h, t, h'.l, t'.left) && Within(h, t, h'.r, t'.right)
  {
    if !(h == h' && t == t') {
      if Within(h.l, t.left, h', t') {
        WithinSides(h.l, t.left, h', t');
      } else {
        WithinSides(h.r, t.right, h', t');
      }
    }
  }

  // ----- the chain

  /** `names`: the authoritative names in order. */
  ghost function AuthNames<V>(s: Items<V>, c: Contents): seq<Name> {
    if s == [] then []
    else AuthNames(s[..|s| - 1], c) + if IsAuth(c, s[|s| - 1].0) then [s[|s| - 1].0] else []
  }

  /** What does not change while the zone is signed. */
  datatype Job = Job(origin: Name, ttl: nat, names: seq<Name>)

  /** `NSEC` of a name; the types are those of the name, those kept at the apex, RRSIG and NSEC. */
  function Nsec(j: Job, k: Name, next: Name, m: RRsets): RR {
    var types := multiset(m.Keys) + multiset{TYPE_RRSIG, TYPE_NSEC};
    RR(k, j.ttl, NSEC(next, if k == j.origin then types + multiset{TYPE_NS, TYPE_SOA} else types))
  }

  /** `r` is an NSEC of `k` to `next` that lists the types of `k`, RRSIG and NSEC, and at the origin NS and SOA. */
  ghost predicate LinksTo(j: Job, k: Name, next: Name, m: RRsets, r: RR) {
    && r.owner == k && r.ttl == j.ttl && r.data.NSEC? && r.data.next == next
    && forall t: RRType :: t in r.data.types <==> t in m || t == TYPE_RRSIG || t == TYPE_NSEC || (k == j.origin && (t == TYPE_NS || t == TYPE_SOA))
  }

  lemma NsecLinks(j: Job, k: Name, next: Name, m: RRsets)
    ensures LinksTo(j, k, next, m, Nsec(j, k, next, m))
  {
  }

  /** The name that follows a position, the first one after the last. */
  function After(names: seq<Name>, pos: nat): Name {
    if pos + 1 < |names| then names[pos + 1] else if names != [] then names[0] else []
  }

  /** How many of the first `m` names are authoritative. */
  ghost function Rank<V>(s: Items<V>, m: nat, c: Contents): nat
    requires m <= |s|
  {
    if m == 0 then 0 else Rank(s, m - 1, c) + if IsAuth(c, s[m - 1].0) then 1 else 0
  }

  /** The contents after the first `m` names were visited, `c` before: each authoritative name got
      the record that `f` makes for it and its rank. */
  ghost function Visited<V>(f: (Name, nat) -> RR, s: Items<V>, m: nat, c: Contents): Contents
    requires m <= |s|
  {
    if m == 0 then c
    else
      var k, c' := s[m - 1].0, Visited(f, s, m - 1, c);
      if IsAuth(c, k) then AddTo(c', f(k, Rank(s, m - 1, c))) else c'
  }

  ghost predicate Owns(f: (Name, nat) -> RR) {
    forall k: Name, n: nat :: f(k, n).owner == k
  }

  function NsecOf(j: Job, c: Contents): (Name, nat) -> RR {
    (k: Name, n: nat) => Nsec(j, k, After(j.names, n), At(c, k))
  }

  /** The contents after the first `m` names were signed. */
  ghost function Signed<V>(j: Job, s: Items<V>, m: nat, c: Contents): Contents
    requires m <= |s|
  {
    Visited(NsecOf(j, c), s, m, c)
  }

  lemma {:induction false} RankCounts<V>(s: Items<V>, m: nat, c: Contents)
    requires m <= |s|
    ensures Rank(s, m, c) == |AuthNames(s[..m], c)|
  {
    if m > 0 {
      RankCounts(s, m - 1, c);
      RankGrows(s, m - 1, c);
    }
  }

  /** The first authoritative names are those of a prefix. */
  lemma {:induction false} RankBelow<V>(s: Items<V>, m: nat, c: Contents)
    requires m < |s|
    ensures AuthNames(s[..m], c) <= AuthNames(s, c)
    ensures IsAuth(c, s[m].0) ==> AuthNames(s[..m], c) + [s[m].0] <= AuthNames(s, c)
  {
    var f := s[..|s| - 1];
    if m < |s| - 1 {
      RankBelow(f, m, c);
      assert f[..m] == s[..m];
    }
  }


  /** The index expression of `Sign`. */
  lemma AfterByMod(names: seq<Name>, i: nat)
    requires 0 < i <= |names|
    ensures (|names| + i) % |names| < |names|
    ensures names[(|names| + i) % |names|] == After(names, i - 1)
  {
    var n := |names|;
    var d := (n + i) / n;
    assert n * d + (n + i) % n == n + i;
    Multiples(n, d);
  }

  /** `names[(ln+i)%ln]` */
  function NextName(names: seq<Name>, i: nat): (next: Name)
    requires 0 < i <= |names|
    ensures next == After(names, i - 1)
  {
    AfterByMod(names, i);
    names[(|names| + i) % |names|]
  }

  lemma Multiples(n: nat, d: int)
    requires n > 0
    ensures d <= 0 ==> n * d <= 0
    ensures d == 1 ==> n * d == n
    ensures d == 2 ==> n * d == 2 * n
    ensures d >= 3 ==> n * d >= 3 * n
  {
  }

  lemma {:induction false} RankGrows<V>(s: Items<V>, m: nat, c: Contents)
    requires m < |s|
    ensures AuthNames(s[..m + 1], c) == AuthNames(s[..m], c) + if IsAuth(c, s[m].0) then [s[m].0] else []
  {
    assert s[..m + 1][..m] == s[..m];
  }

  lemma {:induction false} SignedHere<V>(j: Job, s: Items<V>, m: nat, c: Contents)
    requires m < |s| && Sorted(s) && c.Keys == Keys(s)
    ensures s[m].0 in Signed(j, s, m, c) && Signed(j, s, m, c)[s[m].0] == c[s[m].0]
  {
    var k := s[m].0;
    assert k in Keys(s);
    OthersDiffer(s, m);
    VisitedOnce(NsecOf(j, c), s, m, c, 0, k, c[k]);
  }

  /** One visit of the signer against the state it should reach. */
  lemma {:induction false} SignStep<V>(j: Job, s: Items<V>, m: nat, c: Contents)
    requires m < |s| && Sorted(s) && c.Keys == Keys(s) && ValidNames(c) && j.names == AuthNames(s, c)
    ensures var k, c', n := s[m].0, Signed(j, s, m, c), |AuthNames(s[..m], c)|;
            && k in c' && c'[k] == c[k]
            && NsOf(s, m + 1, c) == NoteNs(NsOf(s, m, c), k, c')
            && (AuthBy(NsOf(s, m + 1, c), k) <==> IsAuth(c, k))
            && |AuthNames(s[..m + 1], c)| == n + (if IsAuth(c, k) then 1 else 0)
            && (!IsAuth(c, k) ==> Signed(j, s, m + 1, c) == c')
            && (IsAuth(c, k) ==>
                  && n < |j.names|
                  && Signed(j, s, m + 1, c) == AddTo(c', Nsec(j, k, After(j.names, n), c[k])))
  {
    SignedHere(j, s, m, c);
    NsGrows(s, m, c);
    AuthDecided(s, m, c);
    RankBelow(s, m, c);
    RankGrows(s, m, c);
    RankCounts(s, m, c);
  }

  /** The state of the walk: contents, delegated names, and the counter of `Sign`. */
  datatype Point = Point(now: Contents, ns: set<string>, i: nat)

  ghost function PointAt<V>(j: Job, s: Items<V>, m: nat, c: Contents): Point
    requires m <= |s| && j.names == AuthNames(s, c)
  {
    Point(Signed(j, s, m, c), NsOf(s, m, c), |AuthNames(s[..m], c)| + 1)
  }

  ghost predicate Here(m: nat) {
    true
  }

  /** `f` gives the state after every number of visits. */
  ghost predicate Plan(f: nat -> Point, j: Job, s: Items<Elem>, c: Contents) {
    forall m: nat {:trigger Here(m)} :: Here(m) ==> Planned(f, j, s, c, m)
  }

  ghost predicate Planned(f: nat -> Point, j: Job, s: Items<Elem>, c: Contents, m: nat) {
    && Sorted(s) && c.Keys == Keys(s) && ValidNames(c) && j.names == AuthNames(s, c)
    && (m <= |s| ==> f(m) == PointAt(j, s, m, c))
  }

  /** The callback of `Sign` for one element. */
  method SignElem(t: Tree, e: Elem, j: Job, ns: set<string>, i: nat,
                  ghost f: nat -> Point, ghost s: Items<Elem>, ghost m: nat, ghost c: Contents)
    returns (ns': set<string>, i': nat)
    requires t.Valid() && s == All(t.view.model) && m < |s| && s[m] == (e.owner, e) && e in t.view.ix.Values
    requires Plan(f, j, s, c) && Point(t.Contents(), ns, i) == f(m)
    modifies t, Nodes(t.view.shape), t.view.ix.Values
    ensures t.Valid() && t.view == old(t.view).(contents := t.Contents())
    ensures Point(t.Contents(), ns', i') == f(m + 1)
  {
    assert Here(m) && Here(m + 1);
    SignStep(j, s, m, c);
    KeysIndexed(s);
    var name, auth;
    ns', name, auth := VisitIn(t, e, ns);
    i' := i;
    if auth {
      t.Insert(Nsec(j, name, NextName(j.names, i), e.m));
      i' := i + 1;
    }
  }

  /** A link of the tree, seen as the items from position `p` up to `z`. */
  ghost predicate Segment(h0: Shape, t0: Rbt<Elem>, n: Node?, h: Shape, u: Rbt<Elem>, p: nat, z: nat) {
    LinkTo(n, h, u) && Within(h0, t0, h, u) && Spans(All(t0), All(u), p, z)
  }

  ghost predicate LinkTo(n: Node?, h: Shape, u: Rbt<Elem>) {
    if n == null then h.E? && u.Nil? else h.N? && u.Bin? && h.x == n
  }

  /** `part` is `s` from `p` up to `z`. */
  ghost predicate Spans<V>(s: Items<V>, part: Items<V>, p: nat, z: nat) {
    z == p + |part| && z <= |s| && s[p..z] == part
  }

  lemma {:induction false} Slices<V>(s: Items<V>, p: nat, z: nat, l: Items<V>, m: (Name, V), r: Items<V>)
    requires Spans(s, l + [m] + r, p, z)
    ensures p + |l| < z <= |s| && s[p + |l|] == m
    ensures Spans(s, l, p, p + |l|) && Spans(s, r, p + |l| + 1, z)
  {
    var x := s[p..z];
    assert s[p..p + |l|] == x[..|l|];
    assert s[p + |l|] == x[|l|];
    assert s[p + |l| + 1..z] == x[|l| + 1..];
  }

  /** The position of the element of a node whose part starts at `p`. */
  ghost function Mid(u: Rbt<Elem>, p: nat): nat
    requires u.Bin?
  {
    p + |All(u.left)|
  }

  lemma {:induction false} SegmentLeft(root: Node?, h0: Shape, t0: Rbt<Elem>, n: Node, h: Shape, u: Rbt<Elem>, p: nat, z: nat)
    requires Rep(root, h0, t0) && Segment(h0, t0, n, h, u, p, z)
    ensures n in Nodes(h0) && Segment(h0, t0, n.left, h.l, u.left, p, Mid(u, p))
  {
    SidesSpan(All(t0), u, p, z);
    SidesLinked(root, h0, t0, n, h, u);
  }

  lemma {:induction false} SegmentRight(root: Node?, h0: Shape, t0: Rbt<Elem>, n: Node, h: Shape, u: Rbt<Elem>, p: nat, z: nat)
    requires Rep(root, h0, t0) && Segment(h0, t0, n, h, u, p, z)
    ensures n in Nodes(h0) && Segment(h0, t0, n.right, h.r, u.right, Mid(u, p) + 1, z)
  {
    SidesSpan(All(t0), u, p, z);
    SidesLinked(root, h0, t0, n, h, u);
  }

  lemma {:induction false} SegmentHere(root: Node?, h0: Shape, t0: Rbt<Elem>, n: Node, h: Shape, u: Rbt<Elem>, p: nat, z: nat)
    requires Rep(root, h0, t0) && Segment(h0, t0, n, h, u, p, z)
    ensures n in Nodes(h0) && n.elem in Elems(t0)
    ensures Mid(u, p) < |All(t0)| && All(t0)[Mid(u, p)] == (n.elem.owner, n.elem)
  {
    SidesSpan(All(t0), u, p, z);
    SidesLinked(root, h0, t0, n, h, u);
  }

  lemma {:induction false} SidesLinked(root: Node?, h0: Shape, t0: Rbt<Elem>, n: Node, h: Shape, u: Rbt<Elem>)
    requires Rep(root, h0, t0) && LinkTo(n, h, u) && Within(h0, t0, h, u)
    ensures n in Nodes(h0) && n.elem in Elems(t0) && u.key == n.elem.owner && u.val == n.elem
    ensures LinkTo(n.left, h.l, u.left) && Within(h0, t0, h.l, u.left)
    ensures LinkTo(n.right, h.r, u.right) && Within(h0, t0, h.r, u.right)
  {
    WithinRep(root, h0, t0, h, u);
    WithinSides(h0, t0, h, u);
  }

  lemma {:induction false} SidesSpan(s: Items<Elem>, u: Rbt<Elem>, p: nat, z: nat)
    requires u.Bin? && Spans(s, All(u), p, z)
    ensures var q := Mid(u, p);
            && q < z && q < |s| && s[q] == (u.key, u.val)
            && Spans(s, All(u.left), p, q) && Spans(s, All(u.right), q + 1, z)
  {
    Slices(s, p, z, All(u.left), (u.key, u.val), All(u.right));
  }

  /** `authwalk` with the callback of `Sign`: the walk goes on over the very nodes it started
      with, because inserting at a stored name changes none of them. */
  method SignNode(t: Tree, n: Node?, j: Job, ns: set<string>, i: nat, ghost f: nat -> Point,
                  ghost s: Items<Elem>, ghost h: Shape, ghost u: Rbt<Elem>, ghost p: nat, ghost z: nat, ghost c: Contents)
    returns (ns': set<string>, i': nat)
    requires t.Valid() && s == All(t.view.model) && Segment(t.view.shape, t.view.model, n, h, u, p, z)
    requires Plan(f, j, s, c) && Point(t.Contents(), ns, i) == f(p)
    modifies t, Nodes(t.view.shape), t.view.ix.Values
    ensures t.Valid() && t.view == old(t.view).(contents := t.Contents())
    ensures Point(t.Contents(), ns', i') == f(z)
    decreases u
  {
    ns', i' := ns, i;
    if n != null {
      ghost var q := Mid(u, p);
      SegmentLeft(t.root, t.view.shape, t.view.model, n, h, u, p, z);
      ns', i' := SignNode(t, n.left, j, ns', i', f, s, h.l, u.left, p, q, c);
      SegmentHere(t.root, t.view.shape, t.view.model, n, h, u, p, z);
      ns', i' := SignElem(t, n.elem, j, ns', i', f, s, q, c);
      SegmentRight(t.root, t.view.shape, t.view.model, n, h, u, p, z);
      ns', i' := SignNode(t, n.right, j, ns', i', f, s, h.r, u.right, q + 1, z, c);
    }
  }

  /** The callback of `names`, over all visits. */
  method CollectAuth(visits: seq<(Name, bool)>, ghost s: Items<Elem>, ghost c: Contents) returns (names: seq<Name>)
    requires visits == TrueVisits(s, |s|, c)
    ensures names == AuthNames(s, c)
  {
    names := [];
    for m := 0 to |visits|
      invariant names == AuthNames(s[..m], c)
    {
      RankGrows(s, m, c);
      if visits[m].1 {
        names := names + [visits[m].0];
      }
    }
    assert s[..|visits|] == s;
  }

  method CollectNames(t: Tree) returns (names: seq<Name>)
    requires t.Valid() && ValidNames(t.Contents())
    modifies t.view.ix.Values`name
    ensures t.Valid() && names == AuthNames(All(t.view.model), t.Contents())
  {
    var visits := AuthWalkTree(t);
    assert allocated(Nodes(t.view.shape)) && allocated(t.view.ix.Values);
    names := CollectAuth(visits, All(t.view.model), t.Contents());
  }

  /** The part of `Sign` that builds the chain. */
  method SignTree(t: Tree, origin: Name, ttl: nat) returns (j: Job)
    requires t.Valid() && ValidNames(t.Contents())
    modifies t, Nodes(t.view.shape), t.view.ix.Values
    ensures t.Valid() && t.view == old(t.view).(contents := t.Contents())
    ensures j == Job(origin, ttl, AuthNames(All(t.view.model), old(t.Contents())))
    ensures t.Contents() == Signed(j, All(t.view.model), |All(t.view.model)|, old(t.Contents()))
  {
    ghost var s, c := All(t.view.model), t.Contents();
    var names := CollectNames(t);
    j := Job(origin, ttl, names);
    KeysIndexed(s);
    ghost var f := PlanOf(j, s, c);
    PlanHolds(j, s, c);
    assert t.Valid();
    var ns', i' := SignNode(t, t.root, j, {}, 1, f, s, t.view.shape, t.view.model, 0, |s|, c);
  }

  ghost function PlanOf(j: Job, s: Items<Elem>, c: Contents): nat -> Point
    requires j.names == AuthNames(s, c)
  {
    (m: nat) => if m <= |s| then PointAt(j, s, m, c) else Point(map[], {}, 0)
  }

  lemma {:induction false} PlanHolds(j: Job, s: Items<Elem>, c: Contents)
    requires Sorted(s) && c.Keys == Keys(s) && ValidNames(c) && j.names == AuthNames(s, c)
    ensures Plan(PlanOf(j, s, c), j, s, c)
    ensures PlanOf(j, s, c)(0) == Point(c, {}, 1) && PlanOf(j, s, c)(|s|).now == Signed(j, s, |s|, c)
    ensures s[0..|s|] == s
  {
    assert s[..0] == [];
  }

  // ----- what the chain is

  /** The chain lists exactly the authoritative names, in order, each once. */
  lemma {:induction false} ChainNames<V>(s: Items<V>, c: Contents)
    requires Sorted(s)
    ensures forall k :: k in AuthNames(s, c) <==> k in Keys(s) && IsAuth(c, k)
    ensures forall a, b :: 0 <= a < b < |AuthNames(s, c)| ==> Lt(AuthNames(s, c)[a], AuthNames(s, c)[b])
  {
    if s != [] {
      var f, z := s[..|s| - 1], s[|s| - 1];
      ChainNames(f, c);
      assert forall i :: 0 <= i < |f| ==> f[i] == s[i];
      assert forall k :: k in Keys(s) <==> k in Keys(f) || k == z.0;
      forall a | 0 <= a < |AuthNames(f, c)|
        ensures Lt(AuthNames(f, c)[a], z.0)
      {
        assert AuthNames(f, c)[a] in Keys(f);
      }
    }
  }

  /** Every position of the chain belongs to a stored name. */
  lemma {:induction false} RankOf<V>(s: Items<V>, c: Contents, a: nat) returns (i: nat)
    requires a < |AuthNames(s, c)|
    ensures i < |s| && IsAuth(c, s[i].0) && s[i].0 == AuthNames(s, c)[a] && |AuthNames(s[..i], c)| == a
  {
    var f := s[..|s| - 1];
    if a < |AuthNames(f, c)| {
      i := RankOf(f, c, a);
      assert f[..i] == s[..i];
    } else {
      i := |s| - 1;
    }
  }

  /** What a visited name holds. */
  lemma {:induction false} SignedBefore<V>(j: Job, s: Items<V>, m: nat, c: Contents, i: nat)
    requires i < m <= |s| && Sorted(s) && c.Keys == Keys(s) && j.names == AuthNames(s, c)
    ensures |AuthNames(s[..i], c)| <= |j.names|
    ensures var k, c', n := s[i].0, Signed(j, s, m, c), |AuthNames(s[..i], c)|;
            && k in c'
            && (!IsAuth(c, k) ==> c'[k] == c[k])
            && (IsAuth(c, k) ==> n < |j.names| && c'[k] == AddRR(c[k], Nsec(j, k, After(j.names, n), c[k])))
  {
    RankBelow(s, i, c);
    RankCounts(s, i, c);
    assert s[i].0 in Keys(s);
    NsecHere(j, c, s[i].0, Rank(s, i, c));
    OthersDiffer(s, i);
    VisitedBefore(NsecOf(j, c), s, m, c, i);
  }

  lemma NsecHere(j: Job, c: Contents, k: Name, n: nat)
    requires k in c
    ensures NsecOf(j, c)(k, n) == Nsec(j, k, After(j.names, n), c[k])
  {
  }

  lemma {:induction false} VisitedBefore<V>(f: (Name, nat) -> RR, s: Items<V>, m: nat, c: Contents, i: nat)
    requires i < m <= |s| && Owns(f) && s[i].0 in c && forall x :: 0 <= x < m && x != i ==> s[x].0 != s[i].0
    ensures var k := s[i].0; Holds(Visited(f, s, m, c), k, if IsAuth(c, k) then AddRR(c[k], f(k, Rank(s, i, c))) else c[k])
  {
    var k := s[i].0;
    VisitedOnce(f, s, i, c, 0, k, c[k]);
    VisitedOnce(f, s, m, c, i + 1, k, if IsAuth(c, k) then AddRR(c[k], f(k, Rank(s, i, c))) else c[k]);
  }

  lemma {:induction false} OthersDiffer<V>(s: Items<V>, i: nat)
    requires Sorted(s) && i < |s|
    ensures forall x :: 0 <= x < |s| && x != i ==> s[x].0 != s[i].0
  {
    forall x | 0 <= x < |s| && x != i
      ensures s[x].0 != s[i].0
    {
      SortedDistinct(s, if x < i then x else i, if x < i then i else x);
    }
  }

  lemma {:induction false} SortedDistinct<V>(s: Items<V>, i: nat, m: nat)
    requires Sorted(s) && i < m < |s|
    ensures s[i].0 != s[m].0
  {
    CompareFlip(s[i].0, s[m].0);
    assert Lt(s[i].0, s[m].0);
  }

  ghost predicate Holds(c: Contents, k: Name, r: RRsets) {
    k in c && c[k] == r
  }

  /** A visit changes no other name. */
  lemma {:induction false} VisitedElsewhere<V>(f: (Name, nat) -> RR, s: Items<V>, m: nat, c: Contents, k: Name, r: RRsets)
    requires m < |s| && Owns(f) && s[m].0 != k && Holds(Visited(f, s, m, c), k, r)
    ensures Holds(Visited(f, s, m + 1, c), k, r)
  {
  }

  /** While it is not visited, a name stays as it is. */
  lemma {:induction false} VisitedOnce<V>(f: (Name, nat) -> RR, s: Items<V>, m: nat, c: Contents, a: nat, k: Name, r: RRsets)
    requires a <= m <= |s| && Owns(f) && Holds(Visited(f, s, a, c), k, r) && forall x :: a <= x < m ==> s[x].0 != k
    ensures Holds(Visited(f, s, m, c), k, r)
  {
    if a < m {
      VisitedOnce(f, s, m - 1, c, a, k, r);
      VisitedElsewhere(f, s, m - 1, c, k, r);
    }
  }

  lemma {:induction false} VisitedKeys<V>(f: (Name, nat) -> RR, s: Items<V>, m: nat, c: Contents)
    requires m <= |s| && c.Keys == Keys(s) && Owns(f)
    ensures Visited(f, s, m, c).Keys == c.Keys
  {
    if m > 0 {
      VisitedKeys(f, s, m - 1, c);
      assert s[m - 1].0 in Keys(s);
    }
  }

  /** The name at position `a` of the chain got one record: an NSEC to the next name, or from the last to the first. */
  ghost predicate ChainedAt(j: Job, c: Contents, c': Contents, a: nat)
    requires a < |j.names|
  {
    var k, next := j.names[a], j.names[if a + 1 < |j.names| then a + 1 else 0];
    k in c && k in c' && exists r :: LinksTo(j, k, next, c[k], r) && c'[k] == AddRR(c[k], r)
  }

  lemma {:induction false} Chained<V>(j: Job, s: Items<V>, c: Contents, a: nat)
    requires Sorted(s) && c.Keys == Keys(s) && j.names == AuthNames(s, c) && a < |j.names|
    ensures ChainedAt(j, c, Signed(j, s, |s|, c), a)
  {
    var k := j.names[a];
    var i := RankOf(s, c, a);
    assert k in Keys(s);
    SignedBefore(j, s, |s|, c, i);
    var r := Nsec(j, k, After(j.names, a), c[k]);
    NsecLinks(j, k, After(j.names, a), c[k]);
    assert LinksTo(j, k, j.names[if a + 1 < |j.names| then a + 1 else 0], c[k], r);
  }

  /** The signed zone: every authoritative name got one NSEC, to the next authoritative name
      in order and from the last to the first; nothing else changed. */
  lemma ChainIsCycle<V>(j: Job, s: Items<V>, c: Contents)
    requires Sorted(s) && c.Keys == Keys(s) && j.names == AuthNames(s, c)
    ensures Signed(j, s, |s|, c).Keys == c.Keys
    ensures forall a :: 0 <= a < |j.names| ==> ChainedAt(j, c, Signed(j, s, |s|, c), a)
    ensures forall k :: k in c && !IsAuth(c, k) ==> Signed(j, s, |s|, c)[k] == c[k]
  {
    VisitedKeys(NsecOf(j, c), s, |s|, c);
    forall a | 0 <= a < |j.names|
      ensures ChainedAt(j, c, Signed(j, s, |s|, c), a)
    {
      Chained(j, s, c, a);
    }
    forall k | k in c && !IsAuth(c, k)
      ensures Signed(j, s, |s|, c)[k] == c[k]
    {
      var i :| 0 <= i < |s| && s[i].0 == k;
      SignedBefore(j, s, |s|, c, i);
    }
  }
}
