/** Answering a query from a zone (`plugin/file/lookup.go`, `wildcard.go`, `dname.go`), for
    requests without the DNSSEC OK bit and without the additional section.  */
module Queries {
  import opened Names
  import opened Records
  import opened Llrb
  import opened Store
  import opened Zones

  datatype Result = Success | NameError | Delegation | NoData | ServerFailure

  /** Answer section, authority section and result. */
  datatype Response = Response(answer: seq<RR>, ns: seq<RR>, result: Result)

  datatype Rcode = NoErrorCode | NameErrorCode | ServerFailureCode | OtherCode

  /** What `Upstream.Lookup` gives back: an error, no message, or a message. */
  datatype UpReply = Failed | Silent | Message(rcode: Rcode, answer: seq<RR>)

  // ----- names on the way down

  /** `nameFromRight`: the origin, then one more label of `q` at every level; `None` beyond `q`. */
  function Level(origin: Name, q: Name, i: nat): Option<Name> {
    if i == 0 then Some(origin)
    else if |origin| + i > |q| then None
    else Some(q[..|origin| + i])
  }

  /** `replaceWithAsteriskLabel`: the wildcard next to a name; a top-level name has none. */
  function Asterisk(n: Name): Option<Name> {
    if |n| <= 1 then None else Some(n[..|n| - 1] + ["*"])
  }

  /** A wildcard has the labels of the name it is next to, but for the last, which is an asterisk. */
  lemma {:induction false} AsteriskExactly(n: Name, w: Name)
    ensures Asterisk(n) == Some(w) <==> |w| == |n| > 1 && w[|w| - 1] == "*" && w[..|w| - 1] == n[..|n| - 1]
  {
    if |w| == |n| > 1 && w[|w| - 1] == "*" {
      assert w == w[..|w| - 1] + ["*"];
    }
  }

  /** The target of a CNAME or DNAME. */
  function Target(r: RR): Name {
    match r.data
    case CNAME(t) => t
    case DNAME(t) => t
    case _ => []
  }

  lemma TargetIs(r: RR)
    ensures r.Type() == TYPE_CNAME ==> r.data == CNAME(Target(r))
    ensures r.Type() == TYPE_DNAME ==> r.data == DNAME(Target(r))
  {
  }

  /** `synthesizeCNAME`: the labels of `q` below the DNAME move below its target. */
  function Synthesize(q: Name, d: RR): Option<RR> {
    if IsSubDomain(d.owner, q) && q != d.owner
    then Some(RR(q, d.ttl, CNAME(Target(d) + q[|d.owner|..])))
    else None
  }

  /** `TypeForWildcard`: the records of a wildcard, owned by the name asked for. */
  function Owned(rrs: seq<RR>, q: Name): seq<RR> {
    seq(|rrs|, i requires 0 <= i < |rrs| => rrs[i].(owner := q))
  }

  // ----- the walk from the origin to the name

  datatype Stop = AtDname(dnames: seq<RR>, cname: RR) | AtCut(ns: seq<RR>) | Bottom(found: Option<RRsets>, wild: Option<RRsets>)

  /** Whether the stored name `n` with RRsets `m` ends the walk to `q`. */
  function Judge(m: RRsets, n: Name, q: Name, t: RRType): Option<Stop> {
    var dnames, ns := OfType(m, TYPE_DNAME), OfType(m, TYPE_NS);
    if dnames != [] && Synthesize(q, dnames[0]).Some? then Some(AtDname(dnames, Synthesize(q, dnames[0]).value))
    else if ns != [] && !(t == TYPE_DS && n == q) then Some(AtCut(ns))
    else None
  }

  function WildcardAt(c: Contents, n: Name, otherwise: Option<RRsets>): Option<RRsets> {
    match Asterisk(n)
    case Some(w) => if w in c then Some(c[w]) else otherwise
    case None => otherwise
  }

  /** The loop of `Lookup`, from level `i` on. */
  function Scan(c: Contents, origin: Name, q: Name, t: RRType, i: nat, found: Option<RRsets>, wild: Option<RRsets>): Stop
    decreases |q| + 1 - i
  {
    match Level(origin, q, i)
    case None => Bottom(found, wild)
    case Some(n) =>
      if n !in c then Scan(c, origin, q, t, i + 1, None, WildcardAt(c, n, wild))
      else match Judge(c[n], n, q, t)
        case Some(stop) => stop
        case None => Scan(c, origin, q, t, i + 1, Some(c[n]), wild)
  }

  // ----- chasing

  /** `doLookup` */
  function Interpret(u: UpReply): (seq<RR>, Result) {
    match u
    case Failed => ([], ServerFailure)
    case Silent => ([], Success)
    case Message(rcode, answer) =>
      (answer,
       if rcode == NameErrorCode then NameError
       else if rcode == ServerFailureCode then ServerFailure
       else if rcode == NoErrorCode && answer == [] then NoData
       else Success)
  }

  /** `externalLookup` once `rrs` ends in a CNAME for `target`; `i` counts the rounds of `Redo`. */
  function Chase(z: Zone, t: RRType, rrs: seq<RR>, target: Name, i: nat, up: Name -> UpReply): Response
    requires i <= 9
    decreases 9 - i
  {
    if target !in z.contents then
      var (more, result) := Interpret(up(target));
      Response(rrs + more, z.apex.ns, result)
    else if i > 8 then
      Response(rrs, z.apex.ns, Success)
    else
      var m := z.contents[target];
      var cnames := OfType(m, TYPE_CNAME);
      if cnames != [] then Chase(z, t, rrs + cnames, Target(cnames[0]), i + 1, up)
      else Response(rrs + OfType(m, t), z.apex.ns, Success)
  }

  /** A stored name or a wildcard was found. */
  function FromNode(z: Zone, t: RRType, cnames: seq<RR>, rrs: seq<RR>, up: Name -> UpReply): Response
    requires z.apex.soa.Some?
  {
    if cnames != [] && t != TYPE_CNAME then Chase(z, t, cnames, Target(cnames[0]), 0, up)
    else if rrs == [] then Response([], [z.apex.soa.value], NoData)
    else Response(rrs, z.apex.ns, Success)
  }

  // ----- the lookup

  /** `k` is the smallest stored name that is not before `q`: the answer of `Tree.Next`. */
  ghost predicate IsNextName(c: Contents, q: Name, k: Name) {
    k in c && Compare(q, k) <= 0 && forall x :: x in c && Compare(q, x) <= 0 ==> Compare(k, x) <= 0
  }

  ghost predicate NextIsBelow(c: Contents, q: Name) {
    exists k :: IsNextName(c, q, k) && IsSubDomain(q, k)
  }

  /** The query is answered before the tree is looked at. */
  predicate Early(z: Zone, q: Name, t: RRType, loop: nat) {
    z.apex.soa.None? || (q == z.origin && (t == TYPE_SOA || t == TYPE_NS)) || loop > 8
  }

  function LookupEarly(z: Zone, q: Name, t: RRType): Response {
    if z.apex.soa.None? then Response([], [], ServerFailure)
    else if q == z.origin && t == TYPE_SOA then Response([z.apex.soa.value], z.apex.ns, Success)
    else if q == z.origin && t == TYPE_NS then Response(z.apex.ns, [], Success)
    else Response([], [], ServerFailure)
  }

  /** The answer, once the walk to `q` has ended. */
  ghost function Conclude(z: Zone, q: Name, t: RRType, s: Stop, up: Name -> UpReply): Response
    requires z.apex.soa.Some?
  {
    match s
    case AtDname(dnames, cname) =>
      var r := if t == TYPE_CNAME then Response([cname], z.apex.ns, Success)
               else Chase(z, t, [cname], Target(cname), 0, up);
      r.(answer := dnames + r.answer)
    case AtCut(ns) => Response([], ns, Delegation)
    case Bottom(Some(m), _) => FromNode(z, t, OfType(m, TYPE_CNAME), OfType(m, t), up)
    case Bottom(None, Some(m)) => FromNode(z, t, Owned(OfType(m, TYPE_CNAME), q), Owned(OfType(m, t), q), up)
    case Bottom(None, None) =>
      Response([], [z.apex.soa.value], if NextIsBelow(z.contents, q) then Success else NameError)
  }

  /** `Lookup`: `up` answers for the names that are not in the tree. */
  ghost function Lookup(z: Zone, q: Name, t: RRType, loop: nat, up: Name -> UpReply): Response {
    if Early(z, q, t, loop) then LookupEarly(z, q, t)
    else Conclude(z, q, t, Scan(z.contents, z.origin, q, t, 0, None, None), up)
  }

  // ----- the topmost cut decides

  ghost predicate AllProper(c: Contents) {
    forall k :: k in c ==> Proper(c[k], k)
  }

  /** `k` lies on the way from the origin to `q`. */
  predicate OnPath(origin: Name, q: Name, k: Name) {
    IsSubDomain(origin, k) && IsSubDomain(k, q)
  }

  predicate HasDnameAbove(c: Contents, q: Name, k: Name) {
    k in c && TYPE_DNAME in c[k] && k != q
  }

  predicate IsCut(c: Contents, q: Name, t: RRType, k: Name) {
    k in c && TYPE_NS in c[k] && !(t == TYPE_DS && k == q)
  }

  predicate Decides(c: Contents, q: Name, t: RRType, k: Name) {
    HasDnameAbove(c, q, k) || IsCut(c, q, t, k)
  }

  /** `k` is the stored name nearest to the origin that ends the walk. */
  ghost predicate Topmost(c: Contents, origin: Name, q: Name, t: RRType, k: Name) {
    && OnPath(origin, q, k) && Decides(c, q, t, k)
    && forall x :: OnPath(origin, q, x) && Decides(c, q, t, x) ==> |k| <= |x|
  }

  ghost predicate NothingDecides(c: Contents, origin: Name, q: Name, t: RRType) {
    forall k :: OnPath(origin, q, k) ==> !Decides(c, q, t, k)
  }

  /** `w` is the wildcard next to the deepest missing name on the path that has one stored. */
  ghost predicate DeepestWildcard(c: Contents, origin: Name, q: Name, w: Name) {
    && w in c
    && exists n :: MissingWith(c, origin, q, n, w)
         && forall x, v :: MissingWith(c, origin, q, x, v) && v in c ==> |x| <= |n|
  }

  ghost predicate MissingWith(c: Contents, origin: Name, q: Name, n: Name, w: Name) {
    OnPath(origin, q, n) && n !in c && Asterisk(n) == Some(w)
  }

  ghost predicate NoWildcard(c: Contents, origin: Name, q: Name) {
    forall n, w :: MissingWith(c, origin, q, n, w) ==> w !in c
  }

  lemma {:induction false} JudgeDecides(c: Contents, q: Name, t: RRType, k: Name)
    requires AllProper(c) && k in c && IsSubDomain(k, q)
    ensures Judge(c[k], k, q, t).Some? <==> Decides(c, q, t, k)
    ensures HasDnameAbove(c, q, k) ==>
              var d: seq<RR> := c[k][TYPE_DNAME];
              Judge(c[k], k, q, t) == Some(AtDname(d, RR(q, d[0].ttl, CNAME(Target(d[0]) + q[|k|..]))))
    ensures IsCut(c, q, t, k) && !HasDnameAbove(c, q, k) ==> Judge(c[k], k, q, t) == Some(AtCut(c[k][TYPE_NS]))
  {
  }

  /** What the walk has established when it reaches level `i`. */
  ghost predicate SoFar(c: Contents, origin: Name, q: Name, t: RRType, i: nat, found: Option<RRsets>, wild: Option<RRsets>) {
    && (forall k :: OnPath(origin, q, k) && |k| < |origin| + i ==> !Decides(c, q, t, k))
    && (i > 0 ==> forall k :: OnPath(origin, q, k) && |k| == |origin| + i - 1 ==> found == if k in c then Some(c[k]) else None)
    && WildSoFar(c, origin, q, i, wild)
  }

  ghost predicate WildSoFar(c: Contents, origin: Name, q: Name, i: nat, wild: Option<RRsets>) {
    match wild
    case None => forall n, w :: MissingWith(c, origin, q, n, w) && |n| < |origin| + i ==> w !in c
    case Some(m) =>
      exists n, w ::
        && MissingWith(c, origin, q, n, w) && w in c && c[w] == m && |n| < |origin| + i
        && forall x, v :: MissingWith(c, origin, q, x, v) && |x| < |origin| + i && v in c ==> |x| <= |n|
  }

  lemma {:induction false} OnPathSame(origin: Name, q: Name, j: Name, k: Name)
    requires OnPath(origin, q, j) && OnPath(origin, q, k) && |j| == |k|
    ensures j == k
  {
    assert j == q[..|j|] && k == q[..|k|];
  }

  lemma {:induction false} WildStep(c: Contents, origin: Name, q: Name, i: nat, wild: Option<RRsets>, n: Name)
    requires WildSoFar(c, origin, q, i, wild) && OnPath(origin, q, n) && |n| == |origin| + i
    ensures WildSoFar(c, origin, q, i + 1, if n in c then wild else WildcardAt(c, n, wild))
  {
    forall x, w | MissingWith(c, origin, q, x, w) && |x| == |n|
      ensures x == n
    {
      OnPathSame(origin, q, x, n);
    }
    if n !in c && Asterisk(n).Some? && Asterisk(n).value in c {
      assert MissingWith(c, origin, q, n, Asterisk(n).value);
    }
  }

  lemma {:induction false} ScanStep(c: Contents, origin: Name, q: Name, t: RRType, i: nat, found: Option<RRsets>, wild: Option<RRsets>, n: Name)
    requires SoFar(c, origin, q, t, i, found, wild) && OnPath(origin, q, n) && |n| == |origin| + i && !Decides(c, q, t, n)
    ensures SoFar(c, origin, q, t, i + 1, if n in c then Some(c[n]) else None, if n in c then wild else WildcardAt(c, n, wild))
  {
    WildStep(c, origin, q, i, wild, n);
    forall k | OnPath(origin, q, k) && |k| == |n|
      ensures k == n
    {
      OnPathSame(origin, q, k, n);
    }
  }

  /** Where the walk ends. */
  ghost predicate Ends(c: Contents, origin: Name, q: Name, t: RRType, s: Stop) {
    match s
    case Bottom(found, wild) => |origin| <= |q| && SoFar(c, origin, q, t, |q| - |origin| + 1, found, wild)
    case _ => exists k :: k in c && Topmost(c, origin, q, t, k) && Judge(c[k], k, q, t) == Some(s)
  }

  lemma LevelOnPath(origin: Name, q: Name, i: nat)
    requires IsSubDomain(origin, q) && i <= |q| - |origin|
    ensures Level(origin, q, i) == Some(q[..|origin| + i]) && OnPath(origin, q, q[..|origin| + i])
  {
    assert origin == q[..|origin|];
  }

  /** A level that decides ends the walk there. */
  lemma {:induction false} ScanStops(c: Contents, origin: Name, q: Name, t: RRType, i: nat, found: Option<RRsets>, wild: Option<RRsets>, n: Name)
    requires AllProper(c) && SoFar(c, origin, q, t, i, found, wild) && OnPath(origin, q, n)
    requires |n| == |origin| + i && Level(origin, q, i) == Some(n) && Decides(c, q, t, n)
    ensures Ends(c, origin, q, t, Scan(c, origin, q, t, i, found, wild))
  {
    JudgeDecides(c, q, t, n);
    assert Topmost(c, origin, q, t, n);
  }

  /** A level that does not decide leads on to the next. */
  lemma {:induction false} ScanGoesOn(c: Contents, origin: Name, q: Name, t: RRType, i: nat, found: Option<RRsets>, wild: Option<RRsets>, n: Name)
    requires AllProper(c) && OnPath(origin, q, n) && Level(origin, q, i) == Some(n) && !Decides(c, q, t, n)
    ensures Scan(c, origin, q, t, i, found, wild)
         == Scan(c, origin, q, t, i + 1, if n in c then Some(c[n]) else None, if n in c then wild else WildcardAt(c, n, wild))
  {
    if n in c {
      JudgeDecides(c, q, t, n);
    }
  }

  lemma {:induction false} ScanEnds(c: Contents, origin: Name, q: Name, t: RRType, i: nat, found: Option<RRsets>, wild: Option<RRsets>)
    requires AllProper(c) && IsSubDomain(origin, q) && i <= |q| - |origin| + 1 && SoFar(c, origin, q, t, i, found, wild)
    ensures Ends(c, origin, q, t, Scan(c, origin, q, t, i, found, wild))
    decreases |q| + 1 - i
  {
    if i <= |q| - |origin| {
      var n := q[..|origin| + i];
      LevelOnPath(origin, q, i);
      if Decides(c, q, t, n) {
        ScanStops(c, origin, q, t, i, found, wild, n);
      } else {
        ScanStep(c, origin, q, t, i, found, wild, n);
        ScanGoesOn(c, origin, q, t, i, found, wild, n);
        ScanEnds(c, origin, q, t, i + 1, if n in c then Some(c[n]) else None, if n in c then wild else WildcardAt(c, n, wild));
      }
    }
  }

  lemma {:induction false} WalkEnds(z: Zone, q: Name, t: RRType)
    requires AllProper(z.contents) && IsSubDomain(z.origin, q)
    ensures Ends(z.contents, z.origin, q, t, Scan(z.contents, z.origin, q, t, 0, None, None))
  {
    ScanEnds(z.contents, z.origin, q, t, 0, None, None);
  }

  lemma {:induction false} TopmostIsOne(c: Contents, origin: Name, q: Name, t: RRType, j: Name, k: Name)
    requires Topmost(c, origin, q, t, j) && Topmost(c, origin, q, t, k)
    ensures j == k
  {
    OnPathSame(origin, q, j, k);
  }

  /** A cut that comes first, and nothing else, gives a delegation: its NS records and no answer. */
  lemma {:induction false} CutDelegates(z: Zone, q: Name, t: RRType, loop: nat, up: Name -> UpReply, k: Name)
    requires AllProper(z.contents) && IsSubDomain(z.origin, q) && !Early(z, q, t, loop)
    requires Topmost(z.contents, z.origin, q, t, k) && !HasDnameAbove(z.contents, q, k)
    ensures Lookup(z, q, t, loop, up) == Response([], z.contents[k][TYPE_NS], Delegation)
  {
    WalkStopsAt(z, q, t, k);
    JudgeDecides(z.contents, q, t, k);
  }

  lemma {:induction false} WalkStopsAt(z: Zone, q: Name, t: RRType, k: Name)
    requires AllProper(z.contents) && IsSubDomain(z.origin, q) && Topmost(z.contents, z.origin, q, t, k)
    ensures Some(Scan(z.contents, z.origin, q, t, 0, None, None)) == Judge(z.contents[k], k, q, t)
  {
    var c, s := z.contents, Scan(z.contents, z.origin, q, t, 0, None, None);
    WalkEnds(z, q, t);
    if !s.Bottom? {
      var j :| j in c && Topmost(c, z.origin, q, t, j) && Judge(c[j], j, q, t) == Some(s);
      TopmostIsOne(c, z.origin, q, t, j, k);
    }
  }

  /** A DNAME that comes first, with `q` strictly below it, redirects `q` to the same place below its target. */
  lemma {:induction false} DnameRedirects(z: Zone, q: Name, t: RRType, loop: nat, up: Name -> UpReply, k: Name)
    requires AllProper(z.contents) && IsSubDomain(z.origin, q) && !Early(z, q, t, loop)
    requires Topmost(z.contents, z.origin, q, t, k) && HasDnameAbove(z.contents, q, k)
    ensures var d := z.contents[k][TYPE_DNAME];
            var cname := RR(q, d[0].ttl, CNAME(Target(d[0]) + q[|k|..]));
            var r := if t == TYPE_CNAME then Response([cname], z.apex.ns, Success) else Chase(z, t, [cname], Target(cname), 0, up);
            Lookup(z, q, t, loop, up) == r.(answer := d + r.answer)
  {
    WalkStopsAt(z, q, t, k);
    JudgeDecides(z.contents, q, t, k);
  }

  lemma {:induction false} WalkReachesBottom(z: Zone, q: Name, t: RRType)
    requires AllProper(z.contents) && IsSubDomain(z.origin, q) && NothingDecides(z.contents, z.origin, q, t)
    ensures var s := Scan(z.contents, z.origin, q, t, 0, None, None);
            && s.Bottom? && s.found == (if q in z.contents then Some(z.contents[q]) else None)
            && WildSoFar(z.contents, z.origin, q, |q| - |z.origin| + 1, s.wild)
  {
    var c, s := z.contents, Scan(z.contents, z.origin, q, t, 0, None, None);
    WalkEnds(z, q, t);
    if s.Bottom? {
      assert OnPath(z.origin, q, q);
    }
  }

  /** A query for `t` is answered by following the CNAME that the RRsets hold. */
  predicate IsAlias(m: RRsets, t: RRType) {
    TYPE_CNAME in m && t != TYPE_CNAME
  }

  /** A stored name that no cut or DNAME hides is answered from its own records: its CNAMEs are
      followed, or else its records of the type are the answer, or there is no data. */
  lemma {:induction false} StoredNameAnswers(z: Zone, q: Name, t: RRType, loop: nat, up: Name -> UpReply)
    requires AllProper(z.contents) && IsSubDomain(z.origin, q) && !Early(z, q, t, loop)
    requires NothingDecides(z.contents, z.origin, q, t) && q in z.contents
    ensures var m, r := z.contents[q], Lookup(z, q, t, loop, up);
            if IsAlias(m, t) then r == Chase(z, t, m[TYPE_CNAME], Target(m[TYPE_CNAME][0]), 0, up)
            else if t in m then r == Response(m[t], z.apex.ns, Success)
            else r == Response([], [z.apex.soa.value], NoData)
  {
    WalkReachesBottom(z, q, t);
  }

  /** A missing name is answered from the wildcard of the deepest missing level that has one. */
  lemma {:induction false} WildcardAnswers(z: Zone, q: Name, t: RRType, loop: nat, up: Name -> UpReply, w: Name)
    requires AllProper(z.contents) && IsSubDomain(z.origin, q) && !Early(z, q, t, loop)
    requires NothingDecides(z.contents, z.origin, q, t) && q !in z.contents && DeepestWildcard(z.contents, z.origin, q, w)
    ensures var m, r := z.contents[w], Lookup(z, q, t, loop, up);
            if IsAlias(m, t) then
              exists cnames :: Copies(cnames, m[TYPE_CNAME], q) && r == Chase(z, t, cnames, Target(m[TYPE_CNAME][0]), 0, up)
            else if t in m then
              exists rrs :: Copies(rrs, m[t], q) && r == Response(rrs, z.apex.ns, Success)
            else r == Response([], [z.apex.soa.value], NoData)
  {
    var m := z.contents[w];
    if t in m { assert Copies(Owned(m[t], q), m[t], q); }
    if TYPE_CNAME in m { assert Copies(Owned(m[TYPE_CNAME], q), m[TYPE_CNAME], q); }
    WildcardNode(z, q, t, loop, up, w);
  }

  /** The records of `from`, one by one, owned by `q`. */
  ghost predicate Copies(rrs: seq<RR>, from: seq<RR>, q: Name) {
    |rrs| == |from| && forall i :: 0 <= i < |rrs| ==> rrs[i] == RR(q, from[i].ttl, from[i].data)
  }

  lemma {:induction false} WildcardNode(z: Zone, q: Name, t: RRType, loop: nat, up: Name -> UpReply, w: Name)
    requires AllProper(z.contents) && IsSubDomain(z.origin, q) && !Early(z, q, t, loop)
    requires NothingDecides(z.contents, z.origin, q, t) && q !in z.contents && DeepestWildcard(z.contents, z.origin, q, w)
    ensures Lookup(z, q, t, loop, up) ==
              FromNode(z, t, Owned(OfType(z.contents[w], TYPE_CNAME), q), Owned(OfType(z.contents[w], t), q), up)
  {
    WalkReachesBottom(z, q, t);
    var c, o, s := z.contents, z.origin, Scan(z.contents, z.origin, q, t, 0, None, None);
    var n :| MissingWith(c, o, q, n, w) && forall x, v :: MissingWith(c, o, q, x, v) && v in c ==> |x| <= |n|;
    assert |n| < |o| + (|q| - |o| + 1);
    var n', w' :| MissingWith(c, o, q, n', w') && w' in c && c[w'] == s.wild.value
      && forall x, v :: MissingWith(c, o, q, x, v) && |x| < |o| + (|q| - |o| + 1) && v in c ==> |x| <= |n'|;
    OnPathSame(o, q, n, n');
  }

  lemma {:induction false} SmallestAtOrAfter(c: Contents, q: Name, ks: set<Name>) returns (k: Name)
    requires ks <= c.Keys && ks != {} && forall x :: x in ks ==> Compare(q, x) <= 0
    ensures k in ks && forall x :: x in ks ==> Compare(k, x) <= 0
    decreases ks
  {
    k :| k in ks;
    if ks != {k} {
      var k' := SmallestAtOrAfter(c, q, ks - {k});
      CompareFlip(k, k');
      CompareFlip(k, k);
      forall x | x in ks
        ensures Compare(if Lt(k, k') then k else k', x) <= 0
      {
        CompareFlip(k', x);
        if Lt(k, k') && Lt(k', x) {
          CompareTransitive(k, k', x);
        }
      }
      k := if Lt(k, k') then k else k';
    } else {
      CompareFlip(k, k);
    }
  }

  /** The next name cannot be `k`, although it is at or below `q`: the root comes behind it. */
  predicate Missed(q: Name, k: Name) {
    q == [] && LowTop(k)
  }

  /** One step of the order tells whether anything is stored at or below `q`, but for what the root misses. */
  lemma {:induction false} NextTells(c: Contents, q: Name)
    ensures NextIsBelow(c, q) <==> exists k :: k in c && IsSubDomain(q, k) && !Missed(q, k)
  {
    if k :| k in c && IsSubDomain(q, k) && !Missed(q, k) {
      var ks := set x | x in c && Compare(q, x) <= 0;
      CompareFlip(q, k);
      if q != k {
        AncestorFirst(q, k);
      }
      assert k in ks;
      var j := SmallestAtOrAfter(c, q, ks);
      assert IsNextName(c, q, j);
      CompareFlip(j, q);
      CompareFlip(k, j);
      DescendantsContiguous(q, j, k);
    }
  }

  /** Without a name, wildcard, cut or DNAME the result is a name error just when nothing is
      stored at or below `q`, but for what the root misses. */
  lemma {:induction false} NameErrorExactly(z: Zone, q: Name, t: RRType, loop: nat, up: Name -> UpReply)
    requires AllProper(z.contents) && IsSubDomain(z.origin, q) && !Early(z, q, t, loop)
    requires NothingDecides(z.contents, z.origin, q, t) && q !in z.contents && NoWildcard(z.contents, z.origin, q)
    ensures Lookup(z, q, t, loop, up).answer == [] && Lookup(z, q, t, loop, up).ns == [z.apex.soa.value]
    ensures Lookup(z, q, t, loop, up).result == NameError <==> forall k :: k in z.contents && IsSubDomain(q, k) ==> Missed(q, k)
    ensures Lookup(z, q, t, loop, up).result == Success <==> exists k :: k in z.contents && IsSubDomain(q, k) && !Missed(q, k)
  {
    WalkReachesBottom(z, q, t);
    NextTells(z.contents, q);
  }

  /** A root zone that stores nothing but a wildcard has a name below the root, and denies the root. */
  lemma {:induction false} RootDenied(z: Zone, t: RRType, up: Name -> UpReply)
    requires z.origin == [] && z.apex.soa.Some? && z.contents.Keys == {["*"]} && AllProper(z.contents)
    requires t != TYPE_SOA && t != TYPE_NS
    ensures Lookup(z, [], t, 0, up) == Response([], [z.apex.soa.value], NameError) && IsSubDomain([], ["*"])
  {
    var c := z.contents;
    forall k | OnPath([], [], k)
      ensures !Decides(c, [], t, k)
    {
      assert k == [];
    }
    assert NoWildcard(c, [], []);
    NameErrorExactly(z, [], t, 0, up);
  }

  lemma {:induction false} ChaseNeverDelegates(z: Zone, t: RRType, rrs: seq<RR>, target: Name, i: nat, up: Name -> UpReply)
    requires i <= 9
    ensures Chase(z, t, rrs, target, i, up).result != Delegation && rrs <= Chase(z, t, rrs, target, i, up).answer
    decreases 9 - i
  {
    if target in z.contents && i <= 8 && OfType(z.contents[target], TYPE_CNAME) != [] {
      var cnames := OfType(z.contents[target], TYPE_CNAME);
      ChaseNeverDelegates(z, t, rrs + cnames, Target(cnames[0]), i + 1, up);
    }
  }

  lemma {:induction false} ShortestIsTopmost(c: Contents, origin: Name, q: Name, t: RRType, n: nat) returns (k: Name)
    requires IsSubDomain(origin, q)
    requires exists x :: OnPath(origin, q, x) && Decides(c, q, t, x) && |x| <= n
    ensures Topmost(c, origin, q, t, k)
    decreases n
  {
    if x :| OnPath(origin, q, x) && Decides(c, q, t, x) && |x| < n {
      k := ShortestIsTopmost(c, origin, q, t, n - 1);
    } else {
      k :| OnPath(origin, q, k) && Decides(c, q, t, k) && |k| <= n;
    }
  }

  /** A delegation is given just when the first deciding name is a cut. */
  lemma {:induction false} DelegationExactly(z: Zone, q: Name, t: RRType, loop: nat, up: Name -> UpReply)
    requires AllProper(z.contents) && IsSubDomain(z.origin, q) && !Early(z, q, t, loop)
    ensures Lookup(z, q, t, loop, up).result == Delegation <==>
            exists k :: Topmost(z.contents, z.origin, q, t, k) && !HasDnameAbove(z.contents, q, k)
  {
    var c, o := z.contents, z.origin;
    if x :| OnPath(o, q, x) && Decides(c, q, t, x) {
      var k := ShortestIsTopmost(c, o, q, t, |x|);
      if HasDnameAbove(c, q, k) {
        DnameRedirects(z, q, t, loop, up, k);
        var d: seq<RR> := c[k][TYPE_DNAME];
        var cname := RR(q, d[0].ttl, CNAME(Target(d[0]) + q[|k|..]));
        ChaseNeverDelegates(z, t, [cname], Target(cname), 0, up);
        forall j | Topmost(c, o, q, t, j)
          ensures HasDnameAbove(c, q, j)
        {
          TopmostIsOne(c, o, q, t, j, k);
        }
      } else {
        CutDelegates(z, q, t, loop, up, k);
      }
    } else {
      WalkReachesBottom(z, q, t);
      var s := Scan(c, o, q, t, 0, None, None);
      var m, own := if s.found.Some? then s.found.value else if s.wild.Some? then s.wild.value else map[], s.found.None?;
      var cnames := if own then Owned(OfType(m, TYPE_CNAME), q) else OfType(m, TYPE_CNAME);
      if cnames != [] {
        ChaseNeverDelegates(z, t, cnames, Target(cnames[0]), 0, up);
      }
    }
  }
}
