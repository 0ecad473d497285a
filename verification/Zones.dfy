/** A zone as a value: apex and contents, what `Zone.Insert` (`plugin/file/zone.go`) does to
    them, and the record stream of a zone transfer.  */
module Zones {
  import opened Names
  import opened Records
  import opened Llrb
  import opened Store

  // ----- lower case

  function LowerChar(c: char): char {
    if 'A' <= c <= 'Z' then (c as int + 32) as char else c
  }

  function LowerLabel(l: Label): Label {
    seq(|l|, i requires 0 <= i < |l| => LowerChar(l[i]))
  }

  function LowerName(n: Name): Name {
    seq(|n|, i requires 0 <= i < |n| => LowerLabel(n[i]))
  }

  /** `Zone.Insert` lower-cases the owner and the names in the data; a DNAME target stays as it is. */
  function Lowered(r: RR): RR {
    var r' := r.(owner := LowerName(r.owner));
    match r.data
    case NS(h) => r'.(data := NS(LowerName(h)))
    case CNAME(t) => r'.(data := CNAME(LowerName(t)))
    case SOA(n, m, s) => r'.(data := SOA(LowerName(n), LowerName(m), s))
    case MX(e, x) => r'.(data := MX(LowerName(e), x))
    case SRV(s, x) => r'.(data := SRV(LowerName(s), x))
    case _ => r'
  }

  lemma LowerTwice(n: Name)
    ensures LowerName(LowerName(n)) == LowerName(n)
  {
    forall i | 0 <= i < |n|
      ensures LowerLabel(LowerLabel(n[i])) == LowerLabel(n[i])
    {
    }
  }

  lemma LoweredTwice(r: RR)
    ensures Lowered(Lowered(r)) == Lowered(r)
  {
    LowerTwice(r.owner);
    match r.data
    case NS(h) => LowerTwice(h);
    case CNAME(t) => LowerTwice(t);
    case SOA(n, m, _) =>
      LowerTwice(n);
      LowerTwice(m);
    case MX(e, _) => LowerTwice(e);
    case SRV(s, _) => LowerTwice(s);
    case _ =>
  }

  predicate NoUpper(n: Name) {
    forall i, x :: 0 <= i < |n| && 0 <= x < |n[i]| ==> !('A' <= n[i][x] <= 'Z')
  }

  /** `l` is `n` with its letters from A to Z made small, and nothing else changed. */
  predicate IsLowerOf(l: Name, n: Name) {
    && |l| == |n|
    && forall i :: 0 <= i < |n| ==>
         && |l[i]| == |n[i]|
         && forall x :: 0 <= x < |n[i]| ==> l[i][x] as int == if 'A' <= n[i][x] <= 'Z' then n[i][x] as int + 32 else n[i][x] as int
  }

  lemma LowerIsLower(n: Name)
    ensures NoUpper(LowerName(n)) && IsLowerOf(LowerName(n), n)
  {
  }

  /** The names of a record that are lower-cased: the owner, and those in the data but for a DNAME target. */
  function NamesIn(r: RR): seq<Name> {
    [r.owner] +
    match r.data
    case NS(h) => [h]
    case CNAME(t) => [t]
    case SOA(n, m, _) => [n, m]
    case MX(e, _) => [e]
    case SRV(s, _) => [s]
    case _ => []
  }

  /** A lower-cased record differs from the original just in the case of those names. */
  lemma {:induction false} LoweredExactly(r: RR)
    ensures var l := Lowered(r);
            && l.ttl == r.ttl && l.Type() == r.Type() && |NamesIn(l)| == |NamesIn(r)|
            && (forall i :: 0 <= i < |NamesIn(l)| ==> NoUpper(NamesIn(l)[i]) && IsLowerOf(NamesIn(l)[i], NamesIn(r)[i]))
            && (r.data.SOA? ==> l.data.serial == r.data.serial) && (r.data.MX? ==> l.data.text == r.data.text)
            && (r.data.SRV? ==> l.data.text == r.data.text)
            && (!(r.data.NS? || r.data.CNAME? || r.data.SOA? || r.data.MX? || r.data.SRV?) ==> l.data == r.data)
  {
    var l := Lowered(r);
    forall i | 0 <= i < |NamesIn(l)|
      ensures |NamesIn(l)| == |NamesIn(r)| && NamesIn(l)[i] == LowerName(NamesIn(r)[i])
    {
    }
    forall i | 0 <= i < |NamesIn(l)|
      ensures NoUpper(NamesIn(l)[i]) && IsLowerOf(NamesIn(l)[i], NamesIn(r)[i])
    {
      LowerIsLower(NamesIn(r)[i]);
    }
  }

  // ----- the zone

  /** `Apex` */
  datatype Apex = Apex(soa: Option<RR>, ns: seq<RR>, sigSoa: seq<RR>, sigNs: seq<RR>)

  const EMPTY_APEX := Apex(None, [], [], [])

  datatype Zone = Zone(origin: Name, apex: Apex, contents: Contents)

  datatype Place = AtSoa | AtNs | AtSigSoa | AtSigNs | InTree | Rejected

  /** Where a record goes. */
  function PlaceOf(origin: Name, r: RR): Place {
    match r.data
    case NS(_) => if r.owner == origin then AtNs else InTree
    case SOA(_, _, _) => AtSoa
    case RRSIG(t) =>
      if t == TYPE_SOA then AtSigSoa
      else if t == TYPE_NS && r.owner == origin then AtSigNs
      else InTree
    case _ => if r.Type() == TYPE_NSEC3 || r.Type() == TYPE_NSEC3PARAM then Rejected else InTree
  }

  /** The apex with one more record. */
  function ApexWith(a: Apex, p: Place, r: RR): Apex {
    match p
    case AtNs => a.(ns := a.ns + [r])
    case AtSoa => a.(soa := Some(r))
    case AtSigSoa => a.(sigSoa := a.sigSoa + [r])
    case AtSigNs => a.(sigNs := a.sigNs + [r])
    case _ => a
  }

  /** `Zone.Insert`; `None` is the error for NSEC3 zones. */
  function InsertRR(z: Zone, r0: RR): Option<Zone> {
    var r := Lowered(r0);
    match PlaceOf(z.origin, r)
    case InTree => Some(z.(contents := AddTo(z.contents, r)))
    case Rejected => None
    case p => Some(z.(apex := ApexWith(z.apex, p, r)))
  }

  /** A zone with one more record in its place. */
  function Placed(z: Zone, p: Place, r: RR): Zone {
    if p == InTree then z.(contents := AddTo(z.contents, r)) else z.(apex := ApexWith(z.apex, p, r))
  }

  lemma InsertPlaces(z: Zone, r0: RR)
    ensures var r := Lowered(r0); var p := PlaceOf(z.origin, r);
            if p == Rejected then InsertRR(z, r0) == None && Placed(z, p, r) == z else InsertRR(z, r0) == Some(Placed(z, p, r))
  {
  }

  /** Records inserted one after the other. */
  function InsertRRs(z: Zone, rs: seq<RR>): Option<Zone>
    decreases rs
  {
    if rs == [] then Some(z)
    else match InsertRR(z, rs[0])
      case Some(z') => InsertRRs(z', rs[1..])
      case None => None
  }

  ghost predicate AllAt(origin: Name, rs: seq<RR>, p: Place) {
    forall i :: 0 <= i < |rs| ==> Lowered(rs[i]) == rs[i] && PlaceOf(origin, rs[i]) == p
  }

  ghost predicate TreePart(origin: Name, c: Contents) {
    forall k :: k in c ==> c[k] != map[] && NodePart(origin, c[k], k)
  }

  /** The RRsets of one name of the tree. */
  ghost predicate NodePart(origin: Name, m: RRsets, k: Name) {
    Proper(m, k) && forall t :: t in m ==> AllAt(origin, m[t], InTree)
  }

  /** Every record of a zone is where `Insert` puts it. */
  ghost predicate WellFormed(z: Zone) {
    && AllAt(z.origin, if z.apex.soa.Some? then [z.apex.soa.value] else [], AtSoa)
    && AllAt(z.origin, z.apex.ns, AtNs)
    && AllAt(z.origin, z.apex.sigSoa, AtSigSoa)
    && AllAt(z.origin, z.apex.sigNs, AtSigNs)
    && TreePart(z.origin, z.contents)
  }

  lemma {:induction false} AddKeepsTreePart(origin: Name, c: Contents, r: RR)
    requires TreePart(origin, c) && Lowered(r) == r && PlaceOf(origin, r) == InTree
    ensures TreePart(origin, AddTo(c, r))
  {
    var c' := AddTo(c, r);
    AddHere(origin, At(c, r.owner), r);
    forall k | k in c'
      ensures c'[k] != map[] && NodePart(origin, c'[k], k)
    {
      assert k != r.owner ==> k in c && c'[k] == c[k];
    }
  }

  lemma {:induction false} AddHere(origin: Name, m: RRsets, r: RR)
    requires NodePart(origin, m, r.owner) && Lowered(r) == r && PlaceOf(origin, r) == InTree
    ensures NodePart(origin, AddRR(m, r), r.owner) && AddRR(m, r) != map[]
  {
    var t, m' := r.Type(), AddRR(m, r);
    assert m'[t] == OfType(m, t) + [r];
    assert forall x :: x in m' && x != t ==> x in m && m'[x] == m[x];
  }

  lemma {:induction false} InsertKeepsWellFormed(z: Zone, r: RR)
    requires WellFormed(z)
    ensures InsertRR(z, r).Some? ==> WellFormed(InsertRR(z, r).value)
  {
    LoweredTwice(r);
    if PlaceOf(z.origin, Lowered(r)) == InTree {
      AddKeepsTreePart(z.origin, z.contents, Lowered(r));
    }
  }

  /** What an insertion does, record by record: NSEC3 records are rejected; a SOA becomes the one of
      the apex; NS records of the origin and the signatures of both go to the apex; every other
      record is appended to the RRset of its owner and type. */
  lemma {:induction false} InsertExactly(z: Zone, r: RR)
    ensures InsertRR(z, r).None? <==> r.Type() == TYPE_NSEC3 || r.Type() == TYPE_NSEC3PARAM
    ensures InsertRR(z, r).Some? ==>
              var z', l, a := InsertRR(z, r).value, Lowered(r), z.apex;
              if l.data.SOA? then z' == Zone(z.origin, Apex(Some(l), a.ns, a.sigSoa, a.sigNs), z.contents)
              else if l.data.NS? && l.owner == z.origin then z' == Zone(z.origin, Apex(a.soa, a.ns + [l], a.sigSoa, a.sigNs), z.contents)
              else if l.data == RRSIG(TYPE_SOA) then z' == Zone(z.origin, Apex(a.soa, a.ns, a.sigSoa + [l], a.sigNs), z.contents)
              else if l.data == RRSIG(TYPE_NS) && l.owner == z.origin then z' == Zone(z.origin, Apex(a.soa, a.ns, a.sigSoa, a.sigNs + [l]), z.contents)
              else z'.origin == z.origin && z'.apex == a && Appended(z.contents, z'.contents, l)
  {
    LoweredExactly(r);
    AppendedTo(z.contents, Lowered(r));
  }

  /** `c'` is `c` with `r` at the end of its RRset. */
  ghost predicate Appended(c: Contents, c': Contents, r: RR) {
    && c'.Keys == c.Keys + {r.owner}
    && (forall k :: k in c && k != r.owner ==> c'[k] == c[k])
    && forall t :: OfType(c'[r.owner], t) == (if r.owner in c then OfType(c[r.owner], t) else []) + if t == r.Type() then [r] else []
  }

  lemma {:induction false} AppendedTo(c: Contents, r: RR)
    ensures Appended(c, AddTo(c, r), r)
  {
    var c' := AddTo(c, r);
    forall t
      ensures OfType(c'[r.owner], t) == (if r.owner in c then OfType(c[r.owner], t) else []) + if t == r.Type() then [r] else []
    {
      assert OfType(At(c, r.owner), t) + [] == OfType(At(c, r.owner), t);
    }
  }

  /** A record inserted in any case is found under the lower-case name. */
  lemma {:induction false} InsertedFound(z: Zone, r: RR)
    requires PlaceOf(z.origin, Lowered(r)) == InTree
    ensures InsertRR(z, r).Some?
    ensures exists k :: IsLowerOf(k, r.owner) && k in InsertRR(z, r).value.contents && Lowered(r) in OfType(InsertRR(z, r).value.contents[k], r.Type())
  {
    var k, t := LowerName(r.owner), r.Type();
    LowerIsLower(r.owner);
    LoweredExactly(r);
    var m := InsertRR(z, r).value.contents[k];
    assert OfType(m, t) == OfType(At(z.contents, k), t) + [Lowered(r)];
    assert OfType(m, t)[|OfType(m, t)| - 1] == Lowered(r);
  }

  /** No record of a zone that was built by insertion has a capital letter in those names. */
  lemma {:induction false} StoredIsLower(z: Zone, rs: seq<RR>, k: Name, t: RRType, r: RR)
    requires z == Zone(z.origin, EMPTY_APEX, map[]) && InsertRRs(z, rs).Some?
    requires var z' := InsertRRs(z, rs).value; k in z'.contents && t in z'.contents[k] && r in z'.contents[k][t]
    ensures NoUpper(k) && r.owner == k && forall i :: 0 <= i < |NamesIn(r)| ==> NoUpper(NamesIn(r)[i])
  {
    var z' := InsertRRs(z, rs).value;
    BuiltIsWellFormed(z, rs);
    assert NodePart(z.origin, z'.contents[k], k) by { SameOrigin(z, rs); }
    var i :| 0 <= i < |z'.contents[k][t]| && z'.contents[k][t][i] == r;
    LoweredExactly(r);
    assert NamesIn(r)[0] == k;
  }

  lemma {:induction false} SameOrigin(z: Zone, rs: seq<RR>)
    ensures InsertRRs(z, rs).Some? ==> InsertRRs(z, rs).value.origin == z.origin
    decreases rs
  {
    if rs != [] && InsertRR(z, rs[0]).Some? {
      SameOrigin(InsertRR(z, rs[0]).value, rs[1..]);
    }
  }

  lemma {:induction false} BuiltIsWellFormed(z: Zone, rs: seq<RR>)
    requires WellFormed(z)
    ensures InsertRRs(z, rs).Some? ==> WellFormed(InsertRRs(z, rs).value)
    decreases rs
  {
    if rs != [] && InsertRR(z, rs[0]).Some? {
      InsertKeepsWellFormed(z, rs[0]);
      BuiltIsWellFormed(InsertRR(z, rs[0]).value, rs[1..]);
    }
  }

  /** What belongs in the tree: no SOA, no signature of one, no NS RRset of the origin, no signature
      of that, and nothing of NSEC3. */
  ghost predicate TreeRecord(origin: Name, r: RR) {
    && !r.data.SOA? && r.Type() != TYPE_NSEC3 && r.Type() != TYPE_NSEC3PARAM && r.data != RRSIG(TYPE_SOA)
    && !(r.owner == origin && (r.data.NS? || r.data == RRSIG(TYPE_NS)))
  }

  /** A record of the tree is one that belongs there, and the apex holds just the others. */
  lemma {:induction false} PartsOfZone(z: Zone)
    requires WellFormed(z)
    ensures forall k, t, i :: k in z.contents && t in z.contents[k] && 0 <= i < |z.contents[k][t]| ==>
              TreeRecord(z.origin, z.contents[k][t][i]) && z.contents[k][t][i].owner == k
    ensures forall i :: 0 <= i < |z.apex.ns| ==> z.apex.ns[i].data.NS? && z.apex.ns[i].owner == z.origin
    ensures forall i :: 0 <= i < |z.apex.sigSoa| ==> z.apex.sigSoa[i].data == RRSIG(TYPE_SOA)
    ensures forall i :: 0 <= i < |z.apex.sigNs| ==> z.apex.sigNs[i].data == RRSIG(TYPE_NS) && z.apex.sigNs[i].owner == z.origin
    ensures z.apex.soa.Some? ==> z.apex.soa.value.data.SOA?
  {
    if z.apex.soa.Some? {
      assert PlaceOf(z.origin, [z.apex.soa.value][0]) == AtSoa;
    }
    forall k, t, i | k in z.contents && t in z.contents[k] && 0 <= i < |z.contents[k][t]|
      ensures TreeRecord(z.origin, z.contents[k][t][i]) && z.contents[k][t][i].owner == k
    {
      assert PlaceOf(z.origin, z.contents[k][t][i]) == InTree;
    }
  }

  // ----- the stream of a transfer

  /** `ApexIfDefined` */
  function ApexRecords(a: Apex): seq<RR>
    requires a.soa.Some?
  {
    [a.soa.value] + a.sigSoa + a.ns + a.sigNs
  }

  /** The RRsets of a name one after the other, in the order the types are met. */
  function Listing(m: RRsets, order: seq<RRType>): seq<RR>
    requires forall i :: 0 <= i < |order| ==> order[i] in m
  {
    if order == [] then [] else Listing(m, order[..|order| - 1]) + m[order[|order| - 1]]
  }

  ghost predicate Enumerates<T>(s: seq<T>, xs: set<T>) {
    && (forall i :: 0 <= i < |s| ==> s[i] in xs)
    && (forall x :: x in xs ==> x in s)
    && forall i, j :: 0 <= i < j < |s| ==> s[i] != s[j]
  }

  lemma {:induction false} InsertRRsConcat(z: Zone, a: seq<RR>, b: seq<RR>)
    ensures InsertRRs(z, a + b) ==
              match InsertRRs(z, a)
              case Some(z') => InsertRRs(z', b)
              case None => None
    decreases a
  {
    if a == [] {
      assert a + b == b;
    } else {
      assert (a + b)[1..] == a[1..] + b;
      if InsertRR(z, a[0]).Some? {
        InsertRRsConcat(InsertRR(z, a[0]).value, a[1..], b);
      }
    }
  }

  function AppendAt(z: Zone, p: Place, rs: seq<RR>): Zone {
    var a := z.apex;
    match p
    case AtNs => z.(apex := a.(ns := a.ns + rs))
    case AtSigSoa => z.(apex := a.(sigSoa := a.sigSoa + rs))
    case AtSigNs => z.(apex := a.(sigNs := a.sigNs + rs))
    case _ => z
  }

  lemma {:induction false} ApexRun(z: Zone, p: Place, rs: seq<RR>)
    requires p in {AtNs, AtSigSoa, AtSigNs} && AllAt(z.origin, rs, p)
    ensures InsertRRs(z, rs) == Some(AppendAt(z, p, rs))
    decreases rs
  {
    if rs != [] {
      assert Lowered(rs[0]) == rs[0];
      var z' := AppendAt(z, p, [rs[0]]);
      ApexRun(z', p, rs[1..]);
      var a := z.apex;
      assert a.ns + [rs[0]] + rs[1..] == a.ns + rs;
      assert a.sigSoa + [rs[0]] + rs[1..] == a.sigSoa + rs;
      assert a.sigNs + [rs[0]] + rs[1..] == a.sigNs + rs;
    } else {
      assert z.apex.ns + [] == z.apex.ns && z.apex.sigSoa + [] == z.apex.sigSoa && z.apex.sigNs + [] == z.apex.sigNs;
    }
  }

  /** The records of one RRset go to one RRset, in order. */
  lemma {:induction false} RRsetRun(z: Zone, k: Name, t: RRType, rs: seq<RR>)
    requires AllAt(z.origin, rs, InTree) && rs != []
    requires forall i :: 0 <= i < |rs| ==> rs[i].owner == k && rs[i].Type() == t
    ensures var m := At(z.contents, k);
            InsertRRs(z, rs) == Some(z.(contents := z.contents[k := m[t := OfType(m, t) + rs]]))
    decreases rs
  {
    var m := At(z.contents, k);
    assert Lowered(rs[0]) == rs[0];
    var z' := z.(contents := AddTo(z.contents, rs[0]));
    if |rs| > 1 {
      RRsetRun(z', k, t, rs[1..]);
      assert OfType(m, t) + [rs[0]] + rs[1..] == OfType(m, t) + rs;
      var m' := At(z'.contents, k);
      assert m' == m[t := OfType(m, t) + [rs[0]]];
      assert m'[t := OfType(m, t) + rs] == m[t := OfType(m, t) + rs];
      assert z'.contents[k := m[t := OfType(m, t) + rs]] == z.contents[k := m[t := OfType(m, t) + rs]];
    } else {
      assert rs == [rs[0]] && rs[1..] == [];
    }
  }

  ghost function Only<K, V>(m: map<K, V>, ks: seq<K>): map<K, V> {
    map k | k in ks && k in m :: m[k]
  }

  lemma OnlyAll<K, V>(m: map<K, V>, ks: seq<K>)
    requires Enumerates(ks, m.Keys)
    ensures Only(m, ks) == m
  {
  }

  lemma OnlyOneMore<K, V>(m: map<K, V>, ks: seq<K>, k: K)
    requires k in m
    ensures Only(m, ks + [k]) == Only(m, ks)[k := m[k]]
  {
    assert forall x :: x in ks + [k] <==> x in ks || x == k;
  }

  /** One more RRset of a name of which `g` was already listed. */
  lemma {:induction false} ListingStep(z: Zone, k: Name, g: RRsets, t: RRType, rs: seq<RR>)
    requires At(z.contents, k) == g && t !in g && rs != [] && AllAt(z.origin, rs, InTree)
    requires forall i :: 0 <= i < |rs| ==> rs[i].owner == k && rs[i].Type() == t
    ensures InsertRRs(z, rs) == Some(z.(contents := z.contents[k := g[t := rs]]))
  {
    RRsetRun(z, k, t, rs);
    assert [] + rs == rs;
  }

  lemma {:induction false} ListingNext(z: Zone, k: Name, g: RRsets, t: RRType, l: seq<RR>, rs: seq<RR>)
    requires InsertRRs(z, l) == Some(z.(contents := z.contents[k := g]))
    requires t !in g && rs != [] && AllAt(z.origin, rs, InTree)
    requires forall i :: 0 <= i < |rs| ==> rs[i].owner == k && rs[i].Type() == t
    ensures InsertRRs(z, l + rs) == Some(z.(contents := z.contents[k := g[t := rs]]))
  {
    var z' := z.(contents := z.contents[k := g]);
    ListingStep(z', k, g, t, rs);
    InsertRRsConcat(z, l, rs);
    assert z'.contents[k := g[t := rs]] == z.contents[k := g[t := rs]];
  }

  /** The records of one name, listed in any order of its types, rebuild its RRsets. */
  lemma {:induction false} ListingRun(z: Zone, k: Name, m: RRsets, order: seq<RRType>)
    requires k !in z.contents && Proper(m, k) && order != []
    requires forall t :: t in m ==> AllAt(z.origin, m[t], InTree)
    requires forall i :: 0 <= i < |order| ==> order[i] in m
    requires forall i, j :: 0 <= i < j < |order| ==> order[i] != order[j]
    ensures InsertRRs(z, Listing(m, order)) == Some(z.(contents := z.contents[k := Only(m, order)]))
    decreases order
  {
    var f, t := order[..|order| - 1], order[|order| - 1];
    assert order == f + [t];
    var g := Only(m, f);
    OnlyOneMore(m, f, t);
    if f == [] {
      assert g == map[];
      assert Listing(m, order) == m[t];
      ListingStep(z, k, g, t, m[t]);
    } else {
      ListingRun(z, k, m, f);
      assert t !in g;
      ListingNext(z, k, g, t, Listing(m, f), m[t]);
    }
  }

  function Flatten<T>(ss: seq<seq<T>>): seq<T> {
    if ss == [] then [] else Flatten(ss[..|ss| - 1]) + ss[|ss| - 1]
  }

  lemma {:induction false} FlattenConcat<T>(a: seq<seq<T>>, b: seq<seq<T>>)
    ensures Flatten(a + b) == Flatten(a) + Flatten(b)
  {
    if b == [] {
      assert a + b == a;
    } else {
      FlattenConcat(a, b[..|b| - 1]);
      assert (a + b)[..|a + b| - 1] == a + b[..|b| - 1];
    }
  }

  /** Each chunk of `chunks` lists the records of one name of `ks`. */
  ghost predicate ListsNames(chunks: seq<seq<RR>>, ks: seq<Name>, orders: seq<seq<RRType>>, c: Contents) {
    && |chunks| == |ks| == |orders|
    && forall i :: 0 <= i < |ks| ==> ks[i] in c && Enumerates(orders[i], c[ks[i]].Keys) && chunks[i] == Listing(c[ks[i]], orders[i])
  }

  /** One more name after the names of `done`. */
  lemma {:induction false} NameNext(z: Zone, before: seq<RR>, c: Contents, done: seq<Name>, k: Name, order: seq<RRType>)
    requires TreePart(z.origin, c) && k in c && k !in done && Enumerates(order, c[k].Keys)
    requires InsertRRs(z, before) == Some(z.(contents := Only(c, done)))
    ensures InsertRRs(z, before + Listing(c[k], order)) == Some(z.(contents := Only(c, done + [k])))
  {
    assert order != [] by {
      assert c[k] != map[];
      var t :| t in c[k];
      assert t in order;
    }
    ListingRun(z.(contents := Only(c, done)), k, c[k], order);
    OnlyAll(c[k], order);
    OnlyOneMore(c, done, k);
    InsertRRsConcat(z, before, Listing(c[k], order));
  }

  lemma {:induction false} NamesRun(z: Zone, chunks: seq<seq<RR>>, ks: seq<Name>, orders: seq<seq<RRType>>, c: Contents)
    requires z.contents == map[] && TreePart(z.origin, c) && ListsNames(chunks, ks, orders, c)
    requires forall i, j :: 0 <= i < j < |ks| ==> ks[i] != ks[j]
    ensures InsertRRs(z, Flatten(chunks)) == Some(z.(contents := Only(c, ks)))
    decreases ks
  {
    if ks == [] {
      assert Only(c, ks) == map[];
    } else {
      var n := |ks| - 1;
      FewerNames(chunks, ks, orders, c);
      NamesRun(z, chunks[..n], ks[..n], orders[..n], c);
      NameNext(z, Flatten(chunks[..n]), c, ks[..n], ks[n], orders[n]);
      LastOff(ks);
    }
  }

  lemma {:induction false} FewerNames(chunks: seq<seq<RR>>, ks: seq<Name>, orders: seq<seq<RRType>>, c: Contents)
    requires ListsNames(chunks, ks, orders, c) && ks != [] && forall i, j :: 0 <= i < j < |ks| ==> ks[i] != ks[j]
    ensures var n := |ks| - 1;
            && |chunks| == |orders| == |ks| && ListsNames(chunks[..n], ks[..n], orders[..n], c) && ks[n] !in ks[..n]
            && ks[n] in c && chunks[n] == Listing(c[ks[n]], orders[n])
  {
  }

  lemma LastOff<T>(s: seq<T>)
    requires s != []
    ensures s == s[..|s| - 1] + [s[|s| - 1]]
  {
  }

  /** `Zone.Transfer` of the whole zone: apex, names, and the SOA again. */
  function Stream(a: Apex, chunks: seq<seq<RR>>): seq<seq<RR>>
    requires a.soa.Some?
  {
    [ApexRecords(a)] + chunks + [[a.soa.value]]
  }

  lemma {:induction false} StreamRecords(a: Apex, chunks: seq<seq<RR>>)
    requires a.soa.Some?
    ensures Flatten(Stream(a, chunks)) == ApexRecords(a) + Flatten(chunks) + [a.soa.value]
  {
    var l := [ApexRecords(a)];
    FlattenConcat(l + chunks, [[a.soa.value]]);
    FlattenConcat(l, chunks);
    assert l[..0] == [] && [[a.soa.value]][..0] == [];
    assert Flatten(l) == [] + ApexRecords(a);
    assert Flatten([[a.soa.value]]) == [] + [a.soa.value];
  }

  /** One more part of the apex. */
  lemma {:induction false} ApexNext(z0: Zone, z: Zone, head: seq<RR>, p: Place, rs: seq<RR>)
    requires InsertRRs(z0, head) == Some(z) && p in {AtNs, AtSigSoa, AtSigNs} && AllAt(z.origin, rs, p)
    ensures InsertRRs(z0, head + rs) == Some(AppendAt(z, p, rs))
  {
    ApexRun(z, p, rs);
    InsertRRsConcat(z0, head, rs);
  }

  lemma {:induction false} ApexRebuilt(z: Zone)
    requires WellFormed(z) && z.apex.soa.Some?
    ensures InsertRRs(Zone(z.origin, EMPTY_APEX, map[]), ApexRecords(z.apex)) == Some(z.(contents := map[]))
  {
    var a, o := z.apex, z.origin;
    var s := a.soa.value;
    assert Lowered([s][0]) == s;
    var z0 := Zone(o, EMPTY_APEX, map[]);
    var z1 := z0.(apex := Apex(Some(s), [], [], []));
    var z2 := z0.(apex := Apex(Some(s), [], a.sigSoa, []));
    var z3 := z0.(apex := Apex(Some(s), a.ns, a.sigSoa, []));
    assert InsertRRs(z0, [s]) == Some(z1) by { assert [s][1..] == []; }
    assert [] + a.sigSoa == a.sigSoa && [] + a.ns == a.ns && [] + a.sigNs == a.sigNs;
    ApexNext(z0, z1, [s], AtSigSoa, a.sigSoa);
    ApexNext(z0, z2, [s] + a.sigSoa, AtNs, a.ns);
    ApexNext(z0, z3, [s] + a.sigSoa + a.ns, AtSigNs, a.sigNs);
  }

  /** A secondary that inserts the stream of a zone into an empty zone ends up with that zone. */
  lemma {:induction false} RoundTrip(z: Zone, chunks: seq<seq<RR>>, ks: seq<Name>, orders: seq<seq<RRType>>)
    requires WellFormed(z) && z.apex.soa.Some?
    requires Enumerates(ks, z.contents.Keys) && ListsNames(chunks, ks, orders, z.contents)
    ensures InsertRRs(Zone(z.origin, EMPTY_APEX, map[]), Flatten(Stream(z.apex, chunks))) == Some(z)
  {
    var s, z0, z1 := z.apex.soa.value, Zone(z.origin, EMPTY_APEX, map[]), z.(contents := map[]);
    StreamRecords(z.apex, chunks);
    ApexRebuilt(z);
    NamesRun(z1, chunks, ks, orders, z.contents);
    OnlyAll(z.contents, ks);
    InsertRRsConcat(z0, ApexRecords(z.apex), Flatten(chunks));
    InsertRRsConcat(z0, ApexRecords(z.apex) + Flatten(chunks), [s]);
    assert Lowered([s][0]) == s;
    assert InsertRRs(z, [s]) == Some(z) by { assert [s][1..] == []; }
  }
}
