/** In-order walks over the tree: `authwalk` (`plugin/file/tree/auth_walk.go`) and the
    `names` of the signer (`plugin/sign/nsec.go`).  */
module Walk {
  import opened Names
  import opened NameText
  import opened Records
  import opened Llrb
  import opened ZoneTree
  import opened Store

  /** No proper ancestor of `k` that is stored owns an NS RRset. */
  ghost predicate IsAuth(c: Contents, k: Name) {
    forall j :: 0 < j < |k| ==> TYPE_NS !in At(c, k[..j])
  }

  /** What `authwalk` carries along: the texts of the delegated names met so far, and the
      arguments of the callback. */
  datatype State = State(ns: set<string>, visits: seq<(Name, bool)>)

  ghost predicate AuthBy(ns: set<string>, k: Name) {
    forall j :: 0 < j < |k| ==> Text(k[..j]) !in ns
  }

  ghost function NoteNs(ns: set<string>, k: Name, c: Contents): set<string> {
    if TYPE_NS in At(c, k) then ns + {Text(k)} else ns
  }

  ghost function Visit(w: State, k: Name, c: Contents): State {
    var ns := NoteNs(w.ns, k, c);
    State(ns, w.visits + [(k, AuthBy(ns, k))])
  }

  ghost function VisitAll<V>(w: State, s: Items<V>, c: Contents): State
    decreases s
  {
    if s == [] then w else VisitAll(Visit(w, s[0].0, c), s[1..], c)
  }

  lemma {:induction false} VisitConcat<V>(w: State, l: Items<V>, r: Items<V>, c: Contents)
    ensures VisitAll(w, l + r, c) == VisitAll(VisitAll(w, l, c), r, c)
    decreases l
  {
    if l == [] {
      assert l + r == r;
    } else {
      assert (l + r)[1..] == l[1..] + r;
      VisitConcat(Visit(w, l[0].0, c), l[1..], r, c);
    }
  }

  lemma {:induction false} VisitTree<V>(w: State, t: Rbt<V>, c: Contents)
    requires t.Bin?
    ensures VisitAll(w, All(t), c) == VisitAll(Visit(VisitAll(w, All(t.left), c), t.key, c), All(t.right), c)
  {
    var l, m := All(t.left), [(t.key, t.val)];
    VisitConcat(w, l + m, All(t.right), c);
    VisitConcat(w, l, m, c);
    assert VisitAll(VisitAll(w, l, c), m, c) == Visit(VisitAll(w, l, c), t.key, c);
  }

  ghost predicate ValidNames(c: Contents) {
    forall k :: k in c ==> ValidName(k)
  }

  /** `e.Name()` inside a tree: nothing but the cached name changes. */
  method NameOf(e: Elem, ghost ix: map<Name, Elem>, ghost c: Contents) returns (k: Name)
    requires e in ix.Values && Indexed(ix, c)
    modifies ix.Values`name
    ensures Indexed(ix, c) && k == e.owner && k in c && e.m == c[k]
  {
    ghost var k0 :| k0 in ix && ix[k0] == e;
    k := e.Name();
    forall x | x in ix
      ensures ix[x].owner == x && ix[x].Valid() && ix[x].m == c[x] != map[]
    {
    }
  }

  /** What the visit of one element does. */
  method VisitElem(e: Elem, w: State, ghost ix: map<Name, Elem>, ghost c: Contents) returns (w': State)
    requires e in ix.Values && Indexed(ix, c) && ValidNames(c)
    modifies ix.Values`name
    ensures Indexed(ix, c) && w' == Visit(w, e.owner, c)
  {
    var ns := w.ns;
    var name := NameOf(e, ix, c);
    if TYPE_NS in e.m {
      ns := ns + {Text(name)};
    }
    var auth := Authoritative(Text(name), ns, name);
    w' := State(ns, w.visits + [(name, auth)]);
  }

  /** A visit seen from the tree: only cached names change. */
  method VisitIn(t: Tree, e: Elem, ns: set<string>) returns (ns': set<string>, k: Name, auth: bool)
    requires t.Valid() && e in t.view.ix.Values && ValidNames(t.Contents())
    modifies t.view.ix.Values`name
    ensures t.Valid() && k == e.owner && k in t.Contents() && e.m == t.Contents()[k]
    ensures ns' == NoteNs(ns, k, t.Contents()) && auth == AuthBy(ns', k)
  {
    assert allocated(Nodes(t.view.shape));
    k := NameOf(e, t.view.ix, t.view.contents);
    var w := VisitElem(e, State(ns, []), t.view.ix, t.view.contents);
    ns', auth := w.ns, w.visits[0].1;
  }

  method AuthWalk(n: Node, w: State, ghost h: Shape, ghost t: Rbt<Elem>, ghost ix: map<Name, Elem>, ghost c: Contents)
    returns (w': State)
    requires Rep(n, h, t) && Elems(t) <= ix.Values && Indexed(ix, c) && ValidNames(c)
    modifies ix.Values`name
    ensures Indexed(ix, c) && w' == VisitAll(w, All(t), c)
    decreases t
  {
    w' := w;
    assert allocated(Nodes(h));
    if n.left != null {
      w' := AuthWalk(n.left, w', h.l, t.left, ix, c);
    }
    assert Rep(n, h, t);
    w' := VisitElem(n.elem, w', ix, c);
    assert Rep(n, h, t);
    if n.right != null {
      w' := AuthWalk(n.right, w', h.r, t.right, ix, c);
    }
    VisitTree(w, t, c);
  }

  /** The texts of the delegated names among the first `m`. */
  ghost function NsOf<V>(s: Items<V>, m: nat, c: Contents): set<string>
    requires m <= |s|
  {
    set i | 0 <= i < m && TYPE_NS in At(c, s[i].0) :: Text(s[i].0)
  }

  lemma NsGrows<V>(s: Items<V>, m: nat, c: Contents)
    requires m < |s|
    ensures NsOf(s, m + 1, c) == NoteNs(NsOf(s, m, c), s[m].0, c)
  {
  }

  /** The delegated names up to the `m`-th decide for it, because its ancestors come before it. */
  lemma AuthDecided<V>(s: Items<V>, m: nat, c: Contents)
    requires m < |s| && Sorted(s) && c.Keys == Keys(s) && ValidNames(c)
    ensures AuthBy(NsOf(s, m + 1, c), s[m].0) <==> IsAuth(c, s[m].0)
  {
    var k, ns := s[m].0, NsOf(s, m + 1, c);
    assert k in Keys(s);
    forall j | 0 < j < |k|
      ensures Text(k[..j]) in ns <==> TYPE_NS in At(c, k[..j])
    {
      if Text(k[..j]) in ns {
        var i :| 0 <= i <= m && TYPE_NS in At(c, s[i].0) && Text(s[i].0) == Text(k[..j]);
        assert s[i].0 in Keys(s);
        TextInjective(s[i].0, k[..j]);
      }
      if TYPE_NS in At(c, k[..j]) {
        var i :| 0 <= i < |s| && s[i].0 == k[..j];
        AncestorFirst(k[..j], k);
        CompareFlip(k[..j], k);
        assert i <= m;
      }
    }
  }

  /** The visits of the first `m` names of an ordered list, as they should be. */
  ghost function TrueVisits<V>(s: Items<V>, m: nat, c: Contents): seq<(Name, bool)>
    requires m <= |s|
  {
    seq(m, i requires 0 <= i < m => (s[i].0, IsAuth(c, s[i].0)))
  }

  lemma {:induction false} VisitLast<V>(w: State, s: Items<V>, m: nat, c: Contents)
    requires m < |s|
    ensures VisitAll(w, s[..m + 1], c) == Visit(VisitAll(w, s[..m], c), s[m].0, c)
  {
    VisitConcat(w, s[..m], [s[m]], c);
    assert s[..m + 1] == s[..m] + [s[m]];
    assert [s[m]][1..] == [];
  }

  lemma {:induction false} TrueVisitsGrow<V>(s: Items<V>, m: nat, c: Contents)
    requires m < |s|
    ensures TrueVisits(s, m + 1, c) == TrueVisits(s, m, c) + [(s[m].0, IsAuth(c, s[m].0))]
  {
  }

  lemma {:induction false} VisitTells<V>(s: Items<V>, m: nat, c: Contents)
    requires m < |s| && Sorted(s) && c.Keys == Keys(s) && ValidNames(c)
    ensures Visit(State(NsOf(s, m, c), TrueVisits(s, m, c)), s[m].0, c) == State(NsOf(s, m + 1, c), TrueVisits(s, m + 1, c))
  {
    NsGrows(s, m, c);
    AuthDecided(s, m, c);
    TrueVisitsGrow(s, m, c);
  }

  lemma {:induction false} VisitsTell<V>(s: Items<V>, m: nat, c: Contents)
    requires m <= |s| && Sorted(s) && c.Keys == Keys(s) && ValidNames(c)
    ensures VisitAll(State({}, []), s[..m], c) == State(NsOf(s, m, c), TrueVisits(s, m, c))
  {
    if m > 0 {
      VisitsTell(s, m - 1, c);
      VisitLast(State({}, []), s, m - 1, c);
      VisitTells(s, m - 1, c);
    }
  }

  /** `AuthWalk` over the whole tree visits every name once, in order, and tells of each
      whether a stored proper ancestor delegates it away. */
  method AuthWalkTree(t: Tree) returns (visits: seq<(Name, bool)>)
    requires t.Valid() && ValidNames(t.Contents())
    modifies t.view.ix.Values`name
    ensures t.Valid() && visits == TrueVisits(All(t.view.model), t.count, t.Contents())
  {
    visits := [];
    ghost var v := t.view;
    ghost var s := All(v.model);
    KeysIndexed(s);
    VisitsTell(s, |s|, v.contents);
    assert s[..|s|] == s;
    if t.root != null {
      assert allocated(Nodes(v.shape));
      var w := AuthWalk(t.root, State({}, []), v.shape, v.model, v.ix, v.contents);
      visits := w.visits;
    }
  }

  lemma {:induction false} KeysIndexed<V>(s: Items<V>)
    requires Sorted(s)
    ensures Keys(s) == Index(s).Keys
  {
    ItemsByIndex(s);
  }
}
