/** `tree.Tree`: the linked tree refines a finite map from names to RRsets. */
module Store {
  import opened Names
  import opened Records
  import opened Llrb
  import ZT = ZoneTree
  import opened ZoneTree

  type Contents = map<Name, RRsets>

  /** The RRsets of a name, none when the name is not there. */
  function At(c: Contents, k: Name): RRsets {
    if k in c then c[k] else map[]
  }

  /** `Tree.Insert` on the contents: append to the RRset of the name and type. */
  function AddTo(c: Contents, rr: RR): Contents {
    c[rr.owner := AddRR(At(c, rr.owner), rr)]
  }

  /** `Tree.Delete` on the contents: the RRset goes, and the name when it was its last. */
  function RemoveType(c: Contents, k: Name, t: RRType): Contents {
    if k !in c then c
    else if c[k] - {t} == map[] then c - {k}
    else c[k := c[k] - {t}]
  }

  /** Elements sit at their names and hold the records of `c`. */
  ghost predicate Indexed(ix: map<Name, Elem>, c: Contents)
    reads ix.Values
  {
    && c.Keys == ix.Keys
    && forall k :: k in ix ==> ix[k].owner == k && ix[k].Valid() && ix[k].m == c[k] != map[]
  }

  /** The root stands for the ordered and balanced tree `t` with a black root, and `ix` is its index. */
  ghost predicate Linked(n: Node?, h: Shape, t: Rbt<Elem>, ix: map<Name, Elem>)
    reads Nodes(h)
  {
    && Distinct(h) && Rep(n, h, t)
    && Balanced(t) && !IsRed(t) && Ordered(t)
    && ix == Index(All(t)) && ix.Values == Elems(t)
  }

  lemma PaintAll<V>(t: Rbt<V>, c: Color)
    ensures All(Paint(t, c)) == All(t)
  {
  }

  /** Elements and names of an ordered tree are one to one. */
  lemma {:induction false} ElemsIndexed(t: Rbt<Elem>)
    requires Ordered(t)
    ensures Elems(t) == Index(All(t)).Values
  {
    var s := All(t);
    ElemsInAll(t);
    forall i | 0 <= i < |s|
      ensures s[i].1 in Index(s).Values
    {
      FindSorted(s, i);
      IndexFinds(s, s[i].0);
    }
    forall k | k in Index(s)
      ensures Index(s)[k] in Elems(t)
    {
      IndexFinds(s, k);
      FindInKeys(s, k);
    }
  }

  /** `t.Root.Color = black` */
  method PaintBlack(n: Node?, ghost h: Shape, ghost t: Rbt<Elem>, ghost es: set<Elem>)
    requires Distinct(h) && Rep(n, h, t)
    modifies Nodes(h)
    ensures Rep(n, h, Paint(t, Black)) && unchanged(es)
  {
    if n != null {
      n.color := Black;
    }
  }

  // ----- insertion

  /** The index after a record was stored in `e`. */
  ghost function Grow(ix: map<Name, Elem>, e: Elem): (r: map<Name, Elem>)
    ensures r.Values <= ix.Values + {e}
  {
    if e.owner in ix then ix else ix[e.owner := e]
  }

  /** The tree after `Insert`, with its root painted black. */
  lemma {:induction false} InsertKeeps(t: Rbt<Elem>, k: Name, e: Elem)
    requires Balanced(t) && !IsRed(t) && Ordered(t)
    ensures var t', ix := Paint(Llrb.Insert(t, k, e), Black), Index(All(t));
            && Balanced(t') && !IsRed(t') && Ordered(t')
            && Index(All(t')) == (if k in ix then ix else ix[k := e]) && Elems(t') == Index(All(t')).Values
            && |All(t')| == |All(t)| + (if k in ix then 0 else 1)
            && (k in ix ==> t' == t)
  {
    var t', s := Paint(Llrb.Insert(t, k, e), Black), All(t);
    InsertGrows(t, k, e);
    InsertAll(t, k, e);
    PaintAll(Llrb.Insert(t, k, e), Black);
    PutSorted(s, k, e);
    PutFind(s, k, e, k);
    SearchFinds(t, k);
    IndexFinds(s, k);
    IndexPut(s, k, e);
    ElemsIndexed(t');
    if k in Index(s) { InsertExisting(t, k, e); }
  }

  /** `c` were the records before `rr` was stored in `e`; no other element was changed. */
  ghost predicate OneStored(rr: RR, ix: map<Name, Elem>, e: Elem, c: Contents)
    reads ix.Values, e
  {
    && e.Valid() && e.owner == rr.owner && e.m == AddRR(At(c, rr.owner), rr)
    && (rr.owner in ix ==> ix[rr.owner] == e)
    && c.Keys == ix.Keys
    && forall x :: x in ix && x != rr.owner ==> ix[x].owner == x && ix[x].Valid() && ix[x].m == c[x] != map[]
  }

  lemma StoredIndexed(rr: RR, ix: map<Name, Elem>, e: Elem, c: Contents)
    requires OneStored(rr, ix, e, c)
    ensures Indexed(Grow(ix, e), AddTo(c, rr))
  {
    assert rr.Type() in e.m;
  }

  method InsertAndPaint(n: Node?, rr: RR, ghost h: Shape, ghost t: Rbt<Elem>, ghost es: set<Elem>)
    returns (root: Node, d: int, ghost h': Shape, ghost e: Elem)
    requires Distinct(h) && Rep(n, h, t) && Elems(t) <= es && Good(es)
    modifies Nodes(h), es
    ensures Distinct(h') && Rep(root, h', Paint(Llrb.Insert(t, rr.owner, e), Black)) && Stored(t, rr, es, d, e)
    ensures forall x :: x in Nodes(h') ==> x in Nodes(h) || fresh(x)
    ensures Llrb.Search(t, rr.owner).Some? && Balanced(t) ==> h' == h
  {
    root, d, h', e := ZT.Insert(n, rr, h, t, es);
    PaintBlack(root, h', Llrb.Insert(t, rr.owner, e), es + {e});
  }

  /** `insert` and the painting of the root. */
  method InsertElem(n: Node?, rr: RR, ghost h: Shape, ghost t: Rbt<Elem>, ghost ix: map<Name, Elem>, ghost c: Contents)
    returns (root: Node, d: int, ghost h': Shape, ghost e: Elem)
    requires Distinct(h) && Rep(n, h, t) && Balanced(t) && Elems(t) <= ix.Values && Indexed(ix, c)
    requires Llrb.Search(t, rr.owner) == if rr.owner in ix then Some(ix[rr.owner]) else None
    modifies Nodes(h), ix.Values
    ensures Distinct(h') && Rep(root, h', Paint(Llrb.Insert(t, rr.owner, e), Black))
    ensures forall x :: x in Nodes(h') ==> x in Nodes(h) || fresh(x)
    ensures (rr.owner in ix || fresh(e)) && d == if rr.owner in ix then 0 else 1
    ensures OneStored(rr, ix, e, c)
    ensures rr.owner in ix ==> h' == h
  {
    root, d, h', e := InsertAndPaint(n, rr, h, t, ix.Values);
    forall x | x in ix && x != rr.owner
      ensures ix[x].owner == x && ix[x].Valid() && ix[x].m == c[x] != map[]
    {
      assert ix[x] in ix.Values && ix[x] != e;
    }
  }

  method InsertRoot(n: Node?, rr: RR, ghost h: Shape, ghost t: Rbt<Elem>, ghost ix: map<Name, Elem>, ghost c: Contents)
    returns (root: Node, d: int, ghost h': Shape, ghost t': Rbt<Elem>, ghost ix': map<Name, Elem>)
    requires Linked(n, h, t, ix) && Indexed(ix, c)
    modifies Nodes(h), ix.Values
    ensures Linked(root, h', t', ix') && Indexed(ix', AddTo(c, rr)) && |All(t')| == |All(t)| + d
    ensures forall x :: x in Nodes(h') ==> x in Nodes(h) || fresh(x)
    ensures forall x :: x in ix'.Values ==> x in ix.Values || fresh(x)
    ensures rr.owner in ix ==> h' == h && t' == t && ix' == ix
  {
    ghost var e;
    SearchFinds(t, rr.owner);
    IndexFinds(All(t), rr.owner);
    root, d, h', e := InsertElem(n, rr, h, t, ix, c);
    t', ix' := Paint(Llrb.Insert(t, rr.owner, e), Black), Grow(ix, e);
    StoredIndexed(rr, ix, e, c);
    InsertKeeps(t, rr.owner, e);
  }

  // ----- deletion

  /** The tree after a delete, with its root painted black, given what came back. */
  lemma {:induction false} DeleteKeeps(t: Rbt<Elem>, r: Rbt<Elem>, k: Name)
    requires t.Bin? && Ordered(t) && Shrunk(t, r) && All(r) == Without(All(t), k)
    ensures var t' := Paint(r, Black);
            && Balanced(t') && !IsRed(t') && Ordered(t') && All(t') == All(r)
            && Index(All(t')) == Index(All(t)) - {k} && Elems(t') == Index(All(t')).Values
  {
    PaintAll(r, Black);
    WithoutSorted(All(t), k);
    IndexWithout(All(t), k);
    ElemsIndexed(Paint(r, Black));
  }

  method DeleteRoot(n: Node, k: Name, ghost h: Shape, ghost t: Rbt<Elem>, ghost ix: map<Name, Elem>)
    returns (root: Node?, d: int, ghost h': Shape, ghost t': Rbt<Elem>)
    requires Linked(n, h, t, ix) && Good(ix.Values)
    modifies Nodes(h), ix.Values`name
    ensures Linked(root, h', t', ix - {k}) && Nodes(h') <= Nodes(h) && |All(t')| == |All(t)| + d
    ensures Good(ix.Values)
  {
    root, d, h' := n.Delete(k, h, t, ix.Values);
    PaintBlack(root, h', Llrb.Delete(t, k), ix.Values);
    DeleteShrinks(t, k);
    DeleteAll(t, k);
    DeleteKeeps(t, Llrb.Delete(t, k), k);
    t' := Paint(Llrb.Delete(t, k), Black);
  }

  /** `el.Delete(rr)` at a stored name. */
  method DeleteRecords(el: Elem, rr: RR, ghost ix: map<Name, Elem>, ghost c: Contents)
    requires Indexed(ix, c) && rr.owner in ix && el == ix[rr.owner] && el.name == Some(el.owner)
    modifies el`m
    ensures el.m == c[rr.owner] - {rr.Type()} && Good(ix.Values)
    ensures Indexed(ix - {rr.owner}, c - {rr.owner})
    ensures el.m != map[] ==> Indexed(ix, c[rr.owner := el.m])
  {
    el.Delete(rr);
    forall x | x in ix
      ensures ix[x].Valid() && ix[x].owner == x && (x != rr.owner ==> ix[x].m == c[x] != map[])
    {
      assert x != rr.owner ==> ix[x] != el;
    }
    OneChanged(ix, c, rr.owner);
  }

  /** Only the records of `k` are not those of `c`. */
  lemma {:induction false} OneChanged(ix: map<Name, Elem>, c: Contents, k: Name)
    requires c.Keys == ix.Keys && k in ix
    requires forall x :: x in ix ==> ix[x].Valid() && ix[x].owner == x && (x != k ==> ix[x].m == c[x] != map[])
    ensures Good(ix.Values) && Indexed(ix - {k}, c - {k})
    ensures ix[k].m != map[] ==> Indexed(ix, c[k := ix[k].m])
  {
    forall e | e in ix.Values
      ensures e.Valid()
    {
      var x :| x in ix && ix[x] == e;
    }
  }

  lemma IndexedGood(ix: map<Name, Elem>, c: Contents)
    requires Indexed(ix, c)
    ensures Good(ix.Values)
  {
    forall e | e in ix.Values
      ensures e.Valid()
    {
      var k :| k in ix && ix[k] == e;
    }
  }

  method DeleteMinRoot(n: Node, ghost h: Shape, ghost t: Rbt<Elem>, ghost ix: map<Name, Elem>)
    returns (root: Node?, d: int, ghost h': Shape, ghost t': Rbt<Elem>, ghost k: Name)
    requires Linked(n, h, t, ix)
    modifies Nodes(h)
    ensures Linked(root, h', t', ix - {k}) && Nodes(h') <= Nodes(h) && |All(t')| == |All(t)| + d
    ensures k in ix && forall x :: x in ix ==> Compare(k, x) <= 0
    ensures unchanged(ix.Values)
  {
    k, t' := All(t)[0].0, Paint(Llrb.DeleteMin(t), Black);
    DeleteMinShrinks(t);
    DeleteMinAll(t);
    FirstOut(All(t));
    EndsOfIndex(All(t));
    DeleteKeeps(t, Llrb.DeleteMin(t), k);
    root, d, h' := n.DeleteMin(h, t);
    PaintBlack(root, h', Llrb.DeleteMin(t), ix.Values);
  }

  method DeleteMaxRoot(n: Node, ghost h: Shape, ghost t: Rbt<Elem>, ghost ix: map<Name, Elem>)
    returns (root: Node?, d: int, ghost h': Shape, ghost t': Rbt<Elem>, ghost k: Name)
    requires Linked(n, h, t, ix)
    modifies Nodes(h)
    ensures Linked(root, h', t', ix - {k}) && Nodes(h') <= Nodes(h) && |All(t')| == |All(t)| + d
    ensures k in ix && forall x :: x in ix ==> Compare(k, x) >= 0
    ensures unchanged(ix.Values)
  {
    k, t' := All(t)[|All(t)| - 1].0, Paint(Llrb.DeleteMax(t), Black);
    DeleteMaxShrinks(t);
    DeleteMaxAll(t);
    LastOut(All(t));
    EndsOfIndex(All(t));
    DeleteKeeps(t, Llrb.DeleteMax(t), k);
    root, d, h' := n.DeleteMax(h, t);
    PaintBlack(root, h', Llrb.DeleteMax(t), ix.Values);
  }

  lemma IndexedMinus(ix: map<Name, Elem>, c: Contents, k: Name)
    requires Indexed(ix, c)
    ensures Indexed(ix - {k}, c - {k})
  {
  }

  /** `floor` by name: every stored name is the name of an item. */
  lemma {:induction false} FloorByIndex<V>(t: Rbt<V>, q: Name)
    requires Ordered(t)
    ensures match Llrb.Floor(t, q)
            case None => forall x :: x in Index(All(t)) ==> Compare(q, x) < 0
            case Some(y) =>
              && y.0 in Index(All(t)) && Index(All(t))[y.0] == y.1 && Compare(q, y.0) >= 0
              && forall x :: x in Index(All(t)) && Compare(q, x) >= 0 ==> Compare(y.0, x) >= 0
  {
    FloorIsPrev(t, q);
    ItemsByIndex(All(t));
  }

  lemma {:induction false} CeilByIndex<V>(t: Rbt<V>, q: Name)
    requires Ordered(t)
    ensures match Llrb.Ceil(t, q)
            case None => forall x :: x in Index(All(t)) ==> Compare(q, x) > 0
            case Some(y) =>
              && y.0 in Index(All(t)) && Index(All(t))[y.0] == y.1 && Compare(q, y.0) <= 0
              && forall x :: x in Index(All(t)) && Compare(q, x) <= 0 ==> Compare(y.0, x) <= 0
  {
    CeilIsNext(t, q);
    ItemsByIndex(All(t));
  }

  lemma {:induction false} ItemsByIndex<V>(s: Items<V>)
    requires Sorted(s)
    ensures forall i :: 0 <= i < |s| ==> s[i].0 in Index(s) && Index(s)[s[i].0] == s[i].1
    ensures forall x :: x in Index(s) ==> exists i :: 0 <= i < |s| && s[i].0 == x
  {
    forall i | 0 <= i < |s|
      ensures s[i].0 in Index(s) && Index(s)[s[i].0] == s[i].1
    {
      FindSorted(s, i);
      IndexFinds(s, s[i].0);
    }
    forall x | x in Index(s)
      ensures exists i :: 0 <= i < |s| && s[i].0 == x
    {
      IndexFinds(s, x);
      FindInKeys(s, x);
    }
  }

  /** What a tree stands for: its links, its value, its elements by name, their records by name. */
  datatype View = View(shape: Shape, model: Rbt<Elem>, ix: map<Name, Elem>, contents: Contents)

  lemma {:induction false} FirstOut<V>(s: Items<V>)
    requires Sorted(s) && s != []
    ensures s[1..] == Without(s, s[0].0)
  {
    forall i | 0 <= i < |s[1..]|
      ensures Compare(s[0].0, s[1..][i].0) != 0
    {
      assert Lt(s[0].0, s[i + 1].0);
    }
    WithoutAbsent(s[1..], s[0].0);
  }

  lemma {:induction false} LastOut<V>(s: Items<V>)
    requires Sorted(s) && s != []
    ensures s[..|s| - 1] == Without(s, s[|s| - 1].0)
  {
    var i := s[..|s| - 1];
    var z := s[|s| - 1];
    forall j | 0 <= j < |i|
      ensures Compare(z.0, i[j].0) != 0
    {
      CompareFlip(z.0, i[j].0);
      assert Lt(s[j].0, z.0);
    }
    WithoutAbsent(i, z.0);
    WithoutConcat(i, [z], z.0);
    assert s == i + [z];
  }

  /** `k` is the first name of the contents. */
  ghost predicate IsFirst(c: Contents, k: Name) {
    k in c && forall x :: x in c ==> Compare(k, x) <= 0
  }

  /** `k` is the last name of the contents. */
  ghost predicate IsLast(c: Contents, k: Name) {
    k in c && forall x :: x in c ==> Compare(k, x) >= 0
  }

  lemma {:induction false} EndsOfIndex<V>(s: Items<V>)
    requires Sorted(s) && s != []
    ensures s[0].0 in Index(s) && forall x :: x in Index(s) ==> Compare(s[0].0, x) <= 0
    ensures s[|s| - 1].0 in Index(s) && forall x :: x in Index(s) ==> Compare(s[|s| - 1].0, x) >= 0
  {
    FindSorted(s, 0);
    IndexFinds(s, s[0].0);
    FindSorted(s, |s| - 1);
    IndexFinds(s, s[|s| - 1].0);
    forall x | x in Index(s)
      ensures Compare(s[0].0, x) <= 0 && Compare(s[|s| - 1].0, x) >= 0
    {
      IndexFinds(s, x);
      FindInKeys(s, x);
      var i :| 0 <= i < |s| && s[i].0 == x;
      CompareFlip(x, x);
      CompareFlip(s[|s| - 1].0, x);
      assert i > 0 ==> Lt(s[0].0, s[i].0);
      assert i < |s| - 1 ==> Lt(s[i].0, s[|s| - 1].0);
    }
  }

  class Tree {
    var root: Node?
    var count: int
    ghost var view: View

    ghost predicate Valid()
      reads this, Nodes(view.shape), view.ix.Values
    {
      Linked(root, view.shape, view.model, view.ix) && Indexed(view.ix, view.contents) && count == |All(view.model)|
    }

    ghost function Contents(): Contents
      reads this
    {
      view.contents
    }

    constructor ()
      ensures Valid() && view == View(E, Nil, map[], map[])
    {
      root, count, view := null, 0, View(E, Nil, map[], map[]);
    }

    /** The new root takes over. */
    method Commit(r: Node?, n: int, ghost v: View)
      requires Linked(r, v.shape, v.model, v.ix) && Indexed(v.ix, v.contents) && n == |All(v.model)|
      modifies this
      ensures Valid() && view == v
    {
      root, count, view := r, n, v;
    }

    /** Appends `rr` to the RRset of its name and type. At a stored name no node changes. */
    method Insert(rr: RR)
      requires Valid()
      modifies this, Nodes(view.shape), view.ix.Values
      ensures Valid() && Contents() == AddTo(old(Contents()), rr)
      ensures forall x :: x in Nodes(view.shape) ==> x in old(Nodes(view.shape)) || fresh(x)
      ensures forall x :: x in view.ix.Values ==> x in old(view.ix.Values) || fresh(x)
      ensures rr.owner in old(Contents()) ==> view == old(view).(contents := Contents())
    {
      var r, d;
      ghost var h', t', ix';
      r, d, h', t', ix' := InsertRoot(root, rr, view.shape, view.model, view.ix, view.contents);
      Commit(r, count + d, View(h', t', ix', AddTo(view.contents, rr)));
    }

    /** Finds the element of a name and leaves its name cached. */
    method Search(q: Name) returns (e: Elem?, found: bool)
      requires Valid()
      modifies view.ix.Values`name
      ensures Valid() && found == (q in Contents())
      ensures e == if q in view.ix then view.ix[q] else null
      ensures found ==> e.name == Some(e.owner)
    {
      SearchFinds(view.model, q);
      IndexFinds(All(view.model), q);
      IndexedGood(view.ix, view.contents);
      var n;
      assert allocated(Nodes(view.shape));
      n, found := ZT.Search(root, q, view.shape, view.model, view.ix.Values);
      e := if n == null then null else n.elem;
      StillValid();
    }

    /** Caching names leaves the tree as it was. */
    twostate lemma StillValid()
      requires old(Valid()) && unchanged(this) && Linked(root, view.shape, view.model, view.ix)
      requires Good(view.ix.Values) && forall e :: e in view.ix.Values ==> e.m == old(e.m)
      ensures Valid()
    {
      forall k | k in view.ix
        ensures view.ix[k].owner == k && view.ix[k].Valid() && view.ix[k].m == view.contents[k] != map[]
      {
        assert view.ix[k] in view.ix.Values;
      }
    }

    /** `Name` of a stored element. */
    method NameOf(e: Elem) returns (n: Name)
      requires Valid() && e in view.ix.Values
      modifies view.ix.Values`name
      ensures Valid() && n == e.owner
    {
      IndexedGood(view.ix, view.contents);
      assert allocated(Nodes(view.shape));
      n := e.Name();
      StillValid();
    }

    /** Removes the RRset of the name and type of `rr`, and the node when nothing is left. */
    method Delete(rr: RR)
      requires Valid()
      modifies this, Nodes(view.shape), view.ix.Values
      ensures Valid() && Contents() == RemoveType(old(Contents()), rr.owner, rr.Type())
      ensures Nodes(view.shape) <= old(Nodes(view.shape)) && view.ix.Values <= old(view.ix.Values)
    {
      if root == null {
        return;
      }
      var el, _ := Search(rr.owner);
      if el == null {
        return;
      }
      ghost var c := Contents();
      assert allocated(Nodes(view.shape));
      DeleteRecords(el, rr, view.ix, c);
      if el.Empty() {
        DeleteNode(rr.owner);
      } else {
        Commit(root, count, view.(contents := c[rr.owner := el.m]));
      }
    }

    /** `deleteNode` */
    method DeleteNode(k: Name)
      requires Linked(root, view.shape, view.model, view.ix) && count == |All(view.model)|
      requires Good(view.ix.Values) && view.contents.Keys == view.ix.Keys
      requires Indexed(view.ix - {k}, view.contents - {k})
      modifies this, Nodes(view.shape), view.ix.Values`name
      ensures Valid() && Contents() == old(Contents()) - {k}
      ensures Nodes(view.shape) <= old(Nodes(view.shape)) && view.ix == old(view.ix) - {k}
    {
      if root == null {
        return;
      }
      var r, d;
      ghost var h', t';
      r, d, h', t' := DeleteRoot(root, k, view.shape, view.model, view.ix);
      Commit(r, count + d, View(h', t', view.ix - {k}, view.contents - {k}));
    }

    /** Removes the first name, `k`. */
    method DeleteMin() returns (ghost k: Name)
      requires Valid()
      modifies this, Nodes(view.shape)
      ensures Valid()
      ensures if old(Contents()) == map[] then Contents() == map[]
              else IsFirst(old(Contents()), k) && Contents() == old(Contents()) - {k}
      ensures Nodes(view.shape) <= old(Nodes(view.shape)) && view.ix.Values <= old(view.ix.Values)
    {
      k := [];
      if root == null {
        return;
      }
      var r, d;
      ghost var h', t', ix := E, Nil, view.ix;
      r, d, h', t', k := DeleteMinRoot(root, view.shape, view.model, ix);
      IndexedMinus(ix, view.contents, k);
      Commit(r, count + d, View(h', t', ix - {k}, view.contents - {k}));
    }

    /** Removes the last name, `k`. */
    method DeleteMax() returns (ghost k: Name)
      requires Valid()
      modifies this, Nodes(view.shape)
      ensures Valid()
      ensures if old(Contents()) == map[] then Contents() == map[]
              else IsLast(old(Contents()), k) && Contents() == old(Contents()) - {k}
      ensures Nodes(view.shape) <= old(Nodes(view.shape)) && view.ix.Values <= old(view.ix.Values)
    {
      k := [];
      if root == null {
        return;
      }
      var r, d;
      ghost var h', t', ix := E, Nil, view.ix;
      r, d, h', t', k := DeleteMaxRoot(root, view.shape, view.model, ix);
      IndexedMinus(ix, view.contents, k);
      Commit(r, count + d, View(h', t', ix - {k}, view.contents - {k}));
    }

    /** The element of the greatest name at or before `q`. */
    method Prev(q: Name) returns (e: Elem?, found: bool)
      requires Valid()
      modifies view.ix.Values`name
      ensures Valid() && found == (e != null)
      ensures e == null ==> forall x :: x in Contents() ==> Compare(q, x) < 0
      ensures e != null ==> e.owner in Contents() && e == view.ix[e.owner] && Compare(q, e.owner) >= 0
      ensures e != null ==> forall x :: x in Contents() && Compare(q, x) >= 0 ==> Compare(e.owner, x) >= 0
    {
      IndexedGood(view.ix, view.contents);
      assert allocated(Nodes(view.shape));
      var n := ZT.Floor(root, q, view.shape, view.model, view.ix.Values);
      e := if n == null then null else n.elem;
      found := e != null;
      StillValid();
      FloorByIndex(view.model, q);
    }

    /** The element of the smallest name at or after `q`. */
    method Next(q: Name) returns (e: Elem?, found: bool)
      requires Valid()
      modifies view.ix.Values`name
      ensures Valid() && found == (e != null)
      ensures e == null ==> forall x :: x in Contents() ==> Compare(q, x) > 0
      ensures e != null ==> e.owner in Contents() && e == view.ix[e.owner] && Compare(q, e.owner) <= 0
      ensures e != null ==> forall x :: x in Contents() && Compare(q, x) <= 0 ==> Compare(e.owner, x) <= 0
    {
      IndexedGood(view.ix, view.contents);
      assert allocated(Nodes(view.shape));
      var n := ZT.Ceil(root, q, view.shape, view.model, view.ix.Values);
      e := if n == null then null else n.elem;
      found := e != null;
      StillValid();
      CeilByIndex(view.model, q);
    }
  }
}
