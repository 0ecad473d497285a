/** The tree of `plugin/file/tree` in its own form: linked nodes and elements updated in
    place. Every method is tied to the function of `Llrb` it computes.  */
module ZoneTree {
  import opened Names
  import opened Records
  import opened Llrb

  /** `tree.Elem`. The owner name is not stored: it is read from a record on first use and cached. */
  class Elem {
    ghost const owner: Name
    var m: RRsets
    var name: Option<Name>  // the owner, once it is cached

    /** Without a cached name the element needs a record to read it from. */
    ghost predicate Valid()
      reads this
    {
      && Proper(m, owner)
      && (name.Some? ==> name.value == owner)
      && (m == map[] ==> name.Some?)
    }

    constructor (rr: RR)
      ensures Valid() && owner == rr.owner && m == AddRR(map[], rr)
    {
      owner := rr.owner;
      m := map[rr.Type() := [rr]];
      name := None;
      assert [] + [rr] == [rr];
      new;
      assert rr.Type() in m;
    }

    method Name() returns (n: Name)
      requires Valid()
      modifies this`name
      ensures Valid() && n == owner && name == Some(owner)
    {
      if name.None? {
        var t :| t in m;
        name := Some(m[t][0].owner);
      }
      n := name.value;
    }

    method Insert(rr: RR)
      requires Valid() && rr.owner == owner
      modifies this`m
      ensures Valid() && m == AddRR(old(m), rr)
    {
      var t := rr.Type();
      if t !in m {
        assert [] + [rr] == [rr];
        m := m[t := [rr]];
      } else {
        m := m[t := m[t] + [rr]];
      }
    }

    /** Removes all records of the type of `rr`; only a cached name survives the last of them. */
    method Delete(rr: RR)
      requires Valid() && name == Some(owner)
      modifies this`m
      ensures Valid() && m == old(m) - {rr.Type()}
    {
      m := m - {rr.Type()};
    }

    predicate Empty()
      reads this
    {
      m == map[]
    }
  }

  ghost function Elems(t: Rbt<Elem>): set<Elem> {
    if t.Nil? then {} else Elems(t.left) + {t.val} + Elems(t.right)
  }

  ghost predicate Good(es: set<Elem>)
    reads es
  {
    forall e :: e in es ==> e.Valid()
  }

  lemma {:induction false} ElemsInAll(t: Rbt<Elem>)
    ensures Elems(t) == set i | 0 <= i < |All(t)| :: All(t)[i].1
  {
    if t.Bin? {
      var s, l, r := All(t), All(t.left), All(t.right);
      ElemsInAll(t.left);
      ElemsInAll(t.right);
      assert forall i :: 0 <= i < |l| ==> s[i] == l[i];
      assert s[|l|].1 == t.val;
      assert forall i :: 0 <= i < |r| ==> s[|l| + 1 + i] == r[i];
      forall e | e in Elems(t)
        ensures exists i :: 0 <= i < |s| && s[i].1 == e
      {
        if e in Elems(t.left) {
          var i :| 0 <= i < |l| && l[i].1 == e;
          assert s[i].1 == e;
        } else if e in Elems(t.right) {
          var i :| 0 <= i < |r| && r[i].1 == e;
          assert s[|l| + 1 + i].1 == e;
        }
      }
      forall i | 0 <= i < |s|
        ensures s[i].1 in Elems(t)
      {
        if i < |l| {
          assert l[i].1 in Elems(t.left);
        } else if i > |l| {
          assert s[i] == r[i - |l| - 1];
        }
      }
    }
  }

  /** Trees with the same elements in order have the same elements. */
  lemma SameElems(t: Rbt<Elem>, t': Rbt<Elem>)
    requires All(t) == All(t')
    ensures Elems(t) == Elems(t')
  {
    ElemsInAll(t);
    ElemsInAll(t');
  }

  lemma {:induction false} FixUpLen(t: Rbt<Elem>)
    requires t.Bin?
    ensures |All(Llrb.FixUp(t))| == |All(t.left)| + 1 + |All(t.right)|
  {
    FixUpAll(t);
  }

  /** What `delete` meets when it goes left. */
  lemma {:induction false} DeleteLeftStep(t: Rbt<Elem>, k: Name, es: set<Elem>)
    requires t.Bin? && t.left.Bin? && Ordered(t) && Balanced(t) && Compare(k, t.key) < 0 && Elems(t) <= es
    ensures var t' := Llrb.DescendLeft(t);
            && t'.left.Bin? && Balanced(t'.left) && Ordered(t'.left) && Elems(t'.left) <= es
            && |All(t'.left)| < |All(t'.left)| + 1 + |All(t'.right)| == |All(t)|
            && Llrb.Delete(t, k) == Llrb.FixUp(t'.(left := Llrb.Delete(t'.left, k)))
  {
    EnterLeft(t);
    DescendLeftAll(t);
    SameElems(t, Llrb.DescendLeft(t));
    Split(Llrb.DescendLeft(t));
  }

  /** The rest of `delete` once the right subtree may be entered. */
  ghost function HereOrRight(t: Rbt<Elem>, k: Name): Rbt<Elem>
    requires t.Bin? && Ordered(t.right)
    requires t.right.Bin? ==>
               if Compare(k, t.key) == 0 then Balanced(t.right)
               else Balanced(t.right) || (LeansRight(t.right) && Compare(k, t.right.key) >= 0)
  {
    if t.right.Nil? then
      if Compare(k, t.key) == 0 then Nil else Llrb.FixUp(t)
    else if Compare(k, t.key) == 0 then
      var s := Llrb.Min(t.right);
      Llrb.FixUp(t.(key := s.key, val := s.val, right := Llrb.DeleteMin(t.right)))
    else
      Llrb.FixUp(t.(right := Llrb.Delete(t.right, k)))
  }

  /** What `delete` meets when it does not go left. */
  lemma {:induction false} DeleteRightStep(t: Rbt<Elem>, k: Name, es: set<Elem>)
    requires t.Bin? && Ordered(t) && (Balanced(t) || LeansRight(t)) && Compare(k, t.key) >= 0 && Elems(t) <= es
    ensures var t' := Llrb.DescendRight(t);
            && t'.val in es && Elems(t'.right) <= es && Ordered(t'.right)
            && |All(t'.right)| < |All(t'.left)| + 1 + |All(t'.right)| == |All(t)|
            && (t'.right.Nil? ==> t'.left.Nil?)
            && (t'.right.Bin? ==>
                  if Compare(k, t'.key) == 0 then Balanced(t'.right)
                  else Balanced(t'.right) || (LeansRight(t'.right) && Compare(k, t'.right.key) >= 0))
            && Llrb.Delete(t, k) == HereOrRight(t', k)
  {
    EnterRight(t);
    DescendRightAll(t);
    LeftKeyBelow(t, k);
    SameElems(t, Llrb.DescendRight(t));
    Split(Llrb.DescendRight(t));
  }

  /** Which nodes hang where. */
  datatype Shape = E | N(l: Shape, x: Node, r: Shape)

  ghost function Nodes(h: Shape): set<Node> {
    match h
    case E => {}
    case N(l, x, r) => Nodes(l) + {x} + Nodes(r)
  }

  /** No node hangs in two places. */
  ghost predicate Distinct(h: Shape) {
    match h
    case E => true
    case N(l, x, r) => x !in Nodes(l) && x !in Nodes(r) && Nodes(l) !! Nodes(r) && Distinct(l) && Distinct(r)
  }

  /** The nodes reachable from `n` have shape `h` and represent the value `t`. */
  ghost predicate Rep(n: Node?, h: Shape, t: Rbt<Elem>)
    reads Nodes(h)
    ensures Rep(n, h, t) ==> (h.E? <==> n == null) && (h.E? <==> t.Nil?)
    ensures Rep(n, h, t) && n != null ==> n in Nodes(h) && n.color == t.color
  {
    match h
    case E => n == null && t.Nil?
    case N(l, x, r) =>
      && n == x && t.Bin? && t.color == x.color && t.key == x.elem.owner && t.val == x.elem
      && Rep(x.left, l, t.left) && Rep(x.right, r, t.right)
  }

  /** `color`: a missing node is black. */
  predicate RedNode(n: Node?)
    reads n
  {
    n != null && n.color == Red
  }

  /** `tree.Node`. */
  class Node {
    var elem: Elem
    var left: Node?
    var right: Node?
    var color: Color

    constructor (e: Elem)
      ensures elem == e && left == null && right == null && color == Red
    {
      elem, left, right, color := e, null, null, Red;
    }

    method RotateLeft(ghost h: Shape, ghost t: Rbt<Elem>) returns (root: Node, ghost h': Shape)
      requires Distinct(h) && Rep(this, h, t) && t.right.Bin?
      modifies Nodes(h)
      ensures Distinct(h') && Nodes(h') == Nodes(h) && Rep(root, h', Llrb.RotateLeft(t))
    {
      root := right;
      right := root.left;
      root.left := this;
      root.color := color;
      color := Red;
      h' := N(N(h.l, this, h.r.l), root, h.r.r);
    }

    method RotateRight(ghost h: Shape, ghost t: Rbt<Elem>) returns (root: Node, ghost h': Shape)
      requires Distinct(h) && Rep(this, h, t) && t.left.Bin?
      modifies Nodes(h)
      ensures Distinct(h') && Nodes(h') == Nodes(h) && Rep(root, h', Llrb.RotateRight(t))
    {
      root := left;
      left := root.right;
      root.right := this;
      root.color := color;
      color := Red;
      h' := N(h.l.l, root, N(h.l.r, this, h.r));
    }

    method FlipColors(ghost h: Shape, ghost t: Rbt<Elem>)
      requires Distinct(h) && Rep(this, h, t) && t.left.Bin? && t.right.Bin?
      modifies Nodes(h)
      ensures Rep(this, h, Llrb.FlipColors(t))
    {
      color := Flip(color);
      left.color := Flip(left.color);
      right.color := Flip(right.color);
    }

    method SplitReds(ghost h: Shape, ghost t: Rbt<Elem>) returns (root: Node, ghost h': Shape)
      requires Distinct(h) && Rep(this, h, t)
      modifies Nodes(h)
      ensures Distinct(h') && Nodes(h') == Nodes(h) && Rep(root, h', Llrb.SplitReds(t))
      ensures Balanced(t) ==> h' == h
    {
      root, h' := this, h;
      ghost var t' := t;
      assert Balanced(t) ==> Balanced(t.left);
      if RedNode(root.left) && RedNode(root.left.left) {
        root, h' := root.RotateRight(h', t');
        t' := Llrb.RotateRight(t');
      }
      if RedNode(root.left) && RedNode(root.right) {
        root.FlipColors(h', t');
      }
    }

    method FixUp(ghost h: Shape, ghost t: Rbt<Elem>) returns (root: Node, ghost h': Shape)
      requires Distinct(h) && Rep(this, h, t)
      modifies Nodes(h)
      ensures Distinct(h') && Nodes(h') == Nodes(h) && Rep(root, h', Llrb.FixUp(t))
    {
      root, h' := this, h;
      if RedNode(root.right) {
        root, h' := root.RotateLeft(h', t);
      }
      root, h' := root.SplitReds(h', Llrb.LeanLeft(t));
    }

    method MoveRedLeft(ghost h: Shape, ghost t: Rbt<Elem>) returns (root: Node, ghost h': Shape)
      requires Distinct(h) && Rep(this, h, t) && t.left.Bin? && t.right.Bin?
      modifies Nodes(h)
      ensures Distinct(h') && Nodes(h') == Nodes(h) && Rep(root, h', Llrb.MoveRedLeft(t))
    {
      root, h' := this, h;
      ghost var t' := Llrb.FlipColors(t);
      root.FlipColors(h', t);
      if RedNode(root.right.left) {
        var r;
        ghost var hr;
        assert allocated(Nodes(h'.l));
        r, hr := root.right.RotateRight(h'.r, t'.right);
        root.right := r;
        h', t' := N(h'.l, root, hr), t'.(right := Llrb.RotateRight(t'.right));
        root, h' := root.RotateLeft(h', t');
        root.FlipColors(h', Llrb.RotateLeft(t'));
      }
    }

    method MoveRedRight(ghost h: Shape, ghost t: Rbt<Elem>) returns (root: Node, ghost h': Shape)
      requires Distinct(h) && Rep(this, h, t) && t.left.Bin? && t.right.Bin?
      modifies Nodes(h)
      ensures Distinct(h') && Nodes(h') == Nodes(h) && Rep(root, h', Llrb.MoveRedRight(t))
    {
      root, h' := this, h;
      ghost var t' := Llrb.FlipColors(t);
      root.FlipColors(h', t);
      if RedNode(root.left.left) {
        root, h' := root.RotateRight(h', t');
        root.FlipColors(h', Llrb.RotateRight(t'));
      }
    }

    /** The step before the left subtree is entered. */
    method DescendLeft(ghost h: Shape, ghost t: Rbt<Elem>) returns (root: Node, ghost h': Shape)
      requires Distinct(h) && Rep(this, h, t) && Balanced(t) && t.left.Bin?
      modifies Nodes(h)
      ensures Distinct(h') && Nodes(h') == Nodes(h) && Rep(root, h', Llrb.DescendLeft(t))
    {
      root, h' := this, h;
      assert Rep(left, h.l, t.left);
      assert Balanced(t.left) && Balanced(t.right);
      if !RedNode(left) && !RedNode(left.left) {
        root, h' := MoveRedLeft(h, t);
      }
    }

    /** The node itself and its right subtree still stand for `t`. */
    ghost predicate RightIntact(h: Shape, t: Rbt<Elem>)
      reads this, Nodes(h)
    {
      && h.N? && h.x == this && t.Bin? && t.color == color && t.val == elem && t.key == elem.owner
      && Rep(right, h.r, t.right)
    }

    ghost predicate LeftIntact(h: Shape, t: Rbt<Elem>)
      reads this, Nodes(h)
    {
      && h.N? && h.x == this && t.Bin? && t.color == color && t.val == elem && t.key == elem.owner
      && Rep(left, h.l, t.left)
    }

    /** `n.Left = l`, then `fixUp`. */
    method FixLeft(l: Node?, ghost h: Shape, ghost t: Rbt<Elem>, ghost hl: Shape, ghost tl: Rbt<Elem>)
      returns (root: Node, ghost h': Shape)
      requires Distinct(h) && RightIntact(h, t)
      requires Distinct(hl) && Nodes(hl) <= Nodes(h.l) && Rep(l, hl, tl)
      modifies Nodes(h)
      ensures Distinct(h') && Nodes(h') <= Nodes(h) && Rep(root, h', Llrb.FixUp(t.(left := tl)))
    {
      left := l;
      root, h' := FixUp(N(hl, this, h.r), t.(left := tl));
    }

    /** `n.Right = r`, then `fixUp`. */
    method FixRight(r: Node?, ghost h: Shape, ghost t: Rbt<Elem>, ghost hr: Shape, ghost tr: Rbt<Elem>)
      returns (root: Node, ghost h': Shape)
      requires Distinct(h) && LeftIntact(h, t)
      requires Distinct(hr) && Nodes(hr) <= Nodes(h.r) && Rep(r, hr, tr)
      modifies Nodes(h)
      ensures Distinct(h') && Nodes(h') <= Nodes(h) && Rep(root, h', Llrb.FixUp(t.(right := tr)))
    {
      right := r;
      root, h' := FixUp(N(h.l, this, hr), t.(right := tr));
    }

    method DeleteMin(ghost h: Shape, ghost t: Rbt<Elem>) returns (root: Node?, d: int, ghost h': Shape)
      requires Distinct(h) && Rep(this, h, t) && Balanced(t)
      modifies Nodes(h)
      ensures Distinct(h') && Nodes(h') <= Nodes(h) && Rep(root, h', Llrb.DeleteMin(t))
      ensures d == -1
      decreases |All(t)|
    {
      if left == null {
        return null, -1, E;
      }
      EnterLeft(t);
      DescendLeftAll(t);
      ghost var t' := Llrb.DescendLeft(t);
      var n, l;
      ghost var hl;
      n, h' := DescendLeft(h, t);
      assert allocated(Nodes(h'.r));
      l, d, hl := n.left.DeleteMin(h'.l, t'.left);
      root, h' := n.FixLeft(l, h', t', hl, Llrb.DeleteMin(t'.left));
    }

    /** The steps before the right subtree is entered. */
    method DescendRight(ghost h: Shape, ghost t: Rbt<Elem>) returns (root: Node, ghost h': Shape)
      requires Distinct(h) && Rep(this, h, t) && (Balanced(t) || LeansRight(t))
      modifies Nodes(h)
      ensures Distinct(h') && Nodes(h') == Nodes(h) && Rep(root, h', Llrb.DescendRight(t))
    {
      root, h' := this, h;
      ghost var t' := t;
      if RedNode(left) {
        RotatedRight(t);
        root, h' := RotateRight(h, t);
        t' := Llrb.RotateRight(t);
      }
      assert Rep(root.right, h'.r, t'.right);
      if root.right != null {
        if !RedNode(root.right) && !RedNode(root.right.left) {
          root, h' := root.MoveRedRight(h', t');
        }
      }
    }

    method DeleteMax(ghost h: Shape, ghost t: Rbt<Elem>) returns (root: Node?, d: int, ghost h': Shape)
      requires Distinct(h) && Rep(this, h, t) && (Balanced(t) || LeansRight(t))
      modifies Nodes(h)
      ensures Distinct(h') && Nodes(h') <= Nodes(h) && Rep(root, h', Llrb.DeleteMax(t))
      ensures d == -1
      decreases |All(t)|
    {
      EnterRight(t);
      DescendRightAll(t);
      ghost var t' := Llrb.DescendRight(t);
      var m, r;
      ghost var hr;
      m, h' := DescendRight(h, t);
      if m.right == null {
        return null, -1, E;
      }
      assert allocated(Nodes(h'.l));
      r, d, hr := m.right.DeleteMax(h'.r, t'.right);
      root, h' := m.FixRight(r, h', t', hr, Llrb.DeleteMax(t'.right));
    }

    /** `min` */
    method Min(ghost h: Shape, ghost t: Rbt<Elem>) returns (e: Elem)
      requires Rep(this, h, t)
      ensures e == Llrb.Min(t).val && e.owner == Llrb.Min(t).key
    {
      var n := this;
      ghost var h', t' := h, t;
      while n.left != null
        invariant Rep(n, h', t') && t'.Bin? && Llrb.Min(t') == Llrb.Min(t)
        decreases t'
      {
        n := n.left;
        h', t' := h'.l, t'.left;
      }
      e := n.elem;
    }

    /** `Less(n.Elem, k)`: reading the name of an element caches it. */
    method CompareTo(k: Name, ghost es: set<Elem>) returns (c: int)
      requires elem in es && Good(es)
      modifies es`name
      ensures c == Compare(k, elem.owner) && elem.name == Some(elem.owner) && Good(es)
    {
      var n := elem.Name();
      c := Compare(k, n);
    }

    method Delete(k: Name, ghost h: Shape, ghost t: Rbt<Elem>, ghost es: set<Elem>)
      returns (root: Node?, d: int, ghost h': Shape)
      requires Distinct(h) && Rep(this, h, t) && Ordered(t)
      requires Elems(t) <= es && Good(es)
      requires Balanced(t) || (LeansRight(t) && Compare(k, t.key) >= 0)
      modifies Nodes(h), es`name
      ensures Distinct(h') && Nodes(h') <= Nodes(h) && Rep(root, h', Llrb.Delete(t, k))
      ensures d == |All(Llrb.Delete(t, k))| - |All(t)| && Good(es)
      decreases |All(t)|, 1
    {
      assert allocated(Nodes(h));
      var c := CompareTo(k, es);
      if c < 0 {
        if left == null {
          FixUpLen(t);
          root, h' := FixUp(h, t);
          d := 0;
        } else {
          root, d, h' := DeleteLeft(k, h, t, es);
        }
      } else {
        root, d, h' := DeleteRight(k, h, t, es);
      }
    }

    /** `delete` when the key is smaller and there is a left subtree. */
    method DeleteLeft(k: Name, ghost h: Shape, ghost t: Rbt<Elem>, ghost es: set<Elem>)
      returns (root: Node?, d: int, ghost h': Shape)
      requires Distinct(h) && Rep(this, h, t) && Ordered(t)
      requires Elems(t) <= es && Good(es)
      requires Balanced(t) && Compare(k, t.key) < 0 && t.left.Bin?
      modifies Nodes(h), es`name
      ensures Distinct(h') && Nodes(h') <= Nodes(h) && Rep(root, h', Llrb.Delete(t, k))
      ensures d == |All(Llrb.Delete(t, k))| - |All(t)| && Good(es)
      decreases |All(t)|, 0
    {
      DeleteLeftStep(t, k, es);
      var n;
      n, h' := DescendLeft(h, t);
      root, d, h' := n.DeleteInLeft(k, h', Llrb.DescendLeft(t), es);
    }

    method DeleteInLeft(k: Name, ghost h: Shape, ghost t: Rbt<Elem>, ghost es: set<Elem>)
      returns (root: Node?, d: int, ghost h': Shape)
      requires Distinct(h) && Rep(this, h, t) && t.left.Bin? && Ordered(t.left) && Balanced(t.left)
      requires Elems(t.left) <= es && Good(es)
      modifies Nodes(h), es`name
      ensures Distinct(h') && Nodes(h') <= Nodes(h) && Good(es)
      ensures Rep(root, h', Llrb.FixUp(t.(left := Llrb.Delete(t.left, k))))
      ensures d == |All(Llrb.FixUp(t.(left := Llrb.Delete(t.left, k))))| - (|All(t.left)| + 1 + |All(t.right)|)
      decreases |All(t.left)|, 2
    {
      var l;
      ghost var hl;
      assert allocated(Nodes(h.r));
      l, d, hl := left.Delete(k, h.l, t.left, es);
      root, h' := FixLeft(l, h, t, hl, Llrb.Delete(t.left, k));
      FixUpLen(t.(left := Llrb.Delete(t.left, k)));
    }

    /** `delete` when the key is not smaller. */
    method DeleteRight(k: Name, ghost h: Shape, ghost t: Rbt<Elem>, ghost es: set<Elem>)
      returns (root: Node?, d: int, ghost h': Shape)
      requires Distinct(h) && Rep(this, h, t) && Ordered(t)
      requires Elems(t) <= es && Good(es)
      requires (Balanced(t) || LeansRight(t)) && Compare(k, t.key) >= 0
      modifies Nodes(h), es`name
      ensures Distinct(h') && Nodes(h') <= Nodes(h) && Rep(root, h', Llrb.Delete(t, k))
      ensures d == |All(Llrb.Delete(t, k))| - |All(t)| && Good(es)
      decreases |All(t)|, 0
    {
      DeleteRightStep(t, k, es);
      var m;
      m, h' := DescendRight(h, t);
      root, d, h' := m.DeleteHereOrRight(k, h', Llrb.DescendRight(t), es);
    }

    method DeleteHereOrRight(k: Name, ghost h: Shape, ghost t: Rbt<Elem>, ghost es: set<Elem>)
      returns (root: Node?, d: int, ghost h': Shape)
      requires Distinct(h) && Rep(this, h, t) && t.val in es && Good(es)
      requires Ordered(t.right) && Elems(t.right) <= es && (t.right.Nil? ==> t.left.Nil?)
      requires t.right.Bin? ==>
                 if Compare(k, t.key) == 0 then Balanced(t.right)
                 else Balanced(t.right) || (LeansRight(t.right) && Compare(k, t.right.key) >= 0)
      modifies Nodes(h), es`name
      ensures Distinct(h') && Nodes(h') <= Nodes(h) && Good(es)
      ensures Rep(root, h', HereOrRight(t, k))
      ensures d == |All(HereOrRight(t, k))| - (|All(t.left)| + 1 + |All(t.right)|)
      decreases |All(t.right)|, 3
    {
      assert allocated(Nodes(h));
      var c := CompareTo(k, es);
      if right == null {
        if c == 0 {
          return null, -1, E;
        }
        root, h' := FixUp(h, t);
        d := 0;
        FixUpLen(t);
      } else if c == 0 {
        root, d, h' := DeleteHere(h, t);
      } else {
        root, d, h' := DeleteInRight(k, h, t, es);
      }
    }

    method DeleteInRight(k: Name, ghost h: Shape, ghost t: Rbt<Elem>, ghost es: set<Elem>)
      returns (root: Node?, d: int, ghost h': Shape)
      requires Distinct(h) && Rep(this, h, t) && t.right.Bin? && Ordered(t.right)
      requires Elems(t.right) <= es && Good(es)
      requires Balanced(t.right) || (LeansRight(t.right) && Compare(k, t.right.key) >= 0)
      modifies Nodes(h), es`name
      ensures Distinct(h') && Nodes(h') <= Nodes(h) && Good(es)
      ensures Rep(root, h', Llrb.FixUp(t.(right := Llrb.Delete(t.right, k))))
      ensures d == |All(Llrb.FixUp(t.(right := Llrb.Delete(t.right, k))))| - (|All(t.left)| + 1 + |All(t.right)|)
      decreases |All(t.right)|, 2
    {
      var r;
      ghost var hr;
      assert allocated(Nodes(h.l));
      r, d, hr := right.Delete(k, h.r, t.right, es);
      root, h' := FixRight(r, h, t, hr, Llrb.Delete(t.right, k));
      FixUpLen(t.(right := Llrb.Delete(t.right, k)));
    }

    /** `delete` at the node with the key: the least element on its right moves up. */
    method DeleteHere(ghost h: Shape, ghost t: Rbt<Elem>) returns (root: Node?, d: int, ghost h': Shape)
      requires Distinct(h) && Rep(this, h, t) && t.right.Bin? && Balanced(t.right)
      modifies Nodes(h)
      ensures Distinct(h') && Nodes(h') <= Nodes(h) && d == -1
      ensures var s := Llrb.Min(t.right);
              var t' := Llrb.FixUp(t.(key := s.key, val := s.val, right := Llrb.DeleteMin(t.right)));
              Rep(root, h', t') && |All(t')| == |All(t.left)| + |All(t.right)|
    {
      var r;
      ghost var s, hr := Llrb.Min(t.right), E;
      assert allocated(Nodes(h.l)) && allocated(Nodes(h.r));
      elem := right.Min(h.r, t.right);
      r, d, hr := right.DeleteMin(h.r, t.right);
      root, h' := FixRight(r, h, t.(key := s.key, val := s.val), hr, Llrb.DeleteMin(t.right));
      DeleteMinAll(t.right);
      FixUpLen(t.(key := s.key, val := s.val, right := Llrb.DeleteMin(t.right)));
    }

    /** The end of `insert`. */
    method Absorb(ghost h: Shape, ghost t: Rbt<Elem>) returns (root: Node, ghost h': Shape)
      requires Distinct(h) && Rep(this, h, t)
      modifies Nodes(h)
      ensures Distinct(h') && Nodes(h') == Nodes(h) && Rep(root, h', Llrb.Absorb(t))
      ensures Balanced(t) ==> h' == h
    {
      root, h' := this, h;
      ghost var t' := t;
      if RedNode(root.right) && !RedNode(root.left) {
        root, h' := root.RotateLeft(h', t');
        t' := Llrb.RotateLeft(t);
      }
      root, h' := root.SplitReds(h', t');
    }

    /** `n.Left = l` at the end of `insert`. No element of `es` is touched, nor is `e`. */
    method AttachLeft(l: Node, k: Name, ghost h: Shape, ghost t: Rbt<Elem>, ghost hl: Shape, ghost e: Elem, ghost es: set<Elem>)
      returns (root: Node, ghost h': Shape)
      requires Distinct(h) && RightIntact(h, t) && Compare(k, t.key) < 0
      requires Distinct(hl) && Rep(l, hl, Llrb.Insert(t.left, k, e))
      requires this !in Nodes(hl) && Nodes(hl) !! Nodes(h.r)
      requires Llrb.Search(t, k).Some? && Balanced(t) ==> hl == h.l
      modifies this, Nodes(hl), Nodes(h.r)
      ensures Distinct(h') && Rep(root, h', Llrb.Insert(t, k, e))
      ensures Nodes(h') == Nodes(hl) + {this} + Nodes(h.r)
      ensures Llrb.Search(t, k).Some? && Balanced(t) ==> h' == h
      ensures unchanged(es) && unchanged(e)
    {
      left := l;
      root, h' := Absorb(N(hl, this, h.r), t.(left := Llrb.Insert(t.left, k, e)));
      if Llrb.Search(t, k).Some? && Balanced(t) {
        InsertExisting(t.left, k, e);
      }
    }

    /** `n.Right = r` at the end of `insert`. */
    method AttachRight(r: Node, k: Name, ghost h: Shape, ghost t: Rbt<Elem>, ghost hr: Shape, ghost e: Elem, ghost es: set<Elem>)
      returns (root: Node, ghost h': Shape)
      requires Distinct(h) && LeftIntact(h, t) && Compare(k, t.key) > 0
      requires Distinct(hr) && Rep(r, hr, Llrb.Insert(t.right, k, e))
      requires this !in Nodes(hr) && Nodes(hr) !! Nodes(h.l)
      requires Llrb.Search(t, k).Some? && Balanced(t) ==> hr == h.r
      modifies this, Nodes(hr), Nodes(h.l)
      ensures Distinct(h') && Rep(root, h', Llrb.Insert(t, k, e))
      ensures Nodes(h') == Nodes(h.l) + {this} + Nodes(hr)
      ensures Llrb.Search(t, k).Some? && Balanced(t) ==> h' == h
      ensures unchanged(es) && unchanged(e)
    {
      right := r;
      root, h' := Absorb(N(h.l, this, hr), t.(right := Llrb.Insert(t.right, k, e)));
      if Llrb.Search(t, k).Some? && Balanced(t) {
        InsertExisting(t.right, k, e);
      }
    }
  }

  /** `rr` was stored in `e`, which was found in `t` or is new; no other element of `es` has other records than before. */
  twostate predicate Stored(t: Rbt<Elem>, rr: RR, es: set<Elem>, d: int, new e: Elem)
    reads es, e
  {
    && Good(es) && e.Valid() && e.owner == rr.owner
    && (match Llrb.Search(t, rr.owner)
        case Some(x) => d == 0 && e == x && e in es && e.m == AddRR(old(e.m), rr)
        case None => d == 1 && e !in es && fresh(e) && e.m == AddRR(map[], rr))
    && forall x :: x in es && x != e ==> x.m == old(x.m)
  }

  method NewLeaf(rr: RR) returns (root: Node, ghost e: Elem)
    ensures fresh(root) && fresh(e) && e.Valid() && e.owner == rr.owner && e.m == AddRR(map[], rr)
    ensures Rep(root, N(E, root, E), Bin(Red, Nil, rr.owner, e, Nil)) && Nodes(N(E, root, E)) == {root}
  {
    var x := new Elem(rr);
    root := new Node(x);
    e := x;
  }

  /** `insert`. `e` is the element that holds the record afterwards. */
  method Insert(n: Node?, rr: RR, ghost h: Shape, ghost t: Rbt<Elem>, ghost es: set<Elem>)
    returns (root: Node, d: int, ghost h': Shape, ghost e: Elem)
    requires Distinct(h) && Rep(n, h, t) && Elems(t) <= es && Good(es)
    modifies Nodes(h), es
    ensures Distinct(h') && Rep(root, h', Llrb.Insert(t, rr.owner, e))
    ensures forall x :: x in Nodes(h') ==> x in Nodes(h) || fresh(x)
    ensures Stored(t, rr, es, d, e)
    ensures Llrb.Search(t, rr.owner).Some? && Balanced(t) ==> h' == h
    decreases t, 1
  {
    if n == null {
      root, e := NewLeaf(rr);
      return root, 1, N(E, root, E), e;
    }
    assert allocated(Nodes(h));
    var c := n.CompareTo(rr.owner, es);
    if c == 0 {
      root, d, h', e := InsertHere(n, rr, h, t, es);
    } else if c < 0 {
      root, d, h', e := InsertLeft(n, rr, h, t, es);
    } else {
      root, d, h', e := InsertRight(n, rr, h, t, es);
    }
  }

  method InsertHere(n: Node, rr: RR, ghost h: Shape, ghost t: Rbt<Elem>, ghost es: set<Elem>)
    returns (root: Node, d: int, ghost h': Shape, ghost e: Elem)
    requires Distinct(h) && Rep(n, h, t) && Elems(t) <= es && Good(es)
    requires Compare(rr.owner, t.key) == 0
    modifies Nodes(h), es
    ensures Distinct(h') && Rep(root, h', Llrb.Insert(t, rr.owner, e))
    ensures forall x :: x in Nodes(h') ==> x in Nodes(h) || fresh(x)
    ensures Stored(t, rr, es, d, e)
    ensures Llrb.Search(t, rr.owner).Some? && Balanced(t) ==> h' == h
  {
    CompareFlip(rr.owner, t.key);
    assert allocated(Nodes(h));
    e, d := n.elem, 0;
    n.elem.Insert(rr);
    root, h' := n.Absorb(h, t);
  }

  method InsertLeft(n: Node, rr: RR, ghost h: Shape, ghost t: Rbt<Elem>, ghost es: set<Elem>)
    returns (root: Node, d: int, ghost h': Shape, ghost e: Elem)
    requires Distinct(h) && Rep(n, h, t) && Elems(t) <= es && Good(es)
    requires Compare(rr.owner, t.key) < 0
    modifies Nodes(h), es
    ensures Distinct(h') && Rep(root, h', Llrb.Insert(t, rr.owner, e))
    ensures forall x :: x in Nodes(h') ==> x in Nodes(h) || fresh(x)
    ensures Stored(t, rr, es, d, e)
    ensures Llrb.Search(t, rr.owner).Some? && Balanced(t) ==> h' == h
    decreases t, 0
  {
    var l;
    ghost var hl;
    assert allocated(Nodes(h.r));
    l, d, hl, e := Insert(n.left, rr, h.l, t.left, es);
    root, h' := n.AttachLeft(l, rr.owner, h, t, hl, e, es);
  }

  method InsertRight(n: Node, rr: RR, ghost h: Shape, ghost t: Rbt<Elem>, ghost es: set<Elem>)
    returns (root: Node, d: int, ghost h': Shape, ghost e: Elem)
    requires Distinct(h) && Rep(n, h, t) && Elems(t) <= es && Good(es)
    requires Compare(rr.owner, t.key) > 0
    modifies Nodes(h), es
    ensures Distinct(h') && Rep(root, h', Llrb.Insert(t, rr.owner, e))
    ensures forall x :: x in Nodes(h') ==> x in Nodes(h) || fresh(x)
    ensures Stored(t, rr, es, d, e)
    ensures Llrb.Search(t, rr.owner).Some? && Balanced(t) ==> h' == h
    decreases t, 0
  {
    var r;
    ghost var hr;
    assert allocated(Nodes(h.l));
    r, d, hr, e := Insert(n.right, rr, h.r, t.right, es);
    root, h' := n.AttachRight(r, rr.owner, h, t, hr, e, es);
  }

  /** `search` */
  method Search(n0: Node?, q: Name, ghost h: Shape, ghost t: Rbt<Elem>, ghost es: set<Elem>)
    returns (n: Node?, found: bool)
    requires Rep(n0, h, t) && Elems(t) <= es && Good(es)
    modifies es`name
    ensures Good(es) && found == (n != null)
    ensures Llrb.Search(t, q) == if n == null then None else Some(n.elem)
    ensures n != null ==> n.elem in es && n.elem.owner == q && n.elem.name == Some(q)
  {
    n := n0;
    ghost var h', t' := h, t;
    while n != null
      invariant Rep(n, h', t') && Elems(t') <= es && Good(es)
      invariant Llrb.Search(t', q) == Llrb.Search(t, q)
      decreases t'
    {
      assert allocated(Nodes(h'));
      var c := n.CompareTo(q, es);
      if c == 0 {
        CompareFlip(q, t'.key);
        return n, true;
      } else if c < 0 {
        n := n.left;
        h', t' := h'.l, t'.left;
      } else {
        n := n.right;
        h', t' := h'.r, t'.right;
      }
    }
    found := false;
  }

  /** What a node stands for as an answer of `floor` or `ceil`. */
  ghost function Answer(n: Node?): Option<(Name, Elem)>
    reads n
  {
    if n == null then None else Some((n.elem.owner, n.elem))
  }

  /** `floor` */
  method Floor(n: Node?, q: Name, ghost h: Shape, ghost t: Rbt<Elem>, ghost es: set<Elem>) returns (r: Node?)
    requires Rep(n, h, t) && Elems(t) <= es && Good(es)
    modifies es`name
    ensures Good(es) && Answer(r) == Llrb.Floor(t, q)
    decreases t
  {
    if n == null {
      return null;
    }
    assert allocated(Nodes(h));
    var c := n.CompareTo(q, es);
    if c == 0 {
      r := n;
    } else if c < 0 {
      r := Floor(n.left, q, h.l, t.left, es);
    } else {
      r := Floor(n.right, q, h.r, t.right, es);
      if r == null {
        r := n;
      }
    }
  }

  /** `ceil` */
  method Ceil(n: Node?, q: Name, ghost h: Shape, ghost t: Rbt<Elem>, ghost es: set<Elem>) returns (r: Node?)
    requires Rep(n, h, t) && Elems(t) <= es && Good(es)
    modifies es`name
    ensures Good(es) && Answer(r) == Llrb.Ceil(t, q)
    decreases t
  {
    if n == null {
      return null;
    }
    assert allocated(Nodes(h));
    var c := n.CompareTo(q, es);
    if c == 0 {
      r := n;
    } else if c > 0 {
      r := Ceil(n.right, q, h.r, t.right, es);
    } else {
      r := Ceil(n.left, q, h.l, t.left, es);
      if r == null {
        r := n;
      }
    }
  }

  /** `all`: appends the elements under a node in order. */
  method Collect(n: Node, found: seq<Elem>, ghost h: Shape, ghost t: Rbt<Elem>) returns (r: seq<Elem>)
    requires Rep(n, h, t)
    ensures r == found + ElemList(Llrb.All(t))
    decreases t
  {
    assert allocated(Nodes(h));
    r := found;
    if n.left != null {
      r := Collect(n.left, r, h.l, t.left);
    }
    r := r + [n.elem];
    if n.right != null {
      r := Collect(n.right, r, h.r, t.right);
    }
  }

  ghost function ElemList(s: Items<Elem>): seq<Elem> {
    seq(|s|, i requires 0 <= i < |s| => s[i].1)
  }
}
