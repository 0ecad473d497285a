/** The left-leaning red-black tree of `plugin/file/tree/tree.go` as a value: what every
    in-place operation computes, and why it keeps the tree balanced and ordered.  */
module Llrb {
  import opened Names

  datatype Option<+T> = None | Some(value: T)

  datatype Color = Red | Black

  datatype Rbt<V> = Nil | Bin(color: Color, left: Rbt<V>, key: Name, val: V, right: Rbt<V>)

  predicate IsRed<V>(t: Rbt<V>) {
    t.Bin? && t.color == Red
  }

  function Flip(c: Color): Color {
    if c == Red then Black else Red
  }

  function Paint<V>(t: Rbt<V>, c: Color): Rbt<V> {
    if t.Nil? then t else t.(color := c)
  }

  // ----- contents

  type Items<V> = seq<(Name, V)>

  /** `all`: the elements in order. */
  function All<V>(t: Rbt<V>): Items<V> {
    if t.Nil? then [] else All(t.left) + [(t.key, t.val)] + All(t.right)
  }

  ghost predicate Sorted<V>(s: Items<V>) {
    forall i, j :: 0 <= i < j < |s| ==> Lt(s[i].0, s[j].0)
  }

  ghost predicate Ordered<V>(t: Rbt<V>) {
    Sorted(All(t))
  }

  lemma {:induction false} Split<V>(t: Rbt<V>)
    requires t.Bin? && Ordered(t)
    ensures Ordered(t.left) && Ordered(t.right)
    ensures forall i :: 0 <= i < |All(t.left)| ==> Lt(All(t.left)[i].0, t.key)
    ensures forall i :: 0 <= i < |All(t.right)| ==> Lt(t.key, All(t.right)[i].0)
  {
    var s, l, r := All(t), All(t.left), All(t.right);
    assert forall i :: 0 <= i < |l| ==> s[i] == l[i];
    assert s[|l|] == (t.key, t.val);
    assert forall i :: 0 <= i < |r| ==> s[|l| + 1 + i] == r[i];
  }

  /** What lies on the far side of a node from `k` is strictly on the far side of `k`. */
  lemma {:induction false} Sides<V>(t: Rbt<V>, k: Name)
    requires t.Bin? && Ordered(t)
    ensures Compare(k, t.key) >= 0 ==> forall i :: 0 <= i < |All(t.left)| ==> Compare(k, All(t.left)[i].0) > 0
    ensures Compare(k, t.key) <= 0 ==> forall i :: 0 <= i < |All(t.right)| ==> Compare(k, All(t.right)[i].0) < 0
  {
    Split(t);
    CompareFlip(k, t.key);
    forall i | 0 <= i < |All(t.left)| && Compare(k, t.key) >= 0
      ensures Compare(k, All(t.left)[i].0) > 0
    {
      var x := All(t.left)[i].0;
      CompareFlip(k, x);
      if k != t.key { CompareTransitive(x, t.key, k); }
    }
    forall i | 0 <= i < |All(t.right)| && Compare(k, t.key) <= 0
      ensures Compare(k, All(t.right)[i].0) < 0
    {
      if k != t.key { CompareTransitive(k, t.key, All(t.right)[i].0); }
    }
  }

  // ----- the balance invariant

  function BlackHeight<V>(t: Rbt<V>): nat {
    if t.Nil? then 0 else BlackHeight(t.left) + if t.color == Black then 1 else 0
  }

  /** No right-leaning red link, no two reds in a row, equal black heights. The colour of
      the topmost node is free. */
  predicate Balanced<V>(t: Rbt<V>) {
    t.Nil? ||
    (&& !IsRed(t.right) && !(t.color == Red && IsRed(t.left))
     && BlackHeight(t.left) == BlackHeight(t.right)
     && Balanced(t.left) && Balanced(t.right))
  }

  /** Both subtrees are balanced and equally black-high; the three colours are free. */
  predicate Repairable<V>(t: Rbt<V>) {
    && t.Bin? && Balanced(t.left) && Balanced(t.right)
    && BlackHeight(t.left) == BlackHeight(t.right)
  }

  /** A black 3-node that leans right, as `moveRedRight` may hand down on the right spine. */
  predicate LeansRight<V>(t: Rbt<V>) {
    Repairable(t) && t.color == Black && !IsRed(t.left) && IsRed(t.right)
  }

  /** There is a red link to work with: the node or its left child is red. */
  predicate HasRed<V>(t: Rbt<V>) {
    t.Bin? && (t.color == Red || IsRed(t.left))
  }

  // ----- local restructuring

  function RotateLeft<V>(t: Rbt<V>): Rbt<V>
    requires t.Bin? && t.right.Bin?
  {
    Bin(t.color, Bin(Red, t.left, t.key, t.val, t.right.left), t.right.key, t.right.val, t.right.right)
  }

  function RotateRight<V>(t: Rbt<V>): Rbt<V>
    requires t.Bin? && t.left.Bin?
  {
    Bin(t.color, t.left.left, t.left.key, t.left.val, Bin(Red, t.left.right, t.key, t.val, t.right))
  }

  function FlipColors<V>(t: Rbt<V>): Rbt<V>
    requires t.Bin? && t.left.Bin? && t.right.Bin?
  {
    Bin(Flip(t.color), Paint(t.left, Flip(t.left.color)), t.key, t.val, Paint(t.right, Flip(t.right.color)))
  }

  function LeanLeft<V>(t: Rbt<V>): (r: Rbt<V>)
    requires t.Bin?
    ensures r.Bin?
  {
    if IsRed(t.right) then RotateLeft(t) else t
  }

  function SplitReds<V>(t: Rbt<V>): (r: Rbt<V>)
    requires t.Bin?
    ensures r.Bin?
  {
    var n := if IsRed(t.left) && IsRed(t.left.left) then RotateRight(t) else t;
    if IsRed(n.left) && IsRed(n.right) then FlipColors(n) else n
  }

  function FixUp<V>(t: Rbt<V>): (r: Rbt<V>)
    requires t.Bin?
    ensures r.Bin?
  {
    SplitReds(LeanLeft(t))
  }

  /** `fixUp` repairs every local defect under a black node; it comes back red only when
      both children were red. */
  lemma {:induction false} FixUpRepairs<V>(t: Rbt<V>)
    requires Repairable(t)
    ensures Balanced(Paint(FixUp(t), Black))
    ensures t.color == Black || !(IsRed(t.left) || IsRed(t.right)) ==>
              && Balanced(FixUp(t)) && BlackHeight(FixUp(t)) == BlackHeight(t)
              && (FixUp(t).color == Red <==> t.color == Red || (IsRed(t.left) && IsRed(t.right)))
  {
  }

  // ----- restructuring keeps the elements and their order

  lemma {:induction false} RotateLeftAll<V>(t: Rbt<V>)
    requires t.Bin? && t.right.Bin?
    ensures All(RotateLeft(t)) == All(t)
  {
  }

  lemma {:induction false} RotateRightAll<V>(t: Rbt<V>)
    requires t.Bin? && t.left.Bin?
    ensures All(RotateRight(t)) == All(t)
  {
  }

  lemma {:induction false} FlipColorsAll<V>(t: Rbt<V>)
    requires t.Bin? && t.left.Bin? && t.right.Bin?
    ensures All(FlipColors(t)) == All(t)
  {
  }

  lemma {:induction false} SplitRedsAll<V>(t: Rbt<V>)
    requires t.Bin?
    ensures All(SplitReds(t)) == All(t)
  {
    var n := t;
    if IsRed(t.left) && IsRed(t.left.left) {
      RotateRightAll(t);
      n := RotateRight(t);
    }
    if IsRed(n.left) && IsRed(n.right) { FlipColorsAll(n); }
  }

  lemma {:induction false} FixUpAll<V>(t: Rbt<V>)
    requires t.Bin?
    ensures All(FixUp(t)) == All(t)
  {
    if IsRed(t.right) { RotateLeftAll(t); }
    SplitRedsAll(LeanLeft(t));
  }

  lemma {:induction false} MoveRedLeftAll<V>(t: Rbt<V>)
    requires t.Bin? && t.left.Bin? && t.right.Bin?
    ensures All(MoveRedLeft(t)) == All(t)
  {
    var n := FlipColors(t);
    FlipColorsAll(t);
    if IsRed(n.right.left) {
      var m := n.(right := RotateRight(n.right));
      RotateRightAll(n.right);
      assert All(m) == All(n);
      RotateLeftAll(m);
      FlipColorsAll(RotateLeft(m));
    }
  }

  lemma {:induction false} MoveRedRightAll<V>(t: Rbt<V>)
    requires t.Bin? && t.left.Bin? && t.right.Bin?
    ensures All(MoveRedRight(t)) == All(t)
  {
    var n := FlipColors(t);
    FlipColorsAll(t);
    if IsRed(n.left.left) {
      RotateRightAll(n);
      FlipColorsAll(RotateRight(n));
    }
  }

  function MoveRedLeft<V>(t: Rbt<V>): (r: Rbt<V>)
    requires t.Bin? && t.left.Bin? && t.right.Bin?
    ensures r.Bin? && r.left.Bin? && r.right.Bin?
  {
    var n := FlipColors(t);
    if IsRed(n.right.left) then
      FlipColors(RotateLeft(n.(right := RotateRight(n.right))))
    else n
  }

  function MoveRedRight<V>(t: Rbt<V>): (r: Rbt<V>)
    requires t.Bin? && t.left.Bin? && t.right.Bin?
    ensures r.Bin? && r.left.Bin? && r.right.Bin?
  {
    var n := FlipColors(t);
    if IsRed(n.left.left) then FlipColors(RotateRight(n)) else n
  }

  /** `moveRedLeft` makes the left child red, or black with a red left child of its own. */
  lemma {:induction false} MovedRedLeft<V>(t: Rbt<V>, r: Rbt<V>)
    requires t.Bin? && t.left.Bin? && t.right.Bin? && r == MoveRedLeft(t)
    requires Balanced(t) && !IsRed(t.left) && !IsRed(t.left.left)
    ensures Repairable(r) && HasRed(r.left) && Balanced(r.left)
    ensures if IsRed(t.right.left) then r.color == t.color && !IsRed(r.left) && !IsRed(r.right)
            else r.color == Flip(t.color) && IsRed(r.left) && IsRed(r.right)
    ensures t.color == Red ==> BlackHeight(r) == BlackHeight(t)
  {
    assert Repairable(t.left) && Repairable(t.right);
    if IsRed(t.right.left) {
      var x := t.right.left;
      assert Repairable(x);
      assert r.left == Bin(Black, Paint(t.left, Red), t.key, t.val, x.left);
      assert r.right == Bin(Black, x.right, t.right.key, t.right.val, t.right.right);
      assert Balanced(r.left.left);
    }
  }

  /** `moveRedRight` makes the right child red, or a black node that leans right. */
  lemma {:induction false} MovedRedRight<V>(t: Rbt<V>, r: Rbt<V>)
    requires t.Bin? && t.left.Bin? && t.right.Bin? && r == MoveRedRight(t)
    requires Balanced(t) && !IsRed(t.left) && !IsRed(t.right.left)
    ensures Balanced(r.left) && BlackHeight(r.left) == BlackHeight(r.right)
    ensures if IsRed(t.left.left) then r.color == t.color && !IsRed(r.left) && LeansRight(r.right)
                                       && r.key == t.left.key && r.right.key == t.key
            else r.color == Flip(t.color) && IsRed(r.left) && IsRed(r.right) && Balanced(r.right) && r.key == t.key
    ensures t.color == Red ==> BlackHeight(r) == BlackHeight(t)
  {
    assert Repairable(t.left) && Repairable(t.right);
    if IsRed(t.left.left) {
      assert r.left == Paint(t.left.left, Black);
      assert r.right == Bin(Black, t.left.right, t.key, t.val, Paint(t.right, Red));
      assert Balanced(Paint(t.right, Red));
    }
  }

  // ----- insertion

  /** The end of `insert`: as `fixUp`, but it leans left only when the left link is black. */
  function Absorb<V>(t: Rbt<V>): (r: Rbt<V>)
    requires t.Bin?
    ensures r.Bin?
  {
    SplitReds(if IsRed(t.right) && !IsRed(t.left) then RotateLeft(t) else t)
  }

  /** At most two reds in a row at the top, none of them leaning right. */
  predicate Grown<V>(t: Rbt<V>) {
    Repairable(t) && !IsRed(t.right)
  }

  lemma {:induction false} AbsorbLeft<V>(t: Rbt<V>, n: Rbt<V>)
    requires t.Bin? && n.Bin? && Balanced(t) && n == t.(left := n.left)
    requires Grown(n.left) && BlackHeight(n.left) == BlackHeight(t.left)
    requires if IsRed(t.left) then IsRed(n.left) else Balanced(n.left)
    ensures Grown(Absorb(n)) && BlackHeight(Absorb(n)) == BlackHeight(t)
    ensures if IsRed(t) then IsRed(Absorb(n)) else Balanced(Absorb(n))
  {
    if IsRed(n.left) && IsRed(n.left.left) {
      assert Repairable(n.left) && Repairable(n.left.left);
      assert Absorb(n) == FlipColors(RotateRight(n));
    }
  }

  lemma {:induction false} AbsorbRight<V>(t: Rbt<V>, n: Rbt<V>)
    requires t.Bin? && n.Bin? && Balanced(t) && n == t.(right := n.right)
    requires Balanced(n.right) && n.right.Bin? && BlackHeight(n.right) == BlackHeight(t.right)
    ensures Grown(Absorb(n)) && BlackHeight(Absorb(n)) == BlackHeight(t)
    ensures if IsRed(t) then IsRed(Absorb(n)) else Balanced(Absorb(n))
  {
    assert Repairable(n.right);
    if IsRed(n.right) && IsRed(n.left) {
      assert Repairable(n.left);
    }
  }

  /** On a balanced tree there is nothing to absorb. */
  lemma {:induction false} AbsorbNothing<V>(t: Rbt<V>)
    requires t.Bin? && Balanced(t)
    ensures Absorb(t) == t
  {
    assert Balanced(t.left);
  }

  lemma {:induction false} AbsorbAll<V>(t: Rbt<V>)
    requires t.Bin?
    ensures All(Absorb(t)) == All(t)
  {
    if IsRed(t.right) && !IsRed(t.left) {
      RotateLeftAll(t);
      SplitRedsAll(RotateLeft(t));
    } else {
      SplitRedsAll(t);
    }
  }

  function Insert<V>(t: Rbt<V>, k: Name, v: V): (r: Rbt<V>)
    ensures r.Bin?
  {
    if t.Nil? then Bin(Red, Nil, k, v, Nil)
    else
      var c := Compare(k, t.key);
      if c == 0 then Absorb(t)
      else if c < 0 then Absorb(t.(left := Insert(t.left, k, v)))
      else Absorb(t.(right := Insert(t.right, k, v)))
  }

  lemma {:induction false} InsertGrows<V>(t: Rbt<V>, k: Name, v: V)
    requires Balanced(t)
    ensures Grown(Insert(t, k, v)) && BlackHeight(Insert(t, k, v)) == BlackHeight(t)
    ensures if IsRed(t) then IsRed(Insert(t, k, v)) else Balanced(Insert(t, k, v))
  {
    if t.Bin? {
      var c := Compare(k, t.key);
      if c == 0 {
        AbsorbNothing(t);
      } else if c < 0 {
        InsertGrows(t.left, k, v);
        AbsorbLeft(t, t.(left := Insert(t.left, k, v)));
      } else {
        InsertGrows(t.right, k, v);
        AbsorbRight(t, t.(right := Insert(t.right, k, v)));
      }
    }
  }

  // ----- deletion

  function Min<V>(t: Rbt<V>): (r: Rbt<V>)
    requires t.Bin?
    ensures r.Bin? && All(t) != [] && (r.key, r.val) == All(t)[0]
  {
    if t.left.Nil? then t else Min(t.left)
  }

  function Max<V>(t: Rbt<V>): (r: Rbt<V>)
    requires t.Bin?
    ensures r.Bin? && All(t) != [] && (r.key, r.val) == All(t)[|All(t)| - 1]
  {
    if t.right.Nil? then t else Max(t.right)
  }

  /** The balance clause every delete keeps. At a node without a red link (only the root)
      what comes back is balanced once it is painted black. */
  predicate Shrunk<V>(t: Rbt<V>, r: Rbt<V>) {
    && Balanced(Paint(r, Black))
    && (HasRed(t) || LeansRight(t) ==>
          Balanced(r) && BlackHeight(r) == BlackHeight(t) && (IsRed(r) ==> IsRed(t)))
  }

  /** Before the left subtree is entered. */
  function DescendLeft<V>(t: Rbt<V>): (r: Rbt<V>)
    requires t.Bin? && t.left.Bin? && Balanced(t)
    ensures r.Bin? && r.left.Bin?
  {
    if !IsRed(t.left) && !IsRed(t.left.left) then MoveRedLeft(t) else t
  }

  /** Before the right subtree is entered. */
  function DescendRight<V>(t: Rbt<V>): (r: Rbt<V>)
    requires t.Bin? && (Balanced(t) || LeansRight(t))
    ensures r.Bin?
  {
    var n := if IsRed(t.left) then RotateRight(t) else t;
    if n.right.Bin? && !IsRed(n.right) && !IsRed(n.right.left) then MoveRedRight(n) else n
  }

  lemma {:induction false} DescendLeftAll<V>(t: Rbt<V>)
    requires t.Bin? && t.left.Bin? && Balanced(t)
    ensures All(DescendLeft(t)) == All(t)
  {
    if !IsRed(t.left) && !IsRed(t.left.left) { MoveRedLeftAll(t); }
  }

  lemma {:induction false} DescendRightAll<V>(t: Rbt<V>)
    requires t.Bin? && (Balanced(t) || LeansRight(t))
    ensures All(DescendRight(t)) == All(t)
  {
    var n := t;
    if IsRed(t.left) {
      RotateRightAll(t);
      n := RotateRight(t);
    }
    if n.right.Bin? && !IsRed(n.right) && !IsRed(n.right.left) { MoveRedRightAll(n); }
  }

  lemma {:induction false} RotatedRight<V>(t: Rbt<V>)
    requires t.Bin? && IsRed(t.left) && Balanced(t)
    ensures var n := RotateRight(t);
            && Repairable(n) && n.color == Black && !IsRed(n.left) && IsRed(n.right)
            && BlackHeight(n) == BlackHeight(t)
  {
    assert Repairable(t.left);
  }

  /** The left subtree can be shrunk, and `fixUp` then restores the node. */
  lemma {:induction false} ShrinkLeft<V>(t: Rbt<V>, l: Rbt<V>)
    requires t.Bin? && t.left.Bin? && Balanced(t)
    requires Shrunk(DescendLeft(t).left, l)
    ensures Shrunk(t, FixUp(DescendLeft(t).(left := l)))
  {
    if !IsRed(t.left) && !IsRed(t.left.left) {
      MovedRedLeft(t, MoveRedLeft(t));
    }
    FixUpRepairs(DescendLeft(t).(left := l));
  }

  lemma {:induction false} EnterLeft<V>(t: Rbt<V>)
    requires t.Bin? && t.left.Bin? && Balanced(t)
    ensures Balanced(DescendLeft(t).left)
  {
    if !IsRed(t.left) && !IsRed(t.left.left) {
      MovedRedLeft(t, MoveRedLeft(t));
    }
  }

  lemma {:induction false} EnterRight<V>(t: Rbt<V>)
    requires t.Bin? && (Balanced(t) || LeansRight(t))
    ensures var m := DescendRight(t);
            if m.right.Nil? then t.left.Nil? && m == t
            else || (m.key == t.key && Balanced(m.right))
                 || (t.left.Bin? && m.key == t.left.key && m.right.key == t.key
                     && (Balanced(m.right) || LeansRight(m.right)))
  {
    if IsRed(t.left) {
      RotatedRight(t);
    } else if t.right.Bin? && !IsRed(t.right) && !IsRed(t.right.left) {
      MovedRedRight(t, MoveRedRight(t));
    }
  }

  lemma {:induction false} ShrinkRight<V>(t: Rbt<V>, k: Name, v: V, r: Rbt<V>)
    requires t.Bin? && (Balanced(t) || LeansRight(t)) && DescendRight(t).right.Bin?
    requires Shrunk(DescendRight(t).right, r)
    ensures Shrunk(t, FixUp(DescendRight(t).(key := k, val := v, right := r)))
  {
    if IsRed(t.left) {
      RotatedRight(t);
    } else if t.right.Bin? && !IsRed(t.right) && !IsRed(t.right.left) {
      MovedRedRight(t, MoveRedRight(t));
    }
    FixUpRepairs(DescendRight(t).(key := k, val := v, right := r));
  }

  function DeleteMin<V>(t: Rbt<V>): Rbt<V>
    requires t.Bin? && Balanced(t)
    decreases |All(t)|
  {
    if t.left.Nil? then Nil
    else
      EnterLeft(t);
      DescendLeftAll(t);
      var n := DescendLeft(t);
      FixUp(n.(left := DeleteMin(n.left)))
  }

  lemma {:induction false} DeleteMinShrinks<V>(t: Rbt<V>)
    requires t.Bin? && Balanced(t)
    ensures Shrunk(t, DeleteMin(t))
    decreases |All(t)|
  {
    if t.left.Bin? {
      EnterLeft(t);
      DescendLeftAll(t);
      var n := DescendLeft(t);
      DeleteMinShrinks(n.left);
      ShrinkLeft(t, DeleteMin(n.left));
    }
  }

  function DeleteMax<V>(t: Rbt<V>): Rbt<V>
    requires t.Bin? && (Balanced(t) || LeansRight(t))
    decreases |All(t)|
  {
    EnterRight(t);
    DescendRightAll(t);
    var m := DescendRight(t);
    if m.right.Nil? then Nil else FixUp(m.(right := DeleteMax(m.right)))
  }

  lemma {:induction false} DeleteMaxShrinks<V>(t: Rbt<V>)
    requires t.Bin? && (Balanced(t) || LeansRight(t))
    ensures Shrunk(t, DeleteMax(t))
    decreases |All(t)|
  {
    EnterRight(t);
    DescendRightAll(t);
    var m := DescendRight(t);
    if m.right.Bin? {
      DeleteMaxShrinks(m.right);
      ShrinkRight(t, m.key, m.val, DeleteMax(m.right));
    }
  }

  lemma {:induction false} LeftKeyBelow<V>(t: Rbt<V>, k: Name)
    requires t.Bin? && Ordered(t) && Compare(k, t.key) >= 0
    ensures t.left.Bin? ==> Compare(k, t.left.key) > 0
  {
    if t.left.Bin? {
      Sides(t, k);
      assert All(t.left)[|All(t.left.left)|].0 == t.left.key;
    }
  }

  /** A node that leans right is only ever entered with a key at or above its own. */
  function Delete<V>(t: Rbt<V>, k: Name): Rbt<V>
    requires t.Bin? && Ordered(t)
    requires Balanced(t) || (LeansRight(t) && Compare(k, t.key) >= 0)
    decreases |All(t)|
  {
    if Compare(k, t.key) < 0 then
      if t.left.Nil? then FixUp(t)
      else
        EnterLeft(t);
        DescendLeftAll(t);
        var n := DescendLeft(t);
        Split(n);
        FixUp(n.(left := Delete(n.left, k)))
    else
      EnterRight(t);
      DescendRightAll(t);
      LeftKeyBelow(t, k);
      var m := DescendRight(t);
      if m.right.Nil? then
        if Compare(k, m.key) == 0 then Nil else FixUp(m)
      else
        Split(m);
        if Compare(k, m.key) == 0 then
          var s := Min(m.right);
          FixUp(m.(key := s.key, val := s.val, right := DeleteMin(m.right)))
        else
          FixUp(m.(right := Delete(m.right, k)))
  }

  lemma {:induction false} DeleteShrinks<V>(t: Rbt<V>, k: Name)
    requires t.Bin? && Ordered(t)
    requires Balanced(t) || (LeansRight(t) && Compare(k, t.key) >= 0)
    ensures Shrunk(t, Delete(t, k))
    decreases |All(t)|
  {
    if Compare(k, t.key) < 0 {
      if t.left.Bin? {
        EnterLeft(t);
        DescendLeftAll(t);
        var n := DescendLeft(t);
        Split(n);
        DeleteShrinks(n.left, k);
        ShrinkLeft(t, Delete(n.left, k));
      } else {
        FixUpRepairs(t);
      }
    } else {
      EnterRight(t);
      DescendRightAll(t);
      LeftKeyBelow(t, k);
      var m := DescendRight(t);
      if m.right.Nil? {
        FixUpRepairs(m);
      } else {
        Split(m);
        if Compare(k, m.key) == 0 {
          var s := Min(m.right);
          DeleteMinShrinks(m.right);
          ShrinkRight(t, s.key, s.val, DeleteMin(m.right));
        } else {
          DeleteShrinks(m.right, k);
          ShrinkRight(t, m.key, m.val, Delete(m.right, k));
        }
      }
    }
  }

  // ----- contents after insertion and deletion

  /** `k` put in its place, unless it is there already. */
  ghost function Put<V>(s: Items<V>, k: Name, v: V): Items<V> {
    if s == [] then [(k, v)]
    else if Compare(k, s[0].0) == 0 then s
    else if Compare(k, s[0].0) < 0 then [(k, v)] + s
    else [s[0]] + Put(s[1..], k, v)
  }

  /** `s` without the item of `k`. */
  ghost function Without<V>(s: Items<V>, k: Name): Items<V> {
    if s == [] then []
    else if s[0].0 == k then Without(s[1..], k)
    else [s[0]] + Without(s[1..], k)
  }

  lemma {:induction false} PutLeft<V>(l: Items<V>, m: (Name, V), r: Items<V>, k: Name, v: V)
    requires Compare(k, m.0) < 0
    ensures Put(l + [m] + r, k, v) == Put(l, k, v) + [m] + r
  {
    if l != [] {
      PutLeft(l[1..], m, r, k, v);
      assert (l + [m] + r)[1..] == l[1..] + [m] + r;
    }
  }

  lemma {:induction false} PutRight<V>(l: Items<V>, r: Items<V>, k: Name, v: V)
    requires forall i :: 0 <= i < |l| ==> Compare(k, l[i].0) > 0
    ensures Put(l + r, k, v) == l + Put(r, k, v)
  {
    if l == [] {
      assert l + r == r;
    } else {
      assert Compare(k, l[0].0) > 0;
      PutRight(l[1..], r, k, v);
      assert (l + r)[1..] == l[1..] + r;
    }
  }

  lemma {:induction false} WithoutConcat<V>(l: Items<V>, r: Items<V>, k: Name)
    ensures Without(l + r, k) == Without(l, k) + Without(r, k)
  {
    if l == [] {
      assert l + r == r;
    } else {
      WithoutConcat(l[1..], r, k);
      assert (l + r)[1..] == l[1..] + r;
    }
  }

  lemma {:induction false} WithoutAbsent<V>(s: Items<V>, k: Name)
    requires forall i :: 0 <= i < |s| ==> Compare(k, s[i].0) != 0
    ensures Without(s, k) == s
  {
    if s != [] {
      CompareFlip(k, s[0].0);
      assert Compare(k, s[0].0) != 0;
      WithoutAbsent(s[1..], k);
    }
  }

  lemma {:induction false} WithoutLeft<V>(l: Items<V>, m: (Name, V), r: Items<V>, k: Name)
    requires Compare(k, m.0) < 0
    requires forall i :: 0 <= i < |r| ==> Compare(k, r[i].0) < 0
    ensures Without(l + [m] + r, k) == Without(l, k) + [m] + r
  {
    WithoutAbsent([m], k);
    WithoutAbsent(r, k);
    WithoutConcat(l + [m], r, k);
    WithoutConcat(l, [m], k);
  }

  lemma {:induction false} WithoutRight<V>(l: Items<V>, m: (Name, V), r: Items<V>, k: Name)
    requires Compare(k, m.0) > 0
    requires forall i :: 0 <= i < |l| ==> Compare(k, l[i].0) > 0
    ensures Without(l + [m] + r, k) == l + [m] + Without(r, k)
  {
    WithoutAbsent([m], k);
    WithoutAbsent(l, k);
    WithoutConcat(l + [m], r, k);
    WithoutConcat(l, [m], k);
  }

  lemma {:induction false} WithoutHere<V>(l: Items<V>, m: (Name, V), r: Items<V>, k: Name)
    requires Compare(k, m.0) == 0
    requires forall i :: 0 <= i < |l| ==> Compare(k, l[i].0) > 0
    requires forall i :: 0 <= i < |r| ==> Compare(k, r[i].0) < 0
    ensures Without(l + [m] + r, k) == l + r
  {
    CompareFlip(k, m.0);
    WithoutAbsent(l, k);
    WithoutAbsent(r, k);
    WithoutConcat(l + [m], r, k);
    WithoutConcat(l, [m], k);
    assert Without([m], k) == [];
  }

  lemma {:induction false} PutSplit<V>(t: Rbt<V>, k: Name, v: V)
    requires t.Bin? && Ordered(t)
    ensures Put(All(t), k, v) ==
              if Compare(k, t.key) < 0 then Put(All(t.left), k, v) + [(t.key, t.val)] + All(t.right)
              else if Compare(k, t.key) > 0 then All(t.left) + [(t.key, t.val)] + Put(All(t.right), k, v)
              else All(t)
  {
    var l, m, r := All(t.left), (t.key, t.val), All(t.right);
    if Compare(k, t.key) < 0 {
      PutLeft(l, m, r, k, v);
    } else {
      Sides(t, k);
      PutRight(l, [m] + r, k, v);
      PutHead(m, r, k, v);
      Regroup(l, m, r);
      Regroup(l, m, Put(r, k, v));
    }
  }

  lemma PutHead<V>(m: (Name, V), r: Items<V>, k: Name, v: V)
    requires Compare(k, m.0) >= 0
    ensures Put([m] + r, k, v) == if Compare(k, m.0) > 0 then [m] + Put(r, k, v) else [m] + r
  {
    assert ([m] + r)[1..] == r;
  }

  lemma Regroup<T>(l: seq<T>, m: T, r: seq<T>)
    ensures l + ([m] + r) == l + [m] + r
  {
  }

  lemma {:induction false} WithoutSplit<V>(t: Rbt<V>, k: Name)
    requires t.Bin? && Ordered(t)
    ensures Without(All(t), k) ==
              if Compare(k, t.key) < 0 then Without(All(t.left), k) + [(t.key, t.val)] + All(t.right)
              else if Compare(k, t.key) > 0 then All(t.left) + [(t.key, t.val)] + Without(All(t.right), k)
              else All(t.left) + All(t.right)
  {
    var l, m, r := All(t.left), (t.key, t.val), All(t.right);
    Sides(t, k);
    if Compare(k, t.key) < 0 {
      WithoutLeft(l, m, r, k);
    } else if Compare(k, t.key) > 0 {
      WithoutRight(l, m, r, k);
    } else {
      WithoutHere(l, m, r, k);
    }
  }

  lemma {:induction false} InsertAll<V>(t: Rbt<V>, k: Name, v: V)
    requires Ordered(t)
    ensures All(Insert(t, k, v)) == Put(All(t), k, v)
  {
    if t.Bin? {
      Split(t);
      PutSplit(t, k, v);
      if Compare(k, t.key) < 0 {
        InsertAll(t.left, k, v);
        AbsorbAll(t.(left := Insert(t.left, k, v)));
      } else if Compare(k, t.key) > 0 {
        InsertAll(t.right, k, v);
        AbsorbAll(t.(right := Insert(t.right, k, v)));
      } else {
        AbsorbAll(t);
      }
    }
  }

  lemma {:induction false} DropFirst<V>(l: Items<V>, m: (Name, V), r: Items<V>)
    requires l != []
    ensures (l + [m] + r)[1..] == l[1..] + [m] + r
  {
  }

  lemma {:induction false} DropLast<V>(l: Items<V>, m: (Name, V), r: Items<V>)
    requires r != []
    ensures (l + [m] + r)[..|l| + |r|] == l + [m] + r[..|r| - 1]
  {
  }

  lemma {:induction false} DeleteMinAll<V>(t: Rbt<V>)
    requires t.Bin? && Balanced(t)
    ensures All(t) != [] && All(DeleteMin(t)) == All(t)[1..]
    decreases |All(t)|
  {
    if t.left.Bin? {
      EnterLeft(t);
      DescendLeftAll(t);
      var n := DescendLeft(t);
      DeleteMinAll(n.left);
      DropFirst(All(n.left), (n.key, n.val), All(n.right));
      calc {
        All(DeleteMin(t));
        { FixUpAll(n.(left := DeleteMin(n.left))); }
        All(n.(left := DeleteMin(n.left)));
        All(n)[1..];
      }
    } else {
      assert t.right.Nil?;
    }
  }

  lemma {:induction false} DeleteMaxAll<V>(t: Rbt<V>)
    requires t.Bin? && (Balanced(t) || LeansRight(t))
    ensures All(t) != [] && All(DeleteMax(t)) == All(t)[..|All(t)| - 1]
    decreases |All(t)|
  {
    EnterRight(t);
    DescendRightAll(t);
    var m := DescendRight(t);
    if m.right.Bin? {
      DeleteMaxAll(m.right);
      DropLast(All(m.left), (m.key, m.val), All(m.right));
      calc {
        All(DeleteMax(t));
        { FixUpAll(m.(right := DeleteMax(m.right))); }
        All(m.(right := DeleteMax(m.right)));
        All(m)[..|All(m)| - 1];
      }
    }
  }

  lemma {:induction false} DescendLeftKey<V>(t: Rbt<V>, k: Name)
    requires t.Bin? && t.left.Bin? && Balanced(t) && Ordered(t) && Compare(k, t.key) < 0
    ensures Compare(k, DescendLeft(t).key) < 0
  {
    Sides(t, k);
    if t.right.Bin? && t.right.left.Bin? {
      var x := t.right.left;
      assert All(t.right)[|All(x.left)|] == (x.key, x.val);
    }
  }

  /** The middle of a tree can be replaced by the least item of its right part. */
  lemma {:induction false} Successor<V>(l: Items<V>, r: Items<V>)
    requires r != []
    ensures l + [r[0]] + r[1..] == l + r
  {
  }

  lemma {:induction false} DeleteAll<V>(t: Rbt<V>, k: Name)
    requires t.Bin? && Ordered(t)
    requires Balanced(t) || (LeansRight(t) && Compare(k, t.key) >= 0)
    ensures All(Delete(t, k)) == Without(All(t), k)
    decreases |All(t)|
  {
    if Compare(k, t.key) < 0 {
      if t.left.Bin? {
        EnterLeft(t);
        DescendLeftAll(t);
        DescendLeftKey(t, k);
        var n := DescendLeft(t);
        Split(n);
        DeleteAll(n.left, k);
        FixUpAll(n.(left := Delete(n.left, k)));
        WithoutSplit(n, k);
      } else {
        FixUpAll(t);
        WithoutSplit(t, k);
      }
    } else {
      EnterRight(t);
      DescendRightAll(t);
      LeftKeyBelow(t, k);
      var m := DescendRight(t);
      WithoutSplit(m, k);
      if m.right.Nil? {
        FixUpAll(m);
      } else {
        Split(m);
        if Compare(k, m.key) == 0 {
          var s := Min(m.right);
          DeleteMinAll(m.right);
          FixUpAll(m.(key := s.key, val := s.val, right := DeleteMin(m.right)));
          Successor(All(m.left), All(m.right));
        } else {
          DeleteAll(m.right, k);
          FixUpAll(m.(right := Delete(m.right, k)));
        }
      }
    }
  }

  // ----- queries against a linear scan

  ghost function Keys<V>(s: Items<V>): set<Name> {
    set i | 0 <= i < |s| :: s[i].0
  }

  /** The value of `k` in a list of items. */
  function Find<V>(s: Items<V>, k: Name): Option<V> {
    if s == [] then None else if s[0].0 == k then Some(s[0].1) else Find(s[1..], k)
  }

  /** `r` is the item with the greatest name at or before `q`. */
  ghost predicate IsPrev<V>(s: Items<V>, q: Name, r: Option<(Name, V)>) {
    match r
    case None => forall i :: 0 <= i < |s| ==> Compare(q, s[i].0) < 0
    case Some(y) =>
      && y in s && Compare(q, y.0) >= 0
      && forall i :: 0 <= i < |s| && Compare(q, s[i].0) >= 0 ==> Compare(y.0, s[i].0) >= 0
  }

  /** `r` is the item with the smallest name at or after `q`. */
  ghost predicate IsNext<V>(s: Items<V>, q: Name, r: Option<(Name, V)>) {
    match r
    case None => forall i :: 0 <= i < |s| ==> Compare(q, s[i].0) > 0
    case Some(y) =>
      && y in s && Compare(q, y.0) <= 0
      && forall i :: 0 <= i < |s| && Compare(q, s[i].0) <= 0 ==> Compare(y.0, s[i].0) <= 0
  }

  function Search<V>(t: Rbt<V>, q: Name): Option<V> {
    if t.Nil? then None
    else if Compare(q, t.key) == 0 then Some(t.val)
    else if Compare(q, t.key) < 0 then Search(t.left, q)
    else Search(t.right, q)
  }

  function Floor<V>(t: Rbt<V>, q: Name): Option<(Name, V)> {
    if t.Nil? then None
    else if Compare(q, t.key) == 0 then Some((t.key, t.val))
    else if Compare(q, t.key) < 0 then Floor(t.left, q)
    else
      var r := Floor(t.right, q);
      if r.Some? then r else Some((t.key, t.val))
  }

  function Ceil<V>(t: Rbt<V>, q: Name): Option<(Name, V)> {
    if t.Nil? then None
    else if Compare(q, t.key) == 0 then Some((t.key, t.val))
    else if Compare(q, t.key) > 0 then Ceil(t.right, q)
    else
      var l := Ceil(t.left, q);
      if l.Some? then l else Some((t.key, t.val))
  }

  lemma {:induction false} FindConcat<V>(l: Items<V>, r: Items<V>, k: Name)
    ensures Find(l + r, k) == if Find(l, k).Some? then Find(l, k) else Find(r, k)
  {
    if l == [] {
      assert l + r == r;
    } else {
      assert (l + r)[1..] == l[1..] + r;
      FindConcat(l[1..], r, k);
    }
  }

  lemma {:induction false} FindAbsent<V>(s: Items<V>, k: Name)
    requires forall i :: 0 <= i < |s| ==> Compare(k, s[i].0) != 0
    ensures Find(s, k) == None
  {
    if s != [] {
      CompareFlip(k, s[0].0);
      assert Compare(k, s[0].0) != 0;
      FindAbsent(s[1..], k);
    }
  }

  lemma {:induction false} FindInKeys<V>(s: Items<V>, k: Name)
    ensures Find(s, k).Some? <==> k in Keys(s)
    ensures Find(s, k).Some? ==> (k, Find(s, k).value) in s
  {
    if s != [] {
      FindInKeys(s[1..], k);
      assert forall i :: 1 <= i < |s| ==> s[i] == s[1..][i - 1];
      assert s[0].0 in Keys(s);
      if k in Keys(s[1..]) {
        var i :| 0 <= i < |s[1..]| && s[1..][i].0 == k;
        assert s[i + 1].0 == k;
      }
    }
  }

  lemma {:induction false} BelowAll<V>(s: Items<V>, k: Name)
    requires Sorted(s) && s != [] && Compare(k, s[0].0) < 0
    ensures forall i :: 0 <= i < |s| ==> Compare(k, s[i].0) < 0
  {
    forall i | 0 <= i < |s|
      ensures Compare(k, s[i].0) < 0
    {
      if i > 0 { CompareTransitive(k, s[0].0, s[i].0); }
    }
  }

  /** What `Put` adds. */
  lemma {:induction false} PutFind<V>(s: Items<V>, k: Name, v: V, x: Name)
    requires Sorted(s)
    ensures Find(Put(s, k, v), x) == if Find(s, x).None? && x == k then Some(v) else Find(s, x)
    ensures |Put(s, k, v)| == |s| + if Find(s, k).None? then 1 else 0
  {
    if s != [] {
      CompareFlip(k, s[0].0);
      if Compare(k, s[0].0) < 0 {
        assert Put(s, k, v)[1..] == s;
        BelowAll(s, k);
        FindAbsent(s, k);
      } else if Compare(k, s[0].0) > 0 {
        assert Put(s, k, v)[1..] == Put(s[1..], k, v);
        PutFind(s[1..], k, v, x);
      }
    }
  }

  lemma {:induction false} PutAbove<V>(s: Items<V>, k: Name, v: V, b: Name)
    requires Lt(b, k) && forall i :: 0 <= i < |s| ==> Lt(b, s[i].0)
    ensures forall i :: 0 <= i < |Put(s, k, v)| ==> Lt(b, Put(s, k, v)[i].0)
  {
    if s != [] && Compare(k, s[0].0) > 0 {
      PutAbove(s[1..], k, v, b);
    }
  }

  lemma {:induction false} PutSorted<V>(s: Items<V>, k: Name, v: V)
    requires Sorted(s)
    ensures Sorted(Put(s, k, v))
  {
    if s != [] {
      CompareFlip(k, s[0].0);
      if Compare(k, s[0].0) < 0 {
        BelowAll(s, k);
      } else if Compare(k, s[0].0) > 0 {
        PutSorted(s[1..], k, v);
        PutAbove(s[1..], k, v, s[0].0);
      }
    }
  }

  /** What `Without` takes away. */
  lemma {:induction false} WithoutFind<V>(s: Items<V>, k: Name, x: Name)
    ensures Find(Without(s, k), x) == if x == k then None else Find(s, x)
  {
    if s != [] {
      WithoutFind(s[1..], k, x);
      if s[0].0 != k {
        assert Without(s, k)[1..] == Without(s[1..], k);
      }
    }
  }

  lemma {:induction false} WithoutAbove<V>(s: Items<V>, k: Name, b: Name)
    requires forall i :: 0 <= i < |s| ==> Lt(b, s[i].0)
    ensures forall i :: 0 <= i < |Without(s, k)| ==> Lt(b, Without(s, k)[i].0)
  {
    if s != [] { WithoutAbove(s[1..], k, b); }
  }

  lemma {:induction false} WithoutSorted<V>(s: Items<V>, k: Name)
    requires Sorted(s)
    ensures Sorted(Without(s, k))
  {
    if s != [] {
      WithoutSorted(s[1..], k);
      WithoutAbove(s[1..], k, s[0].0);
    }
  }

  lemma {:induction false} FindSorted<V>(s: Items<V>, i: nat)
    requires Sorted(s) && i < |s|
    ensures Find(s, s[i].0) == Some(s[i].1)
  {
    if i > 0 {
      CompareFlip(s[0].0, s[i].0);
      FindSorted(s[1..], i - 1);
    }
  }

  /** A list of items as a finite map. */
  ghost function Index<V>(s: Items<V>): map<Name, V> {
    if s == [] then map[] else Index(s[1..])[s[0].0 := s[0].1]
  }

  lemma {:induction false} IndexFinds<V>(s: Items<V>, k: Name)
    ensures Find(s, k) == if k in Index(s) then Some(Index(s)[k]) else None
  {
    if s != [] { IndexFinds(s[1..], k); }
  }

  lemma {:induction false} IndexPut<V>(s: Items<V>, k: Name, v: V)
    requires Sorted(s)
    ensures Index(Put(s, k, v)) == if k in Index(s) then Index(s) else Index(s)[k := v]
  {
    if s != [] {
      CompareFlip(k, s[0].0);
      if Compare(k, s[0].0) < 0 {
        BelowAll(s, k);
        FindAbsent(s, k);
        IndexFinds(s, k);
        assert Put(s, k, v)[1..] == s;
      } else if Compare(k, s[0].0) > 0 {
        assert Put(s, k, v)[1..] == Put(s[1..], k, v);
        IndexPut(s[1..], k, v);
      }
    }
  }

  lemma {:induction false} IndexWithout<V>(s: Items<V>, k: Name)
    ensures Index(Without(s, k)) == Index(s) - {k}
  {
    if s != [] {
      IndexWithout(s[1..], k);
      if s[0].0 != k {
        assert Without(s, k)[1..] == Without(s[1..], k);
      }
    }
  }

  lemma {:induction false} SearchFinds<V>(t: Rbt<V>, q: Name)
    requires Ordered(t)
    ensures Search(t, q) == Find(All(t), q)
  {
    if t.Bin? {
      var l, m, r := All(t.left), [(t.key, t.val)], All(t.right);
      Split(t);
      Sides(t, q);
      CompareFlip(q, t.key);
      FindConcat(l + m, r, q);
      FindConcat(l, m, q);
      if Compare(q, t.key) >= 0 { FindAbsent(l, q); }
      if Compare(q, t.key) <= 0 { FindAbsent(r, q); }
      if Compare(q, t.key) < 0 {
        SearchFinds(t.left, q);
      } else if Compare(q, t.key) > 0 {
        SearchFinds(t.right, q);
      }
    }
  }

  lemma {:induction false} FloorIsPrev<V>(t: Rbt<V>, q: Name)
    requires Ordered(t)
    ensures IsPrev(All(t), q, Floor(t, q))
  {
    if t.Bin? {
      var s, l, r := All(t), All(t.left), All(t.right);
      var here := (t.key, t.val);
      Split(t);
      Sides(t, q);
      Sides(t, t.key);
      CompareFlip(t.key, t.key);
      CompareFlip(q, t.key);
      assert forall i :: 0 <= i < |s| ==> s[i] == if i < |l| then l[i] else if i == |l| then here else r[i - |l| - 1];
      if Compare(q, t.key) < 0 {
        FloorIsPrev(t.left, q);
      } else if Compare(q, t.key) > 0 {
        FloorIsPrev(t.right, q);
        if Floor(t.right, q).Some? {
          Sides(t, Floor(t.right, q).value.0);
        }
      }
    }
  }

  lemma {:induction false} CeilIsNext<V>(t: Rbt<V>, q: Name)
    requires Ordered(t)
    ensures IsNext(All(t), q, Ceil(t, q))
  {
    if t.Bin? {
      var s, l, r := All(t), All(t.left), All(t.right);
      var here := (t.key, t.val);
      Split(t);
      Sides(t, q);
      Sides(t, t.key);
      CompareFlip(t.key, t.key);
      CompareFlip(q, t.key);
      assert forall i :: 0 <= i < |s| ==> s[i] == if i < |l| then l[i] else if i == |l| then here else r[i - |l| - 1];
      if Compare(q, t.key) > 0 {
        CeilIsNext(t.right, q);
      } else if Compare(q, t.key) < 0 {
        CeilIsNext(t.left, q);
        if Ceil(t.left, q).Some? {
          Sides(t, Ceil(t.left, q).value.0);
        }
      }
    }
  }

  // ----- inserting at a name that is there

  /** `Insert` at a stored name changes neither shape nor colours nor elements. */
  lemma {:induction false} InsertExisting<V>(t: Rbt<V>, k: Name, v: V)
    requires Balanced(t) && Search(t, k).Some?
    ensures Insert(t, k, v) == t
  {
    AbsorbNothing(t);
    if Compare(k, t.key) < 0 {
      InsertExisting(t.left, k, v);
    } else if Compare(k, t.key) > 0 {
      InsertExisting(t.right, k, v);
    }
  }

  // ----- path length

  /** How many nodes `search` looks at. */
  function SearchSteps<V>(t: Rbt<V>, q: Name): nat {
    if t.Nil? then 0
    else if Compare(q, t.key) == 0 then 1
    else if Compare(q, t.key) < 0 then 1 + SearchSteps(t.left, q)
    else 1 + SearchSteps(t.right, q)
  }

  function Pow2(n: nat): nat {
    if n == 0 then 1 else 2 * Pow2(n - 1)
  }

  lemma {:induction false} StepsByBlackHeight<V>(t: Rbt<V>, q: Name)
    requires Balanced(t)
    ensures SearchSteps(t, q) <= 2 * BlackHeight(t) + if IsRed(t) then 1 else 0
  {
    if t.Bin? {
      StepsByBlackHeight(t.left, q);
      StepsByBlackHeight(t.right, q);
    }
  }

  lemma {:induction false} SizeByBlackHeight<V>(t: Rbt<V>)
    requires Balanced(t)
    ensures Pow2(BlackHeight(t)) <= |All(t)| + 1
  {
    if t.Bin? {
      SizeByBlackHeight(t.left);
      SizeByBlackHeight(t.right);
    }
  }

  lemma {:induction false} Pow2Monotone(m: nat, n: nat)
    requires m <= n
    ensures Pow2(m) <= Pow2(n)
  {
    if m < n { Pow2Monotone(m, n - 1); }
  }

  lemma {:induction false} Pow2Square(n: nat)
    ensures Pow2(2 * n) == Pow2(n) * Pow2(n)
  {
    if n > 0 {
      Pow2Square(n - 1);
      var p := Pow2(n - 1);
      assert Pow2(2 * n) == 2 * Pow2(2 * n - 1) == 4 * (p * p);
      assert (2 * p) * (2 * p) == 4 * (p * p);
    }
  }

  lemma SquareMonotone(a: nat, b: nat)
    requires a <= b
    ensures a * a <= b * b
  {
  }

  /** A search in a balanced tree of n elements with a black root looks at no more than
      2 * log2(n + 1) nodes. */
  lemma SearchIsShort<V>(t: Rbt<V>, q: Name)
    requires Balanced(t) && !IsRed(t)
    ensures Pow2(SearchSteps(t, q)) <= (|All(t)| + 1) * (|All(t)| + 1)
  {
    var b := BlackHeight(t);
    StepsByBlackHeight(t, q);
    Pow2Monotone(SearchSteps(t, q), 2 * b);
    Pow2Square(b);
    SizeByBlackHeight(t);
    SquareMonotone(Pow2(b), |All(t)| + 1);
  }
}
