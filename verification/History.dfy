/** Whole runs of the tree: any sequence of operations from the empty tree refines the
    same operations on a finite map, and leaves every search short.  */
module History {
  import opened Names
  import opened Records
  import opened Llrb
  import opened Store
  import opened ZoneTree

  datatype Op = Add(rr: RR) | Remove(rr: RR) | DropFirst | DropLast

  /** One operation on the map from names to RRsets. */
  ghost predicate Step(c: Contents, op: Op, c': Contents) {
    match op
    case Add(rr) => c' == AddTo(c, rr)
    case Remove(rr) => c' == RemoveType(c, rr.owner, rr.Type())
    case DropFirst => if c == map[] then c' == map[] else exists k :: IsFirst(c, k) && c' == c - {k}
    case DropLast => if c == map[] then c' == map[] else exists k :: IsLast(c, k) && c' == c - {k}
  }

  /** `trace` are the contents before, between and after the operations. */
  ghost predicate Run(ops: seq<Op>, trace: seq<Contents>) {
    && |trace| == |ops| + 1 && trace[0] == map[]
    && forall i :: 0 <= i < |ops| ==> Step(trace[i], ops[i], trace[i + 1])
  }

  /** Every operation determines the next contents. */
  lemma StepDetermined(c: Contents, op: Op, c1: Contents, c2: Contents)
    requires Step(c, op, c1) && Step(c, op, c2)
    ensures c1 == c2
  {
    if (op.DropFirst? || op.DropLast?) && c != map[] {
      var k1 :| (if op.DropFirst? then IsFirst(c, k1) else IsLast(c, k1)) && c1 == c - {k1};
      var k2 :| (if op.DropFirst? then IsFirst(c, k2) else IsLast(c, k2)) && c2 == c - {k2};
      CompareFlip(k1, k2);
    }
  }

  // ----- what a run leaves behind

  /** The records of a name and type that operations so far have added and none has removed since,
      in the order of their insertion. */
  ghost function Kept(ops: seq<Op>, trace: seq<Contents>, n: nat, k: Name, t: RRType): seq<RR>
    requires n <= |ops| < |trace|
  {
    if n == 0 then []
    else
      var before := Kept(ops, trace, n - 1, k, t);
      match ops[n - 1]
      case Add(rr) => if rr.owner == k && rr.Type() == t then before + [rr] else before
      case Remove(rr) => if rr.owner == k && rr.Type() == t then [] else before
      case DropFirst => if IsFirst(trace[n - 1], k) then [] else before
      case DropLast => if IsLast(trace[n - 1], k) then [] else before
  }

  /** Neither a name nor an RRset is kept empty. */
  ghost predicate NoneEmpty(c: Contents) {
    forall k :: k in c ==> c[k] != map[] && forall t :: t in c[k] ==> c[k][t] != []
  }

  lemma {:induction false} StepKeepsNoneEmpty(c: Contents, op: Op, c': Contents)
    requires NoneEmpty(c) && Step(c, op, c')
    ensures NoneEmpty(c')
  {
    if op.Add? {
      assert op.rr.Type() in c'[op.rr.owner];
    }
  }

  lemma {:induction false} StepKept(c: Contents, op: Op, c': Contents, k: Name, t: RRType)
    requires Step(c, op, c')
    ensures var before := OfType(At(c, k), t);
            OfType(At(c', k), t) ==
            match op
            case Add(rr) => if rr.owner == k && rr.Type() == t then before + [rr] else before
            case Remove(rr) => if rr.owner == k && rr.Type() == t then [] else before
            case DropFirst => if IsFirst(c, k) then [] else before
            case DropLast => if IsLast(c, k) then [] else before
  {
    if op.DropFirst? && c != map[] {
      var f :| IsFirst(c, f) && c' == c - {f};
      CompareFlip(f, k);
    } else if op.DropLast? && c != map[] {
      var l :| IsLast(c, l) && c' == c - {l};
      CompareFlip(l, k);
    }
  }

  /** After any run, exactly the records that were added and not removed since are stored, in order,
      and a name is stored exactly when it has such records. */
  lemma {:induction false} RunKeeps(ops: seq<Op>, trace: seq<Contents>, n: nat, k: Name)
    requires Run(ops, trace) && n <= |ops|
    ensures forall t :: OfType(At(trace[n], k), t) == Kept(ops, trace, n, k, t)
    ensures k in trace[n] <==> exists t :: Kept(ops, trace, n, k, t) != []
  {
    forall t
      ensures OfType(At(trace[n], k), t) == Kept(ops, trace, n, k, t)
    {
      RunKeepsType(ops, trace, n, k, t);
    }
    RunNoneEmpty(ops, trace, n);
    StoredHasType(trace[n], k);
  }

  lemma {:induction false} RunKeepsType(ops: seq<Op>, trace: seq<Contents>, n: nat, k: Name, t: RRType)
    requires Run(ops, trace) && n <= |ops|
    ensures OfType(At(trace[n], k), t) == Kept(ops, trace, n, k, t)
  {
    if n > 0 {
      RunKeepsType(ops, trace, n - 1, k, t);
      StepKept(trace[n - 1], ops[n - 1], trace[n], k, t);
    }
  }

  lemma {:induction false} RunNoneEmpty(ops: seq<Op>, trace: seq<Contents>, n: nat)
    requires Run(ops, trace) && n <= |ops|
    ensures NoneEmpty(trace[n])
  {
    if n > 0 {
      RunNoneEmpty(ops, trace, n - 1);
      StepKeepsNoneEmpty(trace[n - 1], ops[n - 1], trace[n]);
    }
  }

  lemma {:induction false} StoredHasType(c: Contents, k: Name)
    requires NoneEmpty(c)
    ensures k in c <==> exists t :: OfType(At(c, k), t) != []
  {
    if k in c {
      var t :| t in c[k];
      assert OfType(At(c, k), t) != [];
    }
  }

  method Apply(t: Tree, op: Op)
    requires t.Valid()
    modifies t, Nodes(t.view.shape), t.view.ix.Values
    ensures t.Valid() && Step(old(t.Contents()), op, t.Contents())
    ensures forall x :: x in Nodes(t.view.shape) ==> x in old(Nodes(t.view.shape)) || fresh(x)
    ensures forall x :: x in t.view.ix.Values ==> x in old(t.view.ix.Values) || fresh(x)
  {
    match op {
      case Add(rr) => t.Insert(rr);
      case Remove(rr) => t.Delete(rr);
      case DropFirst => ghost var k := t.DeleteMin();
      case DropLast => ghost var k := t.DeleteMax();
    }
  }

  method Replay(ops: seq<Op>) returns (t: Tree, ghost trace: seq<Contents>)
    ensures t.Valid() && Run(ops, trace) && t.Contents() == trace[|ops|]
  {
    t := new Tree();
    trace := [map[]];
    for i := 0 to |ops|
      invariant t.Valid() && fresh(t) && Run(ops[..i], trace) && t.Contents() == trace[i]
      invariant fresh(Nodes(t.view.shape)) && fresh(t.view.ix.Values)
    {
      assert allocated(Nodes(t.view.shape)) && allocated(t.view.ix.Values);
      Apply(t, ops[i]);
      RunOneMore(ops, i, trace, t.Contents());
      trace := trace + [t.Contents()];
    }
    assert ops[..|ops|] == ops;
  }

  lemma RunOneMore(ops: seq<Op>, i: nat, trace: seq<Contents>, c: Contents)
    requires i < |ops| && Run(ops[..i], trace) && Step(trace[i], ops[i], c)
    ensures Run(ops[..i + 1], trace + [c])
  {
  }

  /** No search in a tree of n names looks at more than 2 * log2(n + 1) nodes. */
  lemma SearchDepth(t: Tree, q: Name)
    requires t.Valid()
    ensures Pow2(SearchSteps(t.view.model, q)) <= (t.count + 1) * (t.count + 1)
  {
    SearchIsShort(t.view.model, q);
  }
}
