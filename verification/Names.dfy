/** DNS names and the order the zone tree keeps them in (`plugin/file/tree/less.go`).

    A name is the sequence of its labels with the label next to the root first, so
    "www.example.org." is ["org", "example", "www"] and "is an ancestor of" is "is a
    prefix of". `NameText.Text` gives the presentation form the Go code works on.  */
module Names {

  type Label = string
  type Name = seq<Label>

  /** `bytes.Compare`. */
  function CompareBytes(a: string, b: string): int {
    if a == [] && b == [] then 0
    else if a == [] then -1
    else if b == [] then 1
    else if a[0] < b[0] then -1
    else if b[0] < a[0] then 1
    else CompareBytes(a[1..], b[1..])
  }

  /** Labels are compared with the dot that ends them. */
  function CompareLabels(a: Label, b: Label): int {
    CompareBytes(a + ".", b + ".")
  }

  /** Label by label from the root, an ancestor before its descendants. */
  function CompareLists(a: Name, b: Name): int {
    if a == [] && b == [] then 0
    else if a == [] then -1
    else if b == [] then 1
    else if CompareLabels(a[0], b[0]) != 0 then CompareLabels(a[0], b[0])
    else CompareLists(a[1..], b[1..])
  }

  /** The top-level label begins with a byte below the dot. */
  predicate LowTop(n: Name) {
    n != [] && n[0] != [] && n[0][0] < '.'
  }

  /** The order of the tree: label by label, but the text of the root is a dot, and what begins
      below a dot comes before it. */
  function Compare(a: Name, b: Name): int {
    if a == [] && LowTop(b) then 1
    else if b == [] && LowTop(a) then -1
    else CompareLists(a, b)
  }

  predicate Lt(a: Name, b: Name) {
    Compare(a, b) < 0
  }

  /** `dns.IsSubDomain(parent, child)`; also true when the names are equal. */
  predicate IsSubDomain(parent: Name, child: Name) {
    parent <= child
  }

  // ----- order laws

  lemma {:induction false} CompareBytesFlip(a: string, b: string)
    ensures CompareBytes(a, b) == -CompareBytes(b, a)
    ensures CompareBytes(a, b) == 0 <==> a == b
  {
    if a != [] && b != [] && a[0] == b[0] {
      CompareBytesFlip(a[1..], b[1..]);
      assert a == [a[0]] + a[1..] && b == [b[0]] + b[1..];
    }
  }

  lemma {:induction false} CompareBytesTransitive(a: string, b: string, c: string)
    requires CompareBytes(a, b) < 0 && CompareBytes(b, c) < 0
    ensures CompareBytes(a, c) < 0
  {
    if a != [] && b != [] && c != [] && a[0] == b[0] == c[0] {
      CompareBytesTransitive(a[1..], b[1..], c[1..]);
    }
  }

  lemma CompareLabelsFlip(a: Label, b: Label)
    ensures CompareLabels(a, b) == -CompareLabels(b, a)
    ensures CompareLabels(a, b) == 0 <==> a == b
  {
    CompareBytesFlip(a + ".", b + ".");
    if a + "." == b + "." {
      assert a == (a + ".")[..|a|] && b == (b + ".")[..|b|];
    }
  }

  lemma {:induction false} ListsFlip(a: Name, b: Name)
    ensures CompareLists(a, b) == -CompareLists(b, a)
    ensures CompareLists(a, b) == 0 <==> a == b
  {
    if a != [] && b != [] {
      CompareLabelsFlip(a[0], b[0]);
      if a[0] == b[0] {
        ListsFlip(a[1..], b[1..]);
        assert a == [a[0]] + a[1..] && b == [b[0]] + b[1..];
      }
    }
  }

  lemma CompareFlip(a: Name, b: Name)
    ensures Compare(a, b) == -Compare(b, a)
    ensures Compare(a, b) == 0 <==> a == b
  {
    ListsFlip(a, b);
  }

  lemma {:induction false} ListsTransitive(a: Name, b: Name, c: Name)
    requires CompareLists(a, b) < 0 && CompareLists(b, c) < 0
    ensures CompareLists(a, c) < 0
  {
    if a != [] {
      CompareLabelsFlip(a[0], b[0]);
      CompareLabelsFlip(b[0], c[0]);
      CompareLabelsFlip(a[0], c[0]);
      if a[0] == b[0] && b[0] == c[0] {
        ListsTransitive(a[1..], b[1..], c[1..]);
      } else if a[0] != b[0] && b[0] != c[0] {
        CompareBytesTransitive(a[0] + ".", b[0] + ".", c[0] + ".");
      }
    }
  }

  /** Names with a low top-level label come before the others. */
  lemma {:induction false} LowTopFirst(a: Name, b: Name)
    requires a != [] && b != []
    ensures LowTop(a) && !LowTop(b) ==> CompareLists(a, b) < 0
    ensures LowTop(b) && CompareLists(a, b) < 0 ==> LowTop(a)
  {
    var s, t := a[0] + ".", b[0] + ".";
    CompareLabelsFlip(a[0], b[0]);
    assert s[0] == if a[0] == "" then '.' else a[0][0];
    assert t[0] == if b[0] == "" then '.' else b[0][0];
  }

  lemma {:induction false} CompareTransitive(a: Name, b: Name, c: Name)
    requires Lt(a, b) && Lt(b, c)
    ensures Lt(a, c)
  {
    if a == [] {
      if c != [] { LowTopFirst(b, c); }
    } else if b == [] {
      LowTopFirst(a, c);
    } else if c == [] {
      LowTopFirst(a, b);
    } else {
      ListsTransitive(a, b, c);
    }
  }

  /** `less` is a strict total order. */
  lemma TotalOrder()
    ensures forall a: Name :: !Lt(a, a)
    ensures forall a: Name, b: Name :: Compare(a, b) == -Compare(b, a)
    ensures forall a: Name, b: Name :: Compare(a, b) == 0 <==> a == b
    ensures forall a: Name, b: Name, c: Name :: Lt(a, b) && Lt(b, c) ==> Lt(a, c)
  {
    forall a: Name, b: Name
      ensures Compare(a, b) == -Compare(b, a)
      ensures Compare(a, b) == 0 <==> a == b
    {
      CompareFlip(a, b);
    }
    forall a: Name, b: Name, c: Name | Lt(a, b) && Lt(b, c)
      ensures Lt(a, c)
    {
      CompareTransitive(a, b, c);
    }
  }

  lemma {:induction false} PrefixFirst(a: Name, z: Name)
    requires a < z
    ensures CompareLists(a, z) < 0
  {
    if a != [] {
      CompareLabelsFlip(a[0], z[0]);
      PrefixFirst(a[1..], z[1..]);
    }
  }

  /** A proper ancestor comes before its descendants, but for the root, which comes behind those
      whose top-level label begins below the dot. */
  lemma {:induction false} AncestorFirst(a: Name, z: Name)
    requires a < z
    ensures Lt(a, z) <==> !(a == [] && LowTop(z))
  {
    PrefixFirst(a, z);
  }

  lemma {:induction false} ListsContiguous(a: Name, y: Name, z: Name)
    requires IsSubDomain(a, z) && CompareLists(y, a) >= 0 && CompareLists(z, y) >= 0
    ensures IsSubDomain(a, y)
  {
    if a != [] {
      CompareLabelsFlip(y[0], a[0]);
      CompareLabelsFlip(z[0], y[0]);
      assert a[0] == y[0];
      assert a[1..] <= z[1..];
      ListsContiguous(a[1..], y[1..], z[1..]);
      assert a == [a[0]] + a[1..] && y == [y[0]] + y[1..];
    }
  }

  /** What lies between a name and one at or below it is at or below it. */
  lemma {:induction false} DescendantsContiguous(a: Name, y: Name, z: Name)
    requires IsSubDomain(a, z) && !Lt(y, a) && !Lt(z, y)
    ensures IsSubDomain(a, y)
  {
    if a != [] {
      assert y != [];
      ListsContiguous(a, y, z);
    }
  }
}
