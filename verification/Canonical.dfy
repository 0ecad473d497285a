/** The order of the tree beside the canonical order of section 6.1 of RFC 4034, and what that
    means for the NSEC chain (`plugin/file/tree/less.go`, `plugin/sign/signer.go`).  */
module Canonical {
  import opened Names
  import opened Escapes
  import opened NameText
  import opened Records
  import opened Llrb
  import opened Store
  import opened Walk
  import opened Sign

  // ----- labels

  lemma {:induction false} AfterCoded(l: Label)
    requires WellFormed(l) && Coded(l)
    ensures WellFormed(l[4..])
  {
    var m := l[2..];
    assert m[0] == l[2] && m[1..] == l[3..];
    assert WellFormed(m[1..]);
    assert m[1..][0] == l[3] && m[1..][1..] == l[4..];
  }

  /** The bytes a label in presentation form stands for (section 5.1 of RFC 1035). */
  function Meaning(l: Label): string
    requires WellFormed(l)
  {
    if l == [] then []
    else if Coded(l) then
      AfterCoded(l);
      [DddToByte(l)] + Meaning(l[4..])
    else if l[0] == '\\' then [l[1]] + Meaning(l[2..])
    else [l[0]] + Meaning(l[1..])
  }

  /** Canonical order of lower-case labels: byte by byte, the end of a label before any byte. */
  function CanonicalLabels(a: Label, b: Label): int
    requires WellFormed(a) && WellFormed(b)
  {
    CompareBytes(Meaning(a), Meaning(b))
  }

  predicate Quoted(l: Label) {
    l != [] && l[0] == '\\'
  }

  /** The first byte of a label without `\DDD`, and the label after it. */
  function First(l: Label): char
    requires WellFormed(l) && l != []
  {
    if Quoted(l) then l[1] else l[0]
  }

  function Further(l: Label): Label
    requires WellFormed(l) && l != []
  {
    if Quoted(l) then l[2..] else l[1..]
  }

  /** Where two labels first differ, one ends and the other goes on with a byte below the dot; or
      one has quoted a byte there and the backslash is on the wrong side of the other byte. */
  predicate Odd(a: Label, b: Label)
    requires WellFormed(a) && WellFormed(b)
  {
    if a == [] || b == [] then (a != [] && a[0] < '.') || (b != [] && b[0] < '.')
    else if Quoted(a) == Quoted(b) then First(a) == First(b) && Odd(Further(a), Further(b))
    else if First(a) == First(b) then (a[0] < b[0]) != (CanonicalLabels(Further(a), Further(b)) < 0) || CanonicalLabels(Further(a), Further(b)) == 0
    else (a[0] < b[0]) != (First(a) < First(b))
  }

  lemma {:induction false} UncodedFurther(l: Label)
    requires WellFormed(l) && l != [] && Count(l + ".") == 0
    ensures !Coded(l) && Count(Further(l) + ".") == 0
    ensures Meaning(l) == [First(l)] + Meaning(Further(l))
  {
    var s := l + ".";
    assert Coded(l) ==> Coded(s);
    assert s[1..] == l[1..] + "." && Count(s[1..]) == 0;
    if Quoted(l) {
      assert s[1..][1..] == l[2..] + ".";
    }
  }

  /** Labels that begin alike, byte and spelling. */
  lemma {:induction false} BeginAlike(a: Label, b: Label)
    requires WellFormed(a) && WellFormed(b) && a != [] && b != [] && Quoted(a) == Quoted(b)
    ensures CompareLabels(a, b) == if First(a) == First(b) then CompareLabels(Further(a), Further(b))
                                   else if First(a) < First(b) then -1 else 1
  {
    var s, t := a + ".", b + ".";
    assert s[1..] == a[1..] + "." && t[1..] == b[1..] + ".";
    if Quoted(a) {
      assert s[1..][1..] == a[2..] + "." && t[1..][1..] == b[2..] + ".";
      assert CompareBytes(s, t) == CompareBytes(s[1..], t[1..]);
    }
  }

  /** The tree compares labels as the canonical order does, exactly when they do not part oddly. */
  lemma {:induction false} LabelsAgree(a: Label, b: Label)
    requires WellFormed(a) && WellFormed(b) && Count(a + ".") == 0 && Count(b + ".") == 0
    ensures CompareLabels(a, b) == CanonicalLabels(a, b) <==> !Odd(a, b)
    decreases |a|
  {
    if a != [] { UncodedFurther(a); }
    if b != [] { UncodedFurther(b); }
    if a == [] || b == [] {
      OneEnds(a, b);
    } else {
      FirstDecides(a, b);
      if Quoted(a) == Quoted(b) {
        BeginAlike(a, b);
        if First(a) == First(b) {
          LabelsAgree(Further(a), Further(b));
        }
      } else {
        assert (a + ".")[0] == a[0] && (b + ".")[0] == b[0];
      }
    }
  }

  lemma {:induction false} OneEnds(a: Label, b: Label)
    requires WellFormed(a) && WellFormed(b) && (a == [] || b == [])
    requires a != [] ==> Meaning(a) != []
    requires b != [] ==> Meaning(b) != []
    ensures CompareLabels(a, b) == CanonicalLabels(a, b) <==> !Odd(a, b)
  {
    CompareLabelsFlip(a, b);
    CompareBytesFlip(Meaning(a), Meaning(b));
    assert a != [] ==> (a + ".")[0] == a[0];
    assert b != [] ==> (b + ".")[0] == b[0];
    assert ("" + ".")[0] == '.';
  }

  lemma {:induction false} FirstDecides(a: Label, b: Label)
    requires WellFormed(a) && WellFormed(b) && a != [] && b != []
    requires Meaning(a) == [First(a)] + Meaning(Further(a)) && Meaning(b) == [First(b)] + Meaning(Further(b))
    ensures CanonicalLabels(a, b) == if First(a) == First(b) then CanonicalLabels(Further(a), Further(b))
                                     else if First(a) < First(b) then -1 else 1
    ensures -1 <= CanonicalLabels(Further(a), Further(b)) <= 1
  {
    assert Meaning(a)[1..] == Meaning(Further(a)) && Meaning(b)[1..] == Meaning(Further(b));
    CompareSigns(Meaning(Further(a)), Meaning(Further(b)));
  }

  /** `b` goes on after `a` with a byte below the dot that ends labels. */
  predicate Continues(a: Label, b: Label) {
    a < b && b[|a|] < '.'
  }

  /** Without backslashes, labels part oddly just when one continues the other below the dot. */
  lemma {:induction false} PlainOdd(a: Label, b: Label)
    requires WellFormed(a) && WellFormed(b) && '\\' !in a && '\\' !in b
    ensures Odd(a, b) <==> Continues(a, b) || Continues(b, a)
  {
    if a != [] && b != [] {
      assert a[0] in a && b[0] in b;
      assert a == [a[0]] + a[1..] && b == [b[0]] + b[1..];
      assert a < b <==> a[0] == b[0] && a[1..] < b[1..];
      assert b < a <==> a[0] == b[0] && b[1..] < a[1..];
      if a[0] == b[0] {
        PlainOdd(a[1..], b[1..]);
      }
    }
  }

  // ----- names

  /** Labels in presentation form without `\DDD`. */
  predicate Spelled(n: Name) {
    ValidName(n) && Uncoded(n)
  }

  /** Canonical order of names: label by label from the root. */
  function CompareCanonical(a: Name, b: Name): int
    requires ValidName(a) && ValidName(b)
  {
    if a == [] && b == [] then 0
    else if a == [] then -1
    else if b == [] then 1
    else if CanonicalLabels(a[0], b[0]) != 0 then CanonicalLabels(a[0], b[0])
    else CompareCanonical(a[1..], b[1..])
  }

  /** The first labels in which two names differ are odd; if they are one label in two spellings,
      the rest of the names is on the other side. */
  predicate PartOddly(a: Name, b: Name)
    requires ValidName(a) && ValidName(b)
  {
    if a == [] || b == [] then false
    else if a[0] == b[0] then PartOddly(a[1..], b[1..])
    else if CanonicalLabels(a[0], b[0]) != 0 then Odd(a[0], b[0])
    else CompareLabels(a[0], b[0]) != CompareCanonical(a[1..], b[1..])
  }

  /** Names that the tree does not sort canonically: they part oddly, or one is the root and the
      top-level label of the other begins below the dot. */
  predicate SortOddly(a: Name, b: Name)
    requires ValidName(a) && ValidName(b)
  {
    (a == [] && LowTop(b)) || (b == [] && LowTop(a)) || PartOddly(a, b)
  }

  lemma {:induction false} ListsAgree(a: Name, b: Name)
    requires Spelled(a) && Spelled(b)
    ensures CompareLists(a, b) == CompareCanonical(a, b) <==> !PartOddly(a, b)
  {
    if a != [] && b != [] {
      LabelsAgree(a[0], b[0]);
      CompareLabelsFlip(a[0], b[0]);
      if a[0] == b[0] {
        CompareBytesFlip(Meaning(a[0]), Meaning(b[0]));
        ListsAgree(a[1..], b[1..]);
      }
    }
  }

  /** The tree has two names in canonical order exactly when they are not such a pair. */
  lemma {:induction false} NamesAgree(a: Name, b: Name)
    requires Spelled(a) && Spelled(b)
    ensures Compare(a, b) == CompareCanonical(a, b) <==> !SortOddly(a, b)
  {
    ListsAgree(a, b);
  }

  lemma {:induction false} CompareCanonicalFlip(a: Name, b: Name)
    requires ValidName(a) && ValidName(b)
    ensures CompareCanonical(a, b) == -CompareCanonical(b, a)
    ensures -1 <= CompareCanonical(a, b) <= 1
  {
    if a != [] && b != [] {
      CompareBytesFlip(Meaning(a[0]), Meaning(b[0]));
      CompareSigns(Meaning(a[0]), Meaning(b[0]));
      CompareCanonicalFlip(a[1..], b[1..]);
    }
  }

  /** "a-b.org." sorts before "a.org." in the tree and after it canonically. */
  lemma {:induction false} DashSortsFirst()
    ensures var x, y := ["org", "a"], ["org", "a-b"];
            Spelled(x) && Spelled(y) && Compare(y, x) == -1 && CompareCanonical(x, y) == -1
  {
    var x, y := ["org", "a"], ["org", "a-b"];
    DashLabels();
    PlainLabel("org");
    assert x[1..] == ["a"] && y[1..] == ["a-b"];
    CompareLabelsFlip("org", "org");
    CompareLabelsFlip("a", "a-b");
    CompareBytesFlip("org", "org");
  }

  lemma {:induction false} DashLabels()
    ensures WellFormed("a") && WellFormed("a-b") && Count("a" + ".") == 0 && Count("a-b" + ".") == 0
    ensures CompareLabels("a", "a-b") == 1 && CanonicalLabels("a", "a-b") == -1
  {
    PlainLabel("a");
    PlainLabel("a-b");
    assert "a"[1..] == [] && "a-b"[1..] == "-b";
    assert ("a" + ".")[1..] == "." && ("a-b" + ".")[1..] == "-b.";
    assert CompareBytes("a" + ".", "a-b" + ".") == CompareBytes(".", "-b.");
    assert CompareBytes("a", "a-b") == CompareBytes("", "-b");
  }

  /** A label without backslashes and dots stands for itself. */
  lemma {:induction false} PlainLabel(l: Label)
    requires '\\' !in l && '.' !in l
    ensures WellFormed(l) && Meaning(l) == l && Count(l + ".") == 0
  {
    var s := l + ".";
    assert s[1..] == if l == [] then "" else l[1..] + ".";
    if l != [] {
      assert l[0] in l && l == [l[0]] + l[1..];
      PlainLabel(l[1..]);
    }
  }

  /** "*." sorts before the root in the tree and after it canonically. */
  lemma {:induction false} StarBeforeRoot()
    ensures Spelled([]) && Spelled(["*"]) && Compare(["*"], []) == -1 && CompareCanonical([], ["*"]) == -1
  {
    PlainLabel("*");
    assert LowTop(["*"]);
  }

  // ----- the chain

  ghost predicate AllSpelled(names: seq<Name>) {
    forall i :: 0 <= i < |names| ==> Spelled(names[i])
  }

  ghost predicate InCanonicalOrder(names: seq<Name>)
    requires AllSpelled(names)
  {
    forall i, j :: 0 <= i < j < |names| ==> CompareCanonical(names[i], names[j]) < 0
  }

  lemma {:induction false} ChainSpelled<V>(s: Items<V>, c: Contents)
    requires Sorted(s) && c.Keys == Keys(s) && forall k :: k in c ==> Spelled(k)
    ensures AllSpelled(AuthNames(s, c))
  {
    ChainNames(s, c);
    forall i | 0 <= i < |AuthNames(s, c)|
      ensures Spelled(AuthNames(s, c)[i])
    {
      assert AuthNames(s, c)[i] in AuthNames(s, c);
    }
  }

  ghost predicate CanonicalChain<V>(s: Items<V>, c: Contents)
    requires Sorted(s) && c.Keys == Keys(s) && forall k :: k in c ==> Spelled(k)
  {
    ChainSpelled(s, c);
    InCanonicalOrder(AuthNames(s, c))
  }

  /** The chain is in canonical order exactly when no two authoritative names sort oddly. */
  lemma {:induction false} ChainCanonicalExactly<V>(s: Items<V>, c: Contents)
    requires Sorted(s) && c.Keys == Keys(s) && forall k :: k in c ==> Spelled(k)
    ensures CanonicalChain(s, c) <==>
            forall x, y :: x in c && y in c && IsAuth(c, x) && IsAuth(c, y) ==> !SortOddly(x, y)
  {
    var names := AuthNames(s, c);
    ChainNames(s, c);
    ChainSpelled(s, c);
    if InCanonicalOrder(names) {
      forall x, y | x in c && y in c && IsAuth(c, x) && IsAuth(c, y)
        ensures !SortOddly(x, y)
      {
        assert x in names && y in names;
        NotOdd(names, x, y);
      }
    } else {
      var i, j :| 0 <= i < j < |names| && CompareCanonical(names[i], names[j]) >= 0;
      assert Lt(names[i], names[j]) && names[i] in names && names[j] in names;
      NamesAgree(names[i], names[j]);
    }
  }

  /** Names that both orders sort alike do not sort oddly. */
  lemma {:induction false} NotOdd(names: seq<Name>, x: Name, y: Name)
    requires AllSpelled(names) && InCanonicalOrder(names) && x in names && y in names
    requires forall i, j :: 0 <= i < j < |names| ==> Lt(names[i], names[j])
    ensures !SortOddly(x, y)
  {
    var i :| 0 <= i < |names| && names[i] == x;
    var j :| 0 <= j < |names| && names[j] == y;
    NamesAgree(x, y);
    CompareFlip(x, y);
    NameSigns(x, y);
    CompareCanonicalFlip(x, y);
    if i < j {
      assert Lt(names[i], names[j]) && CompareCanonical(names[i], names[j]) < 0;
    } else if j < i {
      assert Lt(names[j], names[i]) && CompareCanonical(names[j], names[i]) < 0;
    }
  }

  lemma {:induction false} NameSigns(a: Name, b: Name)
    ensures -1 <= Compare(a, b) <= 1 && -1 <= CompareLists(a, b) <= 1
  {
    if a != [] && b != [] {
      CompareSigns(a[0] + ".", b[0] + ".");
      NameSigns(a[1..], b[1..]);
    }
  }

  /** The last NSEC points to the apex exactly when the apex is stored and, if it is the root, no
      authoritative name has a top-level label that begins below the dot; in a zone whose names are
      all at or below the apex. */
  lemma {:induction false} LastPointsToApex<V>(s: Items<V>, c: Contents, origin: Name)
    requires Sorted(s) && c.Keys == Keys(s) && forall k :: k in c ==> IsSubDomain(origin, k)
    requires AuthNames(s, c) != []
    ensures After(AuthNames(s, c), |AuthNames(s, c)| - 1) == origin <==>
            origin in c && (origin == [] ==> forall k :: k in c && IsAuth(c, k) ==> !LowTop(k))
  {
    var names := AuthNames(s, c);
    ChainNames(s, c);
    assert names[0] in names;
    if origin in c {
      assert IsAuth(c, origin);
      assert origin in names;
      var i :| 0 <= i < |names| && names[i] == origin;
      if i > 0 {
        assert Lt(names[0], names[i]);
        CompareFlip(origin, names[0]);
        AncestorFirst(origin, names[0]);
      } else {
        forall k | k in c && IsAuth(c, k) && origin == []
          ensures !LowTop(k)
        {
          assert k in names;
          FirstIsLeast(names, k);
        }
      }
    }
  }

  lemma FirstIsLeast(names: seq<Name>, k: Name)
    requires k in names && forall i, j :: 0 <= i < j < |names| ==> Lt(names[i], names[j])
    ensures k == names[0] || Lt(names[0], k)
  {
  }

  /** A zone with these three names and no delegation gets the chain org, a-b.org, a.org and back
      to org, which is not in canonical order. */
  lemma {:induction false} DashBreaksChain(s: Items<int>, c: Contents)
    requires |s| == 3 && s[0].0 == ["org"] && s[1].0 == ["org", "a-b"] && s[2].0 == ["org", "a"]
    requires c.Keys == Keys(s) && forall k :: k in c ==> TYPE_NS !in c[k]
    ensures Sorted(s) && AuthNames(s, c) == [s[0].0, s[1].0, s[2].0] && forall k :: k in c ==> Spelled(k)
    ensures !CanonicalChain(s, c) && After(AuthNames(s, c), 2) == ["org"]
  {
    var o, y, x := s[0].0, s[1].0, s[2].0;
    DashSortsFirst();
    AncestorFirst(o, x);
    AncestorFirst(o, y);
    assert IsAuth(c, o) && IsAuth(c, x) && IsAuth(c, y);
    var s1, s2 := s[..2], s[..2][..1];
    assert s1[..1] == s2 && s2[..0] == [];
    assert AuthNames(s2, c) == [o];
    assert AuthNames(s1, c) == [o] + [y];
    PlainLabel("org");
    CompareCanonicalFlip(x, y);
    var names := AuthNames(s, c);
    assert names[1] == y && names[2] == x;
  }

  /** A root zone with the names "." and "*." gets the chain from "*." to "." and back, which is not
      in canonical order and whose last NSEC does not point to the apex. */
  lemma {:induction false} StarBreaksChain(s: Items<int>, c: Contents)
    requires |s| == 2 && s[0].0 == ["*"] && s[1].0 == []
    requires c.Keys == Keys(s) && forall k :: k in c ==> TYPE_NS !in c[k]
    ensures Sorted(s) && AuthNames(s, c) == [["*"], []] && forall k :: k in c ==> Spelled(k)
    ensures !CanonicalChain(s, c) && After(AuthNames(s, c), 1) == ["*"]
  {
    StarBeforeRoot();
    assert IsAuth(c, ["*"]) && IsAuth(c, []);
    var s1 := s[..1];
    assert s1[..0] == [] && AuthNames(s1, c) == [["*"]];
    CompareCanonicalFlip([], ["*"]);
    var names := AuthNames(s, c);
    assert names[0] == ["*"] && names[1] == [];
  }
}
