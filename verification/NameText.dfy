/** Names in presentation form, and the two loops that read them byte by byte:
    `less` (`plugin/file/tree/less.go`) and the delegation test inside `authwalk`
    (`plugin/file/tree/auth_walk.go`). Labels are in presentation form and may hold escapes.  */
module NameText {
  import opened Names
  import opened Escapes

  /** A name of labels in presentation form; without labels it is the root. */
  predicate ValidName(n: Name) {
    forall i :: 0 <= i < |n| ==> n[i] != [] && WellFormed(n[i])
  }

  /** The labels as the text shows them: the root has an empty one. */
  function Cells(n: Name): Name {
    if n == [] then [""] else n
  }

  predicate Labelled(n: Name) {
    n != [] && forall i :: 0 <= i < |n| ==> WellFormed(n[i])
  }

  /** Leftmost label first, every label followed by a dot. */
  function Render(n: Name): string {
    if n == [] then "" else n[|n| - 1] + "." + Render(n[..|n| - 1])
  }

  /** The text of a name; that of the root is a dot. */
  function Text(n: Name): string {
    Render(Cells(n))
  }

  /** Where the text of the ancestor with `k` labels starts inside the text of `n`. */
  function Offset(n: Name, k: nat): (r: int)
    requires k <= |n|
  {
    |Render(n)| - |Render(n[..k])|
  }

  /** `dns.PrevLabel`: offset of the label that is `k`-th from the right, and whether `k` overshoots. */
  function PrevLabel(s: string, k: nat): (nat, bool) {
    if s == "" then (0, true)
    else if k == 0 then (|s|, false)
    else ScanBack(s, if s[|s| - 1] == '.' then |s| - 2 else |s| - 1, k)
  }

  function ScanBack(s: string, l: int, k: nat): (nat, bool)
    requires -1 <= l < |s|
    decreases l + 1
  {
    if l < 0 || k == 0 then (0, k > 1)
    else if !Separates(s, l) then ScanBack(s, l - 1, k)
    else if k == 1 then (l + 1, false)
    else ScanBack(s, l - 1, k - 1)
  }

  /** `dns.NextLabel`: offset of the first label that starts after `offset`, and whether there is none. */
  function NextLabel(s: string, offset: nat): (nat, bool) {
    if s == "" then (0, true) else ScanForward(s, offset)
  }

  function ScanForward(s: string, i: nat): (nat, bool)
    decreases |s| - i
  {
    if i >= |s| - 1 then (i + 1, true)
    else if Separates(s, i) then (i + 1, false)
    else ScanForward(s, i + 1)
  }

  // ----- where labels and dots are

  lemma {:induction false} Layout(n: Name, k: nat)
    requires k < |n|
    ensures 0 <= Offset(n, k + 1) <= Offset(n, k) <= |Render(n)|
    ensures Render(n)[Offset(n, k + 1)..Offset(n, k)] == n[k] + "."
    ensures Render(n)[Offset(n, k)..] == Render(n[..k])
  {
    var s, m := Render(n), n[..|n| - 1];
    assert n[..|n|] == n;
    if k == |n| - 1 {
      assert s == n[k] + "." + Render(m);
    } else {
      Layout(m, k);
      assert m[..k] == n[..k] && m[..k + 1] == n[..k + 1];
      assert s[|n[|n| - 1]| + 1..] == Render(m);
    }
  }

  lemma Ends(n: Name)
    ensures Offset(n, |n|) == 0 && Offset(n, 0) == |Render(n)|
  {
    assert n[..|n|] == n && n[..0] == [];
  }

  lemma {:induction false} ScanBackSkips(s: string, lo: nat, hi: int, k: nat)
    requires lo - 1 <= hi < |s|
    requires forall i :: lo <= i <= hi ==> !Separates(s, i)
    requires k > 0
    ensures ScanBack(s, hi, k) == ScanBack(s, lo - 1, k)
    decreases hi + 1
  {
    if lo <= hi {
      ScanBackSkips(s, lo, hi - 1, k);
    }
  }

  /** Label `j` starts the text or follows a dot. */
  lemma {:induction false} LabelStarts(n: Name, j: nat)
    requires j < |n|
    ensures 0 <= Offset(n, j + 1) <= |Render(n)| && Slashes(Render(n), Offset(n, j + 1)) == 0
  {
    Ends(n);
    if j + 1 < |n| {
      var s, lo, hi := Render(n), Offset(n, j + 2), Offset(n, j + 1);
      Layout(n, j + 1);
      assert s[hi - 1] == s[lo..hi][|n[j + 1]|] == '.';
    }
  }

  /** No dot inside label `j` ends it, and the one behind it does. */
  lemma {:induction false} LabelBounds(n: Name, j: nat)
    requires Labelled(n) && j < |n|
    ensures 0 <= Offset(n, j + 1) <= Offset(n, j) - 1 < Offset(n, j) <= |Render(n)|
    ensures forall i :: Offset(n, j + 1) <= i <= Offset(n, j) - 2 ==> !Separates(Render(n), i)
    ensures Separates(Render(n), Offset(n, j) - 1)
  {
    var s, lo := Render(n), Offset(n, j + 1);
    Layout(n, j);
    assert s[lo..lo + |n[j]|] == s[lo..Offset(n, j)][..|n[j]|] == n[j];
    assert s[Offset(n, j) - 1] == s[lo..Offset(n, j)][|n[j]|];
    LabelStarts(n, j);
    LabelEnds(s, lo, n[j]);
  }

  lemma {:induction false} ScanBackFinds(n: Name, j: nat, k: nat)
    requires Labelled(n) && j < |n| && k > 0
    ensures 0 < Offset(n, j) <= |Render(n)|
    ensures ScanBack(Render(n), Offset(n, j) - 2, k)
         == if j + k <= |n| then (Offset(n, j + k), false) else (0, true)
    decreases |n| - j
  {
    var s, lo := Render(n), Offset(n, j + 1);
    LabelBounds(n, j);
    ScanBackSkips(s, lo, Offset(n, j) - 2, k);
    Ends(n);
    if j + 1 < |n| {
      LabelBounds(n, j + 1);
      if k > 1 {
        ScanBackFinds(n, j + 1, k - 1);
      }
    }
  }

  lemma {:induction false} EndsInDot(n: Name)
    requires n != []
    ensures Render(n) != "" && Render(n)[|Render(n)| - 1] == '.'
  {
    if |n| > 1 {
      EndsInDot(n[..|n| - 1]);
    }
  }

  lemma CellsLabelled(n: Name)
    requires ValidName(n)
    ensures Labelled(Cells(n))
  {
  }

  lemma {:induction false} PrevLabelFinds(n: Name, k: nat)
    requires ValidName(n) && k > 0
    ensures PrevLabel(Text(n), k) == if k <= |Cells(n)| then (Offset(Cells(n), k), false) else (0, true)
  {
    CellsLabelled(n);
    Ends(Cells(n));
    EndsInDot(Cells(n));
    ScanBackFinds(Cells(n), 0, k);
  }

  // ----- `less`

  /** The order of `less`: label by label from the root, with the keys that `doDDD` leaves. */
  function CompareKeyed(a: Name, b: Name): int {
    if a == [] && b == [] then 0
    else if a == [] then -1
    else if b == [] then 1
    else
      var c := CompareBytes(Key(a[0] + "."), Key(b[0] + "."));
      if c != 0 then c else CompareKeyed(a[1..], b[1..])
  }

  /** `[]byte(s)`, decoded. */
  method KeyBytes(s: string) returns (b: array<char>)
    ensures fresh(b) && b[..] == Key(s)
  {
    b := new char[|s|](i requires 0 <= i < |s| => s[i]);
    assert b[..] == s;
    DoDDD(b);
  }

  /** `bytes.Compare` on two decoded labels. */
  method CompareDecoded(a: string, b: string) returns (res: int)
    ensures res == CompareBytes(Key(a), Key(b))
    ensures res == 0 ==> |a| == |b|
  {
    var ab := KeyBytes(a);
    var bb := KeyBytes(b);
    KeyLength(a);
    KeyLength(b);
    CompareBytesFlip(Key(a), Key(b));
    res := CompareBytes(ab[..], bb[..]);
  }

  /** What round `i` compares: a label and its dot, or nothing once the name is used up. */
  ghost function PieceAt(n: Name, i: nat): string
    requires 0 < i
  {
    if i <= |n| then n[i - 1] + "." else ""
  }

  /** Where the piece of round `i` starts. */
  method Piece(s: string, i: nat, j: int, ghost n: Name) returns (lo: nat, over: bool)
    requires ValidName(n) && s == Text(n) && 0 < i <= |Cells(n)| + 1 && j == Offset(Cells(n), i - 1)
    ensures lo <= j <= |s| && s[lo..j] == PieceAt(Cells(n), i)
    ensures over <==> i > |Cells(n)|
    ensures !over ==> lo == Offset(Cells(n), i)
  {
    PrevLabelFinds(n, i);
    lo, over := PrevLabel(s, i).0, PrevLabel(s, i).1;
    Ends(Cells(n));
    if i <= |Cells(n)| {
      Layout(Cells(n), i - 1);
    }
  }

  /** One label more was equal. */
  lemma {:induction false} NextRound(a: Name, b: Name, i: nat)
    requires 0 < i <= |a| && i <= |b| && CompareBytes(Key(a[i - 1] + "."), Key(b[i - 1] + ".")) == 0
    ensures CompareKeyed(a[i - 1..], b[i - 1..]) == CompareKeyed(a[i..], b[i..])
  {
    assert a[i - 1..][1..] == a[i..] && b[i - 1..][1..] == b[i..];
  }

  /** A round that decides. */
  lemma {:induction false} LastRound(a: Name, b: Name, i: nat)
    requires 0 < i <= |a| + 1 && i <= |b| + 1 && CompareBytes(Key(PieceAt(a, i)), Key(PieceAt(b, i))) != 0
    ensures CompareKeyed(a[i - 1..], b[i - 1..]) == CompareBytes(Key(PieceAt(a, i)), Key(PieceAt(b, i)))
  {
    KeyLength(PieceAt(a, i));
    KeyLength(PieceAt(b, i));
  }

  /** `less` on the texts of two names, with escapes or without, the root among them. */
  method Less(a: string, b: string, ghost na: Name, ghost nb: Name) returns (res: int)
    requires ValidName(na) && ValidName(nb)
    requires a == Text(na) && b == Text(nb)
    ensures res == CompareKeyed(Cells(na), Cells(nb))
  {
    var i, aj, bj := 1, |a|, |b|;
    ghost var ca, cb := Cells(na), Cells(nb);
    Ends(ca);
    Ends(cb);
    while true
      invariant 1 <= i <= |ca| + 1 && i <= |cb| + 1
      invariant aj == Offset(ca, i - 1) && bj == Offset(cb, i - 1)
      invariant CompareKeyed(ca, cb) == CompareKeyed(ca[i - 1..], cb[i - 1..])
      decreases |ca| - i
    {
      var ai, oka := Piece(a, i, aj, na);
      var bi, okb := Piece(b, i, bj, nb);
      if oka && okb {
        return 0;
      }
      res := CompareDecoded(a[ai..aj], b[bi..bj]);
      if res != 0 {
        LastRound(ca, cb, i);
        return res;
      }
      NextRound(ca, cb, i);
      i := i + 1;
      aj, bj := ai, bi;
    }
    assert false;
  }

  /** Without `\DDD` a label is its own key. */
  predicate Uncoded(n: Name) {
    forall i :: 0 <= i < |n| ==> Count(n[i] + ".") == 0
  }

  lemma {:induction false} UncodedKey(s: string)
    requires Count(s) == 0
    ensures Key(s) == s
  {
    if s != [] {
      UncodedKey(s[1..]);
      assert s == [s[0]] + s[1..];
    }
  }

  lemma {:induction false} UncodedLists(a: Name, b: Name)
    requires Uncoded(a) && Uncoded(b)
    ensures CompareKeyed(a, b) == CompareLists(a, b)
  {
    if a != [] && b != [] {
      UncodedKey(a[0] + ".");
      UncodedKey(b[0] + ".");
      UncodedLists(a[1..], b[1..]);
    }
  }

  /** Without `\DDD` escapes `less` computes the order of the tree, the root included. */
  lemma {:induction false} UncodedCompare(a: Name, b: Name)
    requires ValidName(a) && ValidName(b) && Uncoded(a) && Uncoded(b)
    ensures CompareKeyed(Cells(a), Cells(b)) == Compare(a, b)
  {
    UncodedCells(a);
    UncodedCells(b);
    UncodedLists(Cells(a), Cells(b));
    if a == [] && b == [] {
      ListsFlip([""], [""]);
    } else if a == [] {
      RootAgainst(b);
    } else if b == [] {
      RootAgainst(a);
    }
  }

  lemma UncodedCells(n: Name)
    requires Uncoded(n)
    ensures Uncoded(Cells(n))
  {
    assert "" + "." == "." && "."[1..] == "" && Count(".") == 0;
  }

  lemma {:induction false} RootAgainst(b: Name)
    requires ValidName(b) && b != []
    ensures CompareLists([""], b) == -CompareLists(b, [""]) == if LowTop(b) then 1 else -1
  {
    ListsFlip([""], b);
    assert WellFormed(b[0]) && b[0] != [];
    assert ("" + ".")[0] == '.' && (b[0] + ".")[0] == b[0][0] != '.';
  }

  // ----- the delegation test of `authwalk`

  lemma {:induction false} DotsEndLabels(n: Name, d: nat)
    requires Labelled(n) && Separates(Render(n), d)
    ensures exists k :: 0 <= k < |n| && Offset(n, k) == d + 1
  {
    var s, leaf, m := Render(n), n[|n| - 1], n[..|n| - 1];
    var c := |leaf| + 1;
    assert s == leaf + "." + Render(m) && leaf == s[0..|leaf|] && s[c..] == Render(m);
    LabelEnds(s, 0, leaf);
    assert |leaf| <= d;
    if d == |leaf| {
      assert Offset(n, |n| - 1) == d + 1;
    } else {
      assert s[d] == Render(m)[d - c] && s[c - 1] == '.';
      SlashesBehind(s, c, d);
      DotsEndLabels(m, d - c);
      var k :| 0 <= k < |m| && Offset(m, k) == d - c + 1;
      assert m[..k] == n[..k];
      assert Offset(n, k) == d + 1;
    }
  }

  lemma {:induction false} ScanForwardFinds(s: string, i: nat)
    ensures ScanForward(s, i).1 ==> forall d :: i <= d < |s| - 1 ==> !Separates(s, d)
    ensures !ScanForward(s, i).1 ==>
              var j := ScanForward(s, i).0;
              i < j < |s| && Separates(s, j - 1) && forall d :: i <= d < j - 1 ==> !Separates(s, d)
    decreases |s| - i
  {
    if i < |s| - 1 && !Separates(s, i) {
      ScanForwardFinds(s, i + 1);
    }
  }

  /** `authwalk` looks at the suffix that starts after each byte, not after each label, and
      still meets every proper ancestor: the name is found delegated exactly when one of
      them is in `ns`. */
  method Authoritative(name: string, ns: set<string>, ghost n: Name) returns (auth: bool)
    requires ValidName(n) && name == Text(n)
    ensures auth <==> forall k :: 0 < k < |n| ==> Text(n[..k]) !in ns
  {
    auth := true;
    var i := 0;
    ghost var c := Cells(n);
    CellsLabelled(n);
    forall k | 0 < k < |c|
      ensures 0 < Offset(c, k)
    {
      InnerDot(c, k);
    }
    while true
      invariant auth && 0 <= i <= |name|
      invariant forall k :: 0 < k < |c| && Offset(c, k) <= i ==> Render(c[..k]) !in ns
      decreases |name| - i
    {
      ScanForwardFinds(name, i);
      var (j, end) := NextLabel(name, i);
      if end {
        forall k | 0 < k < |c|
          ensures Offset(c, k) <= i
        {
          InnerDot(c, k);
        }
        break;
      }
      DotsEndLabels(c, j - 1);
      ghost var k0 :| 0 <= k0 < |c| && Offset(c, k0) == j;
      Layout(c, k0);
      if name[j..] in ns {
        Ends(c);
        auth := false;
        break;
      }
      forall k | 0 < k < |c| && Offset(c, k) == i + 1
        ensures Render(c[..k]) !in ns
      {
        InnerDot(c, k);
        Layout(c, k);
      }
      i := i + 1;
    }
  }

  lemma InnerDot(n: Name, k: nat)
    requires Labelled(n) && 0 < k < |n|
    ensures 0 < Offset(n, k) < |Render(n)|
    ensures Separates(Render(n), Offset(n, k) - 1)
  {
    LabelBounds(n, k);
    EndsInDot(n[..k]);
  }

  lemma {:induction false} RenderInjective(a: Name, b: Name)
    requires Labelled(a) && Labelled(b) && Render(a) == Render(b)
    ensures a == b
  {
    var s, la, lb, ma, mb := Render(a), a[|a| - 1], b[|b| - 1], a[..|a| - 1], b[..|b| - 1];
    assert s == la + "." + Render(ma) == lb + "." + Render(mb);
    assert la == s[0..|la|] && lb == s[0..|lb|] && s[|la|] == '.' && s[|lb|] == '.';
    LabelEnds(s, 0, la);
    LabelEnds(s, 0, lb);
    assert |la| == |lb|;
    assert Render(ma) == s[|la| + 1..] == Render(mb);
    if ma != [] && mb != [] {
      RenderInjective(ma, mb);
    } else {
      if ma != [] { EndsInDot(ma); }
      if mb != [] { EndsInDot(mb); }
    }
    assert a == ma + [la] && b == mb + [lb];
  }

  /** Different names have different texts. */
  lemma {:induction false} TextInjective(a: Name, b: Name)
    requires ValidName(a) && ValidName(b) && Text(a) == Text(b)
    ensures a == b
  {
    CellsLabelled(a);
    CellsLabelled(b);
    RenderInjective(Cells(a), Cells(b));
  }
}
