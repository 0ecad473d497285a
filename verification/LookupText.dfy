/** The names a lookup forms, on their text: `nameFromRight` (`plugin/file/zone.go`) and
    `replaceWithAsteriskLabel` (`plugin/file/wildcard.go`).  */
module LookupText {
  import opened Names
  import opened Escapes
  import opened NameText
  import opened Queries

  /** A query for the root in a zone at the root: its text has an empty label, which is one level
      more than it should have. */
  predicate RootAtRoot(o: Name, q: Name, i: int) {
    o == [] && q == [] && i == 1
  }

  /** Levels in terms of the labels that the text shows. */
  lemma {:induction false} LevelShown(o: Name, q: Name, i: int)
    requires i > 0
    ensures !RootAtRoot(o, q, i) ==> (Level(o, q, i).None? <==> |o| + i > |Cells(q)|)
    ensures !RootAtRoot(o, q, i) && |o| + i <= |Cells(q)| ==> Text(Level(o, q, i).value) == Render(Cells(q)[..|o| + i])
    ensures RootAtRoot(o, q, i) ==> |o| + i <= |Cells(q)| && Render(Cells(q)[..|o| + i]) == Text(o)
  {
    if RootAtRoot(o, q, i) {
      assert [""][..1] == [""];
    }
  }

  /** `nameFromRight` computes `Level`; a query for the root in a zone at the root meets the
      origin once more. */
  method NameFromRight(qname: string, i: int, origin: string, origLen: nat, ghost q: Name, ghost o: Name)
    returns (parts: string, shot: bool)
    requires ValidName(q) && qname == Text(q)
    requires ValidName(o) && origin == Text(o) && origLen == |o|
    ensures i <= 0 ==> parts == origin && !shot
    ensures i > 0 && !RootAtRoot(o, q, i) ==> (shot <==> Level(o, q, i).None?)
    ensures i > 0 && !RootAtRoot(o, q, i) ==> parts == if shot then qname else Text(Level(o, q, i).value)
    ensures RootAtRoot(o, q, i) ==> parts == origin && !shot
  {
    if i <= 0 {
      return origin, false;
    }
    LevelShown(o, q, i);
    parts, shot := FromRight(qname, i, origLen, q);
  }

  /** The loops of `nameFromRight`. */
  method FromRight(qname: string, i: nat, origLen: nat, ghost q: Name) returns (parts: string, shot: bool)
    requires ValidName(q) && qname == Text(q) && i > 0
    ensures shot <==> origLen + i > |Cells(q)|
    ensures parts == if shot then qname else Render(Cells(q)[..origLen + i])
  {
    ghost var c := Cells(q);
    for j := 1 to origLen + 1
      invariant j - 1 <= |c|
    {
      PrevLabelFinds(q, j);
      var (_, over) := PrevLabel(qname, j);
      if over {
        return qname, true;
      }
    }
    var k := 0;
    for j := 1 to i + 1
      invariant origLen + j - 1 <= |c|
      invariant j > 1 ==> k == Offset(c, origLen + j - 1)
    {
      PrevLabelFinds(q, j + origLen);
      var over;
      k, over := PrevLabel(qname, j + origLen).0, PrevLabel(qname, j + origLen).1;
      if over {
        return qname, true;
      }
    }
    Suffix(c, origLen + i);
    return qname[k..], false;
  }

  lemma Suffix(q: Name, k: nat)
    requires k <= |q|
    ensures 0 <= Offset(q, k) <= |Render(q)| && Render(q)[Offset(q, k)..] == Render(q[..k])
  {
    NameText.Ends(q);
    if k < |q| {
      Layout(q, k);
    } else {
      assert q[..k] == q;
    }
  }

  /** The first label ends at the first dot that ends one. */
  lemma {:induction false} FirstLabel(q: Name)
    requires Labelled(q)
    ensures NextLabel(Render(q), 0).1 <==> |q| == 1
    ensures |q| > 1 ==> NextLabel(Render(q), 0).0 == |q[|q| - 1]| + 1
  {
    var s, leaf, rest := Render(q), q[|q| - 1], Render(q[..|q| - 1]);
    assert s == leaf + "." + rest && s[0..|leaf|] == leaf && s[|leaf|] == '.';
    LabelEnds(s, 0, leaf);
    ScanForwardFinds(s, 0);
    if |q| > 1 {
      EndsInDot(q[..|q| - 1]);
      assert |leaf| < |s| - 1;
    } else {
      assert rest == "";
    }
  }

  /** `replaceWithAsteriskLabel` computes `Asterisk`; no wildcard is the empty string. */
  method ReplaceWithAsteriskLabel(qname: string, ghost q: Name) returns (wildcard: string)
    requires ValidName(q) && qname == Text(q)
    ensures wildcard == match Asterisk(q) case Some(w) => Text(w) case None => ""
  {
    CellsLabelled(q);
    FirstLabel(Cells(q));
    var (i, end) := NextLabel(qname, 0);
    if end {
      return "";
    }
    StarText(q);
    return "*." + qname[i..];
  }

  /** The wildcard beside a name, as a text. */
  lemma {:induction false} StarText(q: Name)
    requires |q| > 1
    ensures Text(Asterisk(q).value) == "*." + Text(q)[|q[|q| - 1]| + 1..]
  {
    var m := q[..|q| - 1];
    assert Render(q)[|q[|q| - 1]| + 1..] == Render(m) && (m + ["*"])[..|m|] == m;
  }
}
