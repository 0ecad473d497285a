/** Labels in presentation form, and `doDDD` (`plugin/file/tree/less.go`), which decodes their
    `\DDD` escapes in place before labels are compared.  */
module Escapes {
  import opened Names

  // ----- where labels end

  /** A label in presentation form: a dot or a backslash in it follows a backslash. */
  predicate WellFormed(l: string) {
    if l == [] then true
    else if l[0] == '\\' then |l| > 1 && WellFormed(l[2..])
    else l[0] != '.' && WellFormed(l[1..])
  }

  /** The number of backslashes right before position `d`. */
  function Slashes(s: string, d: nat): nat
    requires d <= |s|
  {
    if d > 0 && s[d - 1] == '\\' then 1 + Slashes(s, d - 1) else 0
  }

  /** The dot at `d` ends a label: an even number of backslashes is before it. */
  predicate Separates(s: string, d: nat) {
    d < |s| && s[d] == '.' && Slashes(s, d) % 2 == 0
  }

  /** No dot inside a label ends it, and the dot behind it does. */
  lemma {:induction false} LabelEnds(s: string, p: nat, l: string)
    requires WellFormed(l) && p + |l| < |s| && s[p..p + |l|] == l && s[p + |l|] == '.' && Slashes(s, p) % 2 == 0
    ensures forall d :: p <= d < p + |l| ==> !Separates(s, d)
    ensures Separates(s, p + |l|)
    decreases |l|
  {
    if l != [] {
      var n := if l[0] == '\\' then 2 else 1;
      assert s[p] == l[0];
      assert s[p + n..p + |l|] == l[n..];
      LabelEnds(s, p + n, l[n..]);
      if n == 2 {
        assert Slashes(s, p + 1) == 1 + Slashes(s, p);
      }
    }
  }

  /** What is before a dot does not matter to the dots behind it. */
  lemma {:induction false} SlashesBehind(s: string, c: nat, d: nat)
    requires 0 < c <= d <= |s| && s[c - 1] != '\\'
    ensures Slashes(s, d) == Slashes(s[c..], d - c)
    decreases d
  {
    if c < d {
      SlashesBehind(s, c, d - 1);
    }
  }

  // ----- `\DDD`

  predicate IsDigit(c: char) {
    '0' <= c <= '9'
  }

  /** The text begins with `\DDD`. */
  predicate Coded(s: string) {
    |s| > 3 && s[0] == '\\' && IsDigit(s[1]) && IsDigit(s[2]) && IsDigit(s[3])
  }

  /** `dddToByte`, which wraps around at 256. */
  function DddToByte(s: string): char
    requires Coded(s)
  {
    (((s[1] - '0') as int * 100 + (s[2] - '0') as int * 10 + (s[3] - '0') as int) % 256) as char
  }

  /** The text with its escapes decoded, from left to right. */
  function Decode(s: string): string {
    if s == [] then []
    else if Coded(s) then [DddToByte(s)] + Decode(s[4..])
    else [s[0]] + Decode(s[1..])
  }

  /** How many escapes are decoded. */
  function Count(s: string): nat {
    if s == [] then 0
    else if Coded(s) then 1 + Count(s[4..])
    else Count(s[1..])
  }

  function Repeat(l: string, n: nat): string {
    if n == 0 then [] else l + Repeat(l, n - 1)
  }

  function Last(s: string): string {
    if |s| < 3 then s else s[|s| - 3..]
  }

  /** What `doDDD` leaves behind the decoded text: for each escape the last three bytes again. */
  function Rest(s: string): string {
    Repeat(Last(s), Count(s))
  }

  /** What `less` compares. */
  function Key(s: string): string {
    Decode(s) + Rest(s)
  }

  /** The inner loop: what follows an escape moves up by three. */
  method MoveUp(b: array<char>, i: nat, lb: nat)
    requires i + 3 < lb <= b.Length
    modifies b
    ensures b[..] == old(b[..i + 1]) + old(b[i + 4..lb]) + old(b[lb - 3..])
  {
    for j := i + 1 to lb - 3
      invariant forall k :: 0 <= k < b.Length && (k < i + 1 || j <= k) ==> b[k] == old(b[k])
      invariant forall k :: i + 1 <= k < j ==> b[k] == old(b[k + 3])
    {
      b[j] := b[j + 3];
    }
  }

  /** The escape at `i` becomes its byte, and what follows up to `lb` moves up. */
  function DecodedAt(b: string, i: nat, lb: nat): string
    requires i < lb <= |b| && Coded(b[i..lb])
  {
    b[..i] + [DddToByte(b[i..lb])] + b[i + 4..lb] + b[lb - 3..]
  }

  method DecodeAt(b: array<char>, i: nat, lb: nat)
    requires i < lb <= b.Length && Coded(b[..][i..lb])
    modifies b
    ensures b[..] == DecodedAt(old(b[..]), i, lb)
  {
    assert b[..][i..lb] == b[i..lb];
    b[i] := DddToByte(b[i..lb]);
    assert b[i + 4..lb] == old(b[i + 4..lb]) && b[lb - 3..] == old(b[lb - 3..]);
    assert b[..i + 1] == old(b[..i]) + [DddToByte(old(b[i..lb]))];
    MoveUp(b, i, lb);
  }

  /** `b` after `c` escapes: what is decoded, then the text still to come, then what is left behind. */
  ghost predicate Halfway(s: string, b: string, i: nat, lb: nat, c: nat) {
    i <= lb && lb + 3 * c == |s| == |b| && HalfwayAt(s, b[..i], s[i + 3 * c..], c) && b == b[..i] + s[i + 3 * c..] + Repeat(Last(s), c)
  }

  /** `done` is decoded from what is before `t`. */
  ghost predicate HalfwayAt(s: string, done: string, t: string, c: nat) {
    Decode(s) == done + Decode(t) && Count(s) == c + Count(t)
  }

  lemma {:induction false} PlainStep(s: string, b: string, i: nat, lb: nat, c: nat)
    requires Halfway(s, b, i, lb, c) && i < lb && !Coded(b[i..lb])
    ensures Halfway(s, b, i + 1, lb, c)
  {
    var t := s[i + 3 * c..];
    assert b[i..lb] == t && b[..i + 1] == b[..i] + [t[0]];
    PlainRead(s, b[..i], t, c);
    assert t[1..] == s[i + 1 + 3 * c..] && t == [t[0]] + t[1..];
  }

  lemma PlainRead(s: string, done: string, t: string, c: nat)
    requires HalfwayAt(s, done, t, c) && t != [] && !Coded(t)
    ensures HalfwayAt(s, done + [t[0]], t[1..], c)
  {
  }

  lemma CodedRead(s: string, done: string, t: string, c: nat)
    requires HalfwayAt(s, done, t, c) && Coded(t)
    ensures HalfwayAt(s, done + [DddToByte(t)], t[4..], c + 1)
  {
  }

  lemma {:induction false} CodedStep(s: string, b: string, i: nat, lb: nat, c: nat)
    requires Halfway(s, b, i, lb, c) && i < lb && Coded(b[i..lb])
    ensures Halfway(s, DecodedAt(b, i, lb), i + 1, lb - 3, c + 1)
  {
    var t, b' := s[i + 3 * c..], DecodedAt(b, i, lb);
    assert b[i..lb] == t && t[4..] == s[i + 1 + 3 * (c + 1)..] == b[i + 4..lb];
    CodedRead(s, b[..i], t, c);
    assert b'[..i + 1] == b[..i] + [DddToByte(t)];
    assert b[lb - 3..] == t[|t| - 3..] + Repeat(Last(s), c) && t[|t| - 3..] == Last(s);
  }

  lemma Finished(s: string, b: string, i: nat, lb: nat, c: nat)
    requires Halfway(s, b, i, lb, c) && i == lb
    ensures b == Key(s)
  {
    assert s[i + 3 * c..] == [];
  }

  /** The bytes and the length after position `i` was looked at. */
  function Visited(b: string, i: nat, lb: nat): (string, int)
    requires i < lb <= |b|
  {
    if Coded(b[i..lb]) then (DecodedAt(b, i, lb), lb - 3) else (b, lb)
  }

  lemma {:induction false} Visit(s: string, b: string, i: nat, lb: nat, c: nat) returns (c': nat)
    requires Halfway(s, b, i, lb, c) && i < lb
    ensures i < Visited(b, i, lb).1 <= lb
    ensures Halfway(s, Visited(b, i, lb).0, i + 1, Visited(b, i, lb).1, c')
  {
    if Coded(b[i..lb]) {
      CodedStep(s, b, i, lb, c);
      c' := c + 1;
    } else {
      PlainStep(s, b, i, lb, c);
      c' := c;
    }
  }

  /** One round of the loop. */
  method VisitAt(b: array<char>, i: nat, lb: nat) returns (lb': int)
    requires i < lb <= b.Length
    modifies b
    ensures (b[..], lb') == Visited(old(b[..]), i, lb)
  {
    lb' := lb;
    assert b[..][i..lb] == b[i..lb];
    if i + 3 < lb && b[i] == '\\' && IsDigit(b[i + 1]) && IsDigit(b[i + 2]) && IsDigit(b[i + 3]) {
      DecodeAt(b, i, lb);
      lb' := lb - 3;
    }
  }

  /** `doDDD` computes `Key` in place. */
  method DoDDD(b: array<char>)
    modifies b
    ensures b[..] == Key(old(b[..]))
  {
    var i, lb := 0, b.Length;
    ghost var s, c := b[..], 0;
    assert s[0..] == s;
    while i < lb
      invariant 0 <= i <= lb <= b.Length && Halfway(s, b[..], i, lb, c)
      decreases lb - i
    {
      ghost var c' := Visit(s, b[..], i, lb, c);
      lb := VisitAt(b, i, lb);
      i, c := i + 1, c';
    }
    Finished(s, b[..], i, lb, c);
  }

  // ----- what the comparison of keys means

  lemma {:induction false} RepeatLength(l: string, n: nat)
    ensures |Repeat(l, n)| == n * |l|
  {
    if n > 0 {
      RepeatLength(l, n - 1);
    }
  }

  lemma {:induction false} DecodeLength(s: string)
    ensures |Decode(s)| + 3 * Count(s) == |s| && (Count(s) > 0 ==> |s| > 3)
  {
    if s != [] {
      DecodeLength(if Coded(s) then s[4..] else s[1..]);
    }
  }

  lemma {:induction false} KeyLength(s: string)
    ensures |Key(s)| == |s| && |Rest(s)| == 3 * Count(s)
  {
    DecodeLength(s);
    RepeatLength(Last(s), Count(s));
  }

  /** Two texts with the same decoding are the same to the tree exactly when they have equally many
      escapes and, if they have any, end in the same three bytes. */
  lemma {:induction false} EqualKeysExactly(s: string, t: string)
    requires Decode(s) == Decode(t)
    ensures CompareBytes(Key(s), Key(t)) == 0 <==> Count(s) == Count(t) && (Count(s) > 0 ==> Last(s) == Last(t))
  {
    KeyLength(s);
    KeyLength(t);
    DecodeLength(s);
    DecodeLength(t);
    CompareBytesFlip(Key(s), Key(t));
    if Key(s) == Key(t) {
      assert Rest(s) == Key(s)[|Decode(s)|..] == Rest(t);
      if Count(s) > 0 {
        assert Last(s) == Rest(s)[..3] && Last(t) == Rest(t)[..3];
      }
    }
  }

  /** `\097` is another way to write `a`, and the tree keeps them apart. */
  lemma CodedIsAnother()
    ensures Decode("\\097.") == Decode("a.") && CompareBytes(Key("\\097."), Key("a.")) == 1
  {
    var s := "\\097.";
    assert s[4..] == ".";
    assert "."[1..] == "" && "a."[1..] == ".";
    assert Decode(s) == "a." && Count(s) == 1 && Last(s) == "97.";
    assert Repeat(Last(s), 1) == "97.";
    assert Count("a.") == 0;
    assert Key(s) == "a.97." && Key("a.") == "a.";
    BehindPrefix("a.", "97.", "");
  }

  lemma {:induction false} BehindPrefix(x: string, u: string, v: string)
    ensures CompareBytes(x + u, x + v) == CompareBytes(u, v)
  {
    if x == [] {
      assert x + u == u && x + v == v;
    } else {
      assert (x + u)[1..] == x[1..] + u && (x + v)[1..] == x[1..] + v;
      BehindPrefix(x[1..], u, v);
    }
  }

  lemma {:induction false} ApartStaysApart(x: string, y: string, u: string, v: string)
    requires !(x <= y) && !(y <= x)
    ensures CompareBytes(x + u, y + v) == CompareBytes(x, y)
  {
    assert (x + u)[0] == x[0] && (y + v)[0] == y[0];
    assert (x + u)[1..] == x[1..] + u && (y + v)[1..] == y[1..] + v;
    if x[0] == y[0] {
      assert x == [x[0]] + x[1..] && y == [y[0]] + y[1..];
      ApartStaysApart(x[1..], y[1..], u, v);
    }
  }

  /** What `doDDD` left behind misleads: equal decodings have different leftovers, or one decoding
      begins another and its leftover does not come before what follows there. */
  predicate Misled(s: string, t: string) {
    if Decode(s) == Decode(t) then Rest(s) != Rest(t)
    else Decode(s) < Decode(t) && Count(s) > 0 && CompareBytes(Rest(s), Decode(t)[|Decode(s)|..] + Rest(t)) >= 0
  }

  /** Keys are ordered as the decoded texts are, exactly when what is left behind does not decide. */
  lemma {:induction false} DecodedOrderExactly(s: string, t: string)
    ensures CompareBytes(Key(s), Key(t)) == CompareBytes(Decode(s), Decode(t)) <==> !Misled(s, t) && !Misled(t, s)
  {
    CompareBytesFlip(Key(s), Key(t));
    CompareBytesFlip(Decode(s), Decode(t));
    if Decode(s) <= Decode(t) {
      BegunBy(s, t);
    }
    if Decode(t) <= Decode(s) {
      BegunBy(t, s);
    }
    if !(Decode(s) <= Decode(t)) && !(Decode(t) <= Decode(s)) {
      ApartStaysApart(Decode(s), Decode(t), Rest(s), Rest(t));
    }
  }

  lemma {:induction false} BegunBy(s: string, t: string)
    requires Decode(s) <= Decode(t)
    ensures CompareBytes(Key(s), Key(t)) == CompareBytes(Rest(s), Decode(t)[|Decode(s)|..] + Rest(t))
    ensures Decode(s) == Decode(t) ==> (CompareBytes(Key(s), Key(t)) == 0 <==> Rest(s) == Rest(t))
    ensures Decode(s) != Decode(t) ==> CompareBytes(Decode(s), Decode(t)) == -1 && (Count(s) == 0 ==> CompareBytes(Key(s), Key(t)) == -1)
    ensures -1 <= CompareBytes(Key(s), Key(t)) <= 1
  {
    var x, y := Decode(s), Decode(t)[|Decode(s)|..];
    assert Decode(t) == x + y && Key(t) == x + (y + Rest(t));
    BehindPrefix(x, Rest(s), y + Rest(t));
    BehindPrefix(x, [], y);
    assert x + [] == x;
    CompareBytesFlip(Rest(s), y + Rest(t));
    CompareSigns(Key(s), Key(t));
  }

  lemma {:induction false} CompareSigns(a: string, b: string)
    ensures -1 <= CompareBytes(a, b) <= 1
  {
    if a != [] && b != [] {
      CompareSigns(a[1..], b[1..]);
    }
  }
}
