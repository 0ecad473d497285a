/** Which records an answer from a service backend holds, told by the services
    (`plugin/backend_lookup.go`).  */
module Services {
  import opened Names
  import opened Records
  import opened Llrb
  import opened Zones
  import opened Backend

  // ----- the services that are read

  /** `ss` are the services read for `q`: at the name of the zone those of apex.dns below it, where
      there are any, but for TXT; and everywhere else those of the name itself. */
  ghost predicate Reads(b: ServiceBackend, zone: Name, q: Name, want: PlainType, ss: seq<Service>) {
    if want != TYPE_TXT && LowerName(q) == zone && b.services(zone + ["dns", "apex"]).Some?
    then b.services(zone + ["dns", "apex"]) == Some(ss)
    else b.services(q) == Some(ss)
  }

  lemma ReadsExactly(b: ServiceBackend, zone: Name, q: Name, want: PlainType, ss: seq<Service>)
    ensures Reads(b, zone, q, want, ss) <==> ServicesFor(b, zone, q, want) == Some(ss)
  {
  }

  /** A name is in a zone when it ends in the labels of the zone, in any case. */
  lemma WithinExactly(zone: Name, n: Name)
    ensures Within(zone, n) <==> |zone| <= |n| && forall i :: 0 <= i < |zone| ==> LowerLabel(zone[i]) == LowerLabel(n[i])
  {
    var z, l := LowerName(zone), LowerName(n);
    if z <= l {
      forall i | 0 <= i < |zone|
        ensures LowerLabel(zone[i]) == LowerLabel(n[i])
      {
        assert z[i] == l[i];
      }
    } else if |zone| <= |n| {
      var i :| 0 <= i < |zone| && z[i] != l[i];
      assert LowerLabel(zone[i]) != LowerLabel(n[i]);
    }
  }

  // ----- what one service gives

  /** The first service of the type with this text. */
  ghost predicate FirstOf(ss: seq<Service>, i: nat, want: PlainType, text: string, ttl: nat) {
    && i < |ss| && ss[i] == Value(want, text, ttl)
    && forall x :: 0 <= x < i && ss[x].Value? && ss[x].rrtype == want ==> ss[x].text != text
  }

  /** An alias that is no direct loop, not too deep and not met before. */
  ghost predicate MayGo(q: Name, prev: seq<RR>, host: Name) {
    !Within(q, host) && |prev| <= 7 && forall x :: 0 <= x < |prev| && prev[x].data.CNAME? ==> prev[x].data.target != host
  }

  /** What service `i` adds to the answer: a value of the type, the first time it occurs; or the CNAME of
      an alias with what its target answers in the zone, if anything, or with what a lookup elsewhere gave. */
  ghost predicate Gives(b: ServiceBackend, zone: Name, q: Name, want: PlainType, prev: seq<RR>, ss: seq<Service>, i: nat, p: Piece)
    requires i < |ss|
  {
    match ss[i]
    case Value(t, text, ttl) => FirstOf(ss, i, want, text, ttl) && p == Own(RR(q, ttl, Plain(t, text)))
    case Alias(host, ttl) =>
      && MayGo(q, prev, host)
      && var c := RR(q, ttl, CNAME(host));
         if Within(zone, host) then
           var r := Answer(b, zone, host, want, prev + [c]);
           r.Answered? && Backend.Flatten(r.pieces) != [] && p == Chain(c, r.pieces)
         else b.lookup(host).Some? && p == Away(c, b.lookup(host).value.answer)
  }

  /** A reply is truncated where that of an alias is; outside the zone not for TXT. */
  ghost predicate Truncates(b: ServiceBackend, zone: Name, q: Name, want: PlainType, prev: seq<RR>, s: Service) {
    && s.Alias? && MayGo(q, prev, s.host)
    && var c := RR(q, s.ttl, CNAME(s.host));
       if Within(zone, s.host) then
         var r := Answer(b, zone, s.host, want, prev + [c]); r.Answered? && r.truncated
       else b.lookup(s.host).Some? && b.lookup(s.host).value.truncated && want != TYPE_TXT
  }

  lemma MayGoExactly(q: Name, prev: seq<RR>, host: Name)
    ensures MayGo(q, prev, host) <==> !(Within(q, host) || |prev| > 7 || Duplicate(host, prev))
  {
    if Duplicate(host, prev) {
      var i :| 0 <= i < |prev| && Backend.Target(prev[i]) == Some(host);
      assert prev[i].data.CNAME?;
    }
    forall x | 0 <= x < |prev| && prev[x].data.CNAME? && prev[x].data.target == host
      ensures Duplicate(host, prev)
    {
      assert Backend.Target(prev[x]) == Some(host);
    }
  }

  lemma {:induction false} GivesExactly(b: ServiceBackend, zone: Name, q: Name, want: PlainType, prev: seq<RR>, ss: seq<Service>, i: nat)
    requires i < |ss|
    ensures var (ps, tc) := Contribute(b, zone, q, want, prev, ss, i);
            && |ps| <= 1 && (forall p :: Gives(b, zone, q, want, prev, ss, i, p) <==> ps == [p])
            && (tc <==> Truncates(b, zone, q, want, prev, ss[i]))
  {
    match ss[i] {
      case Value(t, text, ttl) =>
        assert t == want ==> (IsNew(ss, i) <==> FirstOf(ss, i, want, text, ttl));
      case Alias(host, ttl) =>
        AliasGivesExactly(b, zone, q, want, prev, ss, i, host, ttl);
    }
  }

  lemma {:induction false} AliasGivesExactly(b: ServiceBackend, zone: Name, q: Name, want: PlainType, prev: seq<RR>, ss: seq<Service>, i: nat, host: Name, ttl: nat)
    requires i < |ss| && ss[i] == Alias(host, ttl)
    ensures var (ps, tc) := AliasGives(b, zone, q, want, prev, host, ttl);
            && |ps| <= 1 && (forall p :: Gives(b, zone, q, want, prev, ss, i, p) <==> ps == [p])
            && (tc <==> Truncates(b, zone, q, want, prev, ss[i]))
  {
    MayGoExactly(q, prev, host);
    if MayGo(q, prev, host) {
      FollowGives(b, zone, q, want, prev, RR(q, ttl, CNAME(host)), host);
    }
  }

  lemma {:induction false} FollowGives(b: ServiceBackend, zone: Name, q: Name, want: PlainType, prev: seq<RR>, c: RR, host: Name)
    requires |prev| <= 7
    ensures Follow(b, zone, q, want, prev, c, host) ==
            if Within(zone, host) then
              var r := Answer(b, zone, host, want, prev + [c]);
              if r.Failed? then ([], false) else (if Backend.Flatten(r.pieces) != [] then [Chain(c, r.pieces)] else [], r.truncated)
            else if b.lookup(host).None? then ([], false)
            else ([Away(c, b.lookup(host).value.answer)], b.lookup(host).value.truncated && want != TYPE_TXT)
  {
  }

  // ----- what all services give

  /** The pieces are what `g` gives at the indices `from`, in order, and it gives none at another below `n`. */
  ghost predicate Listed(g: (nat, Piece) -> bool, n: nat, ps: seq<Piece>, from: seq<nat>) {
    && |from| == |ps|
    && (forall k :: 0 <= k < |from| ==> from[k] < n && g(from[k], ps[k]))
    && (forall k, l :: 0 <= k < l < |from| ==> from[k] < from[l])
    && forall i: nat, p :: i < n && g(i, p) ==> i in from
  }

  lemma {:induction false} OneMoreListed(g: (nat, Piece) -> bool, n: nat, ps: seq<Piece>, more: seq<Piece>, f: seq<nat>)
    requires |more| <= 1 && Listed(g, n, ps, f) && forall p :: g(n, p) <==> more == [p]
    ensures Listed(g, n + 1, ps + more, if more == [] then f else f + [n])
  {
    var from := if more == [] then f else f + [n];
    if more != [] {
      assert more == [more[0]];
      assert n == from[|f|];
    } else {
      assert ps + more == ps;
    }
    forall i: nat, p | i < n + 1 && g(i, p)
      ensures i in from
    {
      if i < n {
        assert i in f;
      } else {
        assert more == [p];
      }
    }
  }

  ghost function Giver(b: ServiceBackend, zone: Name, q: Name, want: PlainType, prev: seq<RR>, ss: seq<Service>): (nat, Piece) -> bool {
    (i: nat, p: Piece) => i < |ss| && Gives(b, zone, q, want, prev, ss, i, p)
  }

  /** The pieces are what the services at the indices `from` give, in order, and no other service gives any. */
  ghost predicate ListsPieces(b: ServiceBackend, zone: Name, q: Name, want: PlainType, prev: seq<RR>, ss: seq<Service>, ps: seq<Piece>, from: seq<nat>) {
    Listed(Giver(b, zone, q, want, prev, ss), |ss|, ps, from)
  }

  lemma {:induction false} GatherStep(b: ServiceBackend, zone: Name, q: Name, want: PlainType, prev: seq<RR>, ss: seq<Service>, n: nat)
    requires n < |ss|
    ensures Gather(b, zone, q, want, prev, ss, n + 1).0 == Gather(b, zone, q, want, prev, ss, n).0 + Contribute(b, zone, q, want, prev, ss, n).0
    ensures Gather(b, zone, q, want, prev, ss, n + 1).1 == (Gather(b, zone, q, want, prev, ss, n).1 || Contribute(b, zone, q, want, prev, ss, n).1)
  {
  }

  lemma {:induction false} GiverExactly(b: ServiceBackend, zone: Name, q: Name, want: PlainType, prev: seq<RR>, ss: seq<Service>, n: nat)
    requires n < |ss|
    ensures var g, more := Giver(b, zone, q, want, prev, ss), Contribute(b, zone, q, want, prev, ss, n).0;
            |more| <= 1 && forall p :: g(n, p) <==> more == [p]
  {
    GivesExactly(b, zone, q, want, prev, ss, n);
  }

  lemma {:induction false} GatherLists(b: ServiceBackend, zone: Name, q: Name, want: PlainType, prev: seq<RR>, ss: seq<Service>, n: nat, g: (nat, Piece) -> bool, ps: seq<Piece>)
    returns (from: seq<nat>)
    requires n <= |ss| && g == Giver(b, zone, q, want, prev, ss) && ps == Gather(b, zone, q, want, prev, ss, n).0
    ensures Listed(g, n, ps, from)
    decreases n
  {
    if n == 0 {
      from := [];
    } else {
      var ps', more := Gather(b, zone, q, want, prev, ss, n - 1).0, Contribute(b, zone, q, want, prev, ss, n - 1).0;
      var f := GatherLists(b, zone, q, want, prev, ss, n - 1, g, ps');
      GatherStep(b, zone, q, want, prev, ss, n - 1);
      GiverExactly(b, zone, q, want, prev, ss, n - 1);
      OneMoreListed(g, n - 1, ps', more, f);
      from := if more == [] then f else f + [n - 1];
    }
  }

  lemma {:induction false} GatherTruncates(b: ServiceBackend, zone: Name, q: Name, want: PlainType, prev: seq<RR>, ss: seq<Service>, n: nat)
    requires n <= |ss|
    ensures Gather(b, zone, q, want, prev, ss, n).1 <==> exists i :: 0 <= i < n && Truncates(b, zone, q, want, prev, ss[i])
    decreases n
  {
    if n > 0 {
      GatherTruncates(b, zone, q, want, prev, ss, n - 1);
      GatherStep(b, zone, q, want, prev, ss, n - 1);
      GivesExactly(b, zone, q, want, prev, ss, n - 1);
    }
  }

  /** For every backend: an answer fails exactly when no services can be read, and otherwise it is what
      the services give, one after the other. */
  lemma {:induction false} AnswerIsServices(b: ServiceBackend, zone: Name, q: Name, want: PlainType, prev: seq<RR>) returns (ss: seq<Service>, from: seq<nat>)
    ensures Answer(b, zone, q, want, prev).Failed? <==> forall x :: !Reads(b, zone, q, want, x)
    ensures var r := Answer(b, zone, q, want, prev);
            r.Answered? ==>
              && Reads(b, zone, q, want, ss) && ListsPieces(b, zone, q, want, prev, ss, r.pieces, from)
              && (r.truncated <==> exists i :: 0 <= i < |ss| && Truncates(b, zone, q, want, prev, ss[i]))
  {
    var got := ServicesFor(b, zone, q, want);
    ss, from := [], [];
    forall x
      ensures Reads(b, zone, q, want, x) <==> got == Some(x)
    {
      ReadsExactly(b, zone, q, want, x);
    }
    if got.Some? {
      ss := got.value;
      from := GatherLists(b, zone, q, want, prev, ss, |ss|, Giver(b, zone, q, want, prev, ss), Gather(b, zone, q, want, prev, ss, |ss|).0);
      GatherTruncates(b, zone, q, want, prev, ss, |ss|);
    }
  }

  // ----- which values are reached

  /** Service `i` of `q` is an alias into the zone that may be followed with the CNAME `c`. */
  ghost predicate GoesVia(zone: Name, q: Name, prev: seq<RR>, ss: seq<Service>, i: nat, c: RR) {
    i < |ss| && c.data.CNAME? && ss[i] == Alias(c.data.target, c.ttl) && c.owner == q && MayGo(q, prev, c.data.target) && Within(zone, c.data.target)
  }

  /** `rr` is a value of `x`, the first with its text. */
  ghost predicate HasValue(b: ServiceBackend, zone: Name, want: PlainType, x: Name, rr: RR) {
    rr.data.Plain? && exists ss, i :: Reads(b, zone, x, want, ss) && FirstOf(ss, i, want, rr.data.text, rr.ttl) && rr == RR(x, rr.ttl, Plain(want, rr.data.text))
  }

  /** Following the aliases `cs` from `q`, one service after the other, leads to a name with the value `rr`. */
  ghost predicate Reached(b: ServiceBackend, zone: Name, want: PlainType, q: Name, prev: seq<RR>, cs: seq<RR>, rr: RR)
    decreases cs
  {
    if cs == [] then HasValue(b, zone, want, q, rr)
    else
      && cs[0].data.CNAME?
      && (exists ss, i :: Reads(b, zone, q, want, ss) && GoesVia(zone, q, prev, ss, i, cs[0]))
      && Reached(b, zone, want, cs[0].data.target, prev + [cs[0]], cs[1..], rr)
  }

  /** `rr` is in the answer below the CNAMEs `cs`. */
  ghost predicate Sits(ps: seq<Piece>, cs: seq<RR>, rr: RR)
    decreases cs
  {
    if cs == [] then Own(rr) in ps
    else exists k :: 0 <= k < |ps| && ps[k].Chain? && ps[k].cname == cs[0] && Sits(ps[k].rest, cs[1..], rr)
  }

  lemma {:induction false} PieceFlat(ps: seq<Piece>, k: nat, rr: RR)
    requires k < |ps| && rr in Spelled(ps[k])
    ensures rr in Backend.Flatten(ps)
    decreases |ps|
  {
    if k < |ps| - 1 {
      PieceFlat(ps[..|ps| - 1], k, rr);
    }
  }

  lemma {:induction false} SitsFlat(ps: seq<Piece>, cs: seq<RR>, rr: RR)
    requires Sits(ps, cs, rr)
    ensures rr in Backend.Flatten(ps)
    decreases cs
  {
    if cs == [] {
      var k :| 0 <= k < |ps| && ps[k] == Own(rr);
      PieceFlat(ps, k, rr);
    } else {
      var k :| 0 <= k < |ps| && ps[k].Chain? && ps[k].cname == cs[0] && Sits(ps[k].rest, cs[1..], rr);
      SitsFlat(ps[k].rest, cs[1..], rr);
      PieceFlat(ps, k, rr);
    }
  }

  /** For every backend: a value of the type is in the answer below a chain of CNAMEs exactly when
      following these aliases, none a loop, a repetition or too deep, leads to a name with that value. */
  lemma {:induction false} ValuesReached(b: ServiceBackend, zone: Name, q: Name, want: PlainType, prev: seq<RR>, cs: seq<RR>, rr: RR)
    ensures var r := Answer(b, zone, q, want, prev);
            (r.Answered? && Sits(r.pieces, cs, rr)) <==> Reached(b, zone, want, q, prev, cs, rr)
    decreases cs
  {
    var r := Answer(b, zone, q, want, prev);
    var ss, from := AnswerIsServices(b, zone, q, want, prev);
    if r.Failed? {
      assert !Reached(b, zone, want, q, prev, cs, rr);
    } else if cs == [] {
      OwnReached(b, zone, q, want, prev, rr, ss, from);
    } else if cs[0].data.CNAME? {
      ValuesReached(b, zone, cs[0].data.target, want, prev + [cs[0]], cs[1..], rr);
      ChainReached(b, zone, q, want, prev, cs, rr, ss, from);
    } else {
      ChainsAreCnames(b, zone, q, want, prev);
    }
  }

  lemma {:induction false} ChainsAreCnames(b: ServiceBackend, zone: Name, q: Name, want: PlainType, prev: seq<RR>)
    ensures var r := Answer(b, zone, q, want, prev);
            r.Answered? ==> forall k :: 0 <= k < |r.pieces| && r.pieces[k].Chain? ==> r.pieces[k].cname.data.CNAME?
  {
    var r := Answer(b, zone, q, want, prev);
    AnswerOk(b, zone, q, want, prev);
    if r.Answered? {
      forall k | 0 <= k < |r.pieces| && r.pieces[k].Chain?
        ensures r.pieces[k].cname.data.CNAME?
      {
        assert PieceOk(zone, q, want, prev, r.pieces[k]);
      }
    }
  }

  lemma {:induction false} OnlyRead(b: ServiceBackend, zone: Name, q: Name, want: PlainType, ss: seq<Service>, x: seq<Service>)
    requires Reads(b, zone, q, want, ss) && Reads(b, zone, q, want, x)
    ensures x == ss
  {
  }

  lemma {:induction false} OwnReached(b: ServiceBackend, zone: Name, q: Name, want: PlainType, prev: seq<RR>, rr: RR, ss: seq<Service>, from: seq<nat>)
    requires var r := Answer(b, zone, q, want, prev);
             r.Answered? && Reads(b, zone, q, want, ss) && ListsPieces(b, zone, q, want, prev, ss, r.pieces, from)
    ensures Own(rr) in Answer(b, zone, q, want, prev).pieces <==> HasValue(b, zone, want, q, rr)
  {
    var ps := Answer(b, zone, q, want, prev).pieces;
    if k :| 0 <= k < |ps| && ps[k] == Own(rr) {
      assert Gives(b, zone, q, want, prev, ss, from[k], ps[k]);
      assert FirstOf(ss, from[k], want, rr.data.text, rr.ttl);
    }
    if HasValue(b, zone, want, q, rr) {
      var x, i :| Reads(b, zone, q, want, x) && FirstOf(x, i, want, rr.data.text, rr.ttl) && rr == RR(q, rr.ttl, Plain(want, rr.data.text));
      OnlyRead(b, zone, q, want, ss, x);
      assert Giver(b, zone, q, want, prev, ss)(i, Own(rr));
      var k :| 0 <= k < |from| && from[k] == i;
      assert Gives(b, zone, q, want, prev, ss, from[k], ps[k]);
    }
  }

  lemma {:induction false} ChainReached(b: ServiceBackend, zone: Name, q: Name, want: PlainType, prev: seq<RR>, cs: seq<RR>, rr: RR, ss: seq<Service>, from: seq<nat>)
    requires cs != [] && cs[0].data.CNAME?
    requires var r := Answer(b, zone, q, want, prev);
             r.Answered? && Reads(b, zone, q, want, ss) && ListsPieces(b, zone, q, want, prev, ss, r.pieces, from)
    requires var r := Answer(b, zone, cs[0].data.target, want, prev + [cs[0]]);
             (r.Answered? && Sits(r.pieces, cs[1..], rr)) <==> Reached(b, zone, want, cs[0].data.target, prev + [cs[0]], cs[1..], rr)
    ensures Sits(Answer(b, zone, q, want, prev).pieces, cs, rr) <==> Reached(b, zone, want, q, prev, cs, rr)
  {
    var ps, c := Answer(b, zone, q, want, prev).pieces, cs[0];
    if k :| 0 <= k < |ps| && ps[k].Chain? && ps[k].cname == c && Sits(ps[k].rest, cs[1..], rr) {
      assert Gives(b, zone, q, want, prev, ss, from[k], ps[k]);
      assert GoesVia(zone, q, prev, ss, from[k], c);
    }
    if Reached(b, zone, want, q, prev, cs, rr) {
      var x, i :| Reads(b, zone, q, want, x) && GoesVia(zone, q, prev, x, i, c);
      OnlyRead(b, zone, q, want, ss, x);
      var rest := Answer(b, zone, c.data.target, want, prev + [c]).pieces;
      SitsFlat(rest, cs[1..], rr);
      assert c == RR(q, c.ttl, CNAME(c.data.target));
      assert Giver(b, zone, q, want, prev, ss)(i, Chain(c, rest));
      var k :| 0 <= k < |from| && from[k] == i;
      assert Gives(b, zone, q, want, prev, ss, from[k], ps[k]);
    }
  }
}
