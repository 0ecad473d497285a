/** The answer of a server that asks itself for the names its zones do not hold, put together
    from what each zone gives (`plugin/file/lookup.go`, `plugin/file/file.go`,
    `plugin/pkg/upstream/upstream.go`).  */
module Trails {
  import opened Names
  import opened Records
  import opened Llrb
  import opened Zones
  import opened Queries
  import opened Chains

  /** What a zone gives by itself. */
  ghost function Alone(z: Zone, q: Name, t: RRType, loop: nat): Response {
    Lookup(z, q, t, loop, x => Silent)
  }

  ghost predicate Splits(r: Response, alone: Response, asks: Option<Name>, up: Name -> UpReply) {
    match asks
    case None => r == alone
    case Some(x) => alone.answer != [] && r == Response(alone.answer + Interpret(up(x)).0, alone.ns, Interpret(up(x)).1)
  }

  lemma {:induction false} ChaseSplits(z: Zone, t: RRType, rrs: seq<RR>, target: Name, i: nat, up: Name -> UpReply)
    requires i <= 9 && rrs != []
    ensures Splits(Chase(z, t, rrs, target, i, up), Chase(z, t, rrs, target, i, x => Silent), ChaseAsks(z.contents, target, i), up)
    decreases 9 - i
  {
    if target !in z.contents {
      assert rrs + [] == rrs;
    } else if i <= 8 {
      var cnames := OfType(z.contents[target], TYPE_CNAME);
      if cnames != [] {
        ChaseSplits(z, t, rrs + cnames, Target(cnames[0]), i + 1, up);
      }
    }
  }

  lemma {:induction false} NodeSplits(z: Zone, t: RRType, cnames: seq<RR>, rrs: seq<RR>, up: Name -> UpReply)
    requires z.apex.soa.Some?
    ensures Splits(FromNode(z, t, cnames, rrs, up), FromNode(z, t, cnames, rrs, x => Silent), NodeAsks(z.contents, t, cnames), up)
  {
    if cnames != [] && t != TYPE_CNAME {
      ChaseSplits(z, t, cnames, Target(cnames[0]), 0, up);
    }
  }

  lemma {:induction false} DnameSplits(z: Zone, t: RRType, dnames: seq<RR>, cname: RR, up: Name -> UpReply)
    requires z.apex.soa.Some?
    ensures var s := AtDname(dnames, cname);
            Splits(Conclude(z, [], t, s, up), Conclude(z, [], t, s, x => Silent), NodeAsks(z.contents, t, [cname]), up)
  {
    if t != TYPE_CNAME {
      ChaseSplits(z, t, [cname], Target(cname), 0, up);
      var alone := Chase(z, t, [cname], Target(cname), 0, x => Silent);
      var a := ChaseAsks(z.contents, Target(cname), 0);
      if a.Some? {
        var more := Interpret(up(a.value)).0;
        assert dnames + (alone.answer + more) == (dnames + alone.answer) + more;
      }
    }
  }

  /** A lookup that asks nobody gives what its zone has; one that asks adds what it is told behind
      that, and takes over the result. */
  lemma {:induction false} LookupSplits(z: Zone, q: Name, t: RRType, loop: nat, up: Name -> UpReply)
    ensures var alone, r := Alone(z, q, t, loop), Lookup(z, q, t, loop, up);
            match Asks(z, q, t, loop)
            case None => r == alone
            case Some(x) => alone.answer != [] && r == Response(alone.answer + Interpret(up(x)).0, alone.ns, Interpret(up(x)).1)
  {
    if !Early(z, q, t, loop) {
      var s := Scan(z.contents, z.origin, q, t, 0, None, None);
      match s
      case AtDname(dnames, cname) => DnameSplits(z, t, dnames, cname, up);
      case AtCut(_) =>
      case Bottom(Some(m), _) => NodeSplits(z, t, OfType(m, TYPE_CNAME), OfType(m, t), up);
      case Bottom(None, Some(m)) => NodeSplits(z, t, Owned(OfType(m, TYPE_CNAME), q), Owned(OfType(m, t), q), up);
      case Bottom(None, None) =>
    }
  }

  // ----- along the trail

  /** What the zone that serves `name` asks for, if there is one and it asks. */
  function AsksFor(srv: Server, name: Name, t: RRType, loop: nat): Option<Name> {
    match srv.pick(LowerName(name))
    case None => None
    case Some(z) => Asks(z, LowerName(name), t, loop)
  }

  /** What is said of a name where it is served: by its zone, or by others. */
  ghost function Said(srv: Server, name: Name, t: RRType, loop: nat): UpReply {
    match srv.pick(LowerName(name))
    case None => srv.other(name, t)
    case Some(z) => ReplyOf(Alone(z, LowerName(name), t, loop))
  }

  function CodeOf(r: Result): Rcode {
    match r
    case NameError => NameErrorCode
    case ServerFailure => ServerFailureCode
    case _ => NoErrorCode
  }

  /** Where nobody is asked. */
  lemma {:induction false} ServeEnds(srv: Server, name: Name, t: RRType, loop: nat)
    requires AsksFor(srv, name, t, loop).None?
    ensures Serve(srv, name, t, loop) == Said(srv, name, t, loop)
    ensures Trail(srv, name, t, loop) == [name]
  {
    var q := LowerName(name);
    if srv.pick(q).Some? {
      LookupSplits(srv.pick(q).value, q, t, loop, Upstream(srv, t, loop));
    }
  }

  /** Where the server is asked again. */
  lemma {:induction false} ServeGoesOn(srv: Server, name: Name, t: RRType, loop: nat)
    requires AsksFor(srv, name, t, loop).Some?
    ensures loop <= 8 && AnswerOf(Said(srv, name, t, loop)) != []
    ensures var x := AsksFor(srv, name, t, loop).value;
            var rest := Serve(srv, x, t, loop + 1);
            && Serve(srv, name, t, loop) == Message(CodeOf(Interpret(rest).1), AnswerOf(Said(srv, name, t, loop)) + AnswerOf(rest))
            && Trail(srv, name, t, loop) == [name] + Trail(srv, x, t, loop + 1)
  {
    var q := LowerName(name);
    var z := srv.pick(q).value;
    var x := Asks(z, q, t, loop).value;
    AsksInTime(srv, z, q, t, loop, x);
    LookupSplits(z, q, t, loop, Upstream(srv, t, loop));
    Joined(Lookup(z, q, t, loop, Upstream(srv, t, loop)), Alone(z, q, t, loop), Serve(srv, x, t, loop + 1));
  }

  lemma {:induction false} AsksInTime(srv: Server, z: Zone, q: Name, t: RRType, loop: nat, x: Name)
    requires Asks(z, q, t, loop).Some?
    ensures loop <= 8 && Upstream(srv, t, loop)(x) == Serve(srv, x, t, loop + 1)
  {
  }

  /** The message for a lookup that was told `u`. */
  lemma {:induction false} Joined(r: Response, alone: Response, u: UpReply)
    requires alone.answer != [] && r == Response(alone.answer + Interpret(u).0, alone.ns, Interpret(u).1)
    ensures ReplyOf(r) == Message(CodeOf(Interpret(u).1), AnswerOf(ReplyOf(alone)) + AnswerOf(u)) && AnswerOf(ReplyOf(alone)) != []
  {
  }

  // ----- any walk that goes on in this way

  /** What is served at a name and loop count, the trail from there, what is said and what is asked. */
  datatype Walk = Walk(serve: (Name, nat) -> UpReply, trail: (Name, nat) -> seq<Name>, said: (Name, nat) -> UpReply, asks: (Name, nat) -> Option<Name>)

  ghost predicate GoesOn(w: Walk, name: Name, loop: nat) {
    match w.asks(name, loop)
    case None => w.serve(name, loop) == w.said(name, loop) && w.trail(name, loop) == [name]
    case Some(x) =>
      && loop <= 8 && w.trail(name, loop) == [name] + w.trail(x, loop + 1) && AnswerOf(w.said(name, loop)) != []
      && w.serve(name, loop) == Message(CodeOf(Interpret(w.serve(x, loop + 1)).1), AnswerOf(w.said(name, loop)) + AnswerOf(w.serve(x, loop + 1)))
  }

  ghost predicate Walks(w: Walk) {
    forall name, loop :: GoesOn(w, name, loop)
  }

  /** A trail from `name`: every name on it asks for the next, and the last for none. */
  ghost predicate Leads(asks: (Name, nat) -> Option<Name>, trail: seq<Name>, name: Name, loop: nat) {
    && |trail| > 0 && trail[0] == name
    && (forall k :: 0 <= k < |trail| - 1 ==> asks(trail[k], loop + k) == Some(trail[k + 1]))
    && asks(trail[|trail| - 1], loop + |trail| - 1) == None
  }

  lemma {:induction false} WalkLeads(w: Walk, name: Name, loop: nat)
    requires Walks(w)
    ensures Leads(w.asks, w.trail(name, loop), name, loop)
    decreases 9 - loop
  {
    assert GoesOn(w, name, loop);
    if w.asks(name, loop).Some? {
      var x := w.asks(name, loop).value;
      WalkLeads(w, x, loop + 1);
      LeadsBefore(w.asks, w.trail(x, loop + 1), name, x, loop);
    }
  }

  lemma {:induction false} LeadsBefore(asks: (Name, nat) -> Option<Name>, rest: seq<Name>, name: Name, x: Name, loop: nat)
    requires Leads(asks, rest, x, loop + 1) && asks(name, loop) == Some(x)
    ensures Leads(asks, [name] + rest, name, loop)
  {
    var trail := [name] + rest;
    forall k | 0 <= k < |trail| - 1
      ensures asks(trail[k], loop + k) == Some(trail[k + 1])
    {
      if k > 0 {
        assert asks(rest[k - 1], loop + 1 + (k - 1)) == Some(rest[k]);
      }
    }
    assert loop + |trail| - 1 == loop + 1 + |rest| - 1;
  }

  ghost function AllSaid(said: (Name, nat) -> UpReply, trail: seq<Name>, loop: nat): seq<RR>
    decreases trail
  {
    if trail == [] then [] else AnswerOf(said(trail[0], loop)) + AllSaid(said, trail[1..], loop + 1)
  }

  lemma {:induction false} WalkSays(w: Walk, name: Name, loop: nat)
    requires Walks(w)
    ensures AnswerOf(w.serve(name, loop)) == AllSaid(w.said, w.trail(name, loop), loop)
    decreases 9 - loop
  {
    assert GoesOn(w, name, loop);
    var trail := w.trail(name, loop);
    match w.asks(name, loop)
    case None =>
      assert trail[1..] == [] && AllSaid(w.said, [], loop + 1) == [];
    case Some(x) =>
      WalkSays(w, x, loop + 1);
      assert trail[1..] == w.trail(x, loop + 1);
  }

  /** The code of what is said of the last name. */
  ghost function LastCode(said: (Name, nat) -> UpReply, trail: seq<Name>, loop: nat): Rcode
    requires |trail| > 0
  {
    CodeOf(Interpret(said(trail[|trail| - 1], loop + |trail| - 1)).1)
  }

  lemma {:induction false} WalkResults(w: Walk, name: Name, loop: nat)
    requires Walks(w)
    ensures var trail := w.trail(name, loop);
            && |trail| > 0
            && CodeOf(Interpret(w.serve(name, loop)).1) == LastCode(w.said, trail, loop)
    decreases 9 - loop
  {
    assert GoesOn(w, name, loop);
    if w.asks(name, loop).Some? {
      var x := w.asks(name, loop).value;
      WalkResults(w, x, loop + 1);
    }
  }

  // ----- the server

  ghost function SaidBy(srv: Server, t: RRType): (Name, nat) -> UpReply {
    (x: Name, n: nat) => Said(srv, x, t, n)
  }

  function AskedBy(srv: Server, t: RRType): (Name, nat) -> Option<Name> {
    (x: Name, n: nat) => AsksFor(srv, x, t, n)
  }

  ghost function WalkOf(srv: Server, t: RRType): Walk {
    Walk((x: Name, n: nat) => Serve(srv, x, t, n), (x: Name, n: nat) => Trail(srv, x, t, n), SaidBy(srv, t), AskedBy(srv, t))
  }

  lemma {:induction false} ServerWalks(srv: Server, t: RRType)
    ensures Walks(WalkOf(srv, t))
  {
    forall name, loop
      ensures GoesOn(WalkOf(srv, t), name, loop)
    {
      if AsksFor(srv, name, t, loop).None? {
        ServeEnds(srv, name, t, loop);
      } else {
        ServeGoesOn(srv, name, t, loop);
      }
    }
  }

  /** The trail starts at the name asked for, every name on it asks for the next, and the last for none. */
  lemma {:induction false} TrailLeads(srv: Server, name: Name, t: RRType, loop: nat)
    ensures Leads(AskedBy(srv, t), Trail(srv, name, t, loop), name, loop)
  {
    ServerWalks(srv, t);
    WalkLeads(WalkOf(srv, t), name, loop);
  }

  /** The whole answer is what is said of the names of the trail, one behind the other. */
  lemma {:induction false} AnswerIsTrail(srv: Server, name: Name, t: RRType, loop: nat)
    ensures AnswerOf(Serve(srv, name, t, loop)) == AllSaid(SaidBy(srv, t), Trail(srv, name, t, loop), loop)
  {
    ServerWalks(srv, t);
    WalkSays(WalkOf(srv, t), name, loop);
  }

  /** The result is that of the last name: a denial or a failure there is one of the whole. */
  lemma {:induction false} ResultIsLast(srv: Server, name: Name, t: RRType, loop: nat)
    ensures var trail := Trail(srv, name, t, loop);
            && |trail| > 0
            && CodeOf(Interpret(Serve(srv, name, t, loop)).1) == LastCode(SaidBy(srv, t), trail, loop)
  {
    ServerWalks(srv, t);
    WalkResults(WalkOf(srv, t), name, loop);
  }
}
