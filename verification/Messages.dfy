/** Replies as the cache sees them: classification (`plugin/pkg/response/typify.go`), the
    smallest TTL (`plugin/pkg/dnsutil/ttl.go`) and TTL rewriting (`plugin/cache/dnssec.go`).  */
module Messages {
  import opened Records

  const OPCODE_NOTIFY: nat := 4
  const OPCODE_UPDATE: nat := 5

  const RCODE_SUCCESS: nat := 0
  const RCODE_SERVER_FAILURE: nat := 2
  const RCODE_NAME_ERROR: nat := 3
  const RCODE_NOT_IMPLEMENTED: nat := 4

  /** `data` stands for everything else; in an OPT record `ednsDo` is its DO bit. */
  datatype Rec = Rec(rrtype: nat, ttl: nat, data: string, ednsDo: bool)

  datatype Question = Question(name: string, qtype: nat)

  datatype Msg = Msg(
    response: bool, opcode: nat, truncated: bool, ad: bool, ra: bool, rcode: nat,
    question: seq<Question>, answer: seq<Rec>, ns: seq<Rec>, extra: seq<Rec>)

  datatype Kind = NoError | NameError | ServerError | NoData | Delegation | Meta | Update | OtherError

  // ----- classification

  /** `IsEdns0().Do()`: the DO bit of the last OPT record. */
  function EdnsDo(extra: seq<Rec>): bool {
    if extra == [] then false
    else if extra[|extra| - 1].rrtype == TYPE_OPT then extra[|extra| - 1].ednsDo
    else EdnsDo(extra[..|extra| - 1])
  }

  lemma {:induction false} EdnsDoExactly(extra: seq<Rec>)
    ensures EdnsDo(extra) <==>
              exists i :: 0 <= i < |extra| && extra[i].rrtype == TYPE_OPT && extra[i].ednsDo && forall j :: i < j < |extra| ==> extra[j].rrtype != TYPE_OPT
  {
    if extra != [] && extra[|extra| - 1].rrtype != TYPE_OPT {
      EdnsDoExactly(extra[..|extra| - 1]);
      assert forall i :: 0 <= i < |extra| - 1 ==> extra[..|extra| - 1][i] == extra[i];
    }
  }

  ghost predicate Has(rrs: seq<Rec>, t: nat) {
    exists i :: 0 <= i < |rrs| && rrs[i].rrtype == t
  }

  ghost predicate HasExpired(rrs: seq<Rec>, valid: Rec -> bool) {
    exists i :: 0 <= i < |rrs| && rrs[i].rrtype == TYPE_RRSIG && !valid(rrs[i])
  }

  ghost predicate IsMeta(m: Msg) {
    m.opcode == OPCODE_NOTIFY || (m.question != [] && m.question[0].qtype in {TYPE_AXFR, TYPE_IXFR})
  }

  ghost predicate Outdated(m: Msg, valid: Rec -> bool) {
    EdnsDo(m.extra) && (HasExpired(m.answer, valid) || HasExpired(m.ns, valid) || HasExpired(m.extra, valid))
  }

  /** What each class of reply looks like; `valid` tells which signatures are in their validity period. */
  ghost predicate Classifies(m: Msg, valid: Rec -> bool, k: Kind) {
    var plain := m.opcode != OPCODE_UPDATE && !IsMeta(m) && !Outdated(m, valid);
    var answered, soa := m.answer != [] && m.rcode == RCODE_SUCCESS, Has(m.ns, TYPE_SOA);
    match k
    case Update => m.opcode == OPCODE_UPDATE
    case Meta => m.opcode != OPCODE_UPDATE && IsMeta(m)
    case NoData => plain && !answered && soa && m.rcode == RCODE_SUCCESS
    case NameError => plain && soa && m.rcode == RCODE_NAME_ERROR
    case ServerError => plain && m.rcode in {RCODE_SERVER_FAILURE, RCODE_NOT_IMPLEMENTED}
    case Delegation => plain && !answered && !soa && m.rcode == RCODE_SUCCESS && Has(m.ns, TYPE_NS)
    case NoError => plain && m.rcode == RCODE_SUCCESS && (m.answer != [] || (!soa && !Has(m.ns, TYPE_NS)))
    case OtherError =>
      && m.opcode != OPCODE_UPDATE && !IsMeta(m)
      && (Outdated(m, valid)
          || (m.rcode !in {RCODE_SUCCESS, RCODE_SERVER_FAILURE, RCODE_NOT_IMPLEMENTED} && !(soa && m.rcode == RCODE_NAME_ERROR)))
  }

  /** Every reply is in exactly one class. */
  lemma {:induction false} OneClass(m: Msg, valid: Rec -> bool)
    ensures exists k :: Classifies(m, valid, k)
    ensures forall j, k :: Classifies(m, valid, j) && Classifies(m, valid, k) ==> j == k
  {
    var answered, soa := m.answer != [] && m.rcode == RCODE_SUCCESS, Has(m.ns, TYPE_SOA);
    var k :=
      if m.opcode == OPCODE_UPDATE then Update
      else if IsMeta(m) then Meta
      else if Outdated(m, valid) then OtherError
      else if m.rcode == RCODE_SUCCESS then
        if answered then NoError else if soa then NoData else if Has(m.ns, TYPE_NS) then Delegation else NoError
      else if m.rcode == RCODE_NAME_ERROR then if soa then NameError else OtherError
      else if m.rcode in {RCODE_SERVER_FAILURE, RCODE_NOT_IMPLEMENTED} then ServerError
      else OtherError;
    assert Classifies(m, valid, k);
  }

  /** `typifyExpiredRRSIG` */
  method TypifyExpired(rrs: seq<Rec>, valid: Rec -> bool) returns (expired: bool)
    ensures expired <==> HasExpired(rrs, valid)
  {
    for i := 0 to |rrs|
      invariant forall j :: 0 <= j < i ==> rrs[j].rrtype != TYPE_RRSIG || valid(rrs[j])
    {
      if rrs[i].rrtype == TYPE_RRSIG && !valid(rrs[i]) {
        return true;
      }
    }
    return false;
  }

  /** `Typify` */
  method Typify(m: Msg, valid: Rec -> bool) returns (k: Kind)
    ensures Classifies(m, valid, k)
  {
    if m.opcode == OPCODE_UPDATE {
      return Update;
    }
    if m.opcode == OPCODE_NOTIFY {
      return Meta;
    }
    if |m.question| > 0 {
      if m.question[0].qtype == TYPE_AXFR || m.question[0].qtype == TYPE_IXFR {
        return Meta;
      }
    }
    if EdnsDo(m.extra) {
      var a := TypifyExpired(m.answer, valid);
      var n := TypifyExpired(m.ns, valid);
      var e := TypifyExpired(m.extra, valid);
      if a || n || e {
        return OtherError;
      }
    }
    if |m.answer| > 0 && m.rcode == RCODE_SUCCESS {
      return NoError;
    }
    var soa, ns := false, 0;
    for i := 0 to |m.ns|
      invariant soa <==> Has(m.ns[..i], TYPE_SOA)
      invariant ns > 0 <==> Has(m.ns[..i], TYPE_NS)
      invariant ns >= 0
    {
      ghost var before := m.ns[..i];
      assert m.ns[..i + 1] == before + [m.ns[i]];
      HasMore(before, m.ns[i], TYPE_SOA);
      HasMore(before, m.ns[i], TYPE_NS);
      if m.ns[i].rrtype == TYPE_SOA {
        soa := true;
      } else if m.ns[i].rrtype == TYPE_NS {
        ns := ns + 1;
      }
    }
    assert m.ns[..|m.ns|] == m.ns;
    if soa && m.rcode == RCODE_SUCCESS {
      return NoData;
    }
    if soa && m.rcode == RCODE_NAME_ERROR {
      return NameError;
    }
    if m.rcode == RCODE_SERVER_FAILURE || m.rcode == RCODE_NOT_IMPLEMENTED {
      return ServerError;
    }
    if ns > 0 && m.rcode == RCODE_SUCCESS {
      return Delegation;
    }
    if m.rcode == RCODE_SUCCESS {
      return NoError;
    }
    return OtherError;
  }

  lemma HasMore(rrs: seq<Rec>, r: Rec, t: nat)
    ensures Has(rrs + [r], t) <==> Has(rrs, t) || r.rrtype == t
  {
    if r.rrtype == t {
      assert (rrs + [r])[|rrs|] == r;
    } else if Has(rrs, t) {
      var i :| 0 <= i < |rrs| && rrs[i].rrtype == t;
      assert (rrs + [r])[i] == rrs[i];
    }
  }

  // ----- TTLs; durations are nanoseconds

  const SECOND: int := 1_000_000_000
  const MINIMAL_DEFAULT_TTL: int := 5 * SECOND
  const MAXIMUM_DEFAULT_TTL: int := 3600 * SECOND

  /** `int(d.Seconds())`: Go truncates towards zero. */
  function WholeSeconds(d: int): int {
    if d >= 0 then d / SECOND else -((-d) / SECOND)
  }

  /** The records that are not OPT records. */
  function NonOpt(rrs: seq<Rec>): seq<Rec> {
    if rrs == [] then []
    else
      var r := rrs[|rrs| - 1];
      NonOpt(rrs[..|rrs| - 1]) + if r.rrtype == TYPE_OPT then [] else [r]
  }

  /** They are all records but the OPT records, as often as they are there. */
  lemma {:induction false} NonOptExactly(rrs: seq<Rec>, r: Rec)
    ensures multiset(NonOpt(rrs))[r] == if r.rrtype == TYPE_OPT then 0 else multiset(rrs)[r]
  {
    if rrs != [] {
      NonOptExactly(rrs[..|rrs| - 1], r);
      assert rrs == rrs[..|rrs| - 1] + [rrs[|rrs| - 1]];
    }
  }

  lemma {:induction false} NonOptTwice(rrs: seq<Rec>)
    ensures NonOpt(NonOpt(rrs)) == NonOpt(rrs)
  {
    if rrs != [] {
      var n, r := NonOpt(rrs[..|rrs| - 1]), rrs[|rrs| - 1];
      NonOptTwice(rrs[..|rrs| - 1]);
      if r.rrtype == TYPE_OPT {
        assert n + [] == n;
      } else {
        assert (n + [r])[..|n|] == n;
      }
    }
  }

  /** The records whose TTL counts: additional OPT records use the field for something else. */
  function Counted(m: Msg): seq<Rec> {
    m.answer + m.ns + NonOpt(m.extra)
  }

  /** `d` is the smallest TTL of the records, and an hour at most. */
  ghost predicate IsSmallest(rrs: seq<Rec>, d: int) {
    && 0 <= d <= MAXIMUM_DEFAULT_TTL && d % SECOND == 0
    && (forall i :: 0 <= i < |rrs| ==> d <= rrs[i].ttl * SECOND)
    && (d == MAXIMUM_DEFAULT_TTL || exists i :: 0 <= i < |rrs| && d == rrs[i].ttl * SECOND)
  }

  /** Nothing, or one OPT record. */
  predicate NoRecords(m: Msg) {
    m.answer == [] && m.ns == [] && (m.extra == [] || (|m.extra| == 1 && m.extra[0].rrtype == TYPE_OPT))
  }

  lemma NothingCounted(m: Msg)
    ensures NoRecords(m) ==> Counted(m) == []
  {
    if NoRecords(m) && m.extra != [] {
      assert NonOpt(m.extra) == NonOpt(m.extra[..0]) + [] == NonOpt([]);
    }
  }

  function Smaller(d: int, r: Rec): int {
    if r.ttl < WholeSeconds(d) then r.ttl * SECOND else d
  }

  lemma SmallestOneMore(rrs: seq<Rec>, r: Rec, d: int)
    requires IsSmallest(rrs, d)
    ensures IsSmallest(rrs + [r], Smaller(d, r))
  {
    var d', all := Smaller(d, r), rrs + [r];
    assert d == WholeSeconds(d) * SECOND;
    assert all[|rrs|] == r && forall i :: 0 <= i < |rrs| ==> all[i] == rrs[i];
    if d' == d && d != MAXIMUM_DEFAULT_TTL {
      var i :| 0 <= i < |rrs| && d == rrs[i].ttl * SECOND;
      assert all[i].ttl * SECOND == d;
    }
  }

  /** The records a loop of `MinimalTTL` looks at. */
  function Part(rrs: seq<Rec>, skipOpt: bool): seq<Rec> {
    if skipOpt then NonOpt(rrs) else rrs
  }

  lemma PartOneMore(rrs: seq<Rec>, i: nat, skipOpt: bool)
    requires i < |rrs|
    ensures Part(rrs[..i + 1], skipOpt) == Part(rrs[..i], skipOpt) + if skipOpt && rrs[i].rrtype == TYPE_OPT then [] else [rrs[i]]
  {
    assert rrs[..i + 1][..i] == rrs[..i] && rrs[..i + 1] == rrs[..i] + [rrs[i]];
  }

  /** One of the loops of `MinimalTTL`: goes on from the records `before`. */
  method LowerTTL(rrs: seq<Rec>, skipOpt: bool, start: int, ghost before: seq<Rec>) returns (minTTL: int)
    requires IsSmallest(before, start)
    ensures IsSmallest(before + Part(rrs, skipOpt), minTTL)
  {
    minTTL := start;
    assert rrs[..0] == [] && before + Part([], skipOpt) == before;
    for i := 0 to |rrs|
      invariant IsSmallest(before + Part(rrs[..i], skipOpt), minTTL)
    {
      PartOneMore(rrs, i, skipOpt);
      ghost var seen := before + Part(rrs[..i], skipOpt);
      if skipOpt && rrs[i].rrtype == TYPE_OPT {
        assert before + Part(rrs[..i + 1], skipOpt) == seen;
      } else {
        assert before + Part(rrs[..i + 1], skipOpt) == seen + [rrs[i]];
        SmallestOneMore(seen, rrs[i], minTTL);
        minTTL := Smaller(minTTL, rrs[i]);
      }
    }
    assert rrs[..|rrs|] == rrs;
  }

  /** `MinimalTTL` */
  method MinimalTTL(m: Msg, k: Kind) returns (minTTL: int)
    ensures if k !in {NoError, NameError, NoData} || NoRecords(m) then minTTL == MINIMAL_DEFAULT_TTL
            else IsSmallest(Counted(m), minTTL)
  {
    if k != NoError && k != NameError && k != NoData {
      return MINIMAL_DEFAULT_TTL;
    }
    if |m.answer| + |m.ns| == 0 && (|m.extra| == 0 || (|m.extra| == 1 && m.extra[0].rrtype == TYPE_OPT)) {
      return MINIMAL_DEFAULT_TTL;
    }
    minTTL := MAXIMUM_DEFAULT_TTL;
    minTTL := LowerTTL(m.answer, false, minTTL, []);
    assert [] + m.answer == m.answer;
    minTTL := LowerTTL(m.ns, false, minTTL, m.answer);
    minTTL := LowerTTL(m.extra, true, minTTL, m.answer + m.ns);
  }

  /** `d` is at most an hour and at most the TTL of every record of the reply, additional OPT records
      apart, and no smaller than it has to be. */
  ghost predicate Shortest(m: Msg, d: int) {
    && 0 <= d <= MAXIMUM_DEFAULT_TTL && d % SECOND == 0
    && (forall r :: r in m.answer ==> d <= r.ttl * SECOND)
    && (forall r :: r in m.ns ==> d <= r.ttl * SECOND)
    && (forall r :: r in m.extra && r.rrtype != TYPE_OPT ==> d <= r.ttl * SECOND)
    && (d == MAXIMUM_DEFAULT_TTL || exists r :: (r in m.answer || r in m.ns || (r in m.extra && r.rrtype != TYPE_OPT)) && d == r.ttl * SECOND)
  }

  lemma {:induction false} CountedIn(m: Msg, r: Rec)
    ensures r in Counted(m) <==> r in m.answer || r in m.ns || (r in m.extra && r.rrtype != TYPE_OPT)
  {
    NonOptExactly(m.extra, r);
  }

  /** The smallest TTL of the records that count is the shortest of the reply. */
  lemma {:induction false} SmallestIsShortest(m: Msg, d: int)
    ensures IsSmallest(Counted(m), d) <==> Shortest(m, d)
  {
    forall r
      ensures r in Counted(m) <==> r in m.answer || r in m.ns || (r in m.extra && r.rrtype != TYPE_OPT)
    {
      CountedIn(m, r);
    }
    if IsSmallest(Counted(m), d) {
      forall r | r in Counted(m)
        ensures d <= r.ttl * SECOND
      {
        var i :| 0 <= i < |Counted(m)| && Counted(m)[i] == r;
      }
      if d != MAXIMUM_DEFAULT_TTL {
        var i :| 0 <= i < |Counted(m)| && d == Counted(m)[i].ttl * SECOND;
        assert Counted(m)[i] in Counted(m);
      }
    }
    if Shortest(m, d) {
      forall i | 0 <= i < |Counted(m)|
        ensures d <= Counted(m)[i].ttl * SECOND
      {
        assert Counted(m)[i] in Counted(m);
      }
      if d != MAXIMUM_DEFAULT_TTL {
        var r :| (r in m.answer || r in m.ns || (r in m.extra && r.rrtype != TYPE_OPT)) && d == r.ttl * SECOND;
        var i :| 0 <= i < |Counted(m)| && Counted(m)[i] == r;
      }
    }
  }

  /** `computeTTL`: at least `minTTL`, but never more than `maxTTL`. */
  function ComputeTTL(msgTTL: int, minTTL: int, maxTTL: int): int {
    var ttl := if msgTTL < minTTL then minTTL else msgTTL;
    if ttl > maxTTL then maxTTL else ttl
  }

  /** `filterRRSlice`: no OPT records, and all with the TTL `ttl`. */
  method FilterRRs(rrs: seq<Rec>, ttl: nat) returns (rs: seq<Rec>)
    ensures |rs| == |NonOpt(rrs)| && forall i :: 0 <= i < |rs| ==> rs[i] == NonOpt(rrs)[i].(ttl := ttl)
  {
    rs := [];
    for i := 0 to |rrs|
      invariant |rs| == |NonOpt(rrs[..i])| && forall j :: 0 <= j < |rs| ==> rs[j] == NonOpt(rrs[..i])[j].(ttl := ttl)
    {
      assert rrs[..i + 1][..i] == rrs[..i];
      if rrs[i].rrtype == TYPE_OPT {
        continue;
      }
      rs := rs + [rrs[i].(ttl := ttl)];
    }
    assert rrs[..|rrs|] == rrs;
  }
}
