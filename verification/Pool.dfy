/** The connection manager and its clients as a step system: rendezvous on `dial`, `ret` and
    `yield`, a ticker and `stop` (`plugin/forward/persistent.go`, `connect.go`).  */
module Pool {
  import opened Llrb
  import opened Stacks

  type Conn = nat
  type ClientId = nat

  /** Where a client is in `Connect`. */
  datatype Client =
    | Idle
    | Dialing(proto: string)  // sends on `dial`
    | Waiting(proto: string)  // receives from `ret`
    | Connecting(proto: string)  // got nothing, dials itself
    | Holding(conn: Conn)
    | Yielding(conn: Conn)  // stamped the connection, sends on `yield`

  datatype Manager =
    | Ready
    | Replying(reply: Option<Conn>, kind: Kind)  // sends on `ret`
    | Done  // has closed `ret`

  datatype State = State(
    clients: map<ClientId, Client>,
    mgr: Manager,
    conns: seq<seq<Conn>>,
    used: map<Conn, int>,
    udp: map<Conn, bool>,
    closing: set<Conn>,  // handed to `closeConns`
    closed: set<Conn>,
    dropped: set<Conn>,  // the yield timed out
    stopping: bool,
    now: int)

  datatype Config = Config(tls: bool, expire: int)

  datatype Step =
    | Advance(d: nat)
    | Arrive(i: ClientId)
    | Ask(i: ClientId, proto: string)
    | TakeDial(i: ClientId)
    | GetRet(i: ClientId)
    | GetClosedRet(i: ClientId)
    | DialNew(i: ClientId, c: Conn, isUdp: bool)
    | DialFails(i: ClientId)
    | Fail(i: ClientId)
    | Stamp(i: ClientId)
    | TakeYield(i: ClientId)
    | GiveUp(i: ClientId)
    | Tick
    | StopCall
    | TakeStop
    | CloseOne(c: Conn)

  ghost predicate Init(s: State) {
    s.clients == map[] && s.mgr == Ready && s.conns == [[], [], []] && s.used == map[] && s.udp == map[]
    && s.closing == s.closed == s.dropped == {} && !s.stopping
  }

  predicate Is(s: State, i: ClientId, c: Client) {
    i in s.clients && s.clients[i] == c
  }

  predicate Shaped(s: State) {
    && |s.conns| == 3 && s.used.Keys == s.udp.Keys
    && forall k, i :: 0 <= k < 3 && 0 <= i < |s.conns[k]| ==> s.conns[k][i] in s.udp
  }

  function StampsOf(stack: seq<Conn>, used: map<Conn, int>): seq<int>
    requires forall i :: 0 <= i < |stack| ==> stack[i] in used
  {
    seq(|stack|, i requires 0 <= i < |stack| => used[stack[i]])
  }

  function Stamps(s: State, k: Kind): seq<int>
    requires Shaped(s)
  {
    StampsOf(s.conns[k], s.used)
  }

  /** How much of a stack a cleanup cuts off. */
  function Cut(cfg: Config, s: State, k: Kind, all: bool): (n: nat)
    requires Shaped(s)
    ensures n <= |s.conns[k]|
  {
    if all then |s.conns[k]| else CutAt(Stamps(s, k), s.now - cfg.expire)
  }

  function Elements(stack: seq<Conn>): set<Conn> {
    set i | 0 <= i < |stack| :: stack[i]
  }

  function Lost(cfg: Config, s: State, k: Kind, all: bool): set<Conn>
    requires Shaped(s)
  {
    Elements(s.conns[k][..Cut(cfg, s, k, all)])
  }

  /** What a cleanup hands to `closeConns`. */
  function CutOff(cfg: Config, s: State, all: bool): set<Conn>
    requires Shaped(s)
  {
    Lost(cfg, s, 0, all) + Lost(cfg, s, 1, all) + Lost(cfg, s, 2, all)
  }

  function Cleanup(cfg: Config, s: State, all: bool): State
    requires Shaped(s)
  {
    s.(conns := [s.conns[0][Cut(cfg, s, 0, all)..], s.conns[1][Cut(cfg, s, 1, all)..], s.conns[2][Cut(cfg, s, 2, all)..]],
       closing := s.closing + CutOff(cfg, s, all))
  }

  /** What kind of connection dialling a protocol gives. */
  predicate Dials(proto: string, isUdp: bool) {
    (proto == "udp" ==> isUdp) && (proto == "tcp" || proto == "tcp-tls" ==> !isUdp)
  }

  /** When a step can happen. A held connection is always a known one, so the last test of
      `TakeYield` never decides. */
  predicate Enabled(cfg: Config, s: State, a: Step) {
    match a
    case Advance(_) => true
    case Arrive(i) => i !in s.clients
    case Ask(i, _) => Is(s, i, Idle)
    case TakeDial(i) => s.mgr == Ready && i in s.clients && s.clients[i].Dialing?
    case GetRet(i) => s.mgr.Replying? && i in s.clients && s.clients[i].Waiting?
    case GetClosedRet(i) => s.mgr == Done && i in s.clients && s.clients[i].Waiting?
    case DialNew(i, c, isUdp) => i in s.clients && s.clients[i].Connecting? && c !in s.udp && Dials(s.clients[i].proto, isUdp)
    case DialFails(i) => i in s.clients && s.clients[i].Connecting?
    case Fail(i) => i in s.clients && s.clients[i].Holding?
    case Stamp(i) => i in s.clients && s.clients[i].Holding?
    case TakeYield(i) => s.mgr == Ready && i in s.clients && s.clients[i].Yielding? && s.clients[i].conn in s.udp
    case GiveUp(i) => i in s.clients && s.clients[i].Yielding?
    case Tick => s.mgr == Ready
    case StopCall => !s.stopping
    case TakeStop => s.mgr == Ready && s.stopping
    case CloseOne(c) => c in s.closing
  }

  /** The manager serves a request on `dial`. */
  function ServeDial(cfg: Config, s: State, k: Kind): State
    requires Shaped(s)
  {
    var stack := s.conns[k];
    if TakesTop(Stamps(s, k), s.now, cfg.expire) then
      s.(conns := s.conns[k := stack[..|stack| - 1]], mgr := Replying(Some(stack[|stack| - 1]), k))
    else
      s.(conns := s.conns[k := []], closing := s.closing + Elements(stack), mgr := Replying(None, k))
  }

  function Set(s: State, i: ClientId, c: Client): State {
    s.(clients := s.clients[i := c])
  }

  function Next(cfg: Config, s: State, a: Step): State
    requires Shaped(s) && Enabled(cfg, s, a)
  {
    match a
    case Advance(d) => s.(now := s.now + d)
    case Arrive(i) => Set(s, i, Idle)
    case Ask(i, proto) => Set(s, i, Dialing(if cfg.tls then "tcp-tls" else proto))
    case TakeDial(i) =>
      var proto := s.clients[i].proto;
      Set(ServeDial(cfg, s, KindOf(proto)), i, Waiting(proto))
    case GetRet(i) =>
      Set(s, i, match s.mgr.reply case Some(c) => Holding(c) case None => Connecting(s.clients[i].proto)).(mgr := Ready)
    case GetClosedRet(i) => Set(s, i, Connecting(s.clients[i].proto))
    case DialNew(i, c, isUdp) => Set(s, i, Holding(c)).(udp := s.udp[c := isUdp], used := s.used[c := 0])
    case DialFails(i) => Set(s, i, Idle)
    case Fail(i) => Set(s, i, Idle).(closed := s.closed + {s.clients[i].conn})
    case Stamp(i) => Set(s, i, Yielding(s.clients[i].conn)).(used := s.used[s.clients[i].conn := s.now])
    case TakeYield(i) =>
      var c := s.clients[i].conn;
      var k := KindOfConn(s.udp[c], cfg.tls);
      Set(s, i, Idle).(conns := s.conns[k := s.conns[k] + [c]])
    case GiveUp(i) => Set(s, i, Idle).(dropped := s.dropped + {s.clients[i].conn})
    case Tick => Cleanup(cfg, s, false)
    case StopCall => s.(stopping := true)
    case TakeStop => Cleanup(cfg, s, true).(mgr := Done)
    case CloseOne(c) => s.(closing := s.closing - {c}, closed := s.closed + {c})
  }

  // ----- every connection is in one place

  datatype Place = Pooled(k: Kind) | With(i: ClientId) | Offered | Closing | Closed | Dropped

  ghost predicate At(s: State, c: Conn, p: Place) {
    match p
    case Pooled(k) => |s.conns| == 3 && c in s.conns[k]
    case With(i) => i in s.clients && (s.clients[i] == Holding(c) || s.clients[i] == Yielding(c))
    case Offered => s.mgr.Replying? && s.mgr.reply == Some(c)
    case Closing => c in s.closing
    case Closed => c in s.closed
    case Dropped => c in s.dropped
  }

  ghost predicate NoDups(stack: seq<Conn>) {
    forall i, j :: 0 <= i < j < |stack| ==> stack[i] != stack[j]
  }

  /** Each connection ever made is in exactly one place, and once in it. */
  ghost predicate OnePlace(s: State) {
    && (forall c, p, q :: At(s, c, p) && At(s, c, q) ==> p == q)
    && (forall c, p :: At(s, c, p) ==> c in s.udp)
    && (forall c :: c in s.udp ==> exists p :: At(s, c, p))
    && forall k: Kind :: |s.conns| == 3 ==> NoDups(s.conns[k])
  }

  /** The connections a step moves, and where to. */
  ghost function Moved(cfg: Config, s: State, a: Step): (set<Conn>, Place)
    requires Shaped(s) && Enabled(cfg, s, a)
  {
    match a
    case TakeDial(i) =>
      var k := KindOf(s.clients[i].proto);
      var stack := s.conns[k];
      if TakesTop(Stamps(s, k), s.now, cfg.expire) then ({stack[|stack| - 1]}, Offered) else (Elements(stack), Closing)
    case GetRet(i) => (match s.mgr.reply case Some(c) => {c} case None => {}, With(i))
    case DialNew(i, c, _) => ({c}, With(i))
    case Fail(i) => ({s.clients[i].conn}, Closed)
    case TakeYield(i) => ({s.clients[i].conn}, Pooled(KindOfConn(s.udp[s.clients[i].conn], cfg.tls)))
    case GiveUp(i) => ({s.clients[i].conn}, Dropped)
    case Tick => (CutOff(cfg, s, false), Closing)
    case TakeStop => (CutOff(cfg, s, true), Closing)
    case CloseOne(c) => ({c}, Closed)
    case _ => ({}, Closed)
  }

  /** `s'` is `s` with the connections of `cs` moved to `q`. */
  ghost predicate Moves(s: State, s': State, cs: set<Conn>, q: Place) {
    forall c, p :: At(s', c, p) <==> if c in cs then p == q else At(s, c, p)
  }

  /** Moving known or new connections keeps everything in one place. */
  lemma {:induction false} MovesKeep(s: State, s': State, cs: set<Conn>, q: Place)
    requires OnePlace(s) && Moves(s, s', cs, q)
    requires s.udp.Keys + cs == s'.udp.Keys
    requires forall k: Kind :: |s'.conns| == 3 ==> NoDups(s'.conns[k])
    ensures OnePlace(s')
  {
    forall c | c in s'.udp
      ensures exists p :: At(s', c, p)
    {
      if c in cs {
        assert At(s', c, q);
      } else {
        var p :| At(s, c, p);
        assert At(s', c, p);
      }
    }
  }

  ghost predicate InPool(s: State, c: Conn) {
    exists k: Kind :: At(s, c, Pooled(k))
  }

  /** `rest` is `stack` without `off`. */
  ghost predicate CutFrom(stack: seq<Conn>, rest: seq<Conn>, off: set<Conn>) {
    NoDups(rest) && forall c :: c in rest <==> c in stack && c !in off
  }

  /** What leaves the stacks goes to `q`; nothing else changes place. */
  ghost predicate LeavesPool(s: State, s': State, off: set<Conn>, q: Place) {
    && s'.clients == s.clients && s'.closed == s.closed && s'.dropped == s.dropped && |s.conns| == |s'.conns| == 3
    && (forall k: Kind :: CutFrom(s.conns[k], s'.conns[k], off))
    && (forall c :: c in off ==> InPool(s, c))
    && !s.mgr.Replying?
    && match q
       case Offered => s'.closing == s.closing && s'.mgr.Replying? && s'.mgr.reply.Some? && off == {s'.mgr.reply.value}
       case Closing => s'.closing == s.closing + off && (s'.mgr.Replying? ==> s'.mgr.reply == None)
       case _ => false
  }

  lemma {:induction false} LeavingMoves(s: State, s': State, off: set<Conn>, q: Place)
    requires OnePlace(s) && LeavesPool(s, s', off, q)
    ensures Moves(s, s', off, q)
  {
    forall c, p
      ensures At(s', c, p) <==> if c in off then p == q else At(s, c, p)
    {
      if c in off {
        assert InPool(s, c);
        var k: Kind :| At(s, c, Pooled(k));
        assert At(s, c, p) ==> p == Pooled(k);
      }
      match p
      case Pooled(k) => assert CutFrom(s.conns[k], s'.conns[k], off);
      case With(i) => assert At(s', c, p) == At(s, c, p);
      case _ =>
    }
  }

  /** A connection of one stack is in no other. */
  lemma {:induction false} OneStack(s: State, c: Conn, j: Kind, k: Kind)
    requires OnePlace(s) && |s.conns| == 3 && c in s.conns[j] && c in s.conns[k]
    ensures j == k
  {
    assert At(s, c, Pooled(j)) && At(s, c, Pooled(k));
  }

  /** Taking `off` from the stack `k` alone. */
  lemma {:induction false} OthersKept(s: State, off: set<Conn>, j: Kind, k: Kind)
    requires Shaped(s) && OnePlace(s) && j != k && forall c :: c in off ==> c in s.conns[k]
    ensures CutFrom(s.conns[j], s.conns[j], off)
  {
    forall c | c in s.conns[j]
      ensures c !in off
    {
      if c in off {
        OneStack(s, c, j, k);
      }
    }
  }

  lemma {:induction false} CutKeeps(stack: seq<Conn>, n: nat, off: set<Conn>)
    requires n <= |stack| && NoDups(stack)
    requires forall c :: c in stack ==> (c in off <==> c in Elements(stack[..n]))
    ensures CutFrom(stack, stack[n..], off)
  {
    assert stack == stack[..n] + stack[n..];
  }

  lemma {:induction false} PopKeeps(stack: seq<Conn>)
    requires stack != [] && NoDups(stack)
    ensures CutFrom(stack, stack[..|stack| - 1], {stack[|stack| - 1]})
  {
    assert stack == stack[..|stack| - 1] + [stack[|stack| - 1]];
  }

  lemma {:induction false} TopLeaves(s: State, s': State, k: Kind)
    requires Shaped(s) && OnePlace(s) && s.mgr == Ready && s.conns[k] != []
    requires var stack := s.conns[k];
             s' == s.(conns := s.conns[k := stack[..|stack| - 1]], mgr := Replying(Some(stack[|stack| - 1]), k))
    ensures var stack := s.conns[k]; LeavesPool(s, s', {stack[|stack| - 1]}, Offered)
  {
    var stack := s.conns[k];
    var c := stack[|stack| - 1];
    PopKeeps(stack);
    assert At(s, c, Pooled(k));
    forall j: Kind
      ensures CutFrom(s.conns[j], s'.conns[j], {c})
    {
      if j != k {
        OthersKept(s, {c}, j, k);
      }
    }
  }

  lemma {:induction false} StackLeaves(s: State, s': State, k: Kind)
    requires Shaped(s) && OnePlace(s) && s.mgr == Ready
    requires s' == s.(conns := s.conns[k := []], closing := s.closing + Elements(s.conns[k]), mgr := Replying(None, k))
    ensures LeavesPool(s, s', Elements(s.conns[k]), Closing)
  {
    forall j: Kind
      ensures CutFrom(s.conns[j], s'.conns[j], Elements(s.conns[k]))
    {
      if j != k {
        OthersKept(s, Elements(s.conns[k]), j, k);
      }
    }
    forall c | c in Elements(s.conns[k])
      ensures InPool(s, c)
    {
      assert At(s, c, Pooled(k));
    }
  }

  lemma {:induction false} CutOffPooled(cfg: Config, s: State, all: bool, c: Conn) returns (k: Kind)
    requires Shaped(s) && c in CutOff(cfg, s, all)
    ensures c in Lost(cfg, s, k, all) && c in s.conns[k]
  {
    k := if c in Lost(cfg, s, 0, all) then 0 else if c in Lost(cfg, s, 1, all) then 1 else 2;
  }

  lemma {:induction false} LostIsCutOff(cfg: Config, s: State, all: bool, k: Kind)
    requires Shaped(s)
    ensures Lost(cfg, s, k, all) <= CutOff(cfg, s, all)
  {
    assert k == 0 || k == 1 || k == 2;
  }

  lemma {:induction false} CleanupLeaves(cfg: Config, s: State, all: bool, s': State)
    requires Shaped(s) && OnePlace(s) && s.mgr == Ready
    requires s' == Cleanup(cfg, s, all) || s' == Cleanup(cfg, s, all).(mgr := Done)
    ensures LeavesPool(s, s', CutOff(cfg, s, all), Closing)
  {
    var off := CutOff(cfg, s, all);
    forall k: Kind
      ensures CutFrom(s.conns[k], s'.conns[k], off)
    {
      LostIsCutOff(cfg, s, all, k);
      forall c | c in s.conns[k] && c in off
        ensures c in Lost(cfg, s, k, all)
      {
        var j := CutOffPooled(cfg, s, all, c);
        OneStack(s, c, j, k);
      }
      CutKeeps(s.conns[k], Cut(cfg, s, k, all), off);
    }
    forall c | c in off
      ensures InPool(s, c)
    {
      var k := CutOffPooled(cfg, s, all, c);
      assert At(s, c, Pooled(k));
    }
  }

  // ----- client steps

  function HeldBy(s: State, i: ClientId): Option<Conn> {
    if i in s.clients && (s.clients[i].Holding? || s.clients[i].Yielding?) then Some(s.clients[i].conn) else None
  }

  /** Nothing but the clients, the clock and the stamps changes, and everyone keeps what they hold. */
  lemma {:induction false} SameHolders(s: State, s': State)
    requires s' == s.(clients := s'.clients, used := s'.used, now := s'.now, stopping := s'.stopping)
    requires forall i :: HeldBy(s', i) == HeldBy(s, i)
    ensures Moves(s, s', {}, Closed)
  {
    forall c: Conn, p: Place
      ensures At(s', c, p) <==> At(s, c, p)
    {
      if p.With? {
        assert At(s, c, p) <==> HeldBy(s, p.i) == Some(c);
        assert At(s', c, p) <==> HeldBy(s', p.i) == Some(c);
      }
    }
  }

  /** Client `i` gets a connection that no client holds. */
  lemma {:induction false} Receives(s: State, s': State, i: ClientId, c: Conn)
    requires OnePlace(s) && HeldBy(s, i) == None && s'.clients == s.clients[i := Holding(c)]
    requires s'.conns == s.conns && s'.closing == s.closing && s'.closed == s.closed && s'.dropped == s.dropped
    requires if c in s.udp then s.mgr.Replying? && s.mgr.reply == Some(c) && s'.mgr == Ready else s'.mgr == s.mgr
    ensures Moves(s, s', {c}, With(i))
  {
    if c in s.udp {
      assert At(s, c, Offered);
    }
    forall d, p
      ensures At(s', d, p) <==> if d == c then p == With(i) else At(s, d, p)
    {
      assert d == c && At(s, d, p) ==> p == Offered;
      assert p != With(i) && p != Offered ==> At(s', d, p) == At(s, d, p);
    }
  }

  /** Client `i` lets go of its connection, which goes to `q`. */
  lemma {:induction false} LetsGo(s: State, s': State, i: ClientId, c: Conn, q: Place)
    requires OnePlace(s) && Shaped(s) && HeldBy(s, i) == Some(c) && s' == s.(clients := s.clients[i := Idle], conns := s'.conns, closed := s'.closed, dropped := s'.dropped)
    requires match q
             case Pooled(k) => s'.closed == s.closed && s'.dropped == s.dropped && s'.conns == s.conns[k := s.conns[k] + [c]]
             case Closed => s'.conns == s.conns && s'.dropped == s.dropped && s'.closed == s.closed + {c}
             case Dropped => s'.conns == s.conns && s'.closed == s.closed && s'.dropped == s.dropped + {c}
             case _ => false
    ensures Moves(s, s', {c}, q)
  {
    assert At(s, c, With(i));
    forall d, p
      ensures At(s', d, p) <==> if d == c then p == q else At(s, d, p)
    {
      assert d == c && At(s, d, p) ==> p == With(i);
      assert p != With(i) && p != q ==> At(s', d, p) == At(s, d, p);
    }
  }

  lemma {:induction false} MoveOn(s: State, s1: State, s': State, cs: set<Conn>, q: Place)
    requires Moves(s, s1, cs, q) && Moves(s1, s', {}, Closed)
    ensures Moves(s, s', cs, q)
  {
  }

  lemma {:induction false} DialLeaves(cfg: Config, s: State, i: ClientId)
    requires Shaped(s) && OnePlace(s) && Enabled(cfg, s, TakeDial(i))
    ensures var m := Moved(cfg, s, TakeDial(i)); LeavesPool(s, ServeDial(cfg, s, KindOf(s.clients[i].proto)), m.0, m.1)
  {
    var k := KindOf(s.clients[i].proto);
    if TakesTop(Stamps(s, k), s.now, cfg.expire) {
      TopLeaves(s, ServeDial(cfg, s, k), k);
    } else {
      StackLeaves(s, ServeDial(cfg, s, k), k);
    }
  }

  lemma {:induction false} DialMoves(cfg: Config, s: State, i: ClientId)
    requires Shaped(s) && OnePlace(s) && Enabled(cfg, s, TakeDial(i))
    ensures var m := Moved(cfg, s, TakeDial(i)); Moves(s, Next(cfg, s, TakeDial(i)), m.0, m.1)
    ensures forall k: Kind :: NoDups(Next(cfg, s, TakeDial(i)).conns[k])
  {
    var s1, s', m := ServeDial(cfg, s, KindOf(s.clients[i].proto)), Next(cfg, s, TakeDial(i)), Moved(cfg, s, TakeDial(i));
    DialLeaves(cfg, s, i);
    LeavingMoves(s, s1, m.0, m.1);
    SameHolders(s1, s');
    MoveOn(s, s1, s', m.0, m.1);
    forall j: Kind
      ensures NoDups(s'.conns[j])
    {
      assert CutFrom(s.conns[j], s1.conns[j], m.0);
    }
  }

  lemma {:induction false} CleanupMoves(cfg: Config, s: State, a: Step)
    requires Shaped(s) && OnePlace(s) && Enabled(cfg, s, a) && (a.Tick? || a.TakeStop?)
    ensures var m := Moved(cfg, s, a); Moves(s, Next(cfg, s, a), m.0, m.1)
    ensures forall k: Kind :: NoDups(Next(cfg, s, a).conns[k])
  {
    var s', off := Next(cfg, s, a), CutOff(cfg, s, a.TakeStop?);
    CleanupLeaves(cfg, s, a.TakeStop?, s');
    LeavingMoves(s, s', off, Closing);
    forall j: Kind
      ensures NoDups(s'.conns[j])
    {
      assert CutFrom(s.conns[j], s'.conns[j], off);
    }
  }

  lemma {:induction false} YieldMoves(cfg: Config, s: State, i: ClientId)
    requires Shaped(s) && OnePlace(s) && Enabled(cfg, s, TakeYield(i))
    ensures var m := Moved(cfg, s, TakeYield(i)); Moves(s, Next(cfg, s, TakeYield(i)), m.0, m.1)
    ensures forall k: Kind :: NoDups(Next(cfg, s, TakeYield(i)).conns[k])
  {
    var c, s' := s.clients[i].conn, Next(cfg, s, TakeYield(i));
    var k := KindOfConn(s.udp[c], cfg.tls);
    LetsGo(s, s', i, c, Pooled(k));
    assert At(s, c, With(i)) && !At(s, c, Pooled(k));
    assert NoDups(s.conns[k]) && NoDups(s.conns[k] + [c]);
  }

  /** Every step moves just the connections it names. */
  lemma {:induction false} StepMoves(cfg: Config, s: State, a: Step)
    requires Shaped(s) && OnePlace(s) && Enabled(cfg, s, a)
    ensures var m := Moved(cfg, s, a); Moves(s, Next(cfg, s, a), m.0, m.1)
    ensures forall k: Kind :: NoDups(Next(cfg, s, a).conns[k])
  {
    var s' := Next(cfg, s, a);
    match a
    case TakeDial(i) => DialMoves(cfg, s, i);
    case GetRet(i) =>
      if s.mgr.reply.Some? {
        assert At(s, s.mgr.reply.value, Offered);
        Receives(s, s', i, s.mgr.reply.value);
      } else {
        SameHolders(s.(mgr := Ready), s');
      }
    case DialNew(i, c, _) => Receives(s, s', i, c);
    case Fail(i) => LetsGo(s, s', i, s.clients[i].conn, Closed);
    case TakeYield(i) => YieldMoves(cfg, s, i);
    case GiveUp(i) => LetsGo(s, s', i, s.clients[i].conn, Dropped);
    case Tick => CleanupMoves(cfg, s, a);
    case TakeStop => CleanupMoves(cfg, s, a);
    case CloseOne(c) =>
      assert At(s, c, Closing);
      CloseMoves(s, s', c);
    case _ => SameHolders(s, s');
  }

  lemma {:induction false} CloseMoves(s: State, s': State, c: Conn)
    requires OnePlace(s) && At(s, c, Closing) && s' == s.(closing := s.closing - {c}, closed := s.closed + {c})
    ensures Moves(s, s', {c}, Closed)
  {
    forall d, p
      ensures At(s', d, p) <==> if d == c then p == Closed else At(s, d, p)
    {
      assert d == c && At(s, d, p) ==> p == Closing;
      assert p != Closing && p != Closed ==> At(s', d, p) == At(s, d, p);
    }
  }

  // ----- the invariant

  /** Pooled and offered connections are of the kind of their stack. */
  ghost predicate KindsRight(cfg: Config, s: State) {
    && (forall c, k :: At(s, c, Pooled(k)) && c in s.udp ==> KindOfConn(s.udp[c], cfg.tls) == k)
    && (s.mgr.Replying? && s.mgr.reply.Some? && s.mgr.reply.value in s.udp ==>
          KindOfConn(s.udp[s.mgr.reply.value], cfg.tls) == s.mgr.kind)
  }

  predicate Waits(s: State, i: ClientId) {
    i in s.clients && s.clients[i].Waiting?
  }

  /** A client waits on `ret` just while the manager replies, it is the only one, and the reply
      is for the protocol it asked for. */
  ghost predicate OneWaits(s: State) {
    && (forall i :: Waits(s, i) ==> s.mgr.Replying? && s.mgr.kind == KindOf(s.clients[i].proto))
    && (forall i, j :: Waits(s, i) && Waits(s, j) ==> i == j)
    && (s.mgr.Replying? ==> exists i :: Waits(s, i))
  }

  ghost predicate Inv(cfg: Config, s: State) {
    Shaped(s) && OnePlace(s) && KindsRight(cfg, s) && OneWaits(s)
  }

  lemma {:induction false} PooledKinds(cfg: Config, s: State, a: Step, c: Conn, k: Kind)
    requires Shaped(s) && OnePlace(s) && KindsRight(cfg, s) && Enabled(cfg, s, a)
    requires At(Next(cfg, s, a), c, Pooled(k)) && c in Next(cfg, s, a).udp
    ensures KindOfConn(Next(cfg, s, a).udp[c], cfg.tls) == k
  {
    StepMoves(cfg, s, a);
    var (cs, q) := Moved(cfg, s, a);
    if c in cs {
      assert q == Pooled(k);
    } else {
      assert At(s, c, Pooled(k));
    }
  }

  lemma {:induction false} OfferedKind(cfg: Config, s: State, a: Step)
    requires Shaped(s) && OnePlace(s) && KindsRight(cfg, s) && Enabled(cfg, s, a)
    ensures var s' := Next(cfg, s, a);
            s'.mgr.Replying? && s'.mgr.reply.Some? && s'.mgr.reply.value in s'.udp ==>
              KindOfConn(s'.udp[s'.mgr.reply.value], cfg.tls) == s'.mgr.kind
  {
    if s.mgr.Replying? && s.mgr.reply.Some? {
      assert At(s, s.mgr.reply.value, Offered);
    }
    if a.TakeDial? {
      var k := KindOf(s.clients[a.i].proto);
      if TakesTop(Stamps(s, k), s.now, cfg.expire) {
        assert At(s, s.conns[k][|s.conns[k]| - 1], Pooled(k));
      }
    }
  }

  lemma {:induction false} KindsKept(cfg: Config, s: State, a: Step)
    requires Shaped(s) && OnePlace(s) && KindsRight(cfg, s) && Enabled(cfg, s, a)
    ensures KindsRight(cfg, Next(cfg, s, a))
  {
    var s' := Next(cfg, s, a);
    OfferedKind(cfg, s, a);
    forall c, k | At(s', c, Pooled(k)) && c in s'.udp
      ensures KindOfConn(s'.udp[c], cfg.tls) == k
    {
      PooledKinds(cfg, s, a, c, k);
    }
  }

  lemma {:induction false} WaitsKept(cfg: Config, s: State, a: Step)
    requires Shaped(s) && OneWaits(s) && Enabled(cfg, s, a)
    ensures OneWaits(Next(cfg, s, a))
  {
    var s' := Next(cfg, s, a);
    if a.TakeDial? {
      assert Waits(s', a.i);
      assert forall j :: Waits(s', j) && j != a.i ==> Waits(s, j);
    } else if a.GetRet? {
      assert Waits(s, a.i);
      assert forall j :: Waits(s', j) ==> Waits(s, j);
      assert !Waits(s', a.i);
    } else {
      assert forall j :: Waits(s', j) <==> Waits(s, j);
      assert forall j :: Waits(s', j) ==> s'.clients[j] == s.clients[j];
    }
  }

  lemma {:induction false} KeysKept(cfg: Config, s: State, a: Step)
    requires Shaped(s) && OnePlace(s) && Enabled(cfg, s, a)
    ensures var s' := Next(cfg, s, a);
            s'.udp.Keys == s'.used.Keys == s.udp.Keys + Moved(cfg, s, a).0 && |s'.conns| == 3
  {
    var s', m := Next(cfg, s, a), Moved(cfg, s, a);
    forall c | c in m.0
      ensures c in s'.udp
    {
      if !a.DialNew? {
        MovedKnown(cfg, s, a, c);
      }
    }
    if a.Stamp? {
      assert At(s, s.clients[a.i].conn, With(a.i));
    }
  }

  lemma {:induction false} ShapeKept(cfg: Config, s: State, a: Step)
    requires Shaped(s) && OnePlace(s) && Enabled(cfg, s, a)
    ensures Shaped(Next(cfg, s, a)) && Next(cfg, s, a).udp.Keys == s.udp.Keys + Moved(cfg, s, a).0
  {
    var s', m := Next(cfg, s, a), Moved(cfg, s, a);
    StepMoves(cfg, s, a);
    KeysKept(cfg, s, a);
    forall k, i | 0 <= k < 3 && 0 <= i < |s'.conns[k]|
      ensures s'.conns[k][i] in s'.udp
    {
      var c := s'.conns[k][i];
      assert At(s', c, Pooled(k));
      assert c !in m.0 ==> At(s, c, Pooled(k));
    }
  }

  lemma {:induction false} MovedKnown(cfg: Config, s: State, a: Step, c: Conn)
    requires Shaped(s) && OnePlace(s) && Enabled(cfg, s, a) && !a.DialNew? && c in Moved(cfg, s, a).0
    ensures c in s.udp
  {
    match a
    case TakeDial(i) => assert At(s, c, Pooled(KindOf(s.clients[i].proto)));
    case GetRet(i) => assert At(s, c, Offered);
    case Fail(i) => assert At(s, c, With(i));
    case TakeYield(i) => assert At(s, c, With(i));
    case GiveUp(i) => assert At(s, c, With(i));
    case Tick => var k := CutOffPooled(cfg, s, false, c);
    case TakeStop => var k := CutOffPooled(cfg, s, true, c);
    case CloseOne(_) => assert At(s, c, Closing);
    case _ =>
  }

  lemma {:induction false} InvKept(cfg: Config, s: State, a: Step)
    requires Inv(cfg, s) && Enabled(cfg, s, a)
    ensures Inv(cfg, Next(cfg, s, a))
  {
    var m := Moved(cfg, s, a);
    StepMoves(cfg, s, a);
    ShapeKept(cfg, s, a);
    MovesKeep(s, Next(cfg, s, a), m.0, m.1);
    KindsKept(cfg, s, a);
    WaitsKept(cfg, s, a);
  }

  // ----- runs

  ghost predicate Run(cfg: Config, states: seq<State>, steps: seq<Step>) {
    && |states| == |steps| + 1 && Init(states[0])
    && forall i :: 0 <= i < |steps| ==>
         Shaped(states[i]) && Enabled(cfg, states[i], steps[i]) && states[i + 1] == Next(cfg, states[i], steps[i])
  }

  /** The invariant holds throughout every run. */
  lemma {:induction false} RunSafe(cfg: Config, states: seq<State>, steps: seq<Step>, n: nat)
    requires Run(cfg, states, steps) && n < |states|
    ensures Inv(cfg, states[n])
  {
    if n == 0 {
      InitSafe(cfg, states[0]);
    } else {
      RunSafe(cfg, states, steps, n - 1);
      InvKept(cfg, states[n - 1], steps[n - 1]);
    }
  }

  lemma InitSafe(cfg: Config, s: State)
    requires Init(s)
    ensures Inv(cfg, s)
  {
    forall c, p
      ensures !At(s, c, p)
    {
    }
  }

  ghost predicate OnlyHolder(s: State, c: Conn, i: ClientId) {
    HeldBy(s, i) == Some(c) && forall j :: HeldBy(s, j) == Some(c) ==> j == i
  }

  /** A client that gets a connection from `ret` is the only one waiting, gets the kind it asked
      for, and gets a connection that is open and that nobody else has. */
  lemma {:induction false} HandedOut(cfg: Config, states: seq<State>, steps: seq<Step>, n: nat, i: ClientId, c: Conn)
    requires Run(cfg, states, steps) && n < |steps| && steps[n] == GetRet(i) && states[n].mgr.reply == Some(c)
    ensures forall j :: Waits(states[n], j) ==> j == i
    ensures c in states[n].udp && KindOfConn(states[n].udp[c], cfg.tls) == KindOf(states[n].clients[i].proto)
    ensures c !in states[n].closing && c !in states[n].closed
    ensures forall j :: HeldBy(states[n], j) != Some(c)
    ensures OnlyHolder(states[n + 1], c, i)
  {
    RunSafe(cfg, states, steps, n);
    RunSafe(cfg, states, steps, n + 1);
    OfferIsRight(cfg, states[n], i, c);
    HeldAlone(states[n + 1], i, c);
  }

  lemma {:induction false} OfferIsRight(cfg: Config, s: State, i: ClientId, c: Conn)
    requires Inv(cfg, s) && Enabled(cfg, s, GetRet(i)) && s.mgr.reply == Some(c)
    ensures forall j :: Waits(s, j) ==> j == i
    ensures c in s.udp && KindOfConn(s.udp[c], cfg.tls) == KindOf(s.clients[i].proto)
    ensures c !in s.closing && c !in s.closed && forall j :: HeldBy(s, j) != Some(c)
  {
    assert Waits(s, i) && At(s, c, Offered);
    assert !At(s, c, Closing) && !At(s, c, Closed);
    forall j
      ensures HeldBy(s, j) != Some(c)
    {
      assert !At(s, c, With(j));
    }
  }

  lemma {:induction false} HeldAlone(s: State, i: ClientId, c: Conn)
    requires OnePlace(s) && HeldBy(s, i) == Some(c)
    ensures OnlyHolder(s, c, i)
  {
    assert At(s, c, With(i));
    forall j | HeldBy(s, j) == Some(c)
      ensures j == i
    {
      assert At(s, c, With(j));
    }
  }

  /** Given up for good. */
  ghost predicate Gone(s: State, c: Conn) {
    c in s.closing || c in s.closed || c in s.dropped
  }

  /** A connection that was closed or dropped is never pooled, offered or held again. */
  lemma {:induction false} GoneStaysGone(cfg: Config, states: seq<State>, steps: seq<Step>, m: nat, n: nat, c: Conn)
    requires Run(cfg, states, steps) && m <= n < |states| && Gone(states[m], c)
    ensures Gone(states[n], c)
    ensures forall k: Kind :: !At(states[n], c, Pooled(k))
    ensures !At(states[n], c, Offered) && forall i :: HeldBy(states[n], i) != Some(c)
  {
    GoneInRun(cfg, states, steps, m, n, c);
    RunSafe(cfg, states, steps, n);
    GoneIsOut(states[n], c);
  }

  lemma {:induction false} GoneInRun(cfg: Config, states: seq<State>, steps: seq<Step>, m: nat, n: nat, c: Conn)
    requires Run(cfg, states, steps) && m <= n < |states| && Gone(states[m], c)
    ensures Gone(states[n], c)
  {
    if m < n {
      GoneInRun(cfg, states, steps, m, n - 1, c);
      RunSafe(cfg, states, steps, n - 1);
      GoneKept(cfg, states[n - 1], steps[n - 1], c);
    }
  }

  lemma {:induction false} GoneKept(cfg: Config, s: State, a: Step, c: Conn)
    requires Shaped(s) && Enabled(cfg, s, a) && Gone(s, c)
    ensures Gone(Next(cfg, s, a), c)
  {
  }

  lemma {:induction false} GoneIsOut(s: State, c: Conn)
    requires OnePlace(s) && Gone(s, c)
    ensures forall k: Kind :: !At(s, c, Pooled(k))
    ensures !At(s, c, Offered) && forall i :: HeldBy(s, i) != Some(c)
  {
    var q := if c in s.closing then Closing else if c in s.closed then Closed else Dropped;
    assert At(s, c, q);
    forall i
      ensures HeldBy(s, i) != Some(c)
    {
      assert !At(s, c, With(i));
    }
  }

  // ----- stamp order

  predicate YieldTaken(states: seq<State>, steps: seq<Step>, n: nat)
    requires |states| == |steps| + 1
  {
    n < |steps| && YieldStep(states[n], steps[n])
  }

  /** The stamp of the connection that the manager takes at step `n`. */
  function YieldStamp(states: seq<State>, steps: seq<Step>, n: nat): int
    requires |states| == |steps| + 1 && YieldTaken(states, steps, n)
  {
    states[n].used[HeldBy(states[n], steps[n].i).value]
  }

  /** Yields reach the manager in the order of their stamps. */
  ghost predicate InOrder(states: seq<State>, steps: seq<Step>)
    requires |states| == |steps| + 1
  {
    forall m, n :: m < n && YieldTaken(states, steps, m) && YieldTaken(states, steps, n) ==>
      YieldStamp(states, steps, m) <= YieldStamp(states, steps, n)
  }

  /** Stacks are sorted, and nothing in them was stamped later than a yield still to come. */
  ghost predicate SortedAt(states: seq<State>, steps: seq<Step>, n: nat)
    requires |states| == |steps| + 1 && n < |states|
  {
    Shaped(states[n]) && forall k: Kind :: SortedStack(states, steps, n, Stamps(states[n], k))
  }

  ghost predicate SortedStack(states: seq<State>, steps: seq<Step>, n: nat, stamps: seq<int>)
    requires |states| == |steps| + 1
  {
    && SortedStamps(stamps)
    && forall i, m :: 0 <= i < |stamps| && n <= m && YieldTaken(states, steps, m) ==> stamps[i] <= YieldStamp(states, steps, m)
  }

  /** `stack'` is a part of `stack` and then `more`. */
  ghost predicate PartAnd(stack: seq<Conn>, stack': seq<Conn>, lo: nat, hi: nat, more: seq<Conn>) {
    lo <= hi <= |stack| && stack' == stack[lo..hi] + more
  }

  lemma WholeStack(stack: seq<Conn>)
    ensures PartAnd(stack, stack, 0, |stack|, [])
  {
    assert stack[0..|stack|] + [] == stack;
  }

  lemma {:induction false} DialChange(cfg: Config, s: State, k: Kind, k': Kind) returns (hi: nat)
    requires Shaped(s)
    ensures PartAnd(s.conns[k], ServeDial(cfg, s, k').conns[k], 0, hi, [])
  {
    var stack := s.conns[k];
    hi := |stack|;
    WholeStack(stack);
    if k == k' {
      hi := if TakesTop(Stamps(s, k), s.now, cfg.expire) then |stack| - 1 else 0;
      assert stack[0..hi] + [] == stack[..hi] && stack[..0] == [];
    }
  }

  lemma {:induction false} YieldChange(cfg: Config, s: State, i: ClientId, k: Kind) returns (more: seq<Conn>)
    requires Shaped(s) && Enabled(cfg, s, TakeYield(i))
    ensures PartAnd(s.conns[k], Next(cfg, s, TakeYield(i)).conns[k], 0, |s.conns[k]|, more)
    ensures more == [] || more == [s.clients[i].conn]
  {
    var stack := s.conns[k];
    more := [];
    WholeStack(stack);
    if k == KindOfConn(s.udp[s.clients[i].conn], cfg.tls) {
      more := [s.clients[i].conn];
      assert stack[0..|stack|] + more == stack + more;
    }
  }

  lemma {:induction false} CleanupChange(cfg: Config, s: State, all: bool, k: Kind) returns (lo: nat)
    requires Shaped(s)
    ensures PartAnd(s.conns[k], Cleanup(cfg, s, all).conns[k], lo, |s.conns[k]|, [])
  {
    lo := Cut(cfg, s, k, all);
    CleanedStack(cfg, s, all, k);
    var stack := s.conns[k];
    assert stack[lo..|stack|] + [] == stack[lo..];
  }

  /** What a step does to a stack: it keeps a part, or adds the connection it takes. */
  lemma {:induction false} StackChange(cfg: Config, s: State, a: Step, k: Kind) returns (lo: nat, hi: nat, more: seq<Conn>)
    requires Shaped(s) && Enabled(cfg, s, a)
    ensures PartAnd(s.conns[k], Next(cfg, s, a).conns[k], lo, hi, more)
    ensures more == [] || (a.TakeYield? && more == [s.clients[a.i].conn])
  {
    lo, hi, more := 0, |s.conns[k]|, [];
    WholeStack(s.conns[k]);
    match a {
      case TakeDial(i) => hi := DialChange(cfg, s, k, KindOf(s.clients[i].proto));
      case TakeYield(i) => more := YieldChange(cfg, s, i, k);
      case Tick => lo := CleanupChange(cfg, s, false, k);
      case TakeStop => lo := CleanupChange(cfg, s, true, k);
      case _ => assert Next(cfg, s, a).conns == s.conns;
    }
  }

  lemma CleanedStack(cfg: Config, s: State, all: bool, k: Kind)
    requires Shaped(s)
    ensures Cleanup(cfg, s, all).conns[k] == s.conns[k][Cut(cfg, s, k, all)..]
  {
    assert k == 0 || k == 1 || k == 2;
  }

  lemma {:induction false} StampsChange(cfg: Config, s: State, a: Step, k: Kind) returns (lo: nat, hi: nat, more: seq<int>)
    requires Inv(cfg, s) && Enabled(cfg, s, a)
    ensures lo <= hi <= |s.conns[k]| && Shaped(Next(cfg, s, a))
    ensures Stamps(Next(cfg, s, a), k) == Stamps(s, k)[lo..hi] + more
    ensures more == [] || (YieldStep(s, a) && more == [s.used[s.clients[a.i].conn]])
  {
    ShapeKept(cfg, s, a);
    StampsStay(cfg, s, a, k);
    var cs;
    lo, hi, cs := StackChange(cfg, s, a, k);
    more := [];
    if cs != [] {
      assert At(s, cs[0], With(a.i));
      more := [s.used[cs[0]]];
    }
    StampsOfParts(s.conns[k], s.used, Next(cfg, s, a).used, lo, hi, cs);
  }

  lemma StampsOfParts(stack: seq<Conn>, used: map<Conn, int>, used': map<Conn, int>, lo: nat, hi: nat, cs: seq<Conn>)
    requires forall i :: 0 <= i < |stack| ==> stack[i] in used && stack[i] in used' && used'[stack[i]] == used[stack[i]]
    requires lo <= hi <= |stack| && forall i :: 0 <= i < |cs| ==> cs[i] in used'
    ensures forall i :: 0 <= i < |stack[lo..hi] + cs| ==> (stack[lo..hi] + cs)[i] in used'
    ensures StampsOf(stack[lo..hi] + cs, used') == StampsOf(stack, used)[lo..hi] + StampsOf(cs, used')
  {
  }

  predicate YieldStep(s: State, a: Step) {
    a.TakeYield? && a.i in s.clients && HeldBy(s, a.i).Some? && HeldBy(s, a.i).value in s.used
  }

  /** No step changes the stamp of a pooled connection. */
  lemma {:induction false} StampsStay(cfg: Config, s: State, a: Step, k: Kind)
    requires Inv(cfg, s) && Enabled(cfg, s, a)
    ensures forall i :: 0 <= i < |s.conns[k]| ==>
              s.conns[k][i] in Next(cfg, s, a).used && Next(cfg, s, a).used[s.conns[k][i]] == s.used[s.conns[k][i]]
  {
    forall i | 0 <= i < |s.conns[k]|
      ensures s.conns[k][i] in Next(cfg, s, a).used && Next(cfg, s, a).used[s.conns[k][i]] == s.used[s.conns[k][i]]
    {
      var c := s.conns[k][i];
      assert At(s, c, Pooled(k));
      if a.Stamp? {
        assert !At(s, c, With(a.i));
      }
    }
  }

  lemma {:induction false} SortedStep(states: seq<State>, steps: seq<Step>, n: nat, old_: seq<int>, lo: nat, hi: nat, more: seq<int>)
    requires |states| == |steps| + 1 && n < |steps| && InOrder(states, steps)
    requires SortedStack(states, steps, n, old_) && lo <= hi <= |old_|
    requires more == [] || (YieldTaken(states, steps, n) && more == [YieldStamp(states, steps, n)])
    ensures SortedStack(states, steps, n + 1, old_[lo..hi] + more)
  {
  }

  /** When yields arrive in the order of their stamps, every stack stays sorted. */
  lemma {:induction false} OrderedRunSorted(cfg: Config, states: seq<State>, steps: seq<Step>, n: nat)
    requires Run(cfg, states, steps) && InOrder(states, steps) && n < |states|
    ensures SortedAt(states, steps, n)
  {
    if n > 0 {
      var s, a := states[n - 1], steps[n - 1];
      OrderedRunSorted(cfg, states, steps, n - 1);
      RunSafe(cfg, states, steps, n - 1);
      ShapeKept(cfg, s, a);
      forall k: Kind
        ensures SortedStack(states, steps, n, Stamps(states[n], k))
      {
        var lo, hi, more := StampsChange(cfg, s, a, k);
        SortedStep(states, steps, n - 1, Stamps(s, k), lo, hi, more);
      }
    }
  }

  ghost predicate ExpiredIn(cfg: Config, s: State, c: Conn) {
    c in s.used && Expired(s.used[c], s.now, cfg.expire)
  }

  /** In such a run a tick hands to `closeConns` exactly the pooled connections that expired. */
  lemma {:induction false} TickIsExact(cfg: Config, states: seq<State>, steps: seq<Step>, n: nat, c: Conn)
    requires Run(cfg, states, steps) && InOrder(states, steps) && n < |steps| && steps[n] == Tick
    ensures c in states[n + 1].closing - states[n].closing <==> InPool(states[n], c) && ExpiredIn(cfg, states[n], c)
  {
    RunSafe(cfg, states, steps, n);
    OrderedRunSorted(cfg, states, steps, n);
    CleanupIsExact(cfg, states[n], c);
  }

  lemma {:induction false} CleanupIsExact(cfg: Config, s: State, c: Conn)
    requires Shaped(s) && OnePlace(s) && forall k: Kind :: SortedStamps(Stamps(s, k))
    ensures c in Cleanup(cfg, s, false).closing - s.closing <==> InPool(s, c) && ExpiredIn(cfg, s, c)
  {
    if c in CutOff(cfg, s, false) {
      var k := CutOffPooled(cfg, s, false, c);
      assert At(s, c, Pooled(k)) && !At(s, c, Closing);
      LostExactly(cfg, s, k, c);
    } else if k: Kind :| At(s, c, Pooled(k)) {
      LostExactly(cfg, s, k, c);
      LostIsCutOff(cfg, s, false, k);
    }
  }

  lemma {:induction false} LostExactly(cfg: Config, s: State, k: Kind, c: Conn)
    requires Shaped(s) && NoDups(s.conns[k]) && c in s.conns[k] && SortedStamps(Stamps(s, k))
    ensures c in Lost(cfg, s, k, false) <==> ExpiredIn(cfg, s, c)
  {
    var i :| 0 <= i < |s.conns[k]| && s.conns[k][i] == c;
    SortedIsExact(Stamps(s, k), s.now, cfg.expire);
    assert Stamps(s, k)[i] == s.used[c];
    var n := Cut(cfg, s, k, false);
    if i < n {
      assert s.conns[k][..n][i] == c;
    }
  }

  /** A dial takes the top of the stack, or all of the stack has expired. */
  ghost predicate TakesOrStale(cfg: Config, s: State, k: Kind)
    requires Shaped(s)
  {
    TakesTop(Stamps(s, k), s.now, cfg.expire) || forall j :: 0 <= j < |s.conns[k]| ==> ExpiredIn(cfg, s, s.conns[k][j])
  }

  /** In every run, a dial closes none but expired connections exactly when it takes the top of
      the stack or all of the stack has expired. */
  lemma {:induction false} DialIsExact(cfg: Config, states: seq<State>, steps: seq<Step>, n: nat, i: ClientId)
    requires Run(cfg, states, steps) && n < |steps| && steps[n] == TakeDial(i)
    ensures Shaped(states[n]) && i in states[n].clients && states[n].clients[i].Dialing?
    ensures (forall c :: c in states[n + 1].closing - states[n].closing ==> ExpiredIn(cfg, states[n], c))
       <==> TakesOrStale(cfg, states[n], KindOf(states[n].clients[i].proto))
  {
    RunSafe(cfg, states, steps, n);
    var s := states[n];
    var k := KindOf(s.clients[i].proto);
    forall j | 0 <= j < |s.conns[k]|
      ensures s.conns[k][j] !in s.closing
    {
      assert At(s, s.conns[k][j], Pooled(k));
      assert !At(s, s.conns[k][j], Closing);
    }
  }

  /** In such a run a dial that finds its stack stale closes only expired connections. */
  lemma {:induction false} DialClosesExpired(cfg: Config, states: seq<State>, steps: seq<Step>, n: nat, i: ClientId, c: Conn)
    requires Run(cfg, states, steps) && InOrder(states, steps) && n < |steps| && steps[n] == TakeDial(i)
    requires c in states[n + 1].closing - states[n].closing
    ensures ExpiredIn(cfg, states[n], c)
  {
    var s := states[n];
    RunSafe(cfg, states, steps, n);
    OrderedRunSorted(cfg, states, steps, n);
    var k := KindOf(s.clients[i].proto);
    SortedIsExact(Stamps(s, k), s.now, cfg.expire);
    var j :| 0 <= j < |s.conns[k]| && s.conns[k][j] == c;
    assert Expired(Stamps(s, k)[j], s.now, cfg.expire);
  }
}
