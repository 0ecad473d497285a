/** The manager's methods on its stacks compute the steps of the pool.  */
module ManagedPool {
  import opened Llrb
  import opened Stacks
  import opened Pool
  import T = Transports

  ghost function Ids(stack: seq<T.PersistConn>): seq<Conn> {
    seq(|stack|, i requires 0 <= i < |stack| => stack[i].id)
  }

  /** The stack has the connections of the state, with their stamps. */
  ghost predicate SameStack(stack: seq<T.PersistConn>, s: State, k: Kind)
    requires Shaped(s)
    reads stack
  {
    Ids(stack) == s.conns[k] && T.Stamps(stack) == Stamps(s, k)
  }

  ghost predicate SameStacks(stacks: seq<seq<T.PersistConn>>, s: State)
    requires Shaped(s) && |stacks| == 3
    reads stacks[0], stacks[1], stacks[2]
  {
    SameStack(stacks[0], s, 0) && SameStack(stacks[1], s, 1) && SameStack(stacks[2], s, 2)
  }

  /** The manager's stacks are those of the state. */
  ghost predicate Mirrors(t: T.Transport, cfg: Config, s: State)
    requires t.Valid()
    reads t, t.conns[0], t.conns[1], t.conns[2]
  {
    Shaped(s) && t.tls == cfg.tls && t.expire == cfg.expire && SameStacks(t.conns, s)
  }

  /** One stack changes. */
  lemma {:induction false} OneStackChanges(stacks: seq<seq<T.PersistConn>>, s: State, s': State, k: Kind, stack: seq<T.PersistConn>)
    requires Shaped(s) && |stacks| == 3 && SameStacks(stacks, s)
    requires Shaped(s') && s'.used == s.used && s'.conns == s.conns[k := s'.conns[k]] && SameStack(stack, s', k)
    ensures SameStacks(stacks[k := stack], s')
  {
    assert k == 0 || k == 1 || k == 2;
    assert forall j: Kind :: j != k ==> s'.conns[j] == s.conns[j];
  }

  /** A part of a stack has a part of the connections. */
  lemma PartOfStack(stack: seq<T.PersistConn>, lo: nat, hi: nat)
    requires lo <= hi <= |stack|
    ensures Ids(stack[lo..hi]) == Ids(stack)[lo..hi] && T.Stamps(stack[lo..hi]) == T.Stamps(stack)[lo..hi]
  {
  }

  /** Serving a dial on the value of one stack. */
  lemma {:induction false} ServedStack(stack: seq<T.PersistConn>, cfg: Config, s: State, k: Kind)
    requires Shaped(s) && SameStack(stack, s, k)
    ensures var s' := ServeDial(cfg, s, k); var n := |stack| - 1;
            && Shaped(s') && s'.used == s.used && s'.conns == s.conns[k := s'.conns[k]]
            && if TakesTop(T.Stamps(stack), s.now, cfg.expire)
               then SameStack(stack[..n], s', k) && s'.mgr == Replying(Some(stack[n].id), k) && s'.closing == s.closing
               else SameStack([], s', k) && s'.mgr == Replying(None, k) && s'.closing == s.closing + Elements(Ids(stack))
  {
    if TakesTop(T.Stamps(stack), s.now, cfg.expire) {
      PartOfStack(stack, 0, |stack| - 1);
    }
  }

  /** `OnDial` is the manager's part of `TakeDial`. */
  method DialStep(t: T.Transport, proto: string, now: int, ghost cfg: Config, ghost s: State) returns (pc: T.PersistConn?, closing: seq<T.PersistConn>)
    requires t.Valid() && Mirrors(t, cfg, s) && s.now == now
    modifies t`conns
    ensures t.Valid() && Mirrors(t, cfg, ServeDial(cfg, s, KindOf(proto)))
    ensures ServeDial(cfg, s, KindOf(proto)).mgr == Replying(if pc == null then None else Some(pc.id), KindOf(proto))
    ensures ServeDial(cfg, s, KindOf(proto)).closing == s.closing + Elements(Ids(closing))
  {
    ghost var k, stacks := KindOf(proto), t.conns;
    ghost var stack := stacks[k];
    ServedStack(stack, cfg, s, k);
    pc, closing := t.OnDial(proto, now);
    assert TakesTop(T.Stamps(stack), now, t.expire) ==> t.conns[k] == stack[..|stack| - 1] && Ids(closing) == [];
    OneStackChanges(stacks, s, ServeDial(cfg, s, k), k, t.conns[k]);
  }

  /** `OnYield` is the manager's part of `TakeYield`. */
  method YieldStep(t: T.Transport, pc: T.PersistConn, i: ClientId, ghost cfg: Config, ghost s: State)
    requires t.Valid() && Mirrors(t, cfg, s) && Enabled(cfg, s, TakeYield(i))
    requires s.clients[i].conn == pc.id && s.udp[pc.id] == pc.udp && s.used[pc.id] == pc.used
    modifies t`conns
    ensures t.Valid() && Mirrors(t, cfg, Next(cfg, s, TakeYield(i)))
  {
    ghost var k, stacks, s' := KindOfConn(pc.udp, t.tls), t.conns, Next(cfg, s, TakeYield(i));
    PushedStack(stacks[k], pc, cfg, s, i);
    t.OnYield(pc);
    OneStackChanges(stacks, s, s', k, stacks[k] + [pc]);
  }

  lemma {:induction false} PushedStack(stack: seq<T.PersistConn>, pc: T.PersistConn, cfg: Config, s: State, i: ClientId)
    requires Shaped(s) && Enabled(cfg, s, TakeYield(i)) && s.clients[i].conn == pc.id && s.udp[pc.id] == pc.udp && s.used[pc.id] == pc.used
    requires SameStack(stack, s, KindOfConn(pc.udp, cfg.tls))
    ensures var s' := Next(cfg, s, TakeYield(i)); var k := KindOfConn(pc.udp, cfg.tls);
            Shaped(s') && s'.used == s.used && s'.conns == s.conns[k := s'.conns[k]] && SameStack(stack + [pc], s', k)
  {
    var s', k := Next(cfg, s, TakeYield(i)), KindOfConn(pc.udp, cfg.tls);
    assert T.Stamps(stack + [pc]) == T.Stamps(stack) + [pc.used];
    assert Stamps(s', k) == Stamps(s, k) + [s.used[pc.id]];
    assert Ids(stack + [pc]) == Ids(stack) + [pc.id];
  }

  lemma CleanupShaped(cfg: Config, s: State, all: bool)
    requires Shaped(s)
    ensures Shaped(Cleanup(cfg, s, all))
  {
    forall k, i | 0 <= k < 3 && 0 <= i < |Cleanup(cfg, s, all).conns[k]|
      ensures Cleanup(cfg, s, all).conns[k][i] in s.udp
    {
      CleanedStack(cfg, s, all, k);
    }
  }

  /** What a cleanup leaves of one stack, and takes off it. */
  lemma {:induction false} CutStack(stack: seq<T.PersistConn>, cfg: Config, s: State, k: Kind, all: bool)
    requires Shaped(s) && Shaped(Cleanup(cfg, s, all)) && SameStack(stack, s, k)
    ensures var n := T.Cut(stack, all, s.now - cfg.expire);
            SameStack(T.Drop(stack, n), Cleanup(cfg, s, all), k) && Elements(Ids(T.Take(stack, n))) == Lost(cfg, s, k, all)
  {
    var n := T.Cut(stack, all, s.now - cfg.expire);
    PartOfStack(stack, n, |stack|);
    PartOfStack(stack, 0, n);
    assert stack[n..|stack|] == stack[n..] && stack[0..n] == stack[..n];
    CleanedStack(cfg, s, all, k);
    assert n == Cut(cfg, s, k, all);
  }

  lemma {:induction false} CutStacks(stacks: seq<seq<T.PersistConn>>, n: seq<nat>, cfg: Config, s: State, all: bool)
    requires |stacks| == |n| == 3 && Shaped(s) && SameStacks(stacks, s)
    requires n == T.Cuts(stacks, all, s.now - cfg.expire)
    ensures Shaped(Cleanup(cfg, s, all)) && |T.Rests(stacks, n, |n|)| == 3
    ensures SameStacks(T.Rests(stacks, n, |n|), Cleanup(cfg, s, all)) && Elements(Ids(T.Prefixes(stacks, n, |n|))) == CutOff(cfg, s, all)
  {
    CleanupShaped(cfg, s, all);
    CutStack(stacks[0], cfg, s, 0, all);
    CutStack(stacks[1], cfg, s, 1, all);
    CutStack(stacks[2], cfg, s, 2, all);
    CutParts(stacks, n);
  }

  method CleanupBy(t: T.Transport, all: bool, now: int, ghost n: seq<nat>) returns (closing: seq<T.PersistConn>)
    requires t.Valid() && n == T.Cuts(t.conns, all, now - t.expire)
    modifies t`conns
    ensures t.conns == T.Rests(old(t.conns), n, |n|) && closing == T.Prefixes(old(t.conns), n, |n|)
  {
    ghost var n';
    closing, n' := t.Cleanup(all, now);
  }

  /** `Cleanup` is the manager's part of `Tick` and `TakeStop`. */
  method CleanupStep(t: T.Transport, all: bool, now: int, ghost cfg: Config, ghost s: State) returns (closing: seq<T.PersistConn>)
    requires t.Valid() && Mirrors(t, cfg, s) && s.now == now
    modifies t`conns
    ensures t.Valid() && Mirrors(t, cfg, Cleanup(cfg, s, all))
    ensures Elements(Ids(closing)) == CutOff(cfg, s, all)
  {
    ghost var n := T.Cuts(t.conns, all, now - cfg.expire);
    CutStacks(t.conns, n, cfg, s, all);
    ghost var rests := T.Rests(t.conns, n, |n|);
    assert SameStacks(rests, Cleanup(cfg, s, all)) && allocated(rests);
    closing := CleanupBy(t, all, now, n);
  }

  /** The pieces of a cleanup, one by one. */
  lemma {:induction false} CutParts(stacks: seq<seq<T.PersistConn>>, n: seq<nat>)
    requires |stacks| == |n| == 3
    ensures T.Rests(stacks, n, 3) == [T.Drop(stacks[0], n[0]), T.Drop(stacks[1], n[1]), T.Drop(stacks[2], n[2])]
    ensures Elements(Ids(T.Prefixes(stacks, n, 3)))
         == Elements(Ids(T.Take(stacks[0], n[0]))) + Elements(Ids(T.Take(stacks[1], n[1]))) + Elements(Ids(T.Take(stacks[2], n[2])))
  {
    var a, b, c := T.Take(stacks[0], n[0]), T.Take(stacks[1], n[1]), T.Take(stacks[2], n[2]);
    assert T.Prefixes(stacks, n, 1) == [] + a == a;
    assert T.Prefixes(stacks, n, 2) == a + b;
    ElementsConcat(a, b);
    ElementsConcat(a + b, c);
    assert T.Rests(stacks, n, 1) == [T.Drop(stacks[0], n[0])];
    assert T.Rests(stacks, n, 2) == [T.Drop(stacks[0], n[0])] + [T.Drop(stacks[1], n[1])];
    assert T.Rests(stacks, n, 3) == T.Rests(stacks, n, 2) + [T.Drop(stacks[2], n[2])];
  }

  lemma ElementsConcat(a: seq<T.PersistConn>, b: seq<T.PersistConn>)
    ensures Elements(Ids(a + b)) == Elements(Ids(a)) + Elements(Ids(b))
  {
    assert Ids(a + b) == Ids(a) + Ids(b);
    forall x | x in Elements(Ids(a)) + Elements(Ids(b))
      ensures x in Elements(Ids(a + b))
    {
      if i :| 0 <= i < |a| && Ids(a)[i] == x {
        assert Ids(a + b)[i] == x;
      } else {
        var i :| 0 <= i < |b| && Ids(b)[i] == x;
        assert Ids(a + b)[|a| + i] == x;
      }
    }
  }
}
