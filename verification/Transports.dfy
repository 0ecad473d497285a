/** The connection manager's work on its stacks, in place (`plugin/forward/persistent.go`).  */
module Transports {
  import opened Stacks

  /** `persistConn`, with the connection reduced to what it is and whether it is open. */
  class PersistConn {
    ghost const id: nat
    const udp: bool
    var used: int
    var open: bool

    constructor (udp: bool, ghost id: nat)
      ensures this.udp == udp && this.id == id && open
    {
      this.udp, this.id := udp, id;
      used, open := 0, true;
    }
  }

  ghost function Stamps(stack: seq<PersistConn>): seq<int>
    reads stack
  {
    seq(|stack|, i requires 0 <= i < |stack| reads stack => stack[i].used)
  }

  /** `sort.Search` with the test of `cleanup`. */
  method Search(stack: seq<PersistConn>, stale: int) returns (good: nat)
    ensures good <= |stack| && good == SearchFrom(Stamps(stack), stale, 0, |stack|)
  {
    var i, j := 0, |stack|;
    while i < j
      invariant 0 <= i <= j <= |stack|
      invariant SearchFrom(Stamps(stack), stale, 0, |stack|) == SearchFrom(Stamps(stack), stale, i, j)
    {
      var h := (i + j) / 2;
      if stack[h].used > stale {
        j := h;
      } else {
        i := h + 1;
      }
    }
    good := i;
  }

  /** `closeConns` */
  method CloseConns(conns: seq<PersistConn>)
    modifies (set pc | pc in conns)`open
    ensures forall pc :: pc in conns ==> !pc.open
  {
    for i := 0 to |conns|
      invariant forall j :: 0 <= j < i ==> !conns[j].open
    {
      conns[i].open := false;
    }
  }

  class Transport {
    var conns: seq<seq<PersistConn>>
    const tls: bool
    var expire: int

    ghost predicate Valid()
      reads this
    {
      |conns| == 3
    }

    constructor (tls: bool, expire: int)
      ensures Valid() && conns == [[], [], []] && this.tls == tls && this.expire == expire
    {
      this.tls, this.expire := tls, expire;
      conns := [[], [], []];
    }

    /** A request on `dial`: the top of the stack when it is fresh; otherwise the stack is
        cleared and handed to `closeConns`. */
    method OnDial(proto: string, now: int) returns (pc: PersistConn?, closing: seq<PersistConn>)
      requires Valid()
      modifies this`conns
      ensures Valid()
      ensures var k := KindOf(proto); var stack := old(conns[k]);
              && conns == old(conns)[k := conns[k]]
              && if TakesTop(Stamps(stack), now, expire) then stack == conns[k] + [pc] && closing == []
                 else pc == null && conns[k] == [] && closing == stack
    {
      var transtype := KindOf(proto);
      var stack := conns[transtype];
      closing := [];
      if |stack| > 0 {
        pc := stack[|stack| - 1];
        if now - pc.used < expire {
          conns := conns[transtype := stack[..|stack| - 1]];
          return;
        }
        conns := conns[transtype := []];
        closing := stack;
      }
      pc := null;
    }

    /** A connection that comes back on `yield`. */
    method OnYield(pc: PersistConn)
      requires Valid()
      modifies this`conns
      ensures Valid()
      ensures var k := KindOfConn(pc.udp, tls); conns == old(conns)[k := old(conns[k]) + [pc]]
    {
      var transtype := KindOfConn(pc.udp, tls);
      conns := conns[transtype := conns[transtype] + [pc]];
    }

    method CleanupStack(transtype: Kind, all: bool, stale: int, ghost n: nat) returns (closing: seq<PersistConn>)
      requires Valid() && n == Cut(conns[transtype], all, stale)
      modifies this`conns
      ensures conns == old(conns)[transtype := Drop(old(conns[transtype]), n)] && closing == Take(old(conns[transtype]), n)
    {
      var stack := conns[transtype];
      closing := [];
      assert stack[0..] == stack && stack[|stack|..] == [] && stack[..|stack|] == stack;
      assert conns[transtype := stack] == conns;
      if |stack| == 0 {
        return;
      }
      if all {
        conns := conns[transtype := []];
        closing := stack;
        return;
      }
      if stack[0].used > stale {
        assert n == 0;
        return;
      }
      var good := Search(stack, stale);
      assert n == good;
      conns := conns[transtype := stack[good..]];
      closing := stack[..good];
    }

    /** `cleanup` of every stack; `n` says how much each loses. */
    method Cleanup(all: bool, now: int) returns (closing: seq<PersistConn>, ghost n: seq<nat>)
      requires Valid()
      modifies this`conns
      ensures Valid() && n == old(Cuts(conns, all, now - expire))
      ensures conns == Rests(old(conns), n, |n|) && closing == Prefixes(old(conns), n, |n|)
    {
      var stale := now - expire;
      closing := [];
      ghost var s := conns;
      n := Cuts(s, all, stale);
      for transtype := 0 to |conns|
        invariant Cleaned(s, n, transtype, conns, closing) && n == Cuts(s, all, stale)
      {
        CleanedOneMore(s, n, transtype, conns, closing);
        CutsAt(s, all, stale, transtype);
        var c := CleanupStack(transtype, all, stale, n[transtype]);
        closing := closing + c;
      }
      CleanedAll(s, n, conns, closing);
    }
  }

  /** What `cleanup` cuts off each stack. */
  ghost function Cuts(stacks: seq<seq<PersistConn>>, all: bool, stale: int): seq<nat>
    requires |stacks| == 3
    reads stacks[0], stacks[1], stacks[2]
  {
    [Cut(stacks[0], all, stale), Cut(stacks[1], all, stale), Cut(stacks[2], all, stale)]
  }

  lemma CutsAt(stacks: seq<seq<PersistConn>>, all: bool, stale: int, k: Kind)
    requires |stacks| == 3
    ensures Cuts(stacks, all, stale)[k] == Cut(stacks[k], all, stale)
  {
    assert k == 0 || k == 1 || k == 2;
  }

  lemma CleanedAll<T>(s: seq<seq<T>>, n: seq<nat>, conns: seq<seq<T>>, closing: seq<T>)
    requires Cleaned(s, n, |conns|, conns, closing)
    ensures conns == Rests(s, n, |n|) && closing == Prefixes(s, n, |n|)
  {
    assert conns[..|conns|] == conns;
  }

  /** The first `m` stacks are cleaned up. */
  ghost predicate Cleaned<T>(s: seq<seq<T>>, n: seq<nat>, m: nat, conns: seq<seq<T>>, closing: seq<T>) {
    && m <= |s| == |n| == |conns|
    && conns[..m] == Rests(s, n, m) && closing == Prefixes(s, n, m) && conns[m..] == s[m..]
  }

  lemma CleanedOneMore<T>(s: seq<seq<T>>, n: seq<nat>, m: nat, conns: seq<seq<T>>, closing: seq<T>)
    requires Cleaned(s, n, m, conns, closing) && m < |s|
    ensures conns[m] == s[m]
    ensures Cleaned(s, n, m + 1, conns[m := Drop(s[m], n[m])], closing + Take(s[m], n[m]))
  {
    assert conns[m..][0] == s[m..][0];
    var c' := conns[m := Drop(s[m], n[m])];
    assert c'[..m + 1] == conns[..m] + [Drop(s[m], n[m])];
    assert forall k :: m < k < |s| ==> c'[k] == conns[m..][k - m] == s[m..][k - m];
  }

  /** The first `n[k]` of each of the first `m` stacks. */
  ghost function Prefixes<T>(stacks: seq<seq<T>>, n: seq<nat>, m: nat): seq<T>
    requires m <= |stacks| && m <= |n|
  {
    if m == 0 then [] else Prefixes(stacks, n, m - 1) + Take(stacks[m - 1], n[m - 1])
  }

  ghost function Rests<T>(stacks: seq<seq<T>>, n: seq<nat>, m: nat): seq<seq<T>>
    requires m <= |stacks| && m <= |n|
  {
    if m == 0 then [] else Rests(stacks, n, m - 1) + [Drop(stacks[m - 1], n[m - 1])]
  }

  function Take<T>(s: seq<T>, n: nat): seq<T> {
    if n <= |s| then s[..n] else s
  }

  function Drop<T>(s: seq<T>, n: nat): seq<T> {
    if n <= |s| then s[n..] else []
  }

  /** What `cleanup` cuts off a stack. */
  ghost function Cut(stack: seq<PersistConn>, all: bool, stale: int): (n: nat)
    reads stack
    ensures n <= |stack|
  {
    if all then |stack| else CutAt(Stamps(stack), stale)
  }
}
