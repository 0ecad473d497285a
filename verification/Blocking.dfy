/** Which clients of the connection pool can go on, and which wait for ever
    (`plugin/forward/persistent.go`, `connect.go`).  */
module Blocking {
  import opened Pool

  /** The step is one of client `i`, alone or with the manager. */
  predicate By(a: Step, i: ClientId) {
    match a
    case Ask(j, _) => i == j
    case TakeDial(j) => i == j
    case GetRet(j) => i == j
    case GetClosedRet(j) => i == j
    case DialNew(j, _, _) => i == j
    case DialFails(j) => i == j
    case Fail(j) => i == j
    case Stamp(j) => i == j
    case TakeYield(j) => i == j
    case GiveUp(j) => i == j
    case _ => false
  }

  ghost predicate CanMove(cfg: Config, s: State, i: ClientId) {
    exists a :: By(a, i) && Enabled(cfg, s, a)
  }

  /** The client can take a step, if need be after one of somebody else. */
  ghost predicate MovesSoon(cfg: Config, s: State, i: ClientId)
    requires Shaped(s)
  {
    CanMove(cfg, s, i) || exists a :: Enabled(cfg, s, a) && CanMove(cfg, Next(cfg, s, a), i)
  }

  /** The manager is gone and the client offers it a request. */
  predicate Blocked(s: State, i: ClientId) {
    s.mgr == Done && i in s.clients && s.clients[i].Dialing?
  }

  /** In every state of every run, a client can take a step now or after the reply to another
      client, but for one that dials a manager that has stopped. */
  lemma {:induction false} MovesExactly(cfg: Config, states: seq<State>, steps: seq<Step>, n: nat, i: ClientId)
    requires Run(cfg, states, steps) && n < |states| && i in states[n].clients
    ensures Shaped(states[n])
    ensures MovesSoon(cfg, states[n], i) <==> !Blocked(states[n], i)
  {
    RunSafe(cfg, states, steps, n);
    var s := states[n];
    if Blocked(s, i) {
      forall a | Enabled(cfg, s, a)
        ensures !By(a, i) && !CanMove(cfg, Next(cfg, s, a), i)
      {
        BlockedStays(cfg, s, a, i);
        StandsStill(cfg, Next(cfg, s, a), i);
      }
    } else if s.clients[i].Dialing? && s.mgr.Replying? {
      var j :| Waits(s, j);
      DialsNext(cfg, s, i, j);
    } else {
      MovesNow(cfg, s, i);
    }
  }

  lemma {:induction false} StandsStill(cfg: Config, s: State, i: ClientId)
    requires Blocked(s, i)
    ensures !CanMove(cfg, s, i)
  {
  }

  lemma {:induction false} BlockedStays(cfg: Config, s: State, a: Step, i: ClientId)
    requires Shaped(s) && Enabled(cfg, s, a) && Blocked(s, i)
    ensures !By(a, i) && Blocked(Next(cfg, s, a), i) && Next(cfg, s, a).clients[i] == s.clients[i]
  {
  }

  /** Once the waiting client has its reply the manager is ready for the next one. */
  lemma {:induction false} DialsNext(cfg: Config, s: State, i: ClientId, j: ClientId)
    requires Shaped(s) && s.mgr.Replying? && Waits(s, j) && i in s.clients && s.clients[i].Dialing?
    ensures Enabled(cfg, s, GetRet(j)) && CanMove(cfg, Next(cfg, s, GetRet(j)), i)
  {
    assert By(TakeDial(i), i) && Enabled(cfg, Next(cfg, s, GetRet(j)), TakeDial(i));
  }

  lemma {:induction false} MovesNow(cfg: Config, s: State, i: ClientId)
    requires Inv(cfg, s) && i in s.clients && !(s.clients[i].Dialing? && s.mgr != Ready)
    ensures CanMove(cfg, s, i)
  {
    var a := match s.clients[i]
      case Idle => Ask(i, "udp")
      case Dialing(_) => TakeDial(i)
      case Waiting(_) => GetRet(i)
      case Connecting(_) => DialFails(i)
      case Holding(_) => Stamp(i)
      case Yielding(_) => GiveUp(i);
    assert Waits(s, i) ==> s.mgr.Replying?;
    assert By(a, i) && Enabled(cfg, s, a);
  }

  /** A blocked client stays so in the whole run. */
  lemma {:induction false} BlockedForever(cfg: Config, states: seq<State>, steps: seq<Step>, n: nat, m: nat, i: ClientId)
    requires Run(cfg, states, steps) && n <= m < |states| && Blocked(states[n], i)
    ensures Blocked(states[m], i) && states[m].clients[i] == states[n].clients[i]
    ensures forall x :: n <= x < m ==> !By(steps[x], i)
    decreases m
  {
    if n < m {
      BlockedForever(cfg, states, steps, n, m - 1, i);
      BlockedStays(cfg, states[m - 1], steps[m - 1], i);
    }
  }

  /** The manager answers every request before it looks at `stop`, so nobody ever reads from the
      closed `ret`. */
  lemma {:induction false} ClosedRetUnread(cfg: Config, states: seq<State>, steps: seq<Step>, n: nat)
    requires Run(cfg, states, steps) && n < |steps|
    ensures !steps[n].GetClosedRet?
  {
    RunSafe(cfg, states, steps, n);
    if steps[n].GetClosedRet? {
      assert Waits(states[n], steps[n].i);
      assert false;
    }
  }

  // ----- a run into the block

  function Fresh(now: int): State {
    State(map[], Ready, [[], [], []], map[], map[], {}, {}, {}, false, now)
  }

  /** A client dials after the manager has stopped. */
  lemma {:induction false} StopBlocks(cfg: Config, now: int)
    ensures var steps := [Arrive(0), StopCall, TakeStop, Ask(0, "udp")];
            exists states :: Run(cfg, states, steps) && Blocked(states[4], 0)
  {
    var steps := [Arrive(0), StopCall, TakeStop, Ask(0, "udp")];
    var s0 := Fresh(now);
    var s1 := Next(cfg, s0, Arrive(0));
    var s2 := Next(cfg, s1, StopCall);
    var s3 := Next(cfg, s2, TakeStop);
    assert Shaped(s3);
    var s4 := Next(cfg, s3, Ask(0, "udp"));
    var states := [s0, s1, s2, s3, s4];
    assert Run(cfg, states, steps);
    assert Blocked(states[4], 0);
  }
}
