/** Which connection a client of the pool gets, told by what it asked for and what the
    connections are (`plugin/forward/persistent.go`, `type.go`, `connect.go`).  */
module Handing {
  import opened Llrb
  import opened Stacks
  import opened Pool

  /** A connection carries a protocol; one that is neither tcp nor tcp-tls counts as udp. */
  predicate Speaks(cfg: Config, s: State, c: Conn, proto: string) {
    c in s.udp &&
    if proto == "tcp" then !s.udp[c] && !cfg.tls
    else if proto == "tcp-tls" then !s.udp[c] && cfg.tls
    else s.udp[c]
  }

  /** The connection was pooled last among those of its stack. */
  ghost predicate OnTop(s: State, c: Conn) {
    exists k: Kind :: IsTop(s, k, c)
  }

  /** A dial replies with a connection exactly when it is the last one pooled that carries the
      protocol, and has not expired. */
  lemma {:induction false} DialHits(cfg: Config, s: State, i: ClientId, c: Conn)
    requires Inv(cfg, s) && Enabled(cfg, s, TakeDial(i))
    ensures var s' := Next(cfg, s, TakeDial(i));
            && s'.mgr.Replying?
            && (s'.mgr.reply == Some(c) <==>
                OnTop(s, c) && Speaks(cfg, s, c, s.clients[i].proto) && c in s.used && s.now - s.used[c] < cfg.expire)
  {
    var k := KindOf(s.clients[i].proto);
    TopReplies(cfg, s, k, c);
    if IsTop(s, k, c) {
      KindSpeaks(cfg, s, c, k, s.clients[i].proto);
    }
    if x: Kind :| IsTop(s, x, c) {
      KindSpeaks(cfg, s, c, x, s.clients[i].proto);
    }
  }

  predicate IsTop(s: State, k: Kind, c: Conn) {
    |s.conns| == 3 && s.conns[k] != [] && s.conns[k][|s.conns[k]| - 1] == c
  }

  /** The connections of a stack carry the protocols that lead to it. */
  lemma {:induction false} KindSpeaks(cfg: Config, s: State, c: Conn, k: Kind, proto: string)
    requires Inv(cfg, s) && IsTop(s, k, c)
    ensures Speaks(cfg, s, c, proto) <==> k == KindOf(proto)
  {
    assert At(s, c, Pooled(k));
  }

  lemma {:induction false} TopReplies(cfg: Config, s: State, k: Kind, c: Conn)
    requires Shaped(s)
    ensures ServeDial(cfg, s, k).mgr.Replying?
    ensures ServeDial(cfg, s, k).mgr.reply == Some(c) <==> IsTop(s, k, c) && c in s.used && s.now - s.used[c] < cfg.expire
  {
    var stack := s.conns[k];
    if stack != [] {
      assert Stamps(s, k)[|stack| - 1] == s.used[stack[|stack| - 1]];
    }
  }

  lemma {:induction false} DialRepliesRight(cfg: Config, states: seq<State>, steps: seq<Step>, n: nat, i: ClientId, c: Conn)
    requires Run(cfg, states, steps) && n < |steps| && steps[n] == TakeDial(i)
    ensures var s := states[n];
            && states[n + 1].mgr.Replying?
            && (states[n + 1].mgr.reply == Some(c) <==>
                OnTop(s, c) && Speaks(cfg, s, c, s.clients[i].proto) && c in s.used && s.now - s.used[c] < cfg.expire)
  {
    RunSafe(cfg, states, steps, n);
    DialHits(cfg, states[n], i, c);
  }

  // ----- what a client asked for

  /** The protocol a client that has not got a connection yet goes for. */
  predicate Wants(s: State, i: ClientId, proto: string) {
    i in s.clients && s.clients[i] in {Dialing(proto), Waiting(proto), Connecting(proto)}
  }

  /** The last request of client `i` before step `n` was for `asked`. */
  ghost predicate LastAsk(steps: seq<Step>, n: nat, i: ClientId, asked: string) {
    exists m :: 0 <= m < n && m < |steps| && steps[m] == Ask(i, asked) && forall x :: m < x < n && x < |steps| ==> !(steps[x].Ask? && steps[x].i == i)
  }

  /** It goes for what it asked last, or for TLS where that is configured. */
  lemma {:induction false} WantsWhatItAsked(cfg: Config, states: seq<State>, steps: seq<Step>, n: nat, i: ClientId, proto: string)
    requires Run(cfg, states, steps) && n < |states| && Wants(states[n], i, proto)
    ensures exists asked :: LastAsk(steps, n, i, asked) && proto == if cfg.tls then "tcp-tls" else asked
  {
    if n > 0 {
      var a := steps[n - 1];
      if a.Ask? && a.i == i {
        assert LastAsk(steps, n, i, a.proto);
      } else {
        WantsBefore(cfg, states[n - 1], a, i, proto);
        WantsWhatItAsked(cfg, states, steps, n - 1, i, proto);
        var asked :| LastAsk(steps, n - 1, i, asked) && proto == if cfg.tls then "tcp-tls" else asked;
        var m :| 0 <= m < n - 1 && steps[m] == Ask(i, asked) && forall x :: m < x < n - 1 ==> !(steps[x].Ask? && steps[x].i == i);
        assert LastAsk(steps, n, i, asked);
      }
    }
  }

  lemma {:induction false} WantsBefore(cfg: Config, s: State, a: Step, i: ClientId, proto: string)
    requires Shaped(s) && Enabled(cfg, s, a) && !(a.Ask? && a.i == i) && Wants(Next(cfg, s, a), i, proto)
    ensures Wants(s, i, proto)
  {
  }

  /** Step `n` gives client `i` the connection `c`, from the pool or by dialling. */
  predicate Gets(s: State, a: Step, i: ClientId, c: Conn) {
    (a == GetRet(i) && s.mgr.Replying? && s.mgr.reply == Some(c)) || (a.DialNew? && a.i == i && a.c == c)
  }

  /** In every run: a client that asked for udp gets a UDP connection, one that asked for tcp one that
      is not, and with TLS no client gets a UDP connection. */
  lemma {:induction false} GetsWhatItAsked(cfg: Config, states: seq<State>, steps: seq<Step>, n: nat, i: ClientId, c: Conn)
    requires Run(cfg, states, steps) && n < |steps| && Gets(states[n], steps[n], i, c)
    ensures c in states[n + 1].udp
    ensures exists asked ::
              && LastAsk(steps, n, i, asked)
              && (!cfg.tls && asked == "udp" ==> states[n + 1].udp[c])
              && (!cfg.tls && asked == "tcp" ==> !states[n + 1].udp[c])
              && (cfg.tls ==> !states[n + 1].udp[c])
  {
    var s := states[n];
    RunSafe(cfg, states, steps, n);
    WantsWhatItAsked(cfg, states, steps, n, i, s.clients[i].proto);
    if steps[n].GetRet? {
      OfferIsRight(cfg, s, i, c);
    }
  }

  // ----- a yielded connection is handed on

  /** A step that the manager takes part in by itself. */
  predicate ByManager(a: Step) {
    a.TakeDial? || a.TakeYield? || a.Tick? || a.TakeStop?
  }

  lemma {:induction false} StillYielding(cfg: Config, states: seq<State>, steps: seq<Step>, k: nat, m: nat, i: ClientId, c: Conn)
    requires Run(cfg, states, steps) && k < m < |states| && steps[k] == Stamp(i) && Is(states[k + 1], i, Yielding(c))
    requires forall x :: k < x < m ==> steps[x] != GiveUp(i) && steps[x] != TakeYield(i)
    ensures Is(states[m], i, Yielding(c)) && c in states[m].used && states[m].used[c] == states[k].now
    decreases m
  {
    if k + 1 < m {
      StillYielding(cfg, states, steps, k, m - 1, i, c);
      RunSafe(cfg, states, steps, m - 1);
      YieldingKept(cfg, states[m - 1], steps[m - 1], i, c);
    }
  }

  lemma {:induction false} YieldingKept(cfg: Config, s: State, a: Step, i: ClientId, c: Conn)
    requires Inv(cfg, s) && Enabled(cfg, s, a) && a != GiveUp(i) && a != TakeYield(i) && Is(s, i, Yielding(c)) && c in s.used
    ensures Is(Next(cfg, s, a), i, Yielding(c)) && c in Next(cfg, s, a).used && Next(cfg, s, a).used[c] == s.used[c]
  {
    assert At(s, c, With(i));
    if a.Stamp? {
      assert a.i != i && !At(s, c, With(a.i));
    }
  }

  /** While the manager does nothing, stacks and the stamps in them stay. */
  lemma {:induction false} PoolRests(cfg: Config, states: seq<State>, steps: seq<Step>, m: nat, n: nat, c: Conn)
    requires Run(cfg, states, steps) && m <= n < |states| && InPool(states[m], c) && c in states[m].used && c in states[m].udp
    requires forall x :: m <= x < n ==> !ByManager(steps[x])
    ensures states[n].conns == states[m].conns && c in states[n].used && states[n].used[c] == states[m].used[c]
    ensures c in states[n].udp && states[n].udp[c] == states[m].udp[c]
    decreases n
  {
    if m < n {
      PoolRests(cfg, states, steps, m, n - 1, c);
      RunSafe(cfg, states, steps, n - 1);
      RestKept(cfg, states[n - 1], steps[n - 1], c);
    }
  }

  lemma {:induction false} RestKept(cfg: Config, s: State, a: Step, c: Conn)
    requires Inv(cfg, s) && Enabled(cfg, s, a) && !ByManager(a) && InPool(s, c) && c in s.used && c in s.udp
    ensures var s' := Next(cfg, s, a);
            s'.conns == s.conns && c in s'.used && s'.used[c] == s.used[c] && c in s'.udp && s'.udp[c] == s.udp[c]
  {
    if a.Stamp? {
      var k: Kind :| At(s, c, Pooled(k));
      assert !At(s, c, With(a.i));
    }
  }

  /** In every run: a connection that client `i` stamped at step `k`, and the manager took at step
      `m`, is handed to the next client whose dial the manager serves, at step `n`, if that goes for
      its protocol and less than the expiry time has passed since the stamp. */
  lemma {:induction false} HandedOn(cfg: Config, states: seq<State>, steps: seq<Step>, k: nat, m: nat, n: nat, i: ClientId, j: ClientId, c: Conn)
    requires Run(cfg, states, steps) && k < m < n < |steps|
    requires steps[k] == Stamp(i) && Is(states[k + 1], i, Yielding(c)) && steps[m] == TakeYield(i) && steps[n] == TakeDial(j)
    requires forall x :: k < x < m ==> steps[x] != GiveUp(i) && steps[x] != TakeYield(i)
    requires forall x :: m < x < n ==> !ByManager(steps[x])
    requires Speaks(cfg, states[n], c, states[n].clients[j].proto)
    requires states[n].now - states[k].now < cfg.expire
    ensures states[n + 1].mgr.Replying? && states[n + 1].mgr.reply == Some(c)
  {
    StillYielding(cfg, states, steps, k, m, i, c);
    OnTopLater(cfg, states, steps, m, n, i, c);
    DialRepliesRight(cfg, states, steps, n, j, c);
  }

  lemma {:induction false} OnTopLater(cfg: Config, states: seq<State>, steps: seq<Step>, m: nat, n: nat, i: ClientId, c: Conn)
    requires Run(cfg, states, steps) && m < n < |states| && steps[m] == TakeYield(i) && Is(states[m], i, Yielding(c)) && c in states[m].used
    requires forall x :: m < x < n ==> !ByManager(steps[x])
    ensures OnTop(states[n], c) && c in states[n].used && states[n].used[c] == states[m].used[c]
  {
    RunSafe(cfg, states, steps, m);
    TakenOnTop(cfg, states[m], i, c);
    PoolRests(cfg, states, steps, m + 1, n, c);
    var k: Kind :| IsTop(states[m + 1], k, c);
    assert IsTop(states[n], k, c);
  }

  lemma {:induction false} TakenOnTop(cfg: Config, s: State, i: ClientId, c: Conn)
    requires Inv(cfg, s) && Enabled(cfg, s, TakeYield(i)) && Is(s, i, Yielding(c)) && c in s.used
    ensures var s' := Next(cfg, s, TakeYield(i)); OnTop(s', c) && InPool(s', c) && c in s'.used && c in s'.udp && s'.used[c] == s.used[c]
  {
    var s', k := Next(cfg, s, TakeYield(i)), KindOfConn(s.udp[c], cfg.tls);
    assert s'.conns[k] == s.conns[k] + [c] && IsTop(s', k, c);
    assert At(s', c, Pooled(k));
  }

  // ----- stopping

  /** Stopping hands every pooled connection to `closeConns`. */
  lemma {:induction false} StopClosesAll(cfg: Config, states: seq<State>, steps: seq<Step>, n: nat, c: Conn)
    requires Run(cfg, states, steps) && n < |steps| && steps[n] == TakeStop
    ensures InPool(states[n], c) ==> c in states[n + 1].closing
    ensures states[n + 1].mgr == Done && !InPool(states[n + 1], c)
  {
    var s := states[n];
    if k: Kind :| At(s, c, Pooled(k)) {
      LostIsCutOff(cfg, s, true, k);
      var i :| 0 <= i < |s.conns[k]| && s.conns[k][i] == c;
      assert s.conns[k][..|s.conns[k]|][i] == c;
    }
    forall k: Kind
      ensures !At(states[n + 1], c, Pooled(k))
    {
      CleanedStack(cfg, s, true, k);
    }
  }

  /** After that nothing is pooled or handed out again. */
  lemma {:induction false} StoppedStays(cfg: Config, states: seq<State>, steps: seq<Step>, n: nat, m: nat, c: Conn)
    requires Run(cfg, states, steps) && n < m < |states| && steps[n] == TakeStop
    ensures states[m].mgr == Done && !InPool(states[m], c)
    decreases m
  {
    if m == n + 1 {
      StopClosesAll(cfg, states, steps, n, c);
    } else {
      StoppedStays(cfg, states, steps, n, m - 1, c);
      assert forall k: Kind :: At(states[m], c, Pooled(k)) ==> At(states[m - 1], c, Pooled(k));
    }
  }
}
