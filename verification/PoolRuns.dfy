/** A run of the connection pool in which yields arrive out of stamp order, and what a tick then
    does (`plugin/forward/persistent.go`).  */
module PoolRuns {
  import opened Llrb
  import opened Stacks
  import opened Pool

  // ----- runs by their steps

  /** The state after the steps, if each can happen. */
  ghost function Exec(cfg: Config, s: State, steps: seq<Step>): Option<State>
    decreases |steps|
  {
    if steps == [] then Some(s)
    else if Shaped(s) && Enabled(cfg, s, steps[0]) then Exec(cfg, Next(cfg, s, steps[0]), steps[1..])
    else None
  }

  lemma {:induction false} ExecConcat(cfg: Config, s: State, a: seq<Step>, b: seq<Step>)
    requires Exec(cfg, s, a).Some?
    ensures Exec(cfg, s, a + b) == Exec(cfg, Exec(cfg, s, a).value, b)
    decreases |a|
  {
    if a == [] {
      assert a + b == b;
    } else {
      assert (a + b)[1..] == a[1..] + b;
      ExecConcat(cfg, Next(cfg, s, a[0]), a[1..], b);
    }
  }

  /** One more step at the end. */
  lemma {:induction false} ExecOneMore(cfg: Config, s: State, steps: seq<Step>, a: Step)
    requires Exec(cfg, s, steps).Some? && Shaped(Exec(cfg, s, steps).value) && Enabled(cfg, Exec(cfg, s, steps).value, a)
    ensures Exec(cfg, s, steps + [a]) == Some(Next(cfg, Exec(cfg, s, steps).value, a))
  {
    ExecConcat(cfg, s, steps, [a]);
    assert [a][1..] == [];
  }

  /** Steps that can happen from an initial state make a run. */
  lemma {:induction false} ExecRuns(cfg: Config, s: State, steps: seq<Step>) returns (states: seq<State>)
    requires Init(s) && Exec(cfg, s, steps).Some?
    ensures Run(cfg, states, steps) && states[0] == s && Some(states[|steps|]) == Exec(cfg, s, steps)
    decreases |steps|
  {
    if steps == [] {
      states := [s];
    } else {
      var f, a := steps[..|steps| - 1], steps[|steps| - 1];
      assert steps == f + [a];
      ExecPrefix(cfg, s, f, [a]);
      states := ExecRuns(cfg, s, f);
      ExecConcat(cfg, s, f, [a]);
      var last := states[|f|];
      assert [a][1..] == [];
      states := states + [Next(cfg, last, a)];
    }
  }

  lemma {:induction false} ExecPrefix(cfg: Config, s: State, a: seq<Step>, b: seq<Step>)
    requires Exec(cfg, s, a + b).Some?
    ensures Exec(cfg, s, a).Some?
    decreases |a|
  {
    if a != [] {
      assert (a + b)[1..] == a[1..] + b && (a + b)[0] == a[0];
      ExecPrefix(cfg, Next(cfg, s, a[0]), a[1..], b);
    }
  }

  // ----- the run

  const CFG := Config(false, 10)

  /** A client that has dialled and stamped its connection, both called `i`. */
  function Stamped(s: State, i: nat): State {
    s.(clients := s.clients[i := Yielding(i)], udp := s.udp[i := true], used := s.used[i := s.now])
  }

  function DialAndStamp(i: nat): seq<Step> {
    [Arrive(i), Ask(i, "udp"), TakeDial(i), GetRet(i), DialNew(i, i, true), Stamp(i)]
  }

  ghost predicate EmptyPool(s: State) {
    Shaped(s) && s.mgr == Ready && s.conns == [[], [], []]
  }

  lemma {:induction false} Then(s: State, steps: seq<Step>, mid: State, a: Step, end: State)
    requires Exec(CFG, s, steps) == Some(mid) && Shaped(mid) && Enabled(CFG, mid, a) && end == Next(CFG, mid, a)
    ensures Exec(CFG, s, steps + [a]) == Some(end)
  {
    ExecOneMore(CFG, s, steps, a);
  }

  /** With nothing pooled the manager has nothing to offer. */
  lemma {:induction false} NothingToOffer(s: State, i: nat)
    requires EmptyPool(s) && Is(s, i, Dialing("udp"))
    ensures Next(CFG, s, TakeDial(i)) == s.(clients := s.clients[i := Waiting("udp")], mgr := Replying(None, TYPE_UDP))
  {
    assert Stamps(s, TYPE_UDP) == [];
    assert s.closing + Elements([]) == s.closing && s.conns[0 := []] == s.conns;
  }

  function Dial(i: nat): seq<Step> {
    [Arrive(i), Ask(i, "udp"), TakeDial(i), GetRet(i)]
  }

  lemma {:induction false} Requests(s: State, i: nat)
    requires EmptyPool(s) && i !in s.clients
    ensures Exec(CFG, s, Dial(i)[..2]) == Some(Set(s, i, Dialing("udp")))
  {
    var s1 := Set(s, i, Idle);
    Then(s, [], s, Arrive(i), s1);
    assert s1.clients[i := Dialing("udp")] == Set(s, i, Dialing("udp")).clients;
    Then(s, [] + [Arrive(i)], s1, Ask(i, "udp"), Set(s, i, Dialing("udp")));
    assert [] + [Arrive(i)] + [Ask(i, "udp")] == Dial(i)[..2];
  }

  /** The manager has told the client that there is nothing to offer. */
  function Told(s: State, i: nat): State {
    Set(s, i, Waiting("udp")).(mgr := Replying(None, TYPE_UDP))
  }

  lemma {:induction false} IsTold(s: State, i: nat)
    requires EmptyPool(s) && i !in s.clients
    ensures Exec(CFG, s, Dial(i)[..3]) == Some(Told(s, i))
  {
    var s2 := Set(s, i, Dialing("udp"));
    Requests(s, i);
    NothingToOffer(s2, i);
    assert s2.clients[i := Waiting("udp")] == Told(s, i).clients;
    Then(s, Dial(i)[..2], s2, TakeDial(i), Told(s, i));
    assert Dial(i)[..2] + [TakeDial(i)] == Dial(i)[..3];
  }

  lemma {:induction false} Asks(s: State, i: nat)
    requires EmptyPool(s) && i !in s.clients
    ensures Exec(CFG, s, Dial(i)) == Some(Set(s, i, Connecting("udp")))
  {
    IsTold(s, i);
    assert Told(s, i).clients[i := Connecting("udp")] == Set(s, i, Connecting("udp")).clients;
    Then(s, Dial(i)[..3], Told(s, i), GetRet(i), Set(s, i, Connecting("udp")));
    assert Dial(i)[..3] + [GetRet(i)] == Dial(i);
  }

  /** The state after a client has dialled. */
  function Dialled(s: State, i: nat): State {
    Set(s, i, Holding(i)).(udp := s.udp[i := true], used := s.used[i := 0])
  }

  lemma {:induction false} DialsNew(s: State, i: nat)
    requires EmptyPool(s) && i !in s.clients && i !in s.udp
    ensures Exec(CFG, s, Dial(i) + [DialNew(i, i, true)]) == Some(Dialled(s, i))
  {
    var s4 := Set(s, i, Connecting("udp"));
    Asks(s, i);
    assert s4.clients[i := Holding(i)] == Dialled(s, i).clients;
    Then(s, Dial(i), s4, DialNew(i, i, true), Dialled(s, i));
  }

  lemma {:induction false} Dials(s: State, i: nat)
    requires EmptyPool(s) && i !in s.clients && i !in s.udp
    ensures Exec(CFG, s, DialAndStamp(i)) == Some(Stamped(s, i)) && EmptyPool(Stamped(s, i))
  {
    var s5, w := Dialled(s, i), Dial(i) + [DialNew(i, i, true)];
    DialsNew(s, i);
    assert s5.clients[i := Yielding(i)] == Stamped(s, i).clients && s5.used[i := s.now] == Stamped(s, i).used;
    Then(s, w, s5, Stamp(i), Stamped(s, i));
    assert w + [Stamp(i)] == DialAndStamp(i);
  }

  /** The manager takes the connection of client `i`. */
  lemma {:induction false} Yields(s0: State, w: seq<Step>, s: State, i: nat, stack: seq<Conn>, stack': seq<Conn>)
    requires Exec(CFG, s0, w) == Some(s) && Shaped(s) && s.mgr == Ready && s.conns == [stack, [], []] && stack' == stack + [i]
    requires Is(s, i, Yielding(i)) && i in s.udp && s.udp[i]
    ensures Exec(CFG, s0, w + [TakeYield(i)]) == Some(Pooled(s, i, stack')) && Shaped(Pooled(s, i, stack'))
  {
    assert s.conns[0 := stack'] == [stack', [], []];
    Then(s0, w, s, TakeYield(i), Pooled(s, i, stack'));
  }

  function Pooled(s: State, i: nat, stack: seq<Conn>): State {
    Set(s, i, Idle).(conns := [stack, [], []])
  }

  const START := State(map[], Ready, [[], [], []], map[], map[], {}, {}, {}, false, 0)

  /** Connections 0 and 2 are stamped at time 0, connections 1 and 3 at time 5. */
  ghost function AllStamped(): (s: State)
    ensures EmptyPool(s)
  {
    var two := Stamped(Stamped(START, 0), 2);
    Stamped(Stamped(two.(now := 5), 1), 3)
  }

  function Stamping(): seq<Step> {
    DialAndStamp(0) + DialAndStamp(2) + [Advance(5)] + DialAndStamp(1) + DialAndStamp(3)
  }

  lemma {:induction false} AfterStamping()
    ensures Exec(CFG, START, Stamping()) == Some(AllStamped())
  {
    var a, b := Stamped(START, 0), Stamped(Stamped(START, 0), 2);
    var c := b.(now := 5);
    var d := Stamped(c, 1);
    Dials(START, 0);
    Dials(a, 2);
    Dials(c, 1);
    Dials(d, 3);
    var w := DialAndStamp(0);
    ExecConcat(CFG, START, w, DialAndStamp(2));
    w := w + DialAndStamp(2);
    Then(START, w, b, Advance(5), c);
    w := w + [Advance(5)];
    ExecConcat(CFG, START, w, DialAndStamp(1));
    w := w + DialAndStamp(1);
    ExecConcat(CFG, START, w, DialAndStamp(3));
  }

  function Pooling(): seq<Step> {
    [TakeYield(0)] + [TakeYield(1)] + [TakeYield(2)] + [TakeYield(3)] + [Advance(7)]
  }

  /** The manager takes them in the order of their numbers, and expiry comes. */
  ghost function AllPooled(): State {
    var a := Pooled(AllStamped(), 0, [0]);
    Pooled(Pooled(Pooled(a, 1, [0, 1]), 2, [0, 1, 2]), 3, [0, 1, 2, 3]).(now := 12)
  }

  lemma {:induction false} AfterPooling()
    ensures Exec(CFG, AllStamped(), Pooling()) == Some(AllPooled()) && Shaped(AllPooled())
  {
    var s := AllStamped();
    var a := Pooled(s, 0, [0]);
    var b := Pooled(a, 1, [0, 1]);
    var c := Pooled(b, 2, [0, 1, 2]);
    var d := Pooled(c, 3, [0, 1, 2, 3]);
    Yields(s, [], s, 0, [], [0]);
    var w := [TakeYield(0)];
    assert [] + w == w;
    Yields(s, w, a, 1, [0], [0, 1]);
    w := w + [TakeYield(1)];
    Yields(s, w, b, 2, [0, 1], [0, 1, 2]);
    w := w + [TakeYield(2)];
    Yields(s, w, c, 3, [0, 1, 2], [0, 1, 2, 3]);
    Then(s, w + [TakeYield(3)], d, Advance(7), AllPooled());
  }

  /** What a tick does then: the binary search finds connection 2 stale and takes 1 for stale, too. */
  lemma {:induction false} TickThen(s: State)
    requires s == AllPooled() && Shaped(s)
    ensures Enabled(CFG, s, Tick) && 1 in Next(CFG, s, Tick).closing && 1 !in s.closing && InPool(s, 1) && !ExpiredIn(CFG, s, 1)
  {
    assert s.used[0] == s.used[2] == 0 && s.used[1] == s.used[3] == 5;
    assert Stamps(s, TYPE_UDP) == [0, 5, 0, 5];
    assert CutAt([0, 5, 0, 5], 2) == 3 by {
      var st := [0, 5, 0, 5];
      assert SearchFrom(st, 2, 0, 4) == SearchFrom(st, 2, 3, 4) == SearchFrom(st, 2, 3, 3);
    }
    assert s.conns[0][..3][1] == 1;
    assert 1 in Lost(CFG, s, 0, false);
    assert At(s, 1, Place.Pooled(0));
  }

  /** There is a run, with yields out of stamp order, that ends in a tick which closes a connection
      that has not expired. */
  lemma {:induction false} TickClosesTooMuch() returns (states: seq<State>, steps: seq<Step>)
    ensures Run(CFG, states, steps) && |steps| > 0 && steps[|steps| - 1] == Tick
    ensures var s := states[|steps| - 1];
            1 in states[|steps|].closing && 1 !in s.closing && InPool(s, 1) && !ExpiredIn(CFG, s, 1)
    ensures !InOrder(states, steps)
  {
    AfterStamping();
    AfterPooling();
    ExecConcat(CFG, START, Stamping(), Pooling());
    var w, s := Stamping() + Pooling(), AllPooled();
    TickThen(s);
    Then(START, w, s, Tick, Next(CFG, s, Tick));
    steps := w + [Tick];
    states := RunThrough(w, s, Tick, Next(CFG, s, Tick));
    TickNotInOrder(states, steps);
  }

  lemma TickNotInOrder(states: seq<State>, steps: seq<Step>)
    requires Run(CFG, states, steps) && |steps| > 0 && steps[|steps| - 1] == Tick
    requires 1 in states[|steps|].closing - states[|steps| - 1].closing && !ExpiredIn(CFG, states[|steps| - 1], 1)
    ensures !InOrder(states, steps)
  {
    if InOrder(states, steps) {
      TickIsExact(CFG, states, steps, |steps| - 1, 1);
    }
  }

  // ----- a dial out of order

  /** Connection 1, stamped at time 5, lies below connection 0, stamped at time 0; it is time 12. */
  ghost function Upset(): State {
    var s := Stamped(Stamped(START, 0).(now := 5), 1);
    Pooled(Pooled(s, 1, [1]), 0, [1, 0]).(now := 12)
  }

  function Upsetting(): seq<Step> {
    DialAndStamp(0) + [Advance(5)] + DialAndStamp(1) + [TakeYield(1)] + [TakeYield(0)] + [Advance(7)]
  }

  lemma {:induction false} AfterUpsetting()
    ensures Exec(CFG, START, Upsetting()) == Some(Upset()) && Shaped(Upset())
  {
    var a := Stamped(START, 0);
    var b := a.(now := 5);
    var c := Stamped(b, 1);
    var d := Pooled(c, 1, [1]);
    var e := Pooled(d, 0, [1, 0]);
    Dials(START, 0);
    Dials(b, 1);
    var w := DialAndStamp(0);
    Then(START, w, a, Advance(5), b);
    w := w + [Advance(5)];
    ExecConcat(CFG, START, w, DialAndStamp(1));
    w := w + DialAndStamp(1);
    Yields(START, w, c, 1, [], [1]);
    w := w + [TakeYield(1)];
    Yields(START, w, d, 0, [1], [1, 0]);
    Then(START, w + [TakeYield(0)], e, Advance(7), Upset());
  }

  /** The top of the stack is stale, so a dial clears the stack. */
  lemma {:induction false} DialThen(s: State)
    requires s == Set(Upset(), 0, Dialing("udp")) && Shaped(s)
    ensures Enabled(CFG, s, TakeDial(0)) && 1 in Next(CFG, s, TakeDial(0)).closing
    ensures 1 !in s.closing && InPool(s, 1) && !ExpiredIn(CFG, s, 1)
  {
    assert s.used[0] == 0 && s.used[1] == 5;
    assert Stamps(s, TYPE_UDP) == [5, 0];
    assert s.conns[0] == [1, 0] && s.conns[0][0] == 1;
    assert At(s, 1, Place.Pooled(0));
  }

  /** There is a run, with yields out of stamp order, that ends in a dial which closes a connection
      that has not expired. */
  lemma {:induction false} DialClosesTooMuch() returns (states: seq<State>, steps: seq<Step>)
    ensures Run(CFG, states, steps) && |steps| > 0 && steps[|steps| - 1] == TakeDial(0)
    ensures var s := states[|steps| - 1];
            1 in states[|steps|].closing && 1 !in s.closing && InPool(s, 1) && !ExpiredIn(CFG, s, 1)
    ensures !InOrder(states, steps)
  {
    AfterUpsetting();
    var u, w := Upset(), Upsetting();
    var s := Set(u, 0, Dialing("udp"));
    Then(START, w, u, Ask(0, "udp"), s);
    w := w + [Ask(0, "udp")];
    DialThen(s);
    Then(START, w, s, TakeDial(0), Next(CFG, s, TakeDial(0)));
    steps := w + [TakeDial(0)];
    states := RunThrough(w, s, TakeDial(0), Next(CFG, s, TakeDial(0)));
    DialNotInOrder(states, steps);
  }

  lemma DialNotInOrder(states: seq<State>, steps: seq<Step>)
    requires Run(CFG, states, steps) && |steps| > 0 && steps[|steps| - 1] == TakeDial(0)
    requires 1 in states[|steps|].closing - states[|steps| - 1].closing && !ExpiredIn(CFG, states[|steps| - 1], 1)
    ensures !InOrder(states, steps)
  {
    if InOrder(states, steps) {
      DialClosesExpired(CFG, states, steps, |steps| - 1, 0, 1);
    }
  }

  /** The run of steps that end with `a`, from `s` to `end`. */
  lemma {:induction false} RunThrough(w: seq<Step>, s: State, a: Step, end: State) returns (states: seq<State>)
    requires Exec(CFG, START, w) == Some(s) && Exec(CFG, START, w + [a]) == Some(end)
    ensures Run(CFG, states, w + [a]) && states[|w|] == s && states[|w| + 1] == end
  {
    states := ExecRuns(CFG, START, w + [a]);
    assert (w + [a])[..|w|] == w;
    RunIsExec(states, w + [a], |w|);
  }

  lemma {:induction false} RunIsExec(states: seq<State>, steps: seq<Step>, n: nat)
    requires Run(CFG, states, steps) && n <= |steps|
    ensures Exec(CFG, states[0], steps[..n]) == Some(states[n])
  {
    if n > 0 {
      RunIsExec(states, steps, n - 1);
      ExecOneMore(CFG, states[0], steps[..n - 1], steps[n - 1]);
      assert steps[..n - 1] + [steps[n - 1]] == steps[..n];
    }
  }
}
