/** Consolidated error logging (`plugin/errors/errors.go`): `inc`, timers and `stop` as atomic
    steps of any number of threads over any number of patterns.  */
module Consolidation {
  import opened Llrb

  /** The counters are 32 bits wide. */
  const WORD: nat := 0x1_0000_0000

  type PatternId = nat
  type TimerId = nat

  /** Where a thread is. After logging, `stop` goes on with the pattern `next`. */
  datatype Pc =
    | IncStart(p: PatternId)  // reads the stop flag
    | IncAdd(p: PatternId)
    | IncCreate(p: PatternId)  // starts a timer
    | IncSet(p: PatternId, t: TimerId)  // stores the timer
    | IncCheck(p: PatternId, t: TimerId)  // reads the stop flag again
    | IncTry(p: PatternId, t: TimerId)  // stops the timer
    | LogSwap(p: PatternId, next: Option<PatternId>)  // takes the count
    | LogCall(p: PatternId, n: nat, next: Option<PatternId>)  // logs what it took
    | StopSet  // raises the stop flag
    | StopLoad(p: PatternId)  // reads the stored timer
    | StopTry(p: PatternId, t: TimerId)
    | Finished

  datatype Status = Pending | Fired | Stopped

  datatype Timer = Timer(p: PatternId, status: Status)

  /** `counted`, `logged` and `wraps` only record what happened to each pattern. */
  datatype State = State(
    count: seq<nat>,
    ptimer: seq<Option<TimerId>>,
    stop: bool,
    timers: seq<Timer>,
    threads: seq<Pc>,
    counted: seq<nat>,
    logged: seq<nat>,
    wraps: seq<nat>)

  datatype Step = CallInc(p: PatternId) | CallStop | Go(i: nat) | Fire(t: TimerId)

  predicate TimerOf(s: State, t: TimerId, p: PatternId) {
    t < |s.timers| && s.timers[t].p == p
  }

  predicate PcOk(s: State, pc: Pc) {
    match pc
    case StopSet => true
    case Finished => true
    case IncSet(p, t) => p < |s.count| && TimerOf(s, t, p)
    case IncCheck(p, t) => p < |s.count| && TimerOf(s, t, p)
    case IncTry(p, t) => p < |s.count| && TimerOf(s, t, p)
    case StopTry(p, t) => p < |s.count| && TimerOf(s, t, p)
    case _ => pc.p < |s.count|
  }

  predicate Sized(s: State) {
    |s.count| == |s.ptimer| == |s.counted| == |s.logged| == |s.wraps|
  }

  /** Threads, timers and stored timers refer to patterns and timers that exist. */
  ghost predicate Ok(s: State) {
    && Sized(s)
    && (forall p :: 0 <= p < |s.count| ==> s.count[p] < WORD)
    && (forall p :: 0 <= p < |s.ptimer| && s.ptimer[p].Some? ==> TimerOf(s, s.ptimer[p].value, p))
    && (forall t :: 0 <= t < |s.timers| ==> s.timers[t].p < |s.count|)
    && forall i :: 0 <= i < |s.threads| ==> PcOk(s, s.threads[i])
  }

  ghost predicate Init(s: State) {
    && Ok(s) && !s.stop && s.timers == [] && s.threads == []
    && forall p :: 0 <= p < |s.count| ==> s.count[p] == s.counted[p] == s.logged[p] == s.wraps[p] == 0
  }

  predicate Enabled(s: State, a: Step) {
    match a
    case CallInc(p) => p < |s.count|
    case CallStop => true
    case Go(i) => i < |s.threads| && s.threads[i] != Finished
    case Fire(t) => t < |s.timers| && s.timers[t].status == Pending
  }

  /** Where a thread goes when it is done with a pattern. */
  function After(s: State, next: Option<PatternId>): Pc {
    if next.Some? && next.value < |s.count| then StopLoad(next.value) else Finished
  }

  function At(s: State, i: nat, pc: Pc): State
    requires i < |s.threads|
  {
    s.(threads := s.threads[i := pc])
  }

  /** `t.Stop()`: true when the timer was still pending. */
  function StopTimer(s: State, t: TimerId): State
    requires t < |s.timers|
  {
    if s.timers[t].status == Pending then s.(timers := s.timers[t := s.timers[t].(status := Stopped)]) else s
  }

  /** `atomic.AddUint32(&count, 1)` */
  function Increment(c: nat): nat {
    if c + 1 == WORD then 0 else c + 1
  }

  predicate CanGo(s: State, i: nat) {
    Sized(s) && i < |s.threads| && s.threads[i] != Finished && PcOk(s, s.threads[i])
  }

  function Proceed(s: State, i: nat): State
    requires CanGo(s, i)
  {
    match s.threads[i]
    case IncStart(p) => At(s, i, if s.stop then Finished else IncAdd(p))
    case IncAdd(p) =>
      var c := Increment(s.count[p]);
      At(s, i, if c == 1 then IncCreate(p) else Finished)
        .(count := s.count[p := c], counted := s.counted[p := s.counted[p] + 1],
          wraps := s.wraps[p := s.wraps[p] + if s.count[p] + 1 == WORD then 1 else 0])
    case IncCreate(p) => At(s, i, IncSet(p, |s.timers|)).(timers := s.timers + [Timer(p, Pending)])
    case IncSet(p, t) => At(s, i, IncCheck(p, t)).(ptimer := s.ptimer[p := Some(t)])
    case IncCheck(p, t) => At(s, i, if s.stop then IncTry(p, t) else Finished)
    case IncTry(p, t) => At(StopTimer(s, t), i, if s.timers[t].status == Pending then LogSwap(p, None) else Finished)
    case LogSwap(p, next) =>
      At(s, i, if s.count[p] > 0 then LogCall(p, s.count[p], next) else After(s, next)).(count := s.count[p := 0])
    case LogCall(p, n, next) => At(s, i, After(s, next)).(logged := s.logged[p := s.logged[p] + n])
    case StopSet => At(s, i, After(s, Some(0))).(stop := true)
    case StopLoad(p) => At(s, i, if s.ptimer[p].Some? then StopTry(p, s.ptimer[p].value) else After(s, Some(p + 1)))
    case StopTry(p, t) =>
      At(StopTimer(s, t), i, if s.timers[t].status == Pending then LogSwap(p, Some(p + 1)) else After(s, Some(p + 1)))
  }

  function Next(s: State, a: Step): State
    requires Ok(s) && Enabled(s, a)
  {
    match a
    case CallInc(p) => s.(threads := s.threads + [IncStart(p)])
    case CallStop => s.(threads := s.threads + [StopSet])
    case Go(i) => Proceed(s, i)
    case Fire(t) =>
      s.(timers := s.timers[t := s.timers[t].(status := Fired)], threads := s.threads + [LogSwap(s.timers[t].p, None)])
  }

  // ----- sums

  function Sum<T>(s: seq<T>, f: T -> nat): nat {
    if s == [] then 0 else Sum(s[..|s| - 1], f) + f(s[|s| - 1])
  }

  lemma {:induction false} SumUpdate<T>(s: seq<T>, f: T -> nat, i: nat, x: T)
    requires i < |s|
    ensures Sum(s[i := x], f) == Sum(s, f) - f(s[i]) + f(x)
    ensures Sum(s, f) >= f(s[i])
  {
    var n := |s| - 1;
    if i == n {
      assert s[i := x][..n] == s[..n];
    } else {
      SumUpdate(s[..n], f, i, x);
      assert s[i := x][..n] == s[..n][i := x];
    }
  }

  lemma SumAppend<T>(s: seq<T>, f: T -> nat, x: T)
    ensures Sum(s + [x], f) == Sum(s, f) + f(x)
  {
    assert (s + [x])[..|s|] == s;
  }

  lemma {:induction false} SumZero<T>(s: seq<T>, f: T -> nat)
    ensures Sum(s, f) == 0 <==> forall i :: 0 <= i < |s| ==> f(s[i]) == 0
  {
    if s != [] {
      SumZero(s[..|s| - 1], f);
    }
  }

  // ----- conservation

  function Taken(pc: Pc, p: PatternId): nat {
    if pc.LogCall? && pc.p == p then pc.n else 0
  }

  /** What threads have taken from the count of `p` and not logged yet. */
  function InFlight(s: State, p: PatternId): nat {
    Sum(s.threads, TakenOf(p))
  }

  function TakenOf(p: PatternId): Pc -> nat {
    pc => Taken(pc, p)
  }

  ghost predicate Balanced(s: State, p: PatternId)
    requires Ok(s) && p < |s.count|
  {
    && s.counted[p] == s.logged[p] + s.count[p] + InFlight(s, p) + WORD * s.wraps[p]
  }

  // ----- cover

  /** A thread that has to start a timer or to log. */
  function Owes(pc: Pc, p: PatternId): nat {
    if (pc.IncCreate? || pc.LogSwap?) && pc.p == p then 1 else 0
  }

  function OwesOf(p: PatternId): Pc -> nat {
    pc => Owes(pc, p)
  }

  function Runs(t: Timer, p: PatternId): nat {
    if t == Timer(p, Pending) then 1 else 0
  }

  function RunsOf(p: PatternId): Timer -> nat {
    t => Runs(t, p)
  }

  /** The pending timers of `p` and the threads that have to start one or to log. */
  function Covers(s: State, p: PatternId): nat {
    Sum(s.threads, OwesOf(p)) + Sum(s.timers, RunsOf(p))
  }

  ghost predicate Covered(s: State, p: PatternId)
    requires Ok(s) && p < |s.count|
  {
    && (s.count[p] > 0 ==> Covers(s, p) > 0)
    && (s.wraps[p] == 0 ==> Covers(s, p) == if s.count[p] > 0 then 1 else 0)
  }

  ghost predicate Inv(s: State) {
    Ok(s) && forall p :: 0 <= p < |s.count| ==> Balanced(s, p) && Covered(s, p)
  }

  lemma {:induction false} OkKept(s: State, a: Step)
    requires Ok(s) && Enabled(s, a)
    ensures Ok(Next(s, a)) && |Next(s, a).count| == |s.count|
  {
    var s' := Next(s, a);
    match a {
      case Go(i) =>
        GoThreads(s, i);
        GoShape(s, i);
      case _ =>
        assert TimersStay(s, s');
    }
    forall j | 0 <= j < |s'.threads|
      ensures PcOk(s', s'.threads[j])
    {
      if j < |s.threads| && s'.threads[j] == s.threads[j] {
        PcStays(s, s', s.threads[j]);
      }
    }
  }

  /** Timers keep their patterns. */
  ghost predicate TimersStay(s: State, s': State) {
    && |s.timers| <= |s'.timers| && |s'.count| == |s.count|
    && forall t :: 0 <= t < |s.timers| ==> s'.timers[t].p == s.timers[t].p
  }

  lemma PcStays(s: State, s': State, pc: Pc)
    requires TimersStay(s, s') && PcOk(s, pc)
    ensures PcOk(s', pc)
  {
  }

  /** A step of thread `i` moves that thread and keeps the timers' patterns. */
  lemma {:induction false} GoFrame(s: State, i: nat)
    requires CanGo(s, i)
    ensures var s' := Proceed(s, i);
            Sized(s') && TimersStay(s, s') && |s'.threads| == |s.threads| && s'.threads == s.threads[i := s'.threads[i]]
  {
  }

  lemma {:induction false} GoThreads(s: State, i: nat)
    requires CanGo(s, i)
    requires forall p :: 0 <= p < |s.ptimer| && s.ptimer[p].Some? ==> TimerOf(s, s.ptimer[p].value, p)
    ensures var s' := Proceed(s, i);
            && Sized(s') && TimersStay(s, s') && |s'.threads| == |s.threads| && PcOk(s', s'.threads[i])
            && forall j :: 0 <= j < |s.threads| && j != i ==> s'.threads[j] == s.threads[j]
  {
    GoFrame(s, i);
    var s', pc := Proceed(s, i), s.threads[i];
    if pc.StopLoad? {
      if s.ptimer[pc.p].Some? {
        PcStays(s, s', StopTry(pc.p, s.ptimer[pc.p].value));
      }
    } else if pc.IncSet? || pc.IncCheck? || pc.IncTry? || pc.StopTry? {
      PcStays(s, s', pc);
    }
  }

  lemma {:induction false} GoShape(s: State, i: nat)
    requires Ok(s) && CanGo(s, i)
    ensures var s' := Proceed(s, i);
            && (forall p :: 0 <= p < |s'.count| ==> s'.count[p] < WORD)
            && (forall p :: 0 <= p < |s'.ptimer| && s'.ptimer[p].Some? ==> TimerOf(s', s'.ptimer[p].value, p))
            && (forall t :: 0 <= t < |s'.timers| ==> s'.timers[t].p < |s'.count|)
  {
    var s', pc := Proceed(s, i), s.threads[i];
    if pc.IncCreate? || pc.IncTry? || pc.StopTry? {
      assert s'.ptimer == s.ptimer && s'.count == s.count;
    } else if pc.IncSet? {
      assert s'.timers == s.timers && s'.count == s.count;
    } else {
      assert s'.timers == s.timers && s'.ptimer == s.ptimer;
    }
  }

  /** The sums over the threads after a step of thread `i`. */
  lemma {:induction false} GoSums(s: State, i: nat, p: PatternId)
    requires CanGo(s, i)
    ensures var s' := Proceed(s, i);
            && i < |s'.threads|
            && InFlight(s', p) == InFlight(s, p) - Taken(s.threads[i], p) + Taken(s'.threads[i], p)
            && Sum(s'.threads, OwesOf(p)) == Sum(s.threads, OwesOf(p)) - Owes(s.threads[i], p) + Owes(s'.threads[i], p)
  {
    var s' := Proceed(s, i);
    assert s'.threads == s.threads[i := s'.threads[i]];
    SumUpdate(s.threads, TakenOf(p), i, s'.threads[i]);
    SumUpdate(s.threads, OwesOf(p), i, s'.threads[i]);
  }

  /** What the books of `p` show, with what thread `i` has taken. */
  function Books(s: State, i: nat, p: PatternId): int
    requires Sized(s) && i < |s.threads| && p < |s.count|
  {
    s.logged[p] + s.count[p] + Taken(s.threads[i], p) + WORD * s.wraps[p] - s.counted[p]
  }

  lemma {:induction false} GoBooks(s: State, i: nat, p: PatternId)
    requires CanGo(s, i) && p < |s.count|
    ensures var s' := Proceed(s, i);
            Sized(s') && i < |s'.threads| && p < |s'.count| && Books(s', i, p) == Books(s, i, p)
  {
    var pc := s.threads[i];
    if pc.IncAdd? || pc.LogSwap? || pc.LogCall? {
    } else {
      var s' := Proceed(s, i);
      assert s'.count == s.count && s'.counted == s.counted && s'.logged == s.logged && s'.wraps == s.wraps;
    }
  }

  lemma {:induction false} BalancedKept(s: State, a: Step, p: PatternId)
    requires Ok(s) && Enabled(s, a) && p < |s.count| && Balanced(s, p) && Ok(Next(s, a))
    ensures p < |Next(s, a).count| && Balanced(Next(s, a), p)
  {
    match a
    case Go(i) =>
      GoSums(s, i, p);
      GoBooks(s, i, p);
    case CallInc(q) => SumAppend(s.threads, TakenOf(p), IncStart(q));
    case CallStop => SumAppend(s.threads, TakenOf(p), StopSet);
    case Fire(t) => SumAppend(s.threads, TakenOf(p), LogSwap(s.timers[t].p, None));
  }

  /** How a step of thread `i` changes the number of pending timers of `p`. */
  lemma {:induction false} GoTimers(s: State, i: nat, p: PatternId)
    requires CanGo(s, i)
    ensures var pc := s.threads[i]; var d := Sum(Proceed(s, i).timers, RunsOf(p)) - Sum(s.timers, RunsOf(p));
            d == if pc.IncCreate? && pc.p == p then 1
                 else if (pc.IncTry? || pc.StopTry?) && pc.p == p && s.timers[pc.t].status == Pending then -1
                 else 0
  {
    var pc := s.threads[i];
    if pc.IncCreate? {
      SumAppend(s.timers, RunsOf(p), Timer(pc.p, Pending));
    } else if pc.IncTry? || pc.StopTry? {
      SumUpdate(s.timers, RunsOf(p), pc.t, s.timers[pc.t].(status := Stopped));
    }
  }

  /** What a step of thread `i` does to the count of `p`. */
  lemma {:induction false} GoCount(s: State, i: nat, p: PatternId)
    requires CanGo(s, i) && p < |s.count|
    ensures var pc, s' := s.threads[i], Proceed(s, i);
            && |s'.count| == |s.count| && |s'.wraps| == |s.wraps|
            && if pc.LogSwap? && pc.p == p then s'.count[p] == 0 && s'.wraps[p] == s.wraps[p]
               else if pc.IncAdd? && pc.p == p then
                 && s'.count[p] == Increment(s.count[p])
                 && s'.wraps[p] == s.wraps[p] + if s.count[p] + 1 == WORD then 1 else 0
               else s'.count[p] == s.count[p] && s'.wraps[p] == s.wraps[p]
  {
  }

  /** A step of thread `i` changes what covers `p` only where the count of `p` leaves or reaches zero. */
  lemma {:induction false} GoCovers(s: State, i: nat, p: PatternId)
    requires CanGo(s, i) && p < |s.count|
    ensures var pc := s.threads[i]; var d := Covers(Proceed(s, i), p) - Covers(s, p);
            d == if pc.LogSwap? && pc.p == p then -1
                 else if pc.IncAdd? && pc.p == p && Increment(s.count[p]) == 1 then 1
                 else 0
  {
    GoSums(s, i, p);
    GoTimers(s, i, p);
    GoOwes(s, i, p);
  }

  /** What a step changes in what its thread owes, against the timers it starts or stops. */
  lemma {:induction false} GoOwes(s: State, i: nat, p: PatternId)
    requires CanGo(s, i) && p < |s.count|
    ensures var pc, s' := s.threads[i], Proceed(s, i);
            && i < |s'.threads|
            && Owes(s'.threads[i], p) - Owes(pc, p)
            == (if pc.LogSwap? && pc.p == p then -1
                else if pc.IncAdd? && pc.p == p && Increment(s.count[p]) == 1 then 1
                else if pc.IncCreate? && pc.p == p then -1
                else if (pc.IncTry? || pc.StopTry?) && pc.p == p && s.timers[pc.t].status == Pending then 1
                else 0)
  {
  }

  lemma {:induction false} FireCovers(s: State, t: TimerId, p: PatternId)
    requires Ok(s) && Enabled(s, Fire(t))
    ensures Covers(Next(s, Fire(t)), p) == Covers(s, p)
  {
    SumAppend(s.threads, OwesOf(p), LogSwap(s.timers[t].p, None));
    SumUpdate(s.timers, RunsOf(p), t, s.timers[t].(status := Fired));
  }

  lemma {:induction false} GoCovered(s: State, i: nat, p: PatternId)
    requires Ok(s) && CanGo(s, i) && p < |s.count| && Covered(s, p) && Ok(Proceed(s, i))
    ensures p < |Proceed(s, i).count| && Covered(Proceed(s, i), p)
  {
    GoCount(s, i, p);
    GoCovers(s, i, p);
  }

  lemma {:induction false} CoveredKept(s: State, a: Step, p: PatternId)
    requires Ok(s) && Enabled(s, a) && p < |s.count| && Covered(s, p) && Ok(Next(s, a))
    ensures p < |Next(s, a).count| && Covered(Next(s, a), p)
  {
    match a
    case Go(i) => GoCovered(s, i, p);
    case CallInc(q) => SumAppend(s.threads, OwesOf(p), IncStart(q));
    case CallStop => SumAppend(s.threads, OwesOf(p), StopSet);
    case Fire(t) => FireCovers(s, t, p);
  }

  lemma {:induction false} InvKept(s: State, a: Step)
    requires Inv(s) && Enabled(s, a)
    ensures Inv(Next(s, a))
  {
    OkKept(s, a);
    forall p | 0 <= p < |s.count|
      ensures Balanced(Next(s, a), p) && Covered(Next(s, a), p)
    {
      BalancedKept(s, a, p);
      CoveredKept(s, a, p);
    }
  }

  // ----- runs

  ghost predicate Run(states: seq<State>, steps: seq<Step>) {
    && |states| == |steps| + 1 && Init(states[0])
    && forall i :: 0 <= i < |steps| ==> Ok(states[i]) && Enabled(states[i], steps[i]) && states[i + 1] == Next(states[i], steps[i])
  }

  lemma {:induction false} RunKeeps(states: seq<State>, steps: seq<Step>, n: nat)
    requires Run(states, steps) && n < |states|
    ensures Inv(states[n]) && |states[n].count| == |states[0].count|
  {
    if n == 0 {
      assert forall p :: 0 <= p < |states[0].count| ==> Balanced(states[0], p) && Covered(states[0], p);
    } else {
      RunKeeps(states, steps, n - 1);
      InvKept(states[n - 1], steps[n - 1]);
      OkKept(states[n - 1], steps[n - 1]);
    }
  }

  /** In every run, while fewer than 2^32 errors were counted: what was logged, what threads are
      about to log and the count add up to the errors counted; a positive count has exactly
      one pending timer or thread that has to start one or to log, and a zero count none. */
  lemma {:induction false} Conserved(states: seq<State>, steps: seq<Step>, n: nat, p: PatternId)
    requires Run(states, steps) && n < |states| && p < |states[n].count|
    requires Ok(states[n]) && states[n].counted[p] < WORD
    ensures states[n].counted[p] == states[n].logged[p] + states[n].count[p] + InFlight(states[n], p)
    ensures Covers(states[n], p) == if states[n].count[p] > 0 then 1 else 0
  {
    RunKeeps(states, steps, n);
    assert Balanced(states[n], p) && Covered(states[n], p);
  }

  /** With any number of errors the books balance modulo 2^32, and no positive count is stranded. */
  lemma {:induction false} ConservedModulo(states: seq<State>, steps: seq<Step>, n: nat, p: PatternId)
    requires Run(states, steps) && n < |states| && p < |states[n].count|
    ensures Ok(states[n])
    ensures states[n].counted[p] % WORD == (states[n].logged[p] + states[n].count[p] + InFlight(states[n], p)) % WORD
    ensures states[n].count[p] > 0 ==>
              || (exists t :: 0 <= t < |states[n].timers| && states[n].timers[t] == Timer(p, Pending))
              || (exists i :: 0 <= i < |states[n].threads| && Owes(states[n].threads[i], p) == 1)
  {
    var s := states[n];
    RunKeeps(states, steps, n);
    assert Balanced(s, p) && Covered(s, p);
    SumZero(s.threads, OwesOf(p));
    SumZero(s.timers, RunsOf(p));
  }

  // ----- draining

  /** Nothing is left to happen unless a new call comes in. */
  ghost predicate Quiet(s: State) {
    && (forall i :: 0 <= i < |s.threads| ==> s.threads[i] == Finished)
    && forall t :: 0 <= t < |s.timers| ==> s.timers[t].status != Pending
  }

  /** In a quiet state everything that was counted has been logged. */
  lemma {:induction false} QuietIsLogged(states: seq<State>, steps: seq<Step>, n: nat, p: PatternId)
    requires Run(states, steps) && n < |states| && Quiet(states[n]) && p < |states[n].count|
    requires Ok(states[n]) && states[n].counted[p] < WORD
    ensures states[n].logged[p] == states[n].counted[p]
  {
    var s := states[n];
    Conserved(states, steps, n, p);
    SumZero(s.threads, TakenOf(p));
    SumZero(s.threads, OwesOf(p));
    SumZero(s.timers, RunsOf(p));
  }

  /** How far a thread is from its end, counting a timer it may start. */
  function Work(pc: Pc, n: nat): nat {
    match pc
    case IncStart(_) => 10
    case IncAdd(_) => 9
    case IncCreate(_) => 8
    case IncSet(_, _) => 4
    case IncCheck(_, _) => 3
    case IncTry(_, _) => 2
    case LogSwap(_, next) => 2 + Rest(next, n)
    case LogCall(_, _, next) => 1 + Rest(next, n)
    case StopSet => 1 + 4 * n
    case StopLoad(p) => if p < n then 4 * (n - p) else 0
    case StopTry(p, _) => if p < n then 4 * (n - p) - 1 else 0
    case Finished => 0
  }

  function Rest(next: Option<PatternId>, n: nat): nat {
    if next.Some? && next.value < n then 4 * (n - next.value) else 0
  }

  function WorkOf(n: nat): Pc -> nat {
    pc => Work(pc, n)
  }

  function TimerWork(): Timer -> nat {
    (t: Timer) => if t.status == Pending then 3 else 0
  }

  /** An upper bound on the steps left if no more calls come in. */
  function StepsLeft(s: State): nat {
    Sum(s.threads, WorkOf(|s.count|)) + Sum(s.timers, TimerWork())
  }

  /** What thread `i` may add to the work of the timers. */
  function TimerChange(s: State, pc: Pc): int {
    if pc.IncCreate? then 3
    else if (pc.IncTry? || pc.StopTry?) && pc.t < |s.timers| && s.timers[pc.t].status == Pending then -3
    else 0
  }

  lemma {:induction false} GoTimerWork(s: State, i: nat)
    requires CanGo(s, i)
    ensures Sum(Proceed(s, i).timers, TimerWork()) == Sum(s.timers, TimerWork()) + TimerChange(s, s.threads[i])
  {
    var pc := s.threads[i];
    if pc.IncCreate? {
      SumAppend(s.timers, TimerWork(), Timer(pc.p, Pending));
    } else if pc.IncTry? || pc.StopTry? {
      SumUpdate(s.timers, TimerWork(), pc.t, s.timers[pc.t].(status := Stopped));
    }
  }

  /** A step of a thread changes that thread and no number of things but that of timers. */
  lemma GoSizes(s: State, i: nat)
    requires CanGo(s, i)
    ensures var s' := Proceed(s, i);
            |s'.count| == |s.count| && |s'.threads| == |s.threads| && s'.threads == s.threads[i := s'.threads[i]]
  {
  }

  lemma {:induction false} GoNearer(s: State, i: nat)
    requires CanGo(s, i)
    ensures var s', n := Proceed(s, i), |s.count|;
            i < |s'.threads| && Work(s'.threads[i], n) + TimerChange(s, s.threads[i]) < Work(s.threads[i], n)
  {
  }

  lemma {:induction false} GoWorks(s: State, i: nat)
    requires CanGo(s, i)
    ensures StepsLeft(Proceed(s, i)) < StepsLeft(s)
  {
    var s', n := Proceed(s, i), |s.count|;
    GoTimerWork(s, i);
    GoSizes(s, i);
    GoNearer(s, i);
    SumUpdate(s.threads, WorkOf(n), i, s'.threads[i]);
  }

  lemma {:induction false} StepWorks(s: State, a: Step)
    requires Ok(s) && Enabled(s, a) && (a.Go? || a.Fire?)
    ensures StepsLeft(Next(s, a)) < StepsLeft(s)
  {
    if a.Go? {
      GoWorks(s, a.i);
    } else {
      SumAppend(s.threads, WorkOf(|s.count|), LogSwap(s.timers[a.t].p, None));
      SumUpdate(s.timers, TimerWork(), a.t, s.timers[a.t].(status := Fired));
    }
  }

  /** No error is stranded: once calls stop coming in, a run goes on until it is quiet, and it
      gets there within `StepsLeft` steps. */
  lemma {:induction false} Drains(states: seq<State>, steps: seq<Step>, m: nat, n: nat)
    requires Run(states, steps) && m <= n < |states|
    requires forall i :: m <= i < n ==> steps[i].Go? || steps[i].Fire?
    ensures n - m + StepsLeft(states[n]) <= StepsLeft(states[m])
    ensures Quiet(states[n]) <==> forall a: Step :: (a.Go? || a.Fire?) ==> !Enabled(states[n], a)
    decreases n
  {
    if m < n {
      Drains(states, steps, m, n - 1);
      StepWorks(states[n - 1], steps[n - 1]);
    }
    QuietIsEnd(states[n]);
  }

  lemma {:induction false} QuietIsEnd(s: State)
    ensures Quiet(s) <==> forall a: Step :: (a.Go? || a.Fire?) ==> !Enabled(s, a)
  {
    if !Quiet(s) {
      if i :| 0 <= i < |s.threads| && s.threads[i] != Finished {
        assert Enabled(s, Go(i));
      } else {
        var t :| 0 <= t < |s.timers| && s.timers[t].status == Pending;
        assert Enabled(s, Fire(t));
      }
    }
  }
}
