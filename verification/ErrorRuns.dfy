/** What runs of the error handler count and flush, told by the calls and steps alone
    (`plugin/errors/errors.go`).  */
module ErrorRuns {
  import opened Llrb
  import opened Consolidation

  lemma {:induction false} RunOk(states: seq<State>, steps: seq<Step>, n: nat)
    requires Run(states, steps) && n < |states|
    ensures Ok(states[n]) && |states[n].count| == |states[0].count|
  {
    RunKeeps(states, steps, n);
  }

  // ----- which calls are counted

  /** Step `m` is the first step of a call of `inc` for `p`. */
  ghost predicate Begins(states: seq<State>, steps: seq<Step>, m: nat, p: PatternId) {
    m < |steps| < |states| && steps[m].Go? && steps[m].i < |states[m].threads| && states[m].threads[steps[m].i] == IncStart(p)
  }

  /** How many calls took their first step before step `n` while the stop flag was down. */
  ghost function Admitted(states: seq<State>, steps: seq<Step>, n: nat, p: PatternId): nat {
    if n == 0 then 0
    else Admitted(states, steps, n - 1, p) + if Begins(states, steps, n - 1, p) && !states[n - 1].stop then 1 else 0
  }

  /** And how many while it was up. */
  ghost function Refused(states: seq<State>, steps: seq<Step>, n: nat, p: PatternId): nat {
    if n == 0 then 0
    else Refused(states, steps, n - 1, p) + if Begins(states, steps, n - 1, p) && states[n - 1].stop then 1 else 0
  }

  /** How many calls were made before step `n`. */
  ghost function Made(steps: seq<Step>, n: nat, p: PatternId): nat
    requires n <= |steps|
  {
    if n == 0 then 0 else Made(steps, n - 1, p) + if steps[n - 1] == CallInc(p) then 1 else 0
  }

  function AtAdd(p: PatternId): Pc -> nat {
    pc => if pc == IncAdd(p) then 1 else 0
  }

  function AtStart(p: PatternId): Pc -> nat {
    pc => if pc == IncStart(p) then 1 else 0
  }

  lemma {:induction false} AddStep(s: State, a: Step, p: PatternId)
    requires Ok(s) && Enabled(s, a) && p < |s.count|
    ensures var s', begins := Next(s, a), a.Go? && s.threads[a.i] == IncStart(p);
            && |s'.counted| == |s.counted|
            && s'.counted[p] + Sum(s'.threads, AtAdd(p)) == s.counted[p] + Sum(s.threads, AtAdd(p)) + (if begins && !s.stop then 1 else 0)
            && Sum(s'.threads, AtStart(p)) + (if begins then 1 else 0) == Sum(s.threads, AtStart(p)) + if a == CallInc(p) then 1 else 0
  {
    match a {
      case CallInc(q) =>
        SumAppend(s.threads, AtAdd(p), IncStart(q));
        SumAppend(s.threads, AtStart(p), IncStart(q));
      case CallStop =>
        SumAppend(s.threads, AtAdd(p), StopSet);
        SumAppend(s.threads, AtStart(p), StopSet);
      case Fire(t) =>
        SumAppend(s.threads, AtAdd(p), LogSwap(s.timers[t].p, None));
        SumAppend(s.threads, AtStart(p), LogSwap(s.timers[t].p, None));
      case Go(i) =>
        GoSizes(s, i);
        var s' := Proceed(s, i);
        SumUpdate(s.threads, AtAdd(p), i, s'.threads[i]);
        SumUpdate(s.threads, AtStart(p), i, s'.threads[i]);
        GoAdds(s, i, p);
    }
  }

  lemma {:induction false} GoAdds(s: State, i: nat, p: PatternId)
    requires CanGo(s, i) && p < |s.count|
    ensures var s', pc := Proceed(s, i), s.threads[i];
            && |s'.counted| == |s.counted| && i < |s'.threads|
            && s'.counted[p] == s.counted[p] + AtAdd(p)(pc)
            && AtAdd(p)(s'.threads[i]) == (if pc == IncStart(p) && !s.stop then 1 else 0)
            && AtStart(p)(s'.threads[i]) == 0
  {
  }

  /** In every run: the errors counted for a pattern are those of the calls that took their first step
      while the stop flag was down, less those that are about to be added; and every call is one of
      these, or was refused because the flag was up, or has not taken its first step. */
  lemma {:induction false} CountedExactly(states: seq<State>, steps: seq<Step>, n: nat, p: PatternId)
    requires Run(states, steps) && n < |states| && p < |states[0].count|
    ensures Ok(states[n]) && p < |states[n].counted|
    ensures states[n].counted[p] + Sum(states[n].threads, AtAdd(p)) == Admitted(states, steps, n, p)
    ensures Made(steps, n, p) == Admitted(states, steps, n, p) + Refused(states, steps, n, p) + Sum(states[n].threads, AtStart(p))
  {
    RunOk(states, steps, n);
    if n > 0 {
      CountedExactly(states, steps, n - 1, p);
      AddStep(states[n - 1], steps[n - 1], p);
    }
  }

  /** In a quiet state the errors logged are those of the calls admitted, and every call was admitted
      or refused. */
  lemma {:induction false} QuietLogsAdmitted(states: seq<State>, steps: seq<Step>, n: nat, p: PatternId)
    requires Run(states, steps) && n < |states| && p < |states[0].count| && Quiet(states[n]) && Admitted(states, steps, n, p) < WORD
    ensures Ok(states[n]) && p < |states[n].logged| && states[n].logged[p] == Admitted(states, steps, n, p)
    ensures Made(steps, n, p) == Admitted(states, steps, n, p) + Refused(states, steps, n, p)
  {
    CountedExactly(states, steps, n, p);
    SumZero(states[n].threads, AtAdd(p));
    SumZero(states[n].threads, AtStart(p));
    QuietIsLogged(states, steps, n, p);
  }

  // ----- what `stop` does

  /** `t` is a pending timer. */
  predicate Pends(s: State, t: TimerId) {
    t < |s.timers| && s.timers[t].status == Pending
  }

  lemma {:induction false} StatusStep(s: State, a: Step, t: TimerId)
    requires Ok(s) && Enabled(s, a) && t < |s.timers|
    ensures var s' := Next(s, a);
            && t < |s'.timers| && s'.timers[t].p == s.timers[t].p
            && (Pends(s', t) <==> Pends(s, t) && a != Fire(t) && !(a.Go? && (s.threads[a.i].IncTry? || s.threads[a.i].StopTry?) && s.threads[a.i].t == t))
  {
  }

  /** A thread that is about to stop `t` has stopped it, or it was not pending, once it has gone on. */
  lemma {:induction false} TriesTimer(states: seq<State>, steps: seq<Step>, m: nat, n: nat, i: nat, p: PatternId, t: TimerId)
    requires Run(states, steps) && m <= n < |states| && i < |states[m].threads| && states[m].threads[i] == StopTry(p, t)
    ensures i < |states[n].threads| && (states[n].threads[i] == StopTry(p, t) || !Pends(states[n], t)) && t < |states[n].timers|
    decreases n
  {
    if m == n {
      RunOk(states, steps, m);
      TriesStored(states[m], i, p, t);
    } else {
      TriesTimer(states, steps, m, n - 1, i, p, t);
      TriesStep(states[n - 1], steps[n - 1], i, p, t);
    }
  }

  lemma TriesStored(s: State, i: nat, p: PatternId, t: TimerId)
    requires Ok(s) && i < |s.threads| && s.threads[i] == StopTry(p, t)
    ensures t < |s.timers|
  {
    assert PcOk(s, s.threads[i]);
  }

  lemma {:induction false} TriesStep(s: State, a: Step, i: nat, p: PatternId, t: TimerId)
    requires Ok(s) && Enabled(s, a) && i < |s.threads| && t < |s.timers| && (s.threads[i] == StopTry(p, t) || !Pends(s, t))
    ensures var s' := Next(s, a); i < |s'.threads| && t < |s'.timers| && (s'.threads[i] == StopTry(p, t) || !Pends(s', t))
  {
    StatusStep(s, a, t);
    ThreadsStep(s, a, i);
  }

  lemma {:induction false} ThreadsStep(s: State, a: Step, i: nat)
    requires Ok(s) && Enabled(s, a) && i < |s.threads|
    ensures i < |Next(s, a).threads| && (a != Go(i) ==> Next(s, a).threads[i] == s.threads[i])
  {
    if a.Go? {
      GoSizes(s, a.i);
    }
  }

  /** Step `b` is the one in which thread `i` reads the stored timer of `p`. */
  ghost predicate ReadsTimer(states: seq<State>, steps: seq<Step>, b: nat, i: nat, p: PatternId) {
    b < |steps| < |states| && steps[b] == Go(i) && i < |states[b].threads| && states[b].threads[i] == StopLoad(p)
  }

  /** The timer that is stored when `stop` reads it is not pending when `stop` has gone on. */
  lemma {:induction false} StoredIsStopped(states: seq<State>, steps: seq<Step>, b: nat, n: nat, i: nat, p: PatternId, t: TimerId)
    requires Run(states, steps) && b < n < |states| && ReadsTimer(states, steps, b, i, p)
    requires p < |states[b].ptimer| && states[b].ptimer[p] == Some(t)
    ensures i < |states[n].threads| && (states[n].threads[i] == StopTry(p, t) || !Pends(states[n], t))
  {
    RunOk(states, steps, b);
    TriesTimer(states, steps, b + 1, n, i, p, t);
  }

  // ----- `stop` reads every pattern

  /** Where a call of `stop` is. */
  predicate InStop(pc: Pc) {
    match pc
    case StopSet => true
    case StopLoad(_) => true
    case StopTry(_, _) => true
    case LogSwap(q, next) => next == Some(q + 1)
    case LogCall(q, _, next) => next == Some(q + 1)
    case Finished => true
    case _ => false
  }

  /** How many patterns it has read, of `n`. */
  function ReadUpTo(pc: Pc, n: nat): nat {
    match pc
    case StopSet => 0
    case StopLoad(q) => q
    case StopTry(q, _) => q + 1
    case LogSwap(q, _) => q + 1
    case LogCall(q, _, _) => q + 1
    case _ => n
  }

  lemma {:induction false} StopStep(s: State, a: Step, i: nat)
    requires Ok(s) && Enabled(s, a) && i < |s.threads| && InStop(s.threads[i]) && (s.threads[i] != StopSet ==> s.stop)
    ensures var s', n := Next(s, a), |s.count|;
            && i < |s'.threads| && InStop(s'.threads[i]) && |s'.count| == n && (s'.threads[i] != StopSet ==> s'.stop)
            && ReadUpTo(s'.threads[i], n) <= ReadUpTo(s.threads[i], n) + if a == Go(i) && s.threads[i].StopLoad? then 1 else 0
  {
    ThreadsStep(s, a, i);
    if a.Go? {
      GoSizes(s, a.i);
    }
  }

  /** Thread `i` has read the timer of `p` since step `m`, with the stop flag up. */
  ghost predicate HasRead(states: seq<State>, steps: seq<Step>, m: nat, n: nat, i: nat, p: PatternId) {
    exists b :: m <= b < n && ReadsTimer(states, steps, b, i, p) && states[b].stop
  }

  /** A call of `stop` reads the stored timer of every pattern, with the flag up. */
  lemma {:induction false} StopReadsAll(states: seq<State>, steps: seq<Step>, m: nat, n: nat, i: nat)
    requires Run(states, steps) && m <= n < |states| && i < |states[m].threads| && states[m].threads[i] == StopSet
    ensures i < |states[n].threads| && InStop(states[n].threads[i]) && (states[n].threads[i] != StopSet ==> states[n].stop)
    ensures forall p :: 0 <= p < ReadUpTo(states[n].threads[i], |states[n].count|) ==> HasRead(states, steps, m, n, i, p)
    decreases n
  {
    if m < n {
      var s, a := states[n - 1], steps[n - 1];
      StopReadsAll(states, steps, m, n - 1, i);
      StopStep(s, a, i);
      forall p | 0 <= p < ReadUpTo(states[n].threads[i], |states[n].count|)
        ensures HasRead(states, steps, m, n, i, p)
      {
        if p < ReadUpTo(s.threads[i], |s.count|) {
          ReadLater(states, steps, m, n - 1, i, p);
        } else {
          ReadNow(states, steps, m, n - 1, i, p);
        }
      }
    }
  }

  lemma {:induction false} ReadLater(states: seq<State>, steps: seq<Step>, m: nat, n: nat, i: nat, p: PatternId)
    requires HasRead(states, steps, m, n, i, p)
    ensures HasRead(states, steps, m, n + 1, i, p)
  {
    var b :| m <= b < n && ReadsTimer(states, steps, b, i, p) && states[b].stop;
    assert b < n + 1;
  }

  lemma {:induction false} ReadNow(states: seq<State>, steps: seq<Step>, m: nat, n: nat, i: nat, p: PatternId)
    requires m <= n && ReadsTimer(states, steps, n, i, p) && states[n].stop
    ensures HasRead(states, steps, m, n + 1, i, p)
  {
  }

  // ----- which timers are left

  /** A thread of `inc` that started the timer `t` is not done with it. */
  predicate Minds(pc: Pc, t: TimerId) {
    (pc.IncSet? || pc.IncCheck? || pc.IncTry?) && pc.t == t
  }

  ghost predicate Minded(s: State, t: TimerId) {
    exists j :: 0 <= j < |s.threads| && Minds(s.threads[j], t)
  }

  /** A thread of `stop` has read `t` and is about to stop it. */
  ghost predicate Tried(s: State, t: TimerId) {
    exists j :: 0 <= j < |s.threads| && s.threads[j].StopTry? && s.threads[j].t == t
  }

  /** A pending timer of `p` that is not the one stored, and that no thread is going to stop. */
  ghost predicate Overlooked(s: State, p: PatternId, t: TimerId) {
    Pends(s, t) && s.timers[t].p == p && !(p < |s.ptimer| && s.ptimer[p] == Some(t)) && !Minded(s, t) && !Tried(s, t)
  }

  /** With the flag up, a timer that is minded is stopped in the end: it is pending only while it is minded. */
  lemma {:induction false} MindedStep(s: State, a: Step, t: TimerId)
    requires Ok(s) && Enabled(s, a) && s.stop
    ensures Pends(Next(s, a), t) ==> Minded(Next(s, a), t) || (Pends(s, t) && !Minded(s, t))
  {
    var s' := Next(s, a);
    if Pends(s', t) {
      if t < |s.timers| {
        StatusStep(s, a, t);
        if j :| 0 <= j < |s.threads| && Minds(s.threads[j], t) {
          ThreadsStep(s, a, j);
          assert Minds(s'.threads[j], t);
        }
      } else {
        assert a.Go? && s.threads[a.i].IncCreate?;
        assert Minds(s'.threads[a.i], t);
      }
    }
  }

  lemma {:induction false} MindedEnds(states: seq<State>, steps: seq<Step>, b: nat, n: nat, t: TimerId)
    requires Run(states, steps) && b <= n < |states| && states[b].stop
    ensures states[n].stop && (Pends(states[n], t) ==> Minded(states[n], t) || (Pends(states[b], t) && !Minded(states[b], t)))
    decreases n
  {
    if b < n {
      MindedEnds(states, steps, b, n - 1, t);
      MindedStep(states[n - 1], steps[n - 1], t);
    }
  }

  lemma {:induction false} OverlookedStep(s: State, a: Step, p: PatternId, t: TimerId)
    requires Ok(s) && Enabled(s, a) && Overlooked(s, p, t) && a != Fire(t)
    ensures Overlooked(Next(s, a), p, t)
  {
    var s' := Next(s, a);
    StatusStep(s, a, t);
    if a.Go? {
      assert !Minds(s.threads[a.i], t) && !(s.threads[a.i].StopTry? && s.threads[a.i].t == t);
      GoSizes(s, a.i);
      OverlookedGo(s, a.i, p, t);
    }
    forall j | 0 <= j < |s'.threads|
      ensures !Minds(s'.threads[j], t) && !(s'.threads[j].StopTry? && s'.threads[j].t == t)
    {
      if j < |s.threads| && s'.threads[j] == s.threads[j] {
        assert !Minds(s.threads[j], t);
      }
    }
  }

  lemma {:induction false} OverlookedGo(s: State, i: nat, p: PatternId, t: TimerId)
    requires Ok(s) && CanGo(s, i) && Pends(s, t) && s.timers[t].p == p && !(p < |s.ptimer| && s.ptimer[p] == Some(t))
    requires !Minds(s.threads[i], t) && !(s.threads[i].StopTry? && s.threads[i].t == t)
    ensures var s' := Proceed(s, i);
            && i < |s'.threads| && !(p < |s'.ptimer| && s'.ptimer[p] == Some(t))
            && !Minds(s'.threads[i], t) && !(s'.threads[i].StopTry? && s'.threads[i].t == t)
  {
  }

  lemma {:induction false} OverlookedStays(states: seq<State>, steps: seq<Step>, b: nat, n: nat, p: PatternId, t: TimerId)
    requires Run(states, steps) && b <= n < |states| && Overlooked(states[b], p, t) && forall x :: b <= x < n ==> steps[x] != Fire(t)
    ensures Overlooked(states[n], p, t)
    decreases n
  {
    if b < n {
      OverlookedStays(states, steps, b, n - 1, p, t);
      OverlookedStep(states[n - 1], steps[n - 1], p, t);
    }
  }

  /** A timer that is pending was pending since it was there, has not fired, and keeps its pattern. */
  lemma {:induction false} PendedBefore(states: seq<State>, steps: seq<Step>, b: nat, n: nat, t: TimerId)
    requires Run(states, steps) && b <= n < |states| && t < |states[b].timers| && Pends(states[n], t)
    ensures Pends(states[b], t) && states[b].timers[t].p == states[n].timers[t].p && forall x :: b <= x < n ==> steps[x] != Fire(t)
    decreases n
  {
    if b < n {
      TimersGrow(states, steps, b, n - 1);
      StatusStep(states[n - 1], steps[n - 1], t);
      PendedBefore(states, steps, b, n - 1, t);
    }
  }

  lemma {:induction false} TimersGrow(states: seq<State>, steps: seq<Step>, b: nat, n: nat)
    requires Run(states, steps) && b <= n < |states|
    ensures |states[b].timers| <= |states[n].timers|
    decreases n
  {
    if b < n {
      TimersGrow(states, steps, b, n - 1);
    }
  }

  ghost predicate AllFinished(s: State) {
    forall j :: 0 <= j < |s.threads| ==> s.threads[j] == Finished
  }

  /** When a call of `stop` has read the timer of `p` at step `b` and all threads have finished, a timer of
      `p` is still pending exactly when it was overlooked at that step and has not fired since. */
  lemma {:induction false} LeftPendingExactly(states: seq<State>, steps: seq<Step>, m: nat, b: nat, n: nat, i: nat, p: PatternId, t: TimerId)
    requires Run(states, steps) && m <= b < n < |states| && i < |states[m].threads| && states[m].threads[i] == StopSet
    requires ReadsTimer(states, steps, b, i, p) && AllFinished(states[n])
    ensures Pends(states[n], t) && states[n].timers[t].p == p <==> Overlooked(states[b], p, t) && forall x :: b <= x < n ==> steps[x] != Fire(t)
  {
    StopReadsAll(states, steps, m, b, i);
    if Pends(states[n], t) && states[n].timers[t].p == p {
      MindedEnds(states, steps, b, n, t);
      PendedBefore(states, steps, b, n, t);
      if p < |states[b].ptimer| && states[b].ptimer[p] == Some(t) {
        StoredIsStopped(states, steps, b, n, i, p, t);
      }
      if j :| 0 <= j < |states[b].threads| && states[b].threads[j].StopTry? && states[b].threads[j].t == t {
        TriesTimer(states, steps, b, n, j, states[b].threads[j].p, t);
      }
    }
    if Overlooked(states[b], p, t) && forall x :: b <= x < n ==> steps[x] != Fire(t) {
      OverlookedStays(states, steps, b, n, p, t);
    }
  }

  /** Nothing is overlooked when thread `i` reads the timers between the steps `m` and `n`. */
  ghost predicate SeesAll(states: seq<State>, steps: seq<Step>, m: nat, n: nat, i: nat)
    requires n < |states|
  {
    forall b, p, t :: m <= b < n && ReadsTimer(states, steps, b, i, p) ==> !Overlooked(states[b], p, t)
  }

  /** When a call of `stop` overlooks nothing, and all threads have finished, nothing is left to happen, and what
      was admitted has been logged. */
  lemma {:induction false} StopFlushes(states: seq<State>, steps: seq<Step>, m: nat, n: nat, i: nat)
    requires Run(states, steps) && m <= n < |states| && i < |states[m].threads| && states[m].threads[i] == StopSet
    requires AllFinished(states[n]) && SeesAll(states, steps, m, n, i)
    ensures Quiet(states[n])
  {
    RunOk(states, steps, n);
    StopReadsAll(states, steps, m, n, i);
    forall t | 0 <= t < |states[n].timers|
      ensures states[n].timers[t].status != Pending
    {
      var p := states[n].timers[t].p;
      assert HasRead(states, steps, m, n, i, p);
      var b :| m <= b < n && ReadsTimer(states, steps, b, i, p) && states[b].stop;
      LeftPendingExactly(states, steps, m, b, n, i, p, t);
    }
  }

  // ----- a timer that is overlooked

  /** A handler with one pattern and no counter that wrapped around. */
  function St(count: nat, ptimer: Option<TimerId>, stop: bool, timers: seq<Timer>, threads: seq<Pc>, counted: nat, logged: nat): State {
    State([count], [ptimer], stop, timers, threads, [counted], [logged], [0])
  }

  /** A run from the start to `s`. */
  ghost predicate RunTo(states: seq<State>, steps: seq<Step>, s: State) {
    Run(states, steps) && states[|steps|] == s
  }

  /** One step more. */
  lemma {:induction false} Then(states: seq<State>, steps: seq<Step>, s: State, a: Step, s': State) returns (states': seq<State>, steps': seq<Step>)
    requires RunTo(states, steps, s) && Ok(s) && Enabled(s, a) && s' == Next(s, a)
    ensures RunTo(states', steps', s') && states' == states + [s'] && steps' == steps + [a]
  {
    states', steps' := states + [s'], steps + [a];
  }

  /** Thread `i` goes on. */
  lemma {:induction false} Goes(states: seq<State>, steps: seq<Step>, s: State, i: nat, s': State) returns (states': seq<State>, steps': seq<Step>)
    requires RunTo(states, steps, s) && CanGo(s, i) && s' == Proceed(s, i)
    ensures RunTo(states', steps', s') && states' == states + [s'] && steps' == steps + [Go(i)]
  {
    RunOk(states, steps, |steps|);
    states', steps' := Then(states, steps, s, Go(i), s');
  }

  /** A call counts an error. */
  lemma {:induction false} CountsOne() returns (states: seq<State>, steps: seq<Step>)
    ensures RunTo(states, steps, St(1, None, false, [], [IncCreate(0)], 1, 0)) && |steps| == 3
  {
    var s := St(0, None, false, [], [], 0, 0);
    states, steps := [s], [];
    var s1 := St(0, None, false, [], [IncStart(0)], 0, 0);
    assert s.threads + [IncStart(0)] == s1.threads;
    states, steps := Then(states, steps, s, CallInc(0), s1);
    var s2 := St(0, None, false, [], [IncAdd(0)], 0, 0);
    assert s1.threads[0 := s2.threads[0]] == s2.threads;
    states, steps := Goes(states, steps, s1, 0, s2);
    var s3 := St(1, None, false, [], [IncCreate(0)], 1, 0);
    assert s2.threads[0 := s3.threads[0]] == s3.threads;
    states, steps := Goes(states, steps, s2, 0, s3);
  }

  /** It starts a timer, which fires before the thread has stored it. */
  lemma {:induction false} FiresEarly() returns (states: seq<State>, steps: seq<Step>)
    ensures RunTo(states, steps, St(1, None, false, [Timer(0, Fired)], [IncSet(0, 0), LogSwap(0, None)], 1, 0)) && |steps| == 5
  {
    states, steps := CountsOne();
    var s3 := St(1, None, false, [], [IncCreate(0)], 1, 0);
    var s4 := St(1, None, false, [Timer(0, Pending)], [IncSet(0, 0)], 1, 0);
    assert s3.threads[0 := s4.threads[0]] == s4.threads;
    states, steps := Goes(states, steps, s3, 0, s4);
    var s5 := St(1, None, false, [Timer(0, Fired)], [IncSet(0, 0), LogSwap(0, None)], 1, 0);
    assert s4.threads + [LogSwap(0, None)] == s5.threads && s4.timers[0 := Timer(0, Fired)] == s5.timers;
    states, steps := Then(states, steps, s4, Fire(0), s5);
  }

  /** What was counted is logged. */
  lemma {:induction false} LogsFirst() returns (states: seq<State>, steps: seq<Step>)
    ensures RunTo(states, steps, St(0, None, false, [Timer(0, Fired)], [IncSet(0, 0), Finished], 1, 1)) && |steps| == 7
  {
    states, steps := FiresEarly();
    var s := St(1, None, false, [Timer(0, Fired)], [IncSet(0, 0), LogSwap(0, None)], 1, 0);
    var s6 := St(0, None, false, [Timer(0, Fired)], [IncSet(0, 0), LogCall(0, 1, None)], 1, 0);
    assert s.threads[1 := s6.threads[1]] == s6.threads;
    states, steps := Goes(states, steps, s, 1, s6);
    var s7 := St(0, None, false, [Timer(0, Fired)], [IncSet(0, 0), Finished], 1, 1);
    assert s6.threads[1 := s7.threads[1]] == s7.threads;
    states, steps := Goes(states, steps, s6, 1, s7);
  }

  /** A second call counts another error. */
  lemma {:induction false} CountsAgain() returns (states: seq<State>, steps: seq<Step>)
    ensures RunTo(states, steps, St(1, None, false, [Timer(0, Fired)], [IncSet(0, 0), Finished, IncCreate(0)], 2, 1)) && |steps| == 10
  {
    states, steps := LogsFirst();
    var s7 := St(0, None, false, [Timer(0, Fired)], [IncSet(0, 0), Finished], 1, 1);
    var s8 := St(0, None, false, [Timer(0, Fired)], [IncSet(0, 0), Finished, IncStart(0)], 1, 1);
    assert s7.threads + [IncStart(0)] == s8.threads;
    states, steps := Then(states, steps, s7, CallInc(0), s8);
    var s9 := St(0, None, false, [Timer(0, Fired)], [IncSet(0, 0), Finished, IncAdd(0)], 1, 1);
    assert s8.threads[2 := s9.threads[2]] == s9.threads;
    states, steps := Goes(states, steps, s8, 2, s9);
    var s10 := St(1, None, false, [Timer(0, Fired)], [IncSet(0, 0), Finished, IncCreate(0)], 2, 1);
    assert s9.threads[2 := s10.threads[2]] == s10.threads;
    states, steps := Goes(states, steps, s9, 2, s10);
  }

  /** It starts a timer, stores it and finishes. */
  lemma {:induction false} StoresNew() returns (states: seq<State>, steps: seq<Step>)
    ensures RunTo(states, steps, St(1, Some(1), false, [Timer(0, Fired), Timer(0, Pending)], [IncSet(0, 0), Finished, Finished], 2, 1)) && |steps| == 13
  {
    states, steps := CountsAgain();
    var s := St(1, None, false, [Timer(0, Fired)], [IncSet(0, 0), Finished, IncCreate(0)], 2, 1);
    var s11 := St(1, None, false, [Timer(0, Fired), Timer(0, Pending)], [IncSet(0, 0), Finished, IncSet(0, 1)], 2, 1);
    assert s.threads[2 := s11.threads[2]] == s11.threads;
    states, steps := Goes(states, steps, s, 2, s11);
    var s12 := St(1, Some(1), false, [Timer(0, Fired), Timer(0, Pending)], [IncSet(0, 0), Finished, IncCheck(0, 1)], 2, 1);
    assert s11.threads[2 := s12.threads[2]] == s12.threads;
    states, steps := Goes(states, steps, s11, 2, s12);
    var s13 := St(1, Some(1), false, [Timer(0, Fired), Timer(0, Pending)], [IncSet(0, 0), Finished, Finished], 2, 1);
    assert s12.threads[2 := s13.threads[2]] == s13.threads;
    states, steps := Goes(states, steps, s12, 2, s13);
  }

  /** The first thread stores the old timer over it; then `stop` is called. */
  lemma {:induction false} StoresOld() returns (states: seq<State>, steps: seq<Step>)
    ensures RunTo(states, steps, St(1, Some(0), false, [Timer(0, Fired), Timer(0, Pending)], [Finished, Finished, Finished, StopSet], 2, 1)) && |steps| == 16
  {
    states, steps := StoresNew();
    var s := St(1, Some(1), false, [Timer(0, Fired), Timer(0, Pending)], [IncSet(0, 0), Finished, Finished], 2, 1);
    var s14 := St(1, Some(0), false, [Timer(0, Fired), Timer(0, Pending)], [IncCheck(0, 0), Finished, Finished], 2, 1);
    assert s.threads[0 := s14.threads[0]] == s14.threads;
    states, steps := Goes(states, steps, s, 0, s14);
    var s15 := St(1, Some(0), false, [Timer(0, Fired), Timer(0, Pending)], [Finished, Finished, Finished], 2, 1);
    assert s14.threads[0 := s15.threads[0]] == s15.threads;
    states, steps := Goes(states, steps, s14, 0, s15);
    var s16 := St(1, Some(0), false, [Timer(0, Fired), Timer(0, Pending)], [Finished, Finished, Finished, StopSet], 2, 1);
    assert s15.threads + [StopSet] == s16.threads;
    states, steps := Then(states, steps, s15, CallStop, s16);
  }

  /** There is a run in which a call of `stop` has finished, like all threads, and a timer is still pending:
      one timer fired before its thread had stored it, a second call started and stored another, and
      then the first thread stored the old one over it. */
  lemma {:induction false} StopOverlooks() returns (states: seq<State>, steps: seq<Step>)
    ensures Run(states, steps) && |steps| == 19 && ReadsTimer(states, steps, 17, 3, 0)
    ensures AllFinished(states[19]) && states[19].stop && Pends(states[19], 1) && states[19].count == [1]
  {
    states, steps := StoresOld();
    var s := St(1, Some(0), false, [Timer(0, Fired), Timer(0, Pending)], [Finished, Finished, Finished, StopSet], 2, 1);
    var s17 := St(1, Some(0), true, [Timer(0, Fired), Timer(0, Pending)], [Finished, Finished, Finished, StopLoad(0)], 2, 1);
    assert s.threads[3 := s17.threads[3]] == s17.threads;
    states, steps := Goes(states, steps, s, 3, s17);
    var s18 := St(1, Some(0), true, [Timer(0, Fired), Timer(0, Pending)], [Finished, Finished, Finished, StopTry(0, 0)], 2, 1);
    assert s17.threads[3 := s18.threads[3]] == s18.threads;
    states, steps := Goes(states, steps, s17, 3, s18);
    var s19 := St(1, Some(0), true, [Timer(0, Fired), Timer(0, Pending)], [Finished, Finished, Finished, Finished], 2, 1);
    assert s18.threads[3 := s19.threads[3]] == s19.threads;
    states, steps := Goes(states, steps, s18, 3, s19);
  }
}
