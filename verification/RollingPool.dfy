/** The rolling tool pool of the executor, as a protocol.

    The launching goroutine walks the calls in model order.  An eligible call waits for
    a free slot and runs on its own goroutine; any other call waits until the pool is
    idle and runs inline.  A step is one critical section, one wait-group operation or
    one action of a running call; waiting on the condition variable is a state of its
    own that only a broadcast ends, so a lost wake-up would show as a deadlock.

    Which calls are eligible is decided when the walk reaches them, by anybody. */
module RollingPool {
  import opened Options

  /** What a call leaves in its slot: a result, or the text of a recovered panic. */
  datatype Outcome = Result(value: int) | Panicked(reason: int)

  datatype Phase = Executing | Reporting | Settled

  /** One call.  Uncounted is a pooled call that gave its slot back and has not yet told
      the wait group. */
  datatype Call = Idle | Running(pooled: bool, phase: Phase) | Uncounted | Gone

  /** The launching goroutine, at call i. */
  datatype Main =
    | Top(i: nat)
    | AtGate(i: nat)
    | AsleepAtGate(i: nat)
    | Admitted(i: nat)
    | Registered(i: nat)
    | Counted(i: nat)
    | AtBarrier(i: nat)
    | AsleepAtBarrier(i: nat)
    | Inline(i: nat)
    | Joining
    | Returned

  datatype State = State(
    limit: int,
    main: Main,
    calls: seq<Call>,
    inFlight: int,
    wg: int,
    results: seq<Option<Outcome>>)

  datatype Step =
    | Choose(eligible: bool)
    | Gate
    | AddToWaitGroup
    | CountIn
    | Spawn
    | Barrier
    | InlineReturns
    | EndOfCalls
    | Join
    | Execute(c: nat, value: int)
    | Panic(c: nat, reason: int)
    | Report(c: nat)
    | GiveBack(c: nat)
    | SignOff(c: nat)

  ghost predicate Init(s: State, concurrency: int) {
    && s.limit == (if concurrency <= 0 then |s.calls| else concurrency)
    && s.main == Top(0) && s.inFlight == 0 && s.wg == 0
    && |s.results| == |s.calls|
    && forall c :: 0 <= c < |s.calls| ==> s.calls[c] == Idle && s.results[c] == None
  }

  predicate Enabled(s: State, step: Step) {
    && |s.results| == |s.calls|
    && match step
       case Choose(_) => s.main.Top? && s.main.i < |s.calls|
       case Gate => s.main.AtGate?
       case AddToWaitGroup => s.main.Admitted?
       case CountIn => s.main.Registered?
       case Spawn => s.main.Counted? && s.main.i < |s.calls|
       case Barrier => s.main.AtBarrier? && s.main.i < |s.calls|
       case InlineReturns => s.main.Inline? && s.main.i < |s.calls| && s.calls[s.main.i] == Running(false, Settled)
       case EndOfCalls => s.main.Top? && s.main.i >= |s.calls|
       case Join => s.main.Joining? && s.wg == 0
       case Execute(c, _) => c < |s.calls| && s.calls[c].Running? && s.calls[c].phase.Executing?
       case Panic(c, _) => c < |s.calls| && s.calls[c].Running? && !s.calls[c].phase.Settled?
       case Report(c) => c < |s.calls| && s.calls[c].Running? && s.calls[c].phase.Reporting?
       case GiveBack(c) => c < |s.calls| && s.calls[c] == Running(true, Settled)
       case SignOff(c) => c < |s.calls| && s.calls[c].Uncounted?
  }

  function Next(s: State, step: Step): State
    requires Enabled(s, step)
  {
    match step
    case Choose(eligible) => s.(main := if eligible then AtGate(s.main.i) else AtBarrier(s.main.i))
    case Gate => s.(main := if s.inFlight >= s.limit then AsleepAtGate(s.main.i) else Admitted(s.main.i))
    case AddToWaitGroup => s.(main := Registered(s.main.i), wg := s.wg + 1)
    case CountIn => s.(main := Counted(s.main.i), inFlight := s.inFlight + 1)
    case Spawn => s.(main := Top(s.main.i + 1), calls := s.calls[s.main.i := Running(true, Executing)])
    case Barrier =>
      if s.inFlight > 0 then s.(main := AsleepAtBarrier(s.main.i))
      else s.(main := Inline(s.main.i), calls := s.calls[s.main.i := Running(false, Executing)])
    case InlineReturns => s.(main := Top(s.main.i + 1), calls := s.calls[s.main.i := Gone])
    case EndOfCalls => s.(main := Joining)
    case Join => s.(main := Returned)
    case Execute(c, v) => Write(s, c, Result(v), Reporting)
    case Panic(c, v) => Write(s, c, Panicked(v), Settled)
    case Report(c) => s.(calls := s.calls[c := s.calls[c].(phase := Settled)])
    case GiveBack(c) =>
      s.(calls := s.calls[c := Uncounted], inFlight := s.inFlight - 1, main := Awoken(s.main))
    case SignOff(c) => s.(calls := s.calls[c := Gone], wg := s.wg - 1)
  }

  function Write(s: State, c: nat, o: Outcome, phase: Phase): State
    requires c < |s.calls| == |s.results| && s.calls[c].Running?
  {
    s.(calls := s.calls[c := s.calls[c].(phase := phase)], results := s.results[c := Some(o)])
  }

  /** The effect of a broadcast. */
  function Awoken(m: Main): Main {
    match m
    case AsleepAtGate(i) => AtGate(i)
    case AsleepAtBarrier(i) => AtBarrier(i)
    case _ => m
  }

  /** The i-th step of the trace is taken. */
  ghost predicate StepAt(trace: seq<State>, steps: seq<Step>, i: nat)
    requires i < |steps| < |trace|
  {
    Enabled(trace[i], steps[i]) && trace[i + 1] == Next(trace[i], steps[i])
  }

  ghost predicate IsPath(trace: seq<State>, steps: seq<Step>) {
    && |trace| == |steps| + 1
    && forall i :: 0 <= i < |steps| ==> StepAt(trace, steps, i)
  }

  ghost predicate IsRun(trace: seq<State>, steps: seq<Step>, concurrency: int) {
    IsPath(trace, steps) && Init(trace[0], concurrency)
  }

  // ---------------------------------------------------------------- what every state keeps

  /** Sum of a weight over all calls. */
  function Total(calls: seq<Call>, weight: Call -> nat): nat {
    if calls == [] then 0 else weight(calls[0]) + Total(calls[1..], weight)
  }

  lemma {:induction false} TotalOfUpdate(calls: seq<Call>, weight: Call -> nat, c: nat, call: Call)
    requires c < |calls|
    ensures Total(calls[c := call], weight) == Total(calls, weight) - weight(calls[c]) + weight(call)
  {
    if c == 0 {
      assert calls[c := call][1..] == calls[1..];
    } else {
      TotalOfUpdate(calls[1..], weight, c - 1, call);
      assert calls[c := call][1..] == calls[1..][c - 1 := call];
    }
  }

  lemma {:induction false} TotalAtLeast(calls: seq<Call>, weight: Call -> nat, c: nat)
    requires c < |calls|
    ensures weight(calls[c]) <= Total(calls, weight)
  {
    if c > 0 {
      TotalAtLeast(calls[1..], weight, c - 1);
    }
  }

  lemma {:induction false} TotalOfZeros(calls: seq<Call>, weight: Call -> nat)
    requires forall c :: 0 <= c < |calls| ==> weight(calls[c]) == 0
    ensures Total(calls, weight) == 0
  {
    if calls != [] {
      assert weight(calls[0]) == 0;
      assert forall c :: 0 <= c < |calls[1..]| ==> calls[1..][c] == calls[c + 1];
      TotalOfZeros(calls[1..], weight);
    }
  }

  function InPool(c: Call): nat {
    if c.Running? && c.pooled then 1 else 0
  }

  function InWaitGroup(c: Call): nat {
    if (c.Running? && c.pooled) || c.Uncounted? then 1 else 0
  }

  /** The counters count what they are meant to count. */
  ghost predicate Counts(s: State) {
    && s.inFlight == Total(s.calls, InPool) + (if s.main.Counted? then 1 else 0)
    && s.wg == Total(s.calls, InWaitGroup) + (if s.main.Registered? || s.main.Counted? then 1 else 0)
  }

  /** The pool is never overfull, and nobody sleeps without cause. */
  ghost predicate Gated(s: State) {
    && s.inFlight <= s.limit
    && (s.main.Admitted? || s.main.Registered? ==> s.inFlight < s.limit)
    && (s.main.AsleepAtGate? ==> s.inFlight >= s.limit)
    && (s.main.AsleepAtBarrier? ==> s.inFlight > 0)
    && (s.main.Inline? ==> s.inFlight == 0)
    && 0 <= s.limit && (s.calls != [] ==> 1 <= s.limit)
  }

  /** The call the walk has reached. */
  function Position(s: State): nat {
    if s.main.Joining? || s.main.Returned? then |s.calls| else s.main.i
  }

  /** Calls before the position are started, the rest are not; only the call at the
      position can run inline. */
  ghost predicate InOrder(s: State) {
    && |s.results| == |s.calls| && Position(s) <= |s.calls|
    && (!s.main.Top? && !s.main.Joining? && !s.main.Returned? ==> s.main.i < |s.calls|)
    && (forall c :: 0 <= c < |s.calls| ==>
         (s.calls[c] == Idle <==> c > Position(s) || (c == Position(s) && !s.main.Inline?)))
    && (forall c :: 0 <= c < |s.calls| && s.calls[c].Running? && !s.calls[c].pooled ==> s.main == Inline(c))
    && (s.main.Inline? ==> s.calls[s.main.i].Running? && !s.calls[s.main.i].pooled)
    && (s.main.Returned? ==> s.wg == 0)
  }

  /** A slot is filled from the moment its call has produced something. */
  ghost predicate SlotsFill(s: State) {
    && |s.results| == |s.calls|
    && (forall c :: 0 <= c < |s.calls| ==>
         (s.results[c] == None <==> s.calls[c].Idle? || (s.calls[c].Running? && s.calls[c].phase.Executing?)))
  }

  /** The call that a step moves on, if any. */
  function Moved(s: State, step: Step): Option<nat>
    requires Enabled(s, step)
  {
    match step
    case Spawn => Some(s.main.i)
    case Barrier => if s.inFlight > 0 then None else Some(s.main.i)
    case InlineReturns => Some(s.main.i)
    case Execute(c, _) => Some(c)
    case Panic(c, _) => Some(c)
    case Report(c) => Some(c)
    case GiveBack(c) => Some(c)
    case SignOff(c) => Some(c)
    case _ => None
  }

  lemma MovesOneCall(s: State, step: Step)
    requires Enabled(s, step)
    ensures var t := Next(s, step);
      match Moved(s, step)
      case None => t.calls == s.calls
      case Some(c) => c < |s.calls| == |t.calls| && t.calls == s.calls[c := t.calls[c]]
  {
  }

  /** How a step changes the sum of any weight. */
  lemma StepTotal(s: State, step: Step, weight: Call -> nat)
    requires Enabled(s, step)
    ensures var t := Next(s, step);
      match Moved(s, step)
      case None => Total(t.calls, weight) == Total(s.calls, weight)
      case Some(c) =>
        c < |s.calls| == |t.calls|
        && Total(t.calls, weight) == Total(s.calls, weight) - weight(s.calls[c]) + weight(t.calls[c])
  {
    MovesOneCall(s, step);
    var t := Next(s, step);
    hide Next, Total;
    match Moved(s, step)
    case None =>
    case Some(c) => TotalOfUpdate(s.calls, weight, c, t.calls[c]);
  }

  lemma {:induction false} StepCounts(s: State, step: Step)
    requires Counts(s) && InOrder(s) && Enabled(s, step)
    ensures Counts(Next(s, step))
  {
    StepTotal(s, step, InPool);
    StepTotal(s, step, InWaitGroup);
    StartsIdleCalls(s, step);
    hide Total, InOrder;
  }

  lemma StartsIdleCalls(s: State, step: Step)
    requires InOrder(s) && Enabled(s, step)
    ensures step.Spawn? || step.Barrier? ==> s.calls[s.main.i] == Idle
  {
  }

  lemma {:induction false} StepGated(s: State, step: Step)
    requires Counts(s) && Gated(s) && InOrder(s) && Enabled(s, step)
    ensures Gated(Next(s, step))
  {
    if step.GiveBack? {
      TotalAtLeast(s.calls, InPool, step.c);
    }
  }

  lemma {:induction false} StepInOrder(s: State, step: Step)
    requires InOrder(s) && Counts(s) && Enabled(s, step)
    ensures InOrder(Next(s, step))
  {
    match step {
      case Execute(c, v) => CallMovesOn(s, Next(s, step), c);
      case Panic(c, v) => CallMovesOn(s, Next(s, step), c);
      case Report(c) => CallMovesOn(s, Next(s, step), c);
      case GiveBack(c) => CallMovesOn(s, Next(s, step), c);
      case SignOff(c) =>
        TotalAtLeast(s.calls, InWaitGroup, c);
        CallMovesOn(s, Next(s, step), c);
      case Spawn => MainStartsCall(s, step);
      case Barrier => MainStartsCall(s, step);
      case InlineReturns => MainStartsCall(s, step);
      case _ => MainMovesOn(s, step);
    }
  }

  /** A started call moves on while the walk stays where it is. */
  lemma CallMovesOn(s: State, t: State, c: nat)
    requires InOrder(s) && c < |s.calls| && s.calls[c] != Idle && |t.results| == |t.calls| && |t.calls| == |s.calls|
    requires t.main == s.main || t.main == Awoken(s.main)
    requires t.calls == s.calls[c := t.calls[c]] && t.calls[c] != Idle
    requires t.calls[c].Running? ==> s.calls[c].Running? && t.calls[c].pooled == s.calls[c].pooled
    requires s.main == Inline(c) ==> t.calls[c].Running?
    requires s.main.Returned? ==> t.wg == 0
    ensures InOrder(t)
  {
    assert Position(t) == Position(s) && (t.main.Inline? <==> s.main.Inline?);
    assert t.main.Inline? ==> t.main == s.main;
  }

  lemma MainStartsCall(s: State, step: Step)
    requires InOrder(s) && Enabled(s, step) && (step.Spawn? || step.Barrier? || step.InlineReturns?)
    ensures InOrder(Next(s, step))
  {
  }

  lemma MainMovesOn(s: State, step: Step)
    requires InOrder(s) && Enabled(s, step)
    requires step.Choose? || step.Gate? || step.AddToWaitGroup? || step.CountIn? || step.EndOfCalls? || step.Join?
    ensures InOrder(Next(s, step))
  {
  }

  lemma {:induction false} StepSlots(s: State, step: Step)
    requires SlotsFill(s) && InOrder(s) && Enabled(s, step)
    ensures SlotsFill(Next(s, step))
  {
  }

  ghost predicate Inv(s: State) {
    Counts(s) && Gated(s) && InOrder(s) && SlotsFill(s)
  }

  lemma {:induction false} InitHolds(s: State, concurrency: int)
    requires Init(s, concurrency)
    ensures Inv(s)
  {
    TotalOfZeros(s.calls, InPool);
    TotalOfZeros(s.calls, InWaitGroup);
  }

  lemma {:induction false} RunKeeps(trace: seq<State>, steps: seq<Step>, concurrency: int, i: nat)
    requires IsRun(trace, steps, concurrency) && i < |trace|
    ensures Inv(trace[i])
  {
    if i == 0 {
      InitHolds(trace[0], concurrency);
    } else {
      hide Counts, Gated, InOrder, SlotsFill, Enabled, Next;
      RunKeeps(trace, steps, concurrency, i - 1);
      assert StepAt(trace, steps, i - 1);
      var s, step := trace[i - 1], steps[i - 1];
      StepCounts(s, step);
      StepGated(s, step);
      StepInOrder(s, step);
      StepSlots(s, step);
    }
  }

  // ---------------------------------------------------------------- the promises

  /** At no moment are more pooled calls running than the limit allows. */
  lemma {:induction false} PoolWithinLimit(trace: seq<State>, steps: seq<Step>, concurrency: int, i: nat)
    requires IsRun(trace, steps, concurrency) && i < |trace|
    ensures Total(trace[i].calls, InPool) <= if concurrency <= 0 then |trace[i].calls| else concurrency
  {
    RunKeeps(trace, steps, concurrency, i);
    LimitIsFixed(trace, steps, i);
  }

  lemma {:induction false} LimitIsFixed(trace: seq<State>, steps: seq<Step>, i: nat)
    requires IsPath(trace, steps) && i < |trace|
    ensures trace[i].limit == trace[0].limit && |trace[i].calls| == |trace[0].calls|
  {
    if i > 0 {
      LimitIsFixed(trace, steps, i - 1);
      assert StepAt(trace, steps, i - 1);
    }
  }

  /** The walk waits for a slot only while the pool is full, and for an idle pool only while
      some pooled call runs. */
  lemma {:induction false} WaitsOnlyWithCause(trace: seq<State>, steps: seq<Step>, concurrency: int, i: nat)
    requires IsRun(trace, steps, concurrency) && i < |trace|
    ensures trace[i].main.AsleepAtGate? ==>
      Total(trace[i].calls, InPool) == if concurrency <= 0 then |trace[i].calls| else concurrency
    ensures trace[i].main.AsleepAtBarrier? ==> Total(trace[i].calls, InPool) > 0
  {
    RunKeeps(trace, steps, concurrency, i);
    LimitIsFixed(trace, steps, i);
  }

  /** The answer e of the eligibility test for call c is kept: until c starts, the walk is on
      the way that e asks for, and c runs that way. */
  ghost predicate Committed(s: State, c: nat, e: bool) {
    && c < |s.calls|
    && (s.calls[c].Running? ==> s.calls[c].pooled == e)
    && (if s.main.Top? || s.main.Joining? || s.main.Returned? then c < Position(s)
        else if s.main.i == c then (e <==> !s.main.AtBarrier? && !s.main.AsleepAtBarrier? && !s.main.Inline?)
        else c < s.main.i)
  }

  lemma StepKeepsAnswer(s: State, step: Step, c: nat, e: bool)
    requires InOrder(s) && Committed(s, c, e) && Enabled(s, step)
    ensures Committed(Next(s, step), c, e)
  {
  }

  lemma {:induction false} AnswerIsKept(trace: seq<State>, steps: seq<Step>, concurrency: int, k: nat, i: nat,
      c: nat, e: bool)
    requires IsRun(trace, steps, concurrency) && k < i < |trace| && steps[k] == Choose(e) && trace[k].main == Top(c)
    ensures Committed(trace[i], c, e)
    decreases i
  {
    RunKeeps(trace, steps, concurrency, i - 1);
    assert StepAt(trace, steps, i - 1);
    if k < i - 1 {
      AnswerIsKept(trace, steps, concurrency, k, i - 1, c, e);
      hide Enabled, Next, Committed, InOrder, IsRun;
      StepKeepsAnswer(trace[i - 1], steps[i - 1], c, e);
    }
  }

  /** A call found eligible runs on its own goroutine, and any other call inline. */
  lemma {:induction false} RunsAsChosen(trace: seq<State>, steps: seq<Step>, concurrency: int, k: nat, i: nat,
      c: nat, e: bool)
    requires IsRun(trace, steps, concurrency) && k < i < |trace| && steps[k] == Choose(e) && trace[k].main == Top(c)
    ensures c < |trace[i].calls| && (trace[i].calls[c].Running? ==> trace[i].calls[c].pooled == e)
  {
    AnswerIsKept(trace, steps, concurrency, k, i, c, e);
  }

  /** While a call runs inline no other call runs; so a call that was not found eligible
      runs alone. */
  lemma {:induction false} BarrierRunsAlone(trace: seq<State>, steps: seq<Step>, concurrency: int, i: nat, c: nat, d: nat)
    requires IsRun(trace, steps, concurrency) && i < |trace|
    requires c < |trace[i].calls| && d < |trace[i].calls| && trace[i].calls[c].Running? && trace[i].calls[d].Running?
    requires !trace[i].calls[c].pooled || exists k :: 0 <= k < i && steps[k] == Choose(false) && trace[k].main == Top(c)
    ensures c == d
  {
    if trace[i].calls[c].pooled {
      var k :| 0 <= k < i && steps[k] == Choose(false) && trace[k].main == Top(c);
      RunsAsChosen(trace, steps, concurrency, k, i, c, false);
    } else {
      RunKeeps(trace, steps, concurrency, i);
      TotalAtLeast(trace[i].calls, InPool, d);
    }
  }

  /** Calls start strictly in model order. */
  lemma {:induction false} StartsInModelOrder(trace: seq<State>, steps: seq<Step>, concurrency: int, i: nat, c: nat, d: nat)
    requires IsRun(trace, steps, concurrency) && i < |trace|
    requires c < d < |trace[i].calls| && trace[i].calls[d] != Idle
    ensures trace[i].calls[c] != Idle
  {
    RunKeeps(trace, steps, concurrency, i);
  }

  /** What call c produced last in the first n steps: the result it came to, or its panic. */
  function Produced(steps: seq<Step>, n: nat, c: nat): Option<Outcome>
    requires n <= |steps|
  {
    if n == 0 then None
    else match steps[n - 1]
      case Execute(d, value) => if d == c then Some(Result(value)) else Produced(steps, n - 1, c)
      case Panic(d, reason) => if d == c then Some(Panicked(reason)) else Produced(steps, n - 1, c)
      case _ => Produced(steps, n - 1, c)
  }

  lemma {:induction false} SlotsAreOwn(trace: seq<State>, steps: seq<Step>, i: nat, c: nat)
    requires IsPath(trace, steps) && i < |trace| && c < |trace[i].calls|
    requires |trace[0].results| == |trace[0].calls| && forall d :: 0 <= d < |trace[0].calls| ==> trace[0].results[d] == None
    ensures |trace[i].results| == |trace[i].calls| && trace[i].results[c] == Produced(steps, i, c)
  {
    if i > 0 {
      assert StepAt(trace, steps, i - 1);
      MovesOneCall(trace[i - 1], steps[i - 1]);
      SlotsAreOwn(trace, steps, i - 1, c);
    }
  }

  /** When the pool returns, every call is over and its slot holds its own outcome. */
  lemma {:induction false} ReturnsAllResults(trace: seq<State>, steps: seq<Step>, concurrency: int, i: nat, c: nat)
    requires IsRun(trace, steps, concurrency) && i < |trace| && trace[i].main.Returned?
    requires c < |trace[i].calls|
    ensures trace[i].calls[c] == Gone
    ensures c < |trace[i].results| && trace[i].results[c].Some? && trace[i].results[c] == Produced(steps, i, c)
  {
    RunKeeps(trace, steps, concurrency, i);
    TotalAtLeast(trace[i].calls, InWaitGroup, c);
    SlotsAreOwn(trace, steps, i, c);
  }

  /** No reachable state is stuck before the pool has returned. */
  lemma {:induction false} NoDeadlock(trace: seq<State>, steps: seq<Step>, concurrency: int, i: nat)
    requires IsRun(trace, steps, concurrency) && i < |trace| && !trace[i].main.Returned?
    ensures exists step: Step :: Enabled(trace[i], step)
  {
    RunKeeps(trace, steps, concurrency, i);
    var s := trace[i];
    match s.main {
      case Top(k) =>
        assert if k < |s.calls| then Enabled(s, Choose(true)) else Enabled(s, EndOfCalls);
      case AtGate(_) => assert Enabled(s, Gate);
      case Admitted(_) => assert Enabled(s, AddToWaitGroup);
      case Registered(_) => assert Enabled(s, CountIn);
      case Counted(_) => assert Enabled(s, Spawn);
      case AtBarrier(_) => assert Enabled(s, Barrier);
      case AsleepAtGate(_) => SomeCallMoves(s, InPool);
      case AsleepAtBarrier(_) => SomeCallMoves(s, InPool);
      case Inline(k) =>
        match s.calls[k].phase {
          case Executing => assert Enabled(s, Execute(k, 0));
          case Reporting => assert Enabled(s, Report(k));
          case Settled => assert Enabled(s, InlineReturns);
        }
      case Joining =>
        if s.wg == 0 {
          assert Enabled(s, Join);
        } else {
          SomeCallMoves(s, InWaitGroup);
        }
    }
  }

  lemma {:induction false} SomeCallMoves(s: State, weight: Call -> nat)
    requires |s.results| == |s.calls| && Total(s.calls, weight) > 0
    requires forall call: Call :: weight(call) > 0 ==> (call.Running? && call.pooled) || call.Uncounted?
    ensures exists step: Step :: Enabled(s, step)
  {
    if forall c :: 0 <= c < |s.calls| ==> weight(s.calls[c]) == 0 {
      TotalOfZeros(s.calls, weight);
    } else {
      var c :| 0 <= c < |s.calls| && weight(s.calls[c]) != 0;
      if s.calls[c].Uncounted? {
        assert Enabled(s, SignOff(c));
      } else {
        match s.calls[c].phase {
          case Executing => assert Enabled(s, Execute(c, 0));
          case Reporting => assert Enabled(s, Report(c));
          case Settled => assert Enabled(s, GiveBack(c));
        }
      }
    }
  }

  // ---------------------------------------------------------------- every run ends

  function Remaining(c: Call): nat {
    match c
    case Idle => 7
    case Running(_, Executing) => 6
    case Running(_, Reporting) => 5
    case Running(_, Settled) => 4
    case Uncounted => 1
    case Gone => 0
  }

  function MainWork(m: Main, n: nat): int {
    match m
    case Top(i) => 8 * (n - i) + 7
    case AtGate(i) => 8 * (n - i) + 6
    case AsleepAtGate(i) => 8 * (n - i) + 5
    case Admitted(i) => 8 * (n - i) + 4
    case Registered(i) => 8 * (n - i) + 3
    case Counted(i) => 8 * (n - i) + 2
    case AtBarrier(i) => 8 * (n - i) + 6
    case AsleepAtBarrier(i) => 8 * (n - i) + 5
    case Inline(i) => 8 * (n - i) + 4
    case Joining => 2
    case Returned => 0
  }

  function Work(s: State): int {
    Total(s.calls, Remaining) + MainWork(s.main, |s.calls|)
  }

  lemma {:induction false} StepWorksOff(s: State, step: Step)
    requires Inv(s) && Enabled(s, step)
    ensures Work(Next(s, step)) < Work(s)
  {
    StepTotal(s, step, Remaining);
    StartsIdleCalls(s, step);
    hide Total, Inv, Counts, Gated, InOrder, SlotsFill;
  }

  lemma {:induction false} WorkAtStart(calls: seq<Call>)
    requires forall c :: 0 <= c < |calls| ==> calls[c] == Idle
    ensures Total(calls, Remaining) == 7 * |calls|
  {
    if calls != [] {
      assert forall c :: 0 <= c < |calls[1..]| ==> calls[1..][c] == calls[c + 1];
      WorkAtStart(calls[1..]);
    }
  }

  /** Whatever the scheduler does, the pool for n calls returns within 15n + 7 steps: no
      run is longer, and a run that cannot go on has returned. */
  lemma {:induction false} EveryRunReturns(trace: seq<State>, steps: seq<Step>, concurrency: int)
    requires IsRun(trace, steps, concurrency)
    ensures |steps| <= 15 * |trace[0].calls| + 7
    ensures (forall step: Step :: !Enabled(trace[|steps|], step)) ==> trace[|steps|].main.Returned?
  {
    WorkUsedUp(trace, steps, concurrency, |steps|);
    WorkAtStart(trace[0].calls);
    RunKeeps(trace, steps, concurrency, |steps|);
    if !trace[|steps|].main.Returned? {
      NoDeadlock(trace, steps, concurrency, |steps|);
    }
  }

  lemma {:induction false} WorkUsedUp(trace: seq<State>, steps: seq<Step>, concurrency: int, i: nat)
    requires IsRun(trace, steps, concurrency) && i < |trace|
    ensures i + Work(trace[i]) <= Work(trace[0])
    ensures Work(trace[i]) >= 0
  {
    hide Enabled, Next, Inv, Work, Init;
    RunKeeps(trace, steps, concurrency, i);
    WorkIsNatural(trace[i]);
    if i > 0 {
      WorkUsedUp(trace, steps, concurrency, i - 1);
      RunKeeps(trace, steps, concurrency, i - 1);
      assert StepAt(trace, steps, i - 1);
      StepWorksOff(trace[i - 1], steps[i - 1]);
    }
  }

  lemma WorkIsNatural(s: State)
    requires Inv(s)
    ensures Work(s) >= 0
  {
    assert Position(s) <= |s.calls|;
    hide Total, Counts, Gated, SlotsFill;
  }
}
