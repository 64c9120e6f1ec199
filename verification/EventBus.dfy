/** The asynchronous event bus, as a protocol: emitters and drainers that send under a
    mutex, closers, and one dispatching goroutine behind a buffered channel.

    A step is one critical section or one channel operation.  Sending on a closed
    channel and closing a channel twice are modelled: they set panicked. */
module EventBus {

  type Event = nat
  type Ack = nat

  const BUFFER_SIZE := 256

  datatype Item = Ev(event: Event) | Sentinel(ack: Ack)

  datatype Dispatcher = Receives | Handles(event: Event) | Finished

  datatype Drainer = NotDraining | Tries | Waits(ack: Ack)

  datatype Closer = NotClosing | Flagged | AwaitsDone

  /** What became of an emitted event. */
  datatype Fate = Accepted | BufferFull | BusClosed
  datatype Attempt = Attempt(event: Event, fate: Fate)

  /** attempts and handled are histories; marks records, for each sentinel ever sent, how
      many events had been accepted before it. */
  datatype State = State(
    closed: bool,
    chanClosed: bool,
    ch: seq<Item>,
    acked: set<Ack>,
    dispatcher: Dispatcher,
    drainers: seq<Drainer>,
    closers: seq<Closer>,
    attempts: seq<Attempt>,
    handled: seq<Event>,
    marks: seq<nat>,
    panicked: bool)

  datatype Step =
    | Emit(event: Event)
    | DrainStart(d: nat)
    | DrainTry(d: nat)
    | DrainReturn(d: nat)
    | CloseStart(c: nat)
    | CloseChannel(c: nat)
    | CloseReturn(c: nat)
    | Take
    | HandlerReturns
    | Finish

  ghost predicate Init(s: State) {
    && !s.closed && !s.chanClosed && !s.panicked && s.ch == [] && s.acked == {} && s.dispatcher == Receives
    && s.attempts == [] && s.handled == [] && s.marks == []
    && (forall d :: 0 <= d < |s.drainers| ==> s.drainers[d] == NotDraining)
    && (forall c :: 0 <= c < |s.closers| ==> s.closers[c] == NotClosing)
  }

  predicate Enabled(s: State, step: Step) {
    match step
    case Emit(_) => true
    case DrainStart(d) => d < |s.drainers| && s.drainers[d].NotDraining?
    case DrainTry(d) => d < |s.drainers| && s.drainers[d].Tries?
    case DrainReturn(d) => d < |s.drainers| && s.drainers[d].Waits? && s.drainers[d].ack in s.acked
    case CloseStart(c) => c < |s.closers| && s.closers[c].NotClosing?
    case CloseChannel(c) => c < |s.closers| && s.closers[c].Flagged?
    case CloseReturn(c) => c < |s.closers| && s.closers[c].AwaitsDone? && s.dispatcher.Finished?
    case Take => s.dispatcher.Receives? && s.ch != []
    case HandlerReturns => s.dispatcher.Handles?
    case Finish => s.dispatcher.Receives? && s.ch == [] && s.chanClosed
  }

  /** A non-blocking send that is known to fit. */
  function Send(s: State, item: Item): State {
    if s.chanClosed then s.(panicked := true) else s.(ch := s.ch + [item])
  }

  function Next(s: State, step: Step): State
    requires Enabled(s, step)
  {
    match step
    case Emit(e) =>
      if s.closed then s.(attempts := s.attempts + [Attempt(e, BusClosed)])
      else if |s.ch| < BUFFER_SIZE then Send(s, Ev(e)).(attempts := s.attempts + [Attempt(e, Accepted)])
      else s.(attempts := s.attempts + [Attempt(e, BufferFull)])
    case DrainStart(d) => s.(drainers := s.drainers[d := Tries])
    case DrainTry(d) =>
      if s.closed then s.(drainers := s.drainers[d := NotDraining])
      else if |s.ch| < BUFFER_SIZE then
        var ack := |s.marks|;
        Send(s, Sentinel(ack)).(drainers := s.drainers[d := Waits(ack)], marks := s.marks + [|AcceptedIn(s.attempts)|])
      else s
    case DrainReturn(d) => s.(drainers := s.drainers[d := NotDraining])
    case CloseStart(c) =>
      if s.closed then s else s.(closed := true, closers := s.closers[c := Flagged])
    case CloseChannel(c) =>
      if s.chanClosed then s.(panicked := true)
      else s.(chanClosed := true, closers := s.closers[c := AwaitsDone])
    case CloseReturn(c) => s.(closers := s.closers[c := NotClosing])
    case Take =>
      var rest := s.(ch := s.ch[1..]);
      (match s.ch[0]
       case Ev(e) => rest.(dispatcher := Handles(e))
       case Sentinel(ack) => rest.(acked := s.acked + {ack}))
    case HandlerReturns => s.(dispatcher := Receives, handled := s.handled + [s.dispatcher.event])
    case Finish => s.(dispatcher := Finished)
  }

  ghost predicate IsRun(trace: seq<State>, steps: seq<Step>) {
    && |trace| == |steps| + 1 && Init(trace[0])
    && forall i :: 0 <= i < |steps| ==> Enabled(trace[i], steps[i]) && trace[i + 1] == Next(trace[i], steps[i])
  }

  /** The events that entered the channel, in order. */
  function AcceptedIn(attempts: seq<Attempt>): seq<Event> {
    if attempts == [] then [] else
      var last := attempts[|attempts| - 1];
      AcceptedIn(attempts[..|attempts| - 1]) + if last.fate.Accepted? then [last.event] else []
  }

  function EventsIn(items: seq<Item>): seq<Event> {
    if items == [] then [] else
      (if items[0].Ev? then [items[0].event] else []) + EventsIn(items[1..])
  }

  function Current(d: Dispatcher): seq<Event> {
    if d.Handles? then [d.event] else []
  }

  lemma AcceptedSnoc(attempts: seq<Attempt>, a: Attempt)
    ensures AcceptedIn(attempts + [a]) == AcceptedIn(attempts) + if a.fate.Accepted? then [a.event] else []
  {
    assert (attempts + [a])[..|attempts|] == attempts;
  }

  lemma {:induction false} EventsSnoc(items: seq<Item>, item: Item)
    ensures EventsIn(items + [item]) == EventsIn(items) + if item.Ev? then [item.event] else []
  {
    if items == [] {
      assert EventsIn([item]) == (if item.Ev? then [item.event] else []) + EventsIn([item][1..]);
    } else {
      var first := if items[0].Ev? then [items[0].event] else [];
      var last := if item.Ev? then [item.event] else [];
      EventsSnoc(items[1..], item);
      assert (items + [item])[1..] == items[1..] + [item];
      assert first + (EventsIn(items[1..]) + last) == (first + EventsIn(items[1..])) + last;
    }
  }

  // ---------------------------------------------------------------- what every state keeps

  /** Every accepted event is handled, in the handler's hands, or in the channel. */
  ghost predicate Conserves(s: State) {
    s.handled + Current(s.dispatcher) + EventsIn(s.ch) == AcceptedIn(s.attempts)
  }

  /** The events ahead of the channel's p-th item. */
  ghost function Ahead(s: State, p: nat): nat
    requires p <= |s.ch|
  {
    |s.handled| + |Current(s.dispatcher)| + |EventsIn(s.ch[..p])|
  }

  /** A sentinel stands right behind the events accepted before it; once acknowledged,
      all of those are handled. */
  ghost predicate SentinelsInPlace(s: State) {
    && (forall p :: 0 <= p < |s.ch| && s.ch[p].Sentinel? ==>
         s.ch[p].ack < |s.marks| && Ahead(s, p) == s.marks[s.ch[p].ack])
    && (forall a :: a in s.acked ==> a < |s.marks| && s.marks[a] <= |s.handled|)
    && (forall a :: 0 <= a < |s.marks| ==> s.marks[a] <= |AcceptedIn(s.attempts)|)
  }

  ghost predicate WaitersServed(s: State) {
    forall d :: 0 <= d < |s.drainers| && s.drainers[d].Waits? ==>
      s.drainers[d].ack < |s.marks| && (s.drainers[d].ack in s.acked || Sentinel(s.drainers[d].ack) in s.ch)
  }

  /** The channel is closed once, by the closer that closed the bus. */
  ghost predicate ClosesOnce(s: State) {
    && !s.panicked
    && (s.chanClosed ==> s.closed)
    && (s.dispatcher.Finished? ==> s.chanClosed && s.ch == [])
    && (forall c :: 0 <= c < |s.closers| && s.closers[c].Flagged? ==> s.closed && !s.chanClosed)
    && (forall c :: 0 <= c < |s.closers| && s.closers[c].AwaitsDone? ==> s.chanClosed)
    && (forall c, c' :: 0 <= c < |s.closers| && 0 <= c' < |s.closers| && s.closers[c].Flagged? && s.closers[c'].Flagged? ==> c == c')
  }

  ghost predicate Fits(s: State) {
    |s.ch| <= BUFFER_SIZE
  }

  ghost predicate Inv(s: State) {
    Conserves(s) && SentinelsInPlace(s) && WaitersServed(s) && ClosesOnce(s) && Fits(s)
  }

  lemma StepFits(s: State, step: Step)
    requires Fits(s) && Enabled(s, step)
    ensures Fits(Next(s, step))
  {
  }

  lemma {:induction false} StepClosesOnce(s: State, step: Step)
    requires ClosesOnce(s) && Enabled(s, step)
    ensures ClosesOnce(Next(s, step))
  {
  }

  lemma {:induction false} SendConserves(s: State, t: State, item: Item)
    requires Conserves(s) && t.ch == s.ch + [item] && t.handled == s.handled && t.dispatcher == s.dispatcher
    requires AcceptedIn(t.attempts) == AcceptedIn(s.attempts) + if item.Ev? then [item.event] else []
    ensures Conserves(t)
  {
    EventsSnoc(s.ch, item);
    var last := if item.Ev? then [item.event] else [];
    assert s.handled + Current(s.dispatcher) + (EventsIn(s.ch) + last)
        == (s.handled + Current(s.dispatcher) + EventsIn(s.ch)) + last;
  }

  lemma {:induction false} TakeConserves(s: State)
    requires Conserves(s) && Enabled(s, Take)
    ensures Conserves(Next(s, Take))
  {
    var first := if s.ch[0].Ev? then [s.ch[0].event] else [];
    assert EventsIn(s.ch) == first + EventsIn(s.ch[1..]);
    assert s.handled + [] + (first + EventsIn(s.ch[1..])) == s.handled + first + EventsIn(s.ch[1..]);
  }

  lemma EmitConserves(s: State, e: Event)
    requires ClosesOnce(s) && Conserves(s)
    ensures Conserves(Next(s, Emit(e)))
  {
    var t := Next(s, Emit(e));
    AcceptedSnoc(s.attempts, t.attempts[|s.attempts|]);
    hide AcceptedIn, EventsIn;
    if t.ch != s.ch {
      hide Conserves;
      SendConserves(s, t, Ev(e));
    }
  }

  lemma TryConserves(s: State, d: nat)
    requires ClosesOnce(s) && Conserves(s) && Enabled(s, DrainTry(d))
    ensures Conserves(Next(s, DrainTry(d)))
  {
    var t := Next(s, DrainTry(d));
    hide AcceptedIn, EventsIn;
    if t.ch != s.ch {
      hide Conserves;
      SendConserves(s, t, Sentinel(|s.marks|));
    }
  }

  lemma {:induction false} StepConserves(s: State, step: Step)
    requires ClosesOnce(s) && Conserves(s) && Enabled(s, step)
    ensures Conserves(Next(s, step))
  {
    match step {
      case Take => TakeConserves(s);
      case Emit(e) => EmitConserves(s, e);
      case DrainTry(d) => TryConserves(s, d);
      case HandlerReturns => assert Next(s, step).handled + [] == s.handled + Current(s.dispatcher);
      case _ =>
    }
  }

  lemma {:induction false} StepServesWaiters(s: State, step: Step)
    requires ClosesOnce(s) && WaitersServed(s) && Enabled(s, step)
    ensures WaitersServed(Next(s, step))
  {
    var t := Next(s, step);
    forall d | 0 <= d < |t.drainers| && t.drainers[d].Waits?
      ensures t.drainers[d].ack < |t.marks| && (t.drainers[d].ack in t.acked || Sentinel(t.drainers[d].ack) in t.ch)
    {
      if step.DrainTry? && step.d == d {
        assert Sentinel(|s.marks|) == t.ch[|s.ch|];
      } else if step.Take? && Sentinel(t.drainers[d].ack) in s.ch {
        var p :| 0 <= p < |s.ch| && s.ch[p] == Sentinel(t.drainers[d].ack);
        assert p > 0 ==> s.ch[p] == t.ch[p - 1];
      }
    }
  }

  lemma {:induction false} SendKeepsPlaces(s: State, t: State, item: Item)
    requires SentinelsInPlace(s) && Conserves(s) && t.ch == s.ch + [item] && t.acked == s.acked
    requires t.handled == s.handled && t.dispatcher == s.dispatcher
    requires s.marks <= t.marks && |AcceptedIn(s.attempts)| <= |AcceptedIn(t.attempts)|
    requires forall a :: |s.marks| <= a < |t.marks| ==> t.marks[a] == |AcceptedIn(s.attempts)|
    requires item.Sentinel? ==> item.ack == |s.marks| < |t.marks|
    ensures SentinelsInPlace(t)
  {
    forall p | 0 <= p < |t.ch| && t.ch[p].Sentinel?
      ensures t.ch[p].ack < |t.marks| && Ahead(t, p) == t.marks[t.ch[p].ack]
    {
      assert t.ch[..p] == s.ch[..p];
      if p == |s.ch| {
        assert s.ch[..p] == s.ch;
      } else {
        assert t.ch[p] == s.ch[p] && Ahead(s, p) == s.marks[s.ch[p].ack];
      }
    }
  }

  /** What is ahead of an item stays ahead of it when the first item is taken. */
  lemma TakeKeepsAhead(s: State, p: nat)
    requires Enabled(s, Take) && p < |s.ch|
    ensures Ahead(Next(s, Take), p) == Ahead(s, p + 1)
  {
    var t := Next(s, Take);
    var upTo := s.ch[..p + 1];
    assert upTo[0] == s.ch[0] && upTo[1..] == t.ch[..p];
    assert EventsIn(upTo) == (if s.ch[0].Ev? then [s.ch[0].event] else []) + EventsIn(t.ch[..p]);
    hide EventsIn;
  }

  lemma FirstSentinelIsDue(s: State)
    requires SentinelsInPlace(s) && Enabled(s, Take) && s.ch[0].Sentinel?
    ensures s.ch[0].ack < |s.marks| && s.marks[s.ch[0].ack] == |s.handled|
  {
    assert s.ch[..0] == [];
    assert Ahead(s, 0) == s.marks[s.ch[0].ack];
  }

  lemma {:induction false} TakeKeepsPlaces(s: State)
    requires SentinelsInPlace(s) && Enabled(s, Take)
    ensures SentinelsInPlace(Next(s, Take))
  {
    hide Ahead, EventsIn, AcceptedIn;
    var t := Next(s, Take);
    if s.ch[0].Sentinel? {
      FirstSentinelIsDue(s);
    }
    forall p | 0 <= p < |t.ch| && t.ch[p].Sentinel?
      ensures t.ch[p].ack < |t.marks| && Ahead(t, p) == t.marks[t.ch[p].ack]
    {
      TakeKeepsAhead(s, p);
      assert t.ch[p] == s.ch[p + 1];
    }
  }

  lemma {:induction false} StepKeepsPlaces(s: State, step: Step)
    requires ClosesOnce(s) && Conserves(s) && SentinelsInPlace(s) && Enabled(s, step)
    ensures SentinelsInPlace(Next(s, step))
  {
    hide SentinelsInPlace, AcceptedIn, EventsIn;
    var t := Next(s, step);
    if step.Take? {
      TakeKeepsPlaces(s);
    } else if step.Emit? {
      AcceptedSnoc(s.attempts, t.attempts[|s.attempts|]);
      if t.ch != s.ch {
        SendKeepsPlaces(s, t, Ev(step.event));
      } else {
        SameChannelKeepsPlaces(s, t);
      }
    } else if step.DrainTry? && t.ch != s.ch {
      SendKeepsPlaces(s, t, Sentinel(|s.marks|));
    } else {
      SameChannelKeepsPlaces(s, t);
    }
  }

  lemma {:induction false} SameChannelKeepsPlaces(s: State, t: State)
    requires SentinelsInPlace(s) && t.ch == s.ch && t.acked == s.acked && t.marks == s.marks
    requires AcceptedIn(t.attempts) == AcceptedIn(s.attempts) && |t.handled| >= |s.handled|
    requires |t.handled| + |Current(t.dispatcher)| == |s.handled| + |Current(s.dispatcher)|
    ensures SentinelsInPlace(t)
  {
    assert forall p :: 0 <= p < |t.ch| ==> Ahead(t, p) == Ahead(s, p);
  }

  lemma {:induction false} RunKeeps(trace: seq<State>, steps: seq<Step>, i: nat)
    requires IsRun(trace, steps) && i < |trace|
    ensures Inv(trace[i])
  {
    if i > 0 {
      hide Conserves, SentinelsInPlace, WaitersServed, ClosesOnce, Fits, Next, Enabled;
      RunKeeps(trace, steps, i - 1);
      StepKeeps(trace[i - 1], steps[i - 1]);
    }
  }

  lemma StepKeeps(s: State, step: Step)
    requires Inv(s) && Enabled(s, step)
    ensures Inv(Next(s, step))
  {
    hide Conserves, SentinelsInPlace, WaitersServed, ClosesOnce, Fits, Next, Enabled;
    StepClosesOnce(s, step);
    StepConserves(s, step);
    StepServesWaiters(s, step);
    StepKeepsPlaces(s, step);
    StepFits(s, step);
  }

  // ---------------------------------------------------------------- the promises

  /** No run sends on the closed channel or closes it twice. */
  lemma {:induction false} NeverPanics(trace: seq<State>, steps: seq<Step>, i: nat)
    requires IsRun(trace, steps) && i < |trace|
    ensures !trace[i].panicked
  {
    RunKeeps(trace, steps, i);
  }

  /** The handled events are the first accepted ones, in the order of acceptance. */
  lemma {:induction false} HandledInOrder(trace: seq<State>, steps: seq<Step>, i: nat)
    requires IsRun(trace, steps) && i < |trace|
    ensures trace[i].handled <= AcceptedIn(trace[i].attempts)
  {
    RunKeeps(trace, steps, i);
    var s := trace[i];
    assert AcceptedIn(s.attempts) == s.handled + (Current(s.dispatcher) + EventsIn(s.ch));
  }

  /** The events emitted by the first n steps ... */
  function EmittedIn(steps: seq<Step>, n: nat): seq<Event>
    requires n <= |steps|
  {
    if n == 0 then [] else EmittedIn(steps, n - 1) + if steps[n - 1].Emit? then [steps[n - 1].event] else []
  }

  /** ... of these the ones that found the bus open and room in the channel ... */
  function FittingIn(trace: seq<State>, steps: seq<Step>, n: nat): seq<Event>
    requires n <= |steps| <= |trace|
  {
    if n == 0 then [] else
      var s, step := trace[n - 1], steps[n - 1];
      FittingIn(trace, steps, n - 1) + if step.Emit? && !s.closed && |s.ch| < BUFFER_SIZE then [step.event] else []
  }

  /** ... and the ones that found the bus closed or the channel full. */
  function LostIn(trace: seq<State>, steps: seq<Step>, n: nat): seq<Event>
    requires n <= |steps| <= |trace|
  {
    if n == 0 then [] else
      var s, step := trace[n - 1], steps[n - 1];
      LostIn(trace, steps, n - 1) + if step.Emit? && (s.closed || |s.ch| == BUFFER_SIZE) then [step.event] else []
  }

  /** Over a whole run the handled events and those in the dispatcher's hands or in the
      channel are, in order, exactly those emitted while the bus was open and the channel,
      which never holds more than its size, had room. Once the dispatcher is idle on an empty
      channel the other emitted events, and no more, are missing. */
  lemma {:induction false} DropsOnlyWhenFull(trace: seq<State>, steps: seq<Step>, n: nat)
    requires IsRun(trace, steps) && n <= |steps|
    ensures var s := trace[n];
      && |s.ch| <= BUFFER_SIZE
      && s.handled + Current(s.dispatcher) + EventsIn(s.ch) == FittingIn(trace, steps, n)
      && (!s.dispatcher.Handles? && s.ch == [] ==>
            && s.handled == FittingIn(trace, steps, n)
            && multiset(EmittedIn(steps, n)) == multiset(s.handled) + multiset(LostIn(trace, steps, n)))
  {
    RunKeeps(trace, steps, n);
    AcceptedAreFitting(trace, steps, n);
    EmittedAreFittingOrLost(trace, steps, n);
    var s := trace[n];
    if !s.dispatcher.Handles? && s.ch == [] {
      assert s.handled + [] + [] == s.handled;
    }
  }

  lemma {:induction false} AcceptedAreFitting(trace: seq<State>, steps: seq<Step>, n: nat)
    requires IsRun(trace, steps) && n <= |steps|
    ensures AcceptedIn(trace[n].attempts) == FittingIn(trace, steps, n)
  {
    if n > 0 {
      hide AcceptedIn, Next, Enabled;
      AcceptedAreFitting(trace, steps, n - 1);
      StepAccepts(trace[n - 1], steps[n - 1]);
    }
  }

  lemma StepAccepts(s: State, step: Step)
    requires Enabled(s, step)
    ensures AcceptedIn(Next(s, step).attempts)
      == AcceptedIn(s.attempts) + if step.Emit? && !s.closed && |s.ch| < BUFFER_SIZE then [step.event] else []
  {
    hide AcceptedIn;
    if step.Emit? {
      AcceptedSnoc(s.attempts, Next(s, step).attempts[|s.attempts|]);
    }
  }

  lemma {:induction false} EmittedAreFittingOrLost(trace: seq<State>, steps: seq<Step>, n: nat)
    requires IsRun(trace, steps) && n <= |steps|
    ensures multiset(EmittedIn(steps, n)) == multiset(FittingIn(trace, steps, n)) + multiset(LostIn(trace, steps, n))
  {
    if n > 0 {
      EmittedAreFittingOrLost(trace, steps, n - 1);
      RunKeeps(trace, steps, n - 1);
      assert |trace[n - 1].ch| <= BUFFER_SIZE;
      EmittedSplits(trace, steps, n);
      hide IsRun, Inv, EmittedIn, FittingIn, LostIn;
      if steps[n - 1].Emit? {
        OneMoreOfEither(EmittedIn(steps, n - 1), FittingIn(trace, steps, n - 1), LostIn(trace, steps, n - 1), steps[n - 1].event);
      }
    }
  }

  lemma EmittedSplits(trace: seq<State>, steps: seq<Step>, n: nat)
    requires 0 < n <= |steps| <= |trace| && |trace[n - 1].ch| <= BUFFER_SIZE
    ensures var s, step := trace[n - 1], steps[n - 1];
      var all, some, others := EmittedIn(steps, n - 1), FittingIn(trace, steps, n - 1), LostIn(trace, steps, n - 1);
      && (!step.Emit? ==> EmittedIn(steps, n) == all && FittingIn(trace, steps, n) == some && LostIn(trace, steps, n) == others)
      && (step.Emit? ==> EmittedIn(steps, n) == all + [step.event])
      && (step.Emit? ==>
            (FittingIn(trace, steps, n) == some + [step.event] && LostIn(trace, steps, n) == others)
            || (FittingIn(trace, steps, n) == some && LostIn(trace, steps, n) == others + [step.event]))
  {
  }

  lemma OneMoreOfEither(all: seq<Event>, some: seq<Event>, others: seq<Event>, e: Event)
    requires multiset(all) == multiset(some) + multiset(others)
    ensures multiset(all + [e]) == multiset(some + [e]) + multiset(others)
    ensures multiset(all + [e]) == multiset(some) + multiset(others + [e])
  {
  }

  /** A drain that sent its sentinel (the step DrainTry at i) returns (at j) only after
      every event accepted before that step has been handled. */
  lemma {:induction false} DrainWaitsForEarlier(trace: seq<State>, steps: seq<Step>, i: nat, j: nat, d: nat)
    requires IsRun(trace, steps) && i < j < |steps|
    requires steps[i] == DrainTry(d) && trace[i + 1].drainers[d].Waits?
    requires steps[j] == DrainReturn(d)
    requires trace[j].drainers[d] == trace[i + 1].drainers[d]
    ensures AcceptedIn(trace[i].attempts) <= trace[j].handled
  {
    RunKeeps(trace, steps, i);
    RunKeeps(trace, steps, j);
    HandledInOrder(trace, steps, j);
    var ack := trace[i + 1].drainers[d].ack;
    HistoriesGrow(trace, steps, i + 1, j);
    HistoriesGrow(trace, steps, i, j);
    assert trace[j].marks[ack] == |AcceptedIn(trace[i].attempts)|;
  }

  lemma {:induction false} StepGrows(s: State, step: Step)
    requires Enabled(s, step)
    ensures var t := Next(s, step);
            && s.marks <= t.marks
            && AcceptedIn(s.attempts) <= AcceptedIn(t.attempts)
            && (s.closed ==> t.closed && AcceptedIn(s.attempts) == AcceptedIn(t.attempts))
  {
    if step.Emit? {
      AcceptedSnoc(s.attempts, Next(s, step).attempts[|s.attempts|]);
    }
  }

  lemma {:induction false} HistoriesGrow(trace: seq<State>, steps: seq<Step>, i: nat, j: nat)
    requires IsRun(trace, steps) && i <= j < |trace|
    ensures trace[i].marks <= trace[j].marks
    ensures AcceptedIn(trace[i].attempts) <= AcceptedIn(trace[j].attempts)
    decreases j - i
  {
    hide Next, Enabled, AcceptedIn;
    if i < j {
      HistoriesGrow(trace, steps, i, j - 1);
      StepGrows(trace[j - 1], steps[j - 1]);
    }
  }

  /** Between the start of a drain and its return: it tries, or it waits behind everything
      that was accepted before it started. */
  ghost predicate Draining(s: State, d: nat, before: nat) {
    && d < |s.drainers|
    && (s.drainers[d].Tries?
        || (s.drainers[d].Waits? && s.drainers[d].ack < |s.marks| && before <= s.marks[s.drainers[d].ack]))
  }

  lemma StepDrains(s: State, step: Step, d: nat, before: nat)
    requires Enabled(s, step) && Draining(s, d, before) && before <= |AcceptedIn(s.attempts)|
    ensures d < |Next(s, step).drainers|
    ensures Draining(Next(s, step), d, before) || Next(s, step).drainers[d].NotDraining?
  {
    hide AcceptedIn;
  }

  lemma DrainStarts(s: State, d: nat, before: nat)
    requires Enabled(s, DrainStart(d))
    ensures Draining(Next(s, DrainStart(d)), d, before)
  {
  }

  lemma {:induction false} KeepsDraining(trace: seq<State>, steps: seq<Step>, i: nat, j: nat, d: nat)
    requires IsRun(trace, steps) && i < j <= |steps| && steps[i] == DrainStart(d)
    requires forall k :: i < k <= j && d < |trace[k].drainers| ==> !trace[k].drainers[d].NotDraining?
    ensures Draining(trace[j], d, |AcceptedIn(trace[i].attempts)|)
    decreases j
  {
    hide AcceptedIn, Draining, Enabled, Next;
    var before := |AcceptedIn(trace[i].attempts)|;
    if i < j - 1 {
      KeepsDraining(trace, steps, i, j - 1, d);
      HistoriesGrow(trace, steps, i, j - 1);
      StepDrains(trace[j - 1], steps[j - 1], d, before);
    } else {
      DrainStarts(trace[i], d, before);
    }
  }

  /** A drain that starts (the step DrainStart at i) and comes back (with the step j) finds
      the bus closed, or comes back only after every event accepted before it started is
      handled. */
  lemma {:induction false} DrainKeepsPromise(trace: seq<State>, steps: seq<Step>, i: nat, j: nat, d: nat)
    requires IsRun(trace, steps) && i < j < |steps| && steps[i] == DrainStart(d)
    requires forall k :: i < k <= j && d < |trace[k].drainers| ==> !trace[k].drainers[d].NotDraining?
    requires d < |trace[j + 1].drainers| && trace[j + 1].drainers[d].NotDraining?
    ensures trace[j].closed || AcceptedIn(trace[i].attempts) <= trace[j].handled
  {
    KeepsDraining(trace, steps, i, j, d);
    RunKeeps(trace, steps, j);
    HandledInOrder(trace, steps, j);
    HistoriesGrow(trace, steps, i, j);
    hide AcceptedIn;
    var s := trace[j];
    if !s.closed {
      assert steps[j] == DrainReturn(d);
      assert s.drainers[d].ack in s.acked;
    }
  }

  /** The Close that shuts the bus returns only after every accepted event is handled, and
      from then on none is accepted. */
  lemma {:induction false} ClosingCloseDrains(trace: seq<State>, steps: seq<Step>, i: nat, j: nat)
    requires IsRun(trace, steps) && i <= j < |trace|
    requires i < |steps| && steps[i].CloseReturn?
    ensures trace[i].handled == AcceptedIn(trace[i].attempts)
    ensures AcceptedIn(trace[j].attempts) == AcceptedIn(trace[i].attempts)
  {
    RunKeeps(trace, steps, i);
    assert trace[i].handled + [] + [] == trace[i].handled;
    ClosedStaysClosed(trace, steps, i, j);
  }

  lemma {:induction false} ClosedStaysClosed(trace: seq<State>, steps: seq<Step>, i: nat, j: nat)
    requires IsRun(trace, steps) && i <= j < |trace| && trace[i].closed
    ensures trace[j].closed && AcceptedIn(trace[j].attempts) == AcceptedIn(trace[i].attempts)
    decreases j - i
  {
    hide Next, Enabled, AcceptedIn;
    if i < j {
      ClosedStaysClosed(trace, steps, i, j - 1);
      StepGrows(trace[j - 1], steps[j - 1]);
    }
  }

  /** A call of Close returns with this step: it found the bus closed, or it is done
      waiting for the dispatcher. */
  predicate ReturnsFromClose(s: State, step: Step) {
    step.CloseReturn? || (step.CloseStart? && s.closed)
  }

  /** Close promises that all queued events are processed before it returns. In every run a
      call that returns keeps this exactly when it is the one that shut the bus, or finds
      no event in the channel and none in the dispatcher's hands. */
  lemma {:induction false} CloseKeepsPromiseIff(trace: seq<State>, steps: seq<Step>, i: nat)
    requires IsRun(trace, steps) && i < |steps| && ReturnsFromClose(trace[i], steps[i])
    ensures var s, t := trace[i], trace[i + 1];
      t.handled == AcceptedIn(t.attempts)
      <==> steps[i].CloseReturn? || (EventsIn(s.ch) == [] && !s.dispatcher.Handles?)
  {
    var s, t := trace[i], trace[i + 1];
    RunKeeps(trace, steps, i);
    assert t == Next(s, steps[i]) && t.handled == s.handled && t.attempts == s.attempts;
    if steps[i].CloseReturn? {
      ClosingCloseDrains(trace, steps, i, i);
    } else {
      var left := Current(s.dispatcher) + EventsIn(s.ch);
      assert AcceptedIn(s.attempts) == s.handled + left;
      assert s.handled == s.handled + left <==> |left| == 0;
    }
  }

  /** A run in which the second call returns at once, with an event still in the channel. */
  lemma {:induction false} SecondCloseDoesNotWait()
    ensures exists trace: seq<State>, steps: seq<Step> ::
              && IsRun(trace, steps)
              && steps == [Emit(7), CloseStart(0), CloseStart(1)]
              && trace[3] == trace[2] && trace[3].closers[1] == NotClosing
              && trace[3].handled == [] && trace[3].ch == [Ev(7)]
  {
    var s0 := State(false, false, [], {}, Receives, [], [NotClosing, NotClosing], [], [], [], false);
    var steps := [Emit(7), CloseStart(0), CloseStart(1)];
    var s1 := Next(s0, steps[0]);
    var s2 := Next(s1, steps[1]);
    var s3 := Next(s2, steps[2]);
    var trace := [s0, s1, s2, s3];
    assert IsRun(trace, steps);
  }

  /** A call waits for the dispatcher exactly when it finds the bus open. */
  lemma {:induction false} CloseWaitsIffOpen(trace: seq<State>, steps: seq<Step>, i: nat, c: nat)
    requires IsRun(trace, steps) && i < |steps| && steps[i] == CloseStart(c)
    ensures !trace[i].closed <==> trace[i + 1].closers[c] != NotClosing
    ensures trace[i].closed ==> trace[i + 1] == trace[i]
  {
    assert trace[i + 1] == Next(trace[i], steps[i]);
  }

  /** Nobody waits for a dispatcher that is stuck: while a drainer waits for its
      acknowledgement or a closer for the end, it or the dispatcher or a closer can move. */
  lemma {:induction false} WaitersAreServed(trace: seq<State>, steps: seq<Step>, i: nat)
    requires IsRun(trace, steps) && i < |trace|
    ensures forall d :: 0 <= d < |trace[i].drainers| && trace[i].drainers[d].Waits? ==>
              Enabled(trace[i], DrainReturn(d)) || Enabled(trace[i], Take) || Enabled(trace[i], HandlerReturns)
    ensures forall c :: 0 <= c < |trace[i].closers| && trace[i].closers[c].AwaitsDone? ==>
              || Enabled(trace[i], CloseReturn(c)) || Enabled(trace[i], Finish)
              || Enabled(trace[i], Take) || Enabled(trace[i], HandlerReturns)
  {
    RunKeeps(trace, steps, i);
    hide IsRun, Conserves, SentinelsInPlace, Fits;
  }

  // ---------------------------------------------------------------- drains and closes can end

  /** The steps can be taken from s, one after another, and lead to t. */
  ghost predicate Leads(s: State, steps: seq<Step>, t: State)
    decreases |steps|
  {
    if steps == [] then s == t else Enabled(s, steps[0]) && Leads(Next(s, steps[0]), steps[1..], t)
  }

  lemma {:induction false} LeadsOn(s: State, p: seq<Step>, t: State, q: seq<Step>, u: State)
    requires Leads(s, p, t) && Leads(t, q, u)
    ensures Leads(s, p + q, u)
    decreases |p|
  {
    if p == [] {
      assert p + q == q;
    } else {
      LeadsOn(Next(s, p[0]), p[1..], t, q, u);
      assert (p + q)[1..] == p[1..] + q;
    }
  }

  lemma LeadsByOne(s: State, step: Step)
    requires Enabled(s, step)
    ensures Leads(s, [step], Next(s, step))
  {
    assert [step][1..] == [];
  }

  ghost predicate Dispatches(step: Step) {
    step.Take? || step.HandlerReturns?
  }

  /** The dispatcher alone gets through the whole channel. */
  lemma {:induction false} ChannelEmpties(s: State) returns (steps: seq<Step>, t: State)
    requires Inv(s)
    ensures Leads(s, steps, t) && Inv(t) && forall step :: step in steps ==> Dispatches(step)
    ensures t.ch == [] && !t.dispatcher.Handles? && (t.dispatcher.Finished? <==> s.dispatcher.Finished?)
    ensures t.drainers == s.drainers && t.closers == s.closers && t.closed == s.closed && t.chanClosed == s.chanClosed
    decreases |s.ch|, if s.dispatcher.Handles? then 1 else 0
  {
    if s.ch == [] && !s.dispatcher.Handles? {
      return [], s;
    }
    var step := if s.dispatcher.Handles? then HandlerReturns else Take;
    StepKeeps(s, step);
    hide Inv;
    var rest;
    rest, t := ChannelEmpties(Next(s, step));
    steps := [step] + rest;
    assert steps[1..] == rest;
  }

  ghost predicate DrainStep(step: Step, d: nat) {
    Dispatches(step) || step == DrainTry(d) || step == DrainReturn(d)
  }

  /** Steps that bring a drain back, or let it wait behind an empty channel. */
  ghost predicate Ends(s: State, more: seq<Step>, t: State, d: nat) {
    && Leads(s, more, t) && d < |t.drainers| && (t.drainers[d].NotDraining? || (t.drainers[d].Waits? && Inv(t) && t.ch == []))
    && forall step :: step in more ==> DrainStep(step, d)
  }

  lemma TriesOnce(s: State, d: nat) returns (more: seq<Step>, t: State)
    requires Inv(s) && s.ch == [] && !s.dispatcher.Handles? && d < |s.drainers| && s.drainers[d].Tries?
    ensures Ends(s, more, t, d)
  {
    more, t := [DrainTry(d)], Next(s, DrainTry(d));
    LeadsByOne(s, DrainTry(d));
    StepKeeps(s, DrainTry(d));
    hide Inv, Leads;
    if !s.closed {
      assert t.drainers[d].Waits?;
      var rest, u := ChannelEmpties(t);
      hide Next;
      LeadsOn(s, more, t, rest, u);
      more, t := more + rest, u;
    }
  }

  /** From every reachable state a drain can be brought to its return by the dispatcher and
      the drain itself. */
  lemma {:induction false} DrainCanReturn(trace: seq<State>, steps: seq<Step>, i: nat,
      d: nat) returns (more: seq<Step>, t: State)
    requires IsRun(trace, steps) && i < |trace| && d < |trace[i].drainers|
    ensures Leads(trace[i], more, t) && d < |t.drainers| && t.drainers[d].NotDraining?
    ensures forall step :: step in more ==> DrainStep(step, d)
  {
    RunKeeps(trace, steps, i);
    var s := trace[i];
    if s.drainers[d].NotDraining? {
      return [], s;
    }
    hide Inv, Leads, Next, Enabled, IsRun;
    more, t := ChannelEmpties(s);
    if t.drainers[d].Tries? {
      var rest, u := TriesOnce(t, d);
      LeadsOn(s, more, t, rest, u);
      more, t := more + rest, u;
    }
    if t.drainers[d].Waits? {
      DrainReturns(t, d);
      var u := Next(t, DrainReturn(d));
      LeadsOn(s, more, t, [DrainReturn(d)], u);
      more, t := more + [DrainReturn(d)], u;
    }
  }

  lemma DrainReturns(t: State, d: nat)
    requires Inv(t) && t.ch == [] && d < |t.drainers| && t.drainers[d].Waits?
    ensures Enabled(t, DrainReturn(d)) && Leads(t, [DrainReturn(d)], Next(t, DrainReturn(d)))
    ensures d < |Next(t, DrainReturn(d)).drainers| && Next(t, DrainReturn(d)).drainers[d].NotDraining?
  {
    LeadsByOne(t, DrainReturn(d));
  }

  /** So can a close that shut the bus. */
  lemma {:induction false} CloseCanReturn(trace: seq<State>, steps: seq<Step>, i: nat,
      c: nat) returns (more: seq<Step>, t: State)
    requires IsRun(trace, steps) && i < |trace| && c < |trace[i].closers|
    ensures Leads(trace[i], more, t) && c < |t.closers| && t.closers[c].NotClosing?
    ensures forall step :: step in more ==> Dispatches(step) || step == CloseChannel(c) || step == Finish || step == CloseReturn(c)
  {
    RunKeeps(trace, steps, i);
    var s := trace[i];
    if s.closers[c].NotClosing? {
      return [], s;
    }
    more, t := ChannelEmpties(s);
    if t.closers[c].Flagged? {
      var u := Next(t, CloseChannel(c));
      LeadsByOne(t, CloseChannel(c));
      LeadsOn(s, more, t, [CloseChannel(c)], u);
      StepKeeps(t, CloseChannel(c));
      more, t := more + [CloseChannel(c)], u;
    }
    if t.dispatcher.Receives? {
      var u := Next(t, Finish);
      LeadsByOne(t, Finish);
      LeadsOn(s, more, t, [Finish], u);
      more, t := more + [Finish], u;
    }
    LeadsByOne(t, CloseReturn(c));
    LeadsOn(s, more, t, [CloseReturn(c)], Next(t, CloseReturn(c)));
    return more + [CloseReturn(c)], Next(t, CloseReturn(c));
  }
}
