/** The unbounded queue between publishers and one task subscriber, as a protocol.

    Publishers number an update under the task's lock, append it under the subscriber's and
    then signal a channel with room for one token; the dispatcher waits for the token,
    drains the queue into the bounded events channel and waits again.  A step is one
    atomic action of one party. */
module Subscriber {

  /** An update of one task, known by its sequence number. */
  type Event = nat

  const EVENTS_CAPACITY := 16

  /** Where a publisher stands: it numbered an update, and then in send. */
  datatype Publisher = Idle | Numbered(event: Event) | Admitted(event: Event) | Appended

  /** Where the dispatcher stands; Exited remembers an event it gave up on. */
  datatype Dispatcher = AwaitsWake | Drains | Holds(event: Event) | Exited(abandoned: seq<Event>)

  /** appended and received are the histories of the queue's two ends. */
  datatype State = State(
    nextSeq: nat,
    done: bool,
    wake: bool,
    queue: seq<Event>,
    events: seq<Event>,
    publishers: seq<Publisher>,
    dispatcher: Dispatcher,
    appended: seq<Event>,
    received: seq<Event>)

  datatype Step =
    | Number(p: nat)
    | Begin(p: nat)
    | Refuse(p: nat)
    | Append(p: nat)
    | Signal(p: nat)
    | Close
    | Wake
    | Pop
    | Sleep
    | Push
    | Quit
    | Receive

  ghost predicate Init(s: State) {
    && s.nextSeq == 0 && !s.done && !s.wake && s.queue == s.events == s.appended == s.received == []
    && s.dispatcher == AwaitsWake
    && forall p :: 0 <= p < |s.publishers| ==> s.publishers[p] == Idle
  }

  predicate Enabled(s: State, step: Step) {
    match step
    case Number(p) => p < |s.publishers| && s.publishers[p].Idle?
    case Begin(p) => p < |s.publishers| && s.publishers[p].Numbered? && !s.done
    case Refuse(p) => p < |s.publishers| && s.publishers[p].Numbered? && s.done
    case Append(p) => p < |s.publishers| && s.publishers[p].Admitted?
    case Signal(p) => p < |s.publishers| && s.publishers[p].Appended?
    case Close => true
    case Wake => s.dispatcher.AwaitsWake? && s.wake
    case Pop => s.dispatcher.Drains? && s.queue != []
    case Sleep => s.dispatcher.Drains? && s.queue == []
    case Push => s.dispatcher.Holds? && |s.events| < EVENTS_CAPACITY
    case Quit => s.done && (s.dispatcher.AwaitsWake? || s.dispatcher.Holds?)
    case Receive => s.events != []
  }

  function Next(s: State, step: Step): State
    requires Enabled(s, step)
  {
    match step
    case Number(p) => s.(nextSeq := s.nextSeq + 1, publishers := s.publishers[p := Numbered(s.nextSeq + 1)])
    case Begin(p) => s.(publishers := s.publishers[p := Admitted(s.publishers[p].event)])
    case Refuse(p) => s.(publishers := s.publishers[p := Idle])
    case Append(p) =>
      var e := s.publishers[p].event;
      s.(publishers := s.publishers[p := Appended], queue := s.queue + [e], appended := s.appended + [e])
    case Signal(p) => s.(publishers := s.publishers[p := Idle], wake := true)
    case Close => s.(done := true)
    case Wake => s.(wake := false, dispatcher := Drains)
    case Pop => s.(dispatcher := Holds(s.queue[0]), queue := s.queue[1..])
    case Sleep => s.(dispatcher := AwaitsWake)
    case Push => s.(events := s.events + [s.dispatcher.event], dispatcher := Drains)
    case Quit => s.(dispatcher := Exited(Held(s.dispatcher)))
    case Receive => s.(received := s.received + [s.events[0]], events := s.events[1..])
  }

  /** What the dispatcher has taken from the queue and not passed on. */
  function Held(d: Dispatcher): seq<Event> {
    match d
    case Holds(e) => [e]
    case Exited(abandoned) => abandoned
    case _ => []
  }

  /** The i-th step of the trace is taken. */
  ghost predicate StepAt(trace: seq<State>, steps: seq<Step>, i: nat)
    requires i < |steps| < |trace|
  {
    Enabled(trace[i], steps[i]) && trace[i + 1] == Next(trace[i], steps[i])
  }

  ghost predicate IsPath(trace: seq<State>, steps: seq<Step>) {
    && |trace| == |steps| + 1
    && forall i :: 0 <= i < |steps| ==> StepAt(trace, steps, i)
  }

  ghost predicate IsRun(trace: seq<State>, steps: seq<Step>) {
    IsPath(trace, steps) && Init(trace[0])
  }

  // ---------------------------------------------------------------- what every state keeps

  /** No event is lost, doubled or moved past another. */
  ghost predicate Conserves(s: State) {
    s.received + s.events + Held(s.dispatcher) + s.queue == s.appended
  }

  /** A waiting dispatcher with a non-empty queue has a token waiting or on its way. */
  ghost predicate WillWake(s: State) {
    s.dispatcher.AwaitsWake? && s.queue != [] ==>
      s.wake || exists p :: 0 <= p < |s.publishers| && s.publishers[p].Appended?
  }

  ghost predicate Inv(s: State) {
    && Conserves(s) && WillWake(s) && |s.events| <= EVENTS_CAPACITY
    && (s.dispatcher.Exited? ==> s.done && |s.dispatcher.abandoned| <= 1)
  }

  lemma AppendConserves(s: State, p: nat)
    requires Conserves(s) && Enabled(s, Append(p))
    ensures Conserves(Next(s, Append(p)))
  {
    var e, before := s.publishers[p].event, s.received + s.events + Held(s.dispatcher);
    assert before + (s.queue + [e]) == (before + s.queue) + [e];
  }

  lemma PopConserves(s: State)
    requires Conserves(s) && Enabled(s, Pop)
    ensures Conserves(Next(s, Pop))
  {
    var passed, e, rest := s.received + s.events, [s.queue[0]], s.queue[1..];
    assert s.queue == e + rest;
    assert passed + [] + (e + rest) == passed + e + rest;
  }

  lemma PushConserves(s: State)
    requires Conserves(s) && Enabled(s, Push)
    ensures Conserves(Next(s, Push))
  {
    var e := [s.dispatcher.event];
    assert s.received + (s.events + e) + [] == s.received + s.events + e;
  }

  lemma ReceiveConserves(s: State)
    requires Conserves(s) && Enabled(s, Receive)
    ensures Conserves(Next(s, Receive))
  {
    var e, rest := [s.events[0]], s.events[1..];
    assert s.events == e + rest;
    assert (s.received + e) + rest == s.received + (e + rest);
  }

  lemma {:induction false} StepConserves(s: State, step: Step)
    requires Conserves(s) && Enabled(s, step)
    ensures Conserves(Next(s, step))
  {
    match step {
      case Append(p) => AppendConserves(s, p);
      case Pop => PopConserves(s);
      case Push => PushConserves(s);
      case Receive => ReceiveConserves(s);
      case _ =>
    }
  }

  lemma {:induction false} StepWillWake(s: State, step: Step)
    requires WillWake(s) && Enabled(s, step)
    ensures WillWake(Next(s, step))
  {
    var t := Next(s, step);
    match step {
      case Append(p) => assert t.publishers[p].Appended?;
      case Number(_) =>
        assert forall q :: 0 <= q < |s.publishers| && s.publishers[q].Appended? ==> t.publishers[q].Appended?;
      case Begin(_) =>
        assert forall q :: 0 <= q < |s.publishers| && s.publishers[q].Appended? ==> t.publishers[q].Appended?;
      case Refuse(_) =>
        assert forall q :: 0 <= q < |s.publishers| && s.publishers[q].Appended? ==> t.publishers[q].Appended?;
      case _ =>
    }
  }

  lemma {:induction false} RunKeeps(trace: seq<State>, steps: seq<Step>, i: nat)
    requires IsRun(trace, steps) && i < |trace|
    ensures Inv(trace[i])
  {
    if i > 0 {
      RunKeeps(trace, steps, i - 1);
      assert StepAt(trace, steps, i - 1);
      StepConserves(trace[i - 1], steps[i - 1]);
      StepWillWake(trace[i - 1], steps[i - 1]);
    }
  }

  // ---------------------------------------------------------------- the promises

  /** In every reachable state the subscriber has received a prefix of what was appended;
      the rest is buffered, held or queued, in order. */
  lemma {:induction false} DeliveryIsInOrder(trace: seq<State>, steps: seq<Step>, i: nat)
    requires IsRun(trace, steps) && i < |trace|
    ensures var s := trace[i];
            && s.received <= s.appended
            && s.appended[|s.received|..] == s.events + Held(s.dispatcher) + s.queue
  {
    RunKeeps(trace, steps, i);
    var s := trace[i];
    assert s.appended == s.received + (s.events + Held(s.dispatcher) + s.queue);
  }

  /** No wake-up is lost: a non-empty queue is being drained, or a token waits, or its
      publisher is about to put one there. */
  lemma {:induction false} NoLostWakeUp(trace: seq<State>, steps: seq<Step>, i: nat)
    requires IsRun(trace, steps) && i < |trace|
    requires trace[i].queue != [] && !trace[i].done
    requires forall p :: 0 <= p < |trace[i].publishers| ==> !trace[i].publishers[p].Appended?
    ensures trace[i].wake || trace[i].dispatcher.Drains? || trace[i].dispatcher.Holds?
  {
    RunKeeps(trace, steps, i);
  }

  /** Steps that neither number a new update nor close the subscriber. */
  predicate Internal(step: Step) {
    !step.Number? && !step.Close?
  }

  /** On an open subscriber, once nothing but a new update or a close can happen, all
      publishers are through and everything appended has been received. */
  lemma {:induction false} QuietMeansDelivered(trace: seq<State>, steps: seq<Step>, i: nat)
    requires IsRun(trace, steps) && i < |trace| && !trace[i].done
    requires forall step: Step :: Internal(step) ==> !Enabled(trace[i], step)
    ensures trace[i].received == trace[i].appended
    ensures forall p :: 0 <= p < |trace[i].publishers| ==> trace[i].publishers[p].Idle?
  {
    RunKeeps(trace, steps, i);
    var s := trace[i];
    assert !Enabled(s, Receive) && !Enabled(s, Push) && !Enabled(s, Wake) && !Enabled(s, Pop) && !Enabled(s, Sleep);
    forall p | 0 <= p < |s.publishers|
      ensures s.publishers[p].Idle?
    {
      assert !Enabled(s, Begin(p)) && !Enabled(s, Append(p)) && !Enabled(s, Signal(p));
    }
    assert s.received + [] + [] + [] == s.received;
  }

  function Cost(p: Publisher): nat {
    match p
    case Idle => 0
    case Numbered(_) => 8
    case Admitted(_) => 7
    case Appended => 3
  }

  function PublisherWork(publishers: seq<Publisher>): nat {
    if publishers == [] then 0 else Cost(publishers[0]) + PublisherWork(publishers[1..])
  }

  /** An upper bound on the internal steps that are left. */
  function Work(s: State): nat {
    |s.events| + 3 * |s.queue| + PublisherWork(s.publishers) + (if s.wake then 2 else 0) +
    match s.dispatcher {
      case AwaitsWake => 1
      case Drains => 2
      case Holds(_) => 4
      case Exited(_) => 0
    }
  }

  lemma {:induction false} WorkOfUpdate(publishers: seq<Publisher>, p: nat, pc: Publisher)
    requires p < |publishers|
    ensures PublisherWork(publishers[p := pc]) == PublisherWork(publishers) - Cost(publishers[p]) + Cost(pc)
  {
    if p > 0 {
      WorkOfUpdate(publishers[1..], p - 1, pc);
      assert publishers[p := pc][1..] == publishers[1..][p - 1 := pc];
    } else {
      assert publishers[p := pc][1..] == publishers[1..];
    }
  }

  lemma {:induction false} InternalStepsWorkOff(s: State, step: Step)
    requires Enabled(s, step) && Internal(step)
    ensures Work(Next(s, step)) < Work(s)
  {
    match step {
      case Begin(p) => WorkOfUpdate(s.publishers, p, Admitted(s.publishers[p].event));
      case Refuse(p) => WorkOfUpdate(s.publishers, p, Idle);
      case Append(p) => WorkOfUpdate(s.publishers, p, Appended);
      case Signal(p) => WorkOfUpdate(s.publishers, p, Idle);
      case _ =>
    }
  }

  lemma PathPrefix(trace: seq<State>, steps: seq<Step>)
    requires IsPath(trace, steps) && steps != []
    ensures IsPath(trace[..|trace| - 1], steps[..|steps| - 1])
  {
    var t, s := trace[..|trace| - 1], steps[..|steps| - 1];
    forall i | 0 <= i < |s|
      ensures StepAt(t, s, i)
    {
      assert StepAt(trace, steps, i);
    }
  }

  /** The internal steps always come to rest: no path of them is longer than the work
      left where it starts. */
  lemma {:induction false} InternalPathsEnd(trace: seq<State>, steps: seq<Step>)
    requires IsPath(trace, steps) && forall i :: 0 <= i < |steps| ==> Internal(steps[i])
    ensures |steps| + Work(trace[|steps|]) <= Work(trace[0])
    decreases |steps|
  {
    if steps != [] {
      var n := |steps| - 1;
      PathPrefix(trace, steps);
      InternalPathsEnd(trace[..|trace| - 1], steps[..n]);
      assert StepAt(trace, steps, n);
      InternalStepsWorkOff(trace[n], steps[n]);
    }
  }

  // ---------------------------------------------------------------- numbering and queueing

  ghost predicate Ascending(s: seq<Event>) {
    forall i, j :: 0 <= i < j < |s| ==> s[i] < s[j]
  }

  /** The publisher has numbered an update that it may still append. */
  predicate Pending(p: Publisher) {
    p.Numbered? || p.Admitted?
  }

  /** Publisher p does not number another update in the steps after a and before b. */
  ghost predicate SameUpdate(steps: seq<Step>, p: nat, a: nat, b: nat) {
    b <= |steps| && forall k :: a < k < b ==> steps[k] != Number(p)
  }

  /** Publisher p numbers at a and appends the same update at d. */
  ghost predicate Publishes(steps: seq<Step>, p: nat, a: nat, d: nat) {
    a < d < |steps| && steps[a] == Number(p) && steps[d] == Append(p) && SameUpdate(steps, p, a, d)
  }

  /** One publisher numbers and appends while another stands between the two. */
  ghost predicate Overtakes(steps: seq<Step>) {
    exists p: nat, q: nat, a: nat, b: nat, c: nat, d: nat :: Nested(steps, p, q, a, b, c, d)
  }

  ghost predicate Nested(steps: seq<Step>, p: nat, q: nat, a: nat, b: nat, c: nat, d: nat) {
    a < b < c < d && Publishes(steps, p, a, d) && Publishes(steps, q, b, c)
  }

  /** Publisher p numbered the update that it has not appended yet by the step a. */
  ghost predicate NumberedAt(trace: seq<State>, steps: seq<Step>, i: nat, p: nat, a: nat)
    requires |trace| == |steps| + 1 && i <= |steps| && p < |trace[i].publishers|
  {
    && a < i && steps[a] == Number(p) && SameUpdate(steps, p, a, i)
    && Pending(trace[i].publishers[p]) && trace[i].publishers[p].event == trace[a].nextSeq + 1
  }

  /** The update e was numbered by the step b and appended by the step c. */
  ghost predicate QueuedBy(trace: seq<State>, steps: seq<Step>, i: nat, e: Event, q: nat, b: nat, c: nat)
    requires |trace| == |steps| + 1 && i <= |steps|
  {
    c < i && Publishes(steps, q, b, c) && e == trace[b].nextSeq + 1
  }

  /** What is pending or appended goes back to the step that numbered it. */
  ghost predicate Traced(trace: seq<State>, steps: seq<Step>, i: nat)
    requires |trace| == |steps| + 1 && i <= |steps|
  {
    var s := trace[i];
    && (forall p :: 0 <= p < |s.publishers| && Pending(s.publishers[p]) ==> exists a: nat :: NumberedAt(trace, steps, i, p, a))
    && (forall e :: e in s.appended ==> exists q: nat, b: nat, c: nat :: QueuedBy(trace, steps, i, e, q, b, c))
  }

  /** Numbers are handed out once: later steps hand out larger ones. */
  lemma {:induction false} NumbersRise(trace: seq<State>, steps: seq<Step>, i: nat, j: nat)
    requires IsPath(trace, steps) && i <= j < |trace|
    ensures trace[i].nextSeq <= trace[j].nextSeq && |trace[i].publishers| == |trace[j].publishers|
    ensures i < j && steps[i].Number? ==> trace[i].nextSeq < trace[j].nextSeq
    decreases j - i
  {
    if i < j {
      NumbersRise(trace, steps, i, j - 1);
      assert StepAt(trace, steps, j - 1);
    }
  }

  /** While it numbers nothing else, a publisher holds its update or is through with it. */
  lemma {:induction false} HoldsUpdate(trace: seq<State>, steps: seq<Step>, p: nat, a: nat, i: nat)
    requires IsPath(trace, steps) && a < i < |trace| && steps[a] == Number(p) && SameUpdate(steps, p, a, i)
    ensures p < |trace[i].publishers|
    ensures var x := trace[i].publishers[p]; x.Idle? || x.Appended? || x.event == trace[a].nextSeq + 1
    decreases i
  {
    assert StepAt(trace, steps, i - 1);
    if a + 1 < i {
      HoldsUpdate(trace, steps, p, a, i - 1);
    }
  }

  lemma {:induction false} RunIsTraced(trace: seq<State>, steps: seq<Step>, i: nat)
    requires IsRun(trace, steps) && i <= |steps|
    ensures Traced(trace, steps, i)
  {
    if i > 0 {
      RunIsTraced(trace, steps, i - 1);
      var s, t, step := trace[i - 1], trace[i], steps[i - 1];
      assert StepAt(trace, steps, i - 1);
      forall p | 0 <= p < |t.publishers| && Pending(t.publishers[p])
        ensures exists a: nat :: NumberedAt(trace, steps, i, p, a)
      {
        PendingIsTraced(trace, steps, i, p);
      }
      forall e | e in t.appended
        ensures exists q: nat, b: nat, c: nat :: QueuedBy(trace, steps, i, e, q, b, c)
      {
        AppendedIsTraced(trace, steps, i, e);
      }
    }
  }

  lemma PendingIsTraced(trace: seq<State>, steps: seq<Step>, i: nat, p: nat)
    requires IsPath(trace, steps) && 0 < i <= |steps| && Traced(trace, steps, i - 1)
    requires p < |trace[i].publishers| && Pending(trace[i].publishers[p])
    ensures exists a: nat :: NumberedAt(trace, steps, i, p, a)
  {
    var s, step := trace[i - 1], steps[i - 1];
    assert StepAt(trace, steps, i - 1);
    if step == Number(p) {
      assert NumberedAt(trace, steps, i, p, i - 1);
    } else {
      assert Pending(s.publishers[p]);
      var a: nat :| NumberedAt(trace, steps, i - 1, p, a);
      assert NumberedAt(trace, steps, i, p, a);
    }
  }

  lemma AppendedIsTraced(trace: seq<State>, steps: seq<Step>, i: nat, e: Event)
    requires IsPath(trace, steps) && 0 < i <= |steps| && Traced(trace, steps, i - 1)
    requires e in trace[i].appended
    ensures exists q: nat, b: nat, c: nat :: QueuedBy(trace, steps, i, e, q, b, c)
  {
    var s, step := trace[i - 1], steps[i - 1];
    assert StepAt(trace, steps, i - 1);
    if e in s.appended {
      var q: nat, b: nat, c: nat :| QueuedBy(trace, steps, i - 1, e, q, b, c);
      assert QueuedBy(trace, steps, i, e, q, b, c);
    } else {
      assert Pending(s.publishers[step.p]);
      var a: nat :| NumberedAt(trace, steps, i - 1, step.p, a);
      assert QueuedBy(trace, steps, i, e, step.p, a, i - 1);
    }
  }

  /** Without overtaking the next update to be appended has the largest number so far. */
  lemma AppendsLargest(trace: seq<State>, steps: seq<Step>, d: nat)
    requires IsRun(trace, steps) && d < |steps| && steps[d].Append? && !Overtakes(steps)
    ensures Enabled(trace[d], steps[d])
    ensures forall f :: f in trace[d].appended ==> f < trace[d].publishers[steps[d].p].event
  {
    var s, p := trace[d], steps[d].p;
    assert StepAt(trace, steps, d);
    RunIsTraced(trace, steps, d);
    hide IsRun, QueuedBy, NumberedAt;
    var a: nat :| NumberedAt(trace, steps, d, p, a);
    forall f | f in s.appended
      ensures f < s.publishers[p].event
    {
      var q: nat, b: nat, c: nat :| QueuedBy(trace, steps, d, f, q, b, c);
      QueuedHasSmaller(trace, steps, d, a, f, q, b, c);
    }
  }

  lemma QueuedHasSmaller(trace: seq<State>, steps: seq<Step>, d: nat, a: nat, f: Event, q: nat, b: nat, c: nat)
    requires IsRun(trace, steps) && d < |steps| && steps[d].Append? && !Overtakes(steps) && Enabled(trace[d], steps[d])
    requires NumberedAt(trace, steps, d, steps[d].p, a) && QueuedBy(trace, steps, d, f, q, b, c)
    ensures f < trace[d].publishers[steps[d].p].event
  {
    var p := steps[d].p;
    if a < b {
      assert Nested(steps, p, q, a, b, c, d);
    } else if a == b {
      assert StepAt(trace, steps, c);
      StaysThrough(trace, steps, p, c + 1, d);
    } else {
      NumbersRise(trace, steps, b, a);
    }
  }

  /** Once through, a publisher is not pending again before it numbers another update. */
  lemma {:induction false} StaysThrough(trace: seq<State>, steps: seq<Step>, p: nat, c: nat, d: nat)
    requires IsPath(trace, steps) && c <= d < |trace| && p < |trace[c].publishers| && !Pending(trace[c].publishers[p])
    requires forall k :: c <= k < d ==> steps[k] != Number(p)
    ensures p < |trace[d].publishers| && !Pending(trace[d].publishers[p])
    decreases d - c
  {
    if c < d {
      StaysThrough(trace, steps, p, c, d - 1);
      assert StepAt(trace, steps, d - 1);
    }
  }

  lemma AscendsByLargest(s: seq<Event>, e: Event)
    requires Ascending(s) && forall f :: f in s ==> f < e
    ensures Ascending(s + [e])
  {
    assert forall i :: 0 <= i < |s| ==> s[i] in s;
  }

  lemma {:induction false} AscendsWithoutOvertaking(trace: seq<State>, steps: seq<Step>, i: nat)
    requires IsRun(trace, steps) && i <= |steps| && !Overtakes(steps)
    ensures Ascending(trace[i].appended)
  {
    if i > 0 {
      AscendsWithoutOvertaking(trace, steps, i - 1);
      assert StepAt(trace, steps, i - 1);
      if steps[i - 1].Append? {
        AppendsLargest(trace, steps, i - 1);
        hide IsRun, Overtakes;
        AscendsByLargest(trace[i - 1].appended, trace[i - 1].publishers[steps[i - 1].p].event);
      }
    }
  }

  lemma {:induction false} AppendedGrows(trace: seq<State>, steps: seq<Step>, i: nat, j: nat)
    requires IsPath(trace, steps) && i <= j < |trace|
    ensures trace[i].appended <= trace[j].appended
    decreases j - i
  {
    if i < j {
      AppendedGrows(trace, steps, i, j - 1);
      assert StepAt(trace, steps, j - 1);
    }
  }

  /** What a publisher numbers at a it appends at d. */
  lemma AppendsItsNumber(trace: seq<State>, steps: seq<Step>, p: nat, a: nat, d: nat)
    requires IsPath(trace, steps) && Publishes(steps, p, a, d)
    ensures trace[d + 1].appended == trace[d].appended + [trace[a].nextSeq + 1]
  {
    HoldsUpdate(trace, steps, p, a, d);
    assert StepAt(trace, steps, d);
  }

  lemma OvertakingDescends(trace: seq<State>, steps: seq<Step>, p: nat, q: nat, a: nat, b: nat, c: nat, d: nat)
    requires IsPath(trace, steps) && Nested(steps, p, q, a, b, c, d)
    ensures !Ascending(trace[|steps|].appended)
  {
    AppendsItsNumber(trace, steps, p, a, d);
    AppendsItsNumber(trace, steps, q, b, c);
    NumbersRise(trace, steps, a, b);
    AppendedGrows(trace, steps, c + 1, d);
    AppendedGrows(trace, steps, d + 1, |steps|);
    var late, early := |trace[d].appended|, |trace[c].appended|;
    var all := trace[|steps|].appended;
    assert all[early] == trace[b].nextSeq + 1 && all[late] == trace[a].nextSeq + 1;
  }

  /** Over every run: updates are queued in the order of their numbers exactly when no
      publisher numbers and appends while another stands between the two. */
  lemma QueuedInNumberOrderIff(trace: seq<State>, steps: seq<Step>)
    requires IsRun(trace, steps)
    ensures Ascending(trace[|steps|].appended) <==> !Overtakes(steps)
  {
    if Overtakes(steps) {
      hide Nested;
      var p: nat, q: nat, a: nat, b: nat, c: nat, d: nat :| Nested(steps, p, q, a, b, c, d);
      OvertakingDescends(trace, steps, p, q, a, b, c, d);
    } else {
      AscendsWithoutOvertaking(trace, steps, |steps|);
    }
  }

  /** So they are when publishers take turns, numbering only while no other has an update
      numbered and not yet queued. */
  lemma TurnsKeepNumberOrder(trace: seq<State>, steps: seq<Step>)
    requires IsRun(trace, steps)
    requires forall b, p :: 0 <= b < |steps| && steps[b].Number? && 0 <= p < |trace[b].publishers| ==> !Pending(trace[b].publishers[p])
    ensures Ascending(trace[|steps|].appended)
  {
    hide Nested, Ascending;
    QueuedInNumberOrderIff(trace, steps);
    if Overtakes(steps) {
      var p: nat, q: nat, a: nat, b: nat, c: nat, d: nat :| Nested(steps, p, q, a, b, c, d);
      OvertakenIsPending(trace, steps, p, q, a, b, c, d);
    }
  }

  lemma OvertakenIsPending(trace: seq<State>, steps: seq<Step>, p: nat, q: nat, a: nat, b: nat, c: nat, d: nat)
    requires IsPath(trace, steps) && Nested(steps, p, q, a, b, c, d)
    ensures b < |steps| && steps[b].Number? && p < |trace[b].publishers| && Pending(trace[b].publishers[p])
  {
    assert StepAt(trace, steps, d);
    NumbersRise(trace, steps, b, d);
    if !Pending(trace[b].publishers[p]) {
      StaysThrough(trace, steps, p, b, d);
    }
  }

  /** A run with overtaking: the update numbered second is queued first. */
  lemma {:induction false} NumberingOrderMayInvert()
    ensures exists trace: seq<State>, steps: seq<Step> ::
              && IsRun(trace, steps)
              && steps == [Number(0), Number(1), Begin(0), Begin(1), Append(1), Append(0)]
              && trace[6].appended == [2, 1]
  {
    var s0 := State(0, false, false, [], [], [Idle, Idle], AwaitsWake, [], []);
    var steps := [Number(0), Number(1), Begin(0), Begin(1), Append(1), Append(0)];
    var s1 := Next(s0, steps[0]);
    var s2 := Next(s1, steps[1]);
    var s3 := Next(s2, steps[2]);
    var s4 := Next(s3, steps[3]);
    var s5 := Next(s4, steps[4]);
    var s6 := Next(s5, steps[5]);
    assert s2.publishers == [Numbered(1), Numbered(2)] && s4.publishers == [Admitted(1), Admitted(2)];
    assert s5.appended == [2] && s6.appended == [2, 1];
    hide Next, Enabled;
    var trace := [s0, s1, s2, s3, s4, s5, s6];
    assert IsRun(trace, steps);
  }

  // ---------------------------------------------------------------- every update is delivered once

  function PendingCount(publishers: seq<Publisher>): nat {
    if publishers == [] then 0 else (if Pending(publishers[0]) then 1 else 0) + PendingCount(publishers[1..])
  }

  lemma {:induction false} PendingOfUpdate(publishers: seq<Publisher>, p: nat, pc: Publisher)
    requires p < |publishers|
    ensures PendingCount(publishers[p := pc])
      == PendingCount(publishers) - (if Pending(publishers[p]) then 1 else 0) + (if Pending(pc) then 1 else 0)
  {
    if p > 0 {
      PendingOfUpdate(publishers[1..], p - 1, pc);
      assert publishers[p := pc][1..] == publishers[1..][p - 1 := pc];
    } else {
      assert publishers[p := pc][1..] == publishers[1..];
    }
  }

  lemma {:induction false} NonePending(publishers: seq<Publisher>)
    requires forall p :: 0 <= p < |publishers| ==> !Pending(publishers[p])
    ensures PendingCount(publishers) == 0
  {
    if publishers != [] {
      assert forall p :: 0 <= p < |publishers[1..]| ==> publishers[1..][p] == publishers[p + 1];
      NonePending(publishers[1..]);
    }
  }

  /** Some publisher has the update and may still append it. */
  ghost predicate IsPending(publishers: seq<Publisher>, e: Event) {
    exists p :: 0 <= p < |publishers| && Pending(publishers[p]) && publishers[p].event == e
  }

  /** Each number handed out is appended or pending, and none twice. */
  ghost predicate Accounts(s: State) {
    && |s.appended| + PendingCount(s.publishers) == s.nextSeq
    && forall e :: 0 < e <= s.nextSeq ==> e in s.appended || IsPending(s.publishers, e)
  }

  lemma StaysPending(publishers: seq<Publisher>, p: nat, pc: Publisher, e: Event)
    requires p < |publishers| && IsPending(publishers, e)
    ensures IsPending(publishers[p := pc], e) || (Pending(publishers[p]) && publishers[p].event == e)
  {
    var q :| 0 <= q < |publishers| && Pending(publishers[q]) && publishers[q].event == e;
    assert q != p ==> publishers[p := pc][q] == publishers[q];
  }

  /** A publisher's step accounts for the same numbers when it keeps its update, or appends it. */
  lemma PublisherAccounts(s: State, t: State, p: nat, pc: Publisher)
    requires Accounts(s) && p < |s.publishers| && t.publishers == s.publishers[p := pc] && t.nextSeq == s.nextSeq
    requires s.appended <= t.appended && |t.appended| <= |s.appended| + 1
    requires |t.appended| - |s.appended| == (if Pending(s.publishers[p]) then 1 else 0) - (if Pending(pc) then 1 else 0)
    requires Pending(s.publishers[p]) ==>
      s.publishers[p].event in t.appended || (Pending(pc) && pc.event == s.publishers[p].event)
    ensures Accounts(t)
  {
    PendingOfUpdate(s.publishers, p, pc);
    forall e | 0 < e <= t.nextSeq
      ensures e in t.appended || IsPending(t.publishers, e)
    {
      if e in s.appended {
        var k :| 0 <= k < |s.appended| && s.appended[k] == e;
        assert t.appended[k] == e;
      } else {
        StaysPending(s.publishers, p, pc, e);
        assert t.publishers[p] == pc;
      }
    }
  }

  lemma NumberAccounts(s: State, p: nat)
    requires Accounts(s) && Enabled(s, Number(p))
    ensures Accounts(Next(s, Number(p)))
  {
    var t, pc := Next(s, Number(p)), Numbered(s.nextSeq + 1);
    PendingOfUpdate(s.publishers, p, pc);
    assert t.publishers[p] == pc;
    forall e | 0 < e <= t.nextSeq
      ensures e in t.appended || IsPending(t.publishers, e)
    {
      if e <= s.nextSeq && e !in s.appended {
        StaysPending(s.publishers, p, pc, e);
      }
    }
  }

  lemma StepAccounts(s: State, step: Step)
    requires Accounts(s) && Enabled(s, step) && !step.Refuse?
    ensures Accounts(Next(s, step))
  {
    hide Accounts;
    match step {
      case Number(p) => NumberAccounts(s, p);
      case Begin(p) => PublisherAccounts(s, Next(s, step), p, Admitted(s.publishers[p].event));
      case Append(p) => PublisherAccounts(s, Next(s, step), p, Appended);
      case Signal(p) => PublisherAccounts(s, Next(s, step), p, Idle);
      case Refuse(_) =>
      case _ => SameAccounts(s, Next(s, step));
    }
  }

  lemma SameAccounts(s: State, t: State)
    requires Accounts(s) && t.publishers == s.publishers && t.appended == s.appended && t.nextSeq == s.nextSeq
    ensures Accounts(t)
  {
  }

  lemma StartAccounts(s: State)
    requires Init(s)
    ensures Accounts(s)
  {
    NonePending(s.publishers);
  }

  lemma {:induction false} OpenRunAccounts(trace: seq<State>, steps: seq<Step>, i: nat)
    requires IsRun(trace, steps) && i < |trace| && !trace[i].done
    ensures Accounts(trace[i])
  {
    if i > 0 {
      assert StepAt(trace, steps, i - 1);
      assert !trace[i - 1].done;
      hide Accounts, IsRun, Next;
      OpenRunAccounts(trace, steps, i - 1);
      StepAccounts(trace[i - 1], steps[i - 1]);
    } else {
      StartAccounts(trace[0]);
    }
  }

  /** On an open subscriber, once nothing but a new update or a close can happen, every update
      that was numbered has been received, and none twice. */
  lemma {:induction false} AllNumbersAreReceived(trace: seq<State>, steps: seq<Step>, i: nat)
    requires IsRun(trace, steps) && i < |trace| && !trace[i].done
    requires forall step: Step :: Internal(step) ==> !Enabled(trace[i], step)
    ensures |trace[i].received| == trace[i].nextSeq
    ensures forall e :: 0 < e <= trace[i].nextSeq ==> e in trace[i].received
  {
    OpenRunAccounts(trace, steps, i);
    QuietMeansDelivered(trace, steps, i);
    NonePending(trace[i].publishers);
    hide IsRun, Enabled;
  }
}
