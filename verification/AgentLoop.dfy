/** The turn loop of an agent: its turn budget, its follow-up restarts and the ladder of
    nudges for a model that repeats itself. The model, the tools, the hooks and the queues
    are arbitrary. */
module AgentLoop {
  import opened CallSignature

  /** How a turn goes, once its steering messages are in. */
  datatype Turn =
    | Fails                    // a hook, a checkpoint, persisting or the provider fails
    | Breaks                   // a refreshed request or a transfer fails: an error, and no new status
    | Canceled                 // the caller canceled the run
    | Repeats                  // the provider reports a repetition loop in its stream
    | Guarded                  // a hook replaced the response by an error message
    | Interrupted              // a tool asked for an interrupt
    | HandsOver(result: string)  // a transfer, with what the target agent returns
    | Responds(content: string, normalized: string, calls: seq<Call>, truncated: bool)

  datatype FollowUp = NoneLeft | Queued | Unsaved

  /** Everything the loop cannot know: how the turns go, one after another, and what the
      queue holds each time it is drained. Past the end of the lists turns fail and the
      queue is empty; a run of at most m turns looks at no more than m entries of each. */
  datatype World = World(turns: seq<Turn>, followUps: seq<FollowUp>)

  function TurnOf(world: World, n: nat): Turn {
    if 0 < n <= |world.turns| then world.turns[n - 1] else Fails
  }

  function Drained(world: World, i: nat): FollowUp {
    if i < |world.followUps| then world.followUps[i] else NoneLeft
  }

  datatype Outcome =
    | Output(text: string)
    | Stopped
    | Paused
    | Handed(result: string)
    | Failed
    | Broken
    | TurnsExceeded
    | RepetitionStopped

  datatype Kind = Stream | Text | Tool

  /** A steering message that the loop itself sends. */
  datatype Note = Nudge(kind: Kind, attempt: nat, turn: nat) | FinalTurn(turn: nat)

  // ---------------------------------------------------------------- one turn

  /** A repetition detector: the last value seen, how often it came again, and how many
      nudges were sent. */
  datatype Detector = Detector(last: string, count: nat, attempts: nat)

  datatype Reading = Quiet(d: Detector) | Nudged(d: Detector) | GaveUp

  function Observe(d: Detector, x: string, maxAttempts: nat): Reading {
    if x != d.last then Quiet(Detector(x, 0, d.attempts))
    else if d.count + 1 < 2 then Quiet(Detector(x, d.count + 1, d.attempts))
    else if d.attempts < maxAttempts then Nudged(Detector("", 0, d.attempts + 1))
    else GaveUp
  }

  /** Text is compared only when there is some. */
  function ObserveText(d: Detector, x: string, maxAttempts: nat): Reading {
    if x == "" then Quiet(d) else Observe(d, x, maxAttempts)
  }

  datatype Ladder = Ladder(stream: nat, text: Detector, tool: Detector)

  datatype Step = Goes(ladder: Ladder, notes: seq<Note>) | Answers(text: string) | Ends(notes: seq<Note>, outcome: Outcome)

  function NoteOf(kind: Kind, r: Reading, attempts: nat, turn: nat): seq<Note> {
    if r.Nudged? then [Nudge(kind, attempts, turn)] else []
  }

  /** A turn whose tool calls were executed. */
  function OnTools(l: Ladder, turn: nat, text: string, sig: string, maxAttempts: nat): Step {
    var a := ObserveText(l.text, text, maxAttempts);
    if a.GaveUp? then Ends([], RepetitionStopped) else
      var b := Observe(l.tool, sig, maxAttempts);
      var notes := NoteOf(Text, a, l.text.attempts, turn);
      if b.GaveUp? then Ends(notes, RepetitionStopped)
      else Goes(Ladder(l.stream, a.d, b.d), notes + NoteOf(Tool, b, l.tool.attempts, turn))
  }

  function OnTurn(l: Ladder, turn: nat, world: World, maxAttempts: nat): Step {
    match TurnOf(world, turn)
    case Fails => Ends([], Failed)
    case Breaks => Ends([], Broken)
    case Canceled => Ends([], Stopped)
    case Repeats =>
      if l.stream < maxAttempts then Goes(l.(stream := l.stream + 1), [Nudge(Stream, l.stream, turn)])
      else Ends([], RepetitionStopped)
    case Guarded => Goes(l, [])
    case Interrupted => Ends([], Paused)
    case HandsOver(result) => Ends([], Handed(result))
    case Responds(content, normalized, calls, truncated) =>
      if calls == [] then Answers(content)
      else if truncated then Goes(l, [])
      else OnTools(l, turn, normalized, ToolCallSignature(calls), maxAttempts)
  }

  // ---------------------------------------------------------------- a whole run

  function NotesIn(step: Step): seq<Note> {
    if step.Answers? then [] else step.notes
  }

  datatype Report = Report(outcome: Outcome, turns: nat, notes: seq<Note>)

  function Noted(notes: seq<Note>, r: Report): Report {
    r.(notes := notes + r.notes)
  }

  /** The wrap-up instruction of the last turn. */
  function Grace(turn: nat, maxTurns: nat): seq<Note> {
    if 0 < maxTurns < 0x4000_0000 && turn == maxTurns then [FinalTurn(turn)] else []
  }

  function Fresh(): Ladder {
    Ladder(0, Detector("", 0, 0), Detector("", 0, 0))
  }

  /** What is left of a run after n turns and i restarts. */
  function Run(world: World, maxTurns: nat, maxAttempts: nat, n: nat, i: nat, l: Ladder): Report
    decreases maxTurns - n, 0
  {
    if n >= maxTurns then Report(TurnsExceeded, n, [])
    else Noted(Grace(n + 1, maxTurns),
      match OnTurn(l, n + 1, world, maxAttempts)
      case Goes(next, notes) => Noted(notes, Run(world, maxTurns, maxAttempts, n + 1, i, next))
      case Ends(notes, outcome) => Report(outcome, n + 1, notes)
      case Answers(text) => AfterAnswer(world, maxTurns, maxAttempts, n + 1, i, l, text))
  }

  /** Follow-up messages restart the loop, with the turns and the ladder as they are. */
  function AfterAnswer(world: World, maxTurns: nat, maxAttempts: nat, n: nat, i: nat, l: Ladder, text: string): Report
    decreases maxTurns - n, 1
  {
    match Drained(world, i)
    case NoneLeft => Report(Output(text), n, [])
    case Unsaved => Report(Failed, n, [])
    case Queued => Run(world, maxTurns, maxAttempts, n, i + 1, l)
  }

  /** The run has sent these notes, and rest is what is left of it. */
  ghost predicate Left(run: Report, sent: seq<Note>, rest: Report) {
    run == Noted(sent, rest)
  }

  predicate Is(run: Report, outcome: Outcome, turns: nat, notes: seq<Note>) {
    run.outcome == outcome && run.turns == turns && run.notes == notes
  }

  lemma LeftNow(run: Report, sent: seq<Note>, notes: seq<Note>, rest: Report)
    requires Left(run, sent, Noted(notes, rest))
    ensures Left(run, sent + notes, rest)
  {
    NotedTwice(sent, notes, rest);
  }

  /** One turn further into a run. */
  lemma RunUnfolds(world: World, maxTurns: nat, maxAttempts: nat, n: nat, i: nat, l: Ladder, run: Report, sent: seq<Note>,
      step: Step, now: seq<Note>)
    requires n < maxTurns && Left(run, sent, Run(world, maxTurns, maxAttempts, n, i, l))
    requires step == OnTurn(l, n + 1, world, maxAttempts)
    requires now == sent + Grace(n + 1, maxTurns) + NotesIn(step)
    ensures step.Goes? ==> Left(run, now, Run(world, maxTurns, maxAttempts, n + 1, i, step.ladder))
    ensures step.Ends? ==> Is(run, step.outcome, n + 1, now)
    ensures step.Answers? ==> Left(run, now, AfterAnswer(world, maxTurns, maxAttempts, n + 1, i, l, step.text))
  {
    hide OnTurn, Grace;
    var grace := Grace(n + 1, maxTurns);
    match step
    case Goes(next, notes) =>
      var rest := Run(world, maxTurns, maxAttempts, n + 1, i, next);
      assert Run(world, maxTurns, maxAttempts, n, i, l) == Noted(grace, Noted(notes, rest));
      hide Run, Left, Noted;
      LeftNow(run, sent, grace, Noted(notes, rest));
      LeftNow(run, sent + grace, notes, rest);
    case Ends(notes, outcome) =>
      assert sent + (grace + notes) == sent + grace + notes;
    case Answers(text) =>
      LeftNow(run, sent, grace, AfterAnswer(world, maxTurns, maxAttempts, n + 1, i, l, text));
      assert sent + grace + [] == sent + grace;
  }

  lemma NotedTwice(a: seq<Note>, b: seq<Note>, r: Report)
    ensures Noted(a, Noted(b, r)) == Noted(a + b, r)
  {
    assert a + (b + r.notes) == a + b + r.notes;
  }

  datatype Status = Running | Finished | StatusInterrupted | StatusError

  function StatusAfter(outcome: Outcome): Status {
    match outcome
    case Output(_) => Finished
    case Stopped => Finished
    case Handed(_) => Finished
    case Paused => StatusInterrupted
    case Failed => StatusError
    case Broken => Running
    case TurnsExceeded => StatusError
    case RepetitionStopped => StatusError
  }

  class Agent {
    const maxTurns: nat
    const maxAttempts: nat
    var turn: nat
    var status: Status
    var notes: seq<Note>

    constructor (maxTurns: nat, maxAttempts: nat)
      ensures this.maxTurns == maxTurns && this.maxAttempts == maxAttempts && turn == 0 && status == Running && notes == []
    {
      this.maxTurns, this.maxAttempts, turn, status, notes := maxTurns, maxAttempts, 0, Running, [];
    }

    /** The two detectors that look at a turn whose tool calls were executed. */
    method CheckRepetition(n: nat, normalizedContent: string, calls: seq<Call>, l: Ladder) returns (step: Step)
      requires n < 2 ==> l.text.last == ""
      modifies this`notes
      ensures step == OnTools(l, n, normalizedContent, ToolCallSignature(calls), maxAttempts)
      ensures notes == old(notes) + NotesIn(step)
      ensures step.Goes? || (step.Ends? && step.outcome == RepetitionStopped)
    {
      var lastContent, repeatCount, textRecoveryAttempts := l.text.last, l.text.count, l.text.attempts;
      var lastToolSignature, toolRepeatCount, toolRecoveryAttempts := l.tool.last, l.tool.count, l.tool.attempts;
      var sent: seq<Note> := [];
      if n >= 2 && normalizedContent != "" && normalizedContent == lastContent {
        repeatCount := repeatCount + 1;
        if repeatCount >= 2 {
          if textRecoveryAttempts < maxAttempts {
            sent := sent + [Nudge(Text, textRecoveryAttempts, n)];
            textRecoveryAttempts := textRecoveryAttempts + 1;
            lastContent := "";
            repeatCount := 0;
          } else {
            notes := notes + sent;
            return Ends(sent, RepetitionStopped);
          }
        }
      } else if normalizedContent != "" {
        lastContent := normalizedContent;
        repeatCount := 0;
      }
      var sig := ToolCallSignature(calls);
      if sig == lastToolSignature {
        toolRepeatCount := toolRepeatCount + 1;
        if toolRepeatCount >= 2 {
          if toolRecoveryAttempts < maxAttempts {
            sent := sent + [Nudge(Tool, toolRecoveryAttempts, n)];
            toolRecoveryAttempts := toolRecoveryAttempts + 1;
            lastToolSignature := "";
            toolRepeatCount := 0;
          } else {
            notes := notes + sent;
            return Ends(sent, RepetitionStopped);
          }
        }
      } else {
        lastToolSignature := sig;
        toolRepeatCount := 0;
      }
      notes := notes + sent;
      step := Goes(Ladder(l.stream, Detector(lastContent, repeatCount, textRecoveryAttempts),
        Detector(lastToolSignature, toolRepeatCount, toolRecoveryAttempts)), sent);
    }

    /** What the loop does with one turn, after its steering messages. */
    method TakeTurn(world: World, n: nat, ladder: Ladder) returns (step: Step)
      requires n < 2 ==> ladder.text.last == ""
      requires status == Running
      modifies this`status, this`notes
      ensures step == OnTurn(ladder, n, world, maxAttempts)
      ensures notes == old(notes) + NotesIn(step)
      ensures step.Ends? ==> !step.outcome.TurnsExceeded?
      ensures status == match step case Goes(_, _) => Running case Answers(_) => Finished case Ends(_, outcome) => StatusAfter(outcome)
    {
      hide OnTools, ToolCallSignature;
      match TurnOf(world, n)
      case Fails =>
        status := StatusError;
        return Ends([], Failed);
      case Breaks =>
        return Ends([], Broken);
      case Canceled =>
        status := Finished;
        return Ends([], Stopped);
      case Repeats =>
        if ladder.stream < maxAttempts {
          var note := Nudge(Stream, ladder.stream, n);
          notes := notes + [note];
          return Goes(ladder.(stream := ladder.stream + 1), [note]);
        }
        status := StatusError;
        return Ends([], RepetitionStopped);
      case Guarded =>
        return Goes(ladder, []);
      case Interrupted =>
        status := StatusInterrupted;
        return Ends([], Paused);
      case HandsOver(result) =>
        status := Finished;
        return Ends([], Handed(result));
      case Responds(content, normalized, calls, truncated) =>
        if |calls| == 0 {
          status := Finished;
          return Answers(content);
        }
        if truncated {
          return Goes(ladder, []);
        }
        step := CheckRepetition(n, normalized, calls, ladder);
        if step.Ends? {
          status := StatusError;
        }
    }

    /** The run so far: its notes come after those in base, and rest is what is left. */
    ghost predicate OnTrack(base: seq<Note>, run: Report, sent: seq<Note>, rest: Report)
      reads this`notes
    {
      notes == base + sent && Left(run, sent, rest)
    }

    /** The run is over, with everything as it should be. */
    ghost predicate Over(base: seq<Note>, start: nat, run: Report, outcome: Outcome)
      reads this
    {
      && outcome == run.outcome && notes == base + run.notes
      && turn == start + run.turns + (if outcome.TurnsExceeded? then 1 else 0)
      && status == StatusAfter(outcome)
    }

    /** The inner loop: turns until the model answers or the run ends. */
    method ProcessTurns(world: World, start: nat, first: Ladder, ghost i: nat, ghost base: seq<Note>,
        ghost run: Report, ghost before: seq<Note>)
      returns (ladder: Ladder, ended: bool, outcome: Outcome, finalOutput: string, ghost sent: seq<Note>)
      requires status == Running && start <= turn <= start + maxTurns && (turn == start ==> first == Fresh())
      requires OnTrack(base, run, before, Run(world, maxTurns, maxAttempts, turn - start, i, first))
      modifies this
      ensures ended ==> Over(base, start, run, outcome)
      ensures !ended ==> status == Finished && old(turn) < turn <= start + maxTurns
      ensures !ended ==>
        OnTrack(base, run, sent, AfterAnswer(world, maxTurns, maxAttempts, turn - start, i, ladder, finalOutput))
    {
      hide Left, Run, AfterAnswer, OnTurn;
      ladder, finalOutput, sent := first, "", before;
      while status == Running
        invariant start <= turn <= start + maxTurns && old(turn) <= turn
        invariant status == Running || (status == Finished && old(turn) < turn)
        invariant turn == start ==> ladder == Fresh()
        invariant status == Running ==> OnTrack(base, run, sent, Run(world, maxTurns, maxAttempts, turn - start, i, ladder))
        invariant status == Finished ==>
          OnTrack(base, run, sent, AfterAnswer(world, maxTurns, maxAttempts, turn - start, i, ladder, finalOutput))
        decreases start + maxTurns - turn, if status == Running then 1 else 0
      {
        turn := turn + 1;
        var n := turn - start;
        if n > maxTurns {
          RunExceeds(world, maxTurns, maxAttempts, n - 1, i, ladder, run, sent);
          status := StatusError;
          return ladder, true, TurnsExceeded, "", sent;
        }
        if 0 < maxTurns < 0x4000_0000 && n == maxTurns {
          notes := notes + [FinalTurn(n)];
        }
        var step := TakeTurn(world, n, ladder);
        ghost var now := sent + Grace(n, maxTurns) + NotesIn(step);
        RunUnfolds(world, maxTurns, maxAttempts, n - 1, i, ladder, run, sent, step, now);
        assert notes == base + now;
        sent := now;
        match step
        case Goes(next, _) =>
          ladder := next;
        case Ends(_, ending) =>
          return ladder, true, ending, "", sent;
        case Answers(text) =>
          finalOutput := text;
      }
      return ladder, false, Stopped, finalOutput, sent;
    }

    /** After an answer, queued follow-up messages start the loop again. */
    method DrainFollowUps(world: World, i: nat, finalOutput: string, start: nat, ladder: Ladder,
        ghost base: seq<Note>, ghost run: Report, ghost sent: seq<Note>)
      returns (again: bool, outcome: Outcome)
      requires status == Finished && start <= turn <= start + maxTurns
      requires OnTrack(base, run, sent, AfterAnswer(world, maxTurns, maxAttempts, turn - start, i, ladder, finalOutput))
      modifies this`status
      ensures again ==> status == Running && OnTrack(base, run, sent, Run(world, maxTurns, maxAttempts, turn - start, i + 1, ladder))
      ensures !again ==> Over(base, start, run, outcome)
    {
      AnswerUnfolds(world, maxTurns, maxAttempts, turn - start, i, ladder, finalOutput, run, sent);
      hide Left, Run, AfterAnswer, Drained;
      var followUps := Drained(world, i);
      if followUps.NoneLeft? {
        return false, Output(finalOutput);
      }
      status := Running;
      if followUps.Unsaved? {
        status := StatusError;
        return false, Failed;
      }
      return true, Stopped;
    }

    method RunLoop(world: World) returns (outcome: Outcome)
      modifies this
      ensures Over(old(notes), old(turn), Run(world, maxTurns, maxAttempts, 0, 0, Fresh()), outcome)
    {
      ghost var run := Run(world, maxTurns, maxAttempts, 0, 0, Fresh());
      ghost var base, sent: seq<Note> := notes, [];
      assert OnTrack(base, run, sent, run);
      hide Left, Run, AfterAnswer, OnTrack, Over;
      var start := turn;
      var ladder := Fresh();
      var drains := 0;
      status := Running;
      while true
        invariant start == old(turn) <= turn <= start + maxTurns && status == Running
        invariant turn == start ==> ladder == Fresh()
        invariant OnTrack(base, run, sent, Run(world, maxTurns, maxAttempts, turn - start, drains, ladder))
        decreases start + maxTurns - turn
      {
        var ended, finalOutput;
        ladder, ended, outcome, finalOutput, sent := ProcessTurns(world, start, ladder, drains, base, run, sent);
        if ended {
          return;
        }
        var again;
        again, outcome := DrainFollowUps(world, drains, finalOutput, start, ladder, base, run, sent);
        drains := drains + 1;
        if !again {
          return;
        }
      }
    }
  }

  lemma AnswerUnfolds(world: World, maxTurns: nat, maxAttempts: nat, n: nat, i: nat, l: Ladder, text: string,
      run: Report, sent: seq<Note>)
    requires Left(run, sent, AfterAnswer(world, maxTurns, maxAttempts, n, i, l, text))
    ensures Drained(world, i).NoneLeft? ==> Is(run, Output(text), n, sent)
    ensures Drained(world, i).Unsaved? ==> Is(run, Failed, n, sent)
    ensures Drained(world, i).Queued? ==> Left(run, sent, Run(world, maxTurns, maxAttempts, n, i + 1, l))
  {
  }

  lemma RunExceeds(world: World, maxTurns: nat, maxAttempts: nat, n: nat, i: nat, l: Ladder, run: Report, sent: seq<Note>)
    requires n >= maxTurns && Left(run, sent, Run(world, maxTurns, maxAttempts, n, i, l))
    ensures Is(run, TurnsExceeded, n, sent)
  {
  }

  // ---------------------------------------------------------------- the turn budget

  /** However the turns go and however often follow-ups restart the loop, a run takes at
      most maxTurns turns, and fails for exceeding them only after all of them. */
  lemma {:induction false} TurnBudget(world: World, maxTurns: nat, maxAttempts: nat, n: nat, i: nat, l: Ladder)
    requires n <= maxTurns
    ensures var run := Run(world, maxTurns, maxAttempts, n, i, l);
      n <= run.turns <= maxTurns && (n < maxTurns ==> n < run.turns) && (run.outcome.TurnsExceeded? ==> run.turns == maxTurns)
    decreases maxTurns - n
  {
    if n < maxTurns {
      StepNotes(l, n + 1, world, maxAttempts);
      hide OnTurn;
      match OnTurn(l, n + 1, world, maxAttempts)
      case Goes(next, _) =>
        TurnBudget(world, maxTurns, maxAttempts, n + 1, i, next);
      case Ends(_, _) =>
      case Answers(_) =>
        if Drained(world, i).Queued? {
          TurnBudget(world, maxTurns, maxAttempts, n + 1, i + 1, l);
        }
    }
  }

  /** The wrap-up instruction is sent exactly in the runs that reach their last turn. */
  lemma {:induction false} LastTurnIsAnnounced(world: World, maxTurns: nat, maxAttempts: nat, n: nat, i: nat, l: Ladder)
    requires n < maxTurns < 0x4000_0000
    ensures var run := Run(world, maxTurns, maxAttempts, n, i, l);
      FinalTurn(maxTurns) in run.notes <==> run.turns == maxTurns
    decreases maxTurns - n
  {
    var step, rest := OnTurn(l, n + 1, world, maxAttempts), Rest(world, maxTurns, maxAttempts, n, i, l);
    StepNotes(l, n + 1, world, maxAttempts);
    RunNotes(world, maxTurns, maxAttempts, n, i, l);
    TurnBudget(world, maxTurns, maxAttempts, n, i, l);
    var run := Run(world, maxTurns, maxAttempts, n, i, l);
    assert FinalTurn(maxTurns) !in NotesIn(step);
    assert FinalTurn(maxTurns) in run.notes <==> FinalTurn(maxTurns) in Grace(n + 1, maxTurns) || FinalTurn(maxTurns) in rest;
    hide OnTurn;
    if n + 1 < maxTurns {
      match step
      case Goes(next, _) =>
        LastTurnIsAnnounced(world, maxTurns, maxAttempts, n + 1, i, next);
      case Ends(_, _) =>
      case Answers(_) =>
        if Drained(world, i).Queued? {
          LastTurnIsAnnounced(world, maxTurns, maxAttempts, n + 1, i + 1, l);
        }
    }
  }

  /** A turn sends nudges of its own number only. */
  lemma StepNotes(l: Ladder, turn: nat, world: World, maxAttempts: nat)
    ensures var step := OnTurn(l, turn, world, maxAttempts);
      (forall note :: note in NotesIn(step) ==> note.Nudge? && note.turn == turn)
      && (step.Ends? ==> !step.outcome.TurnsExceeded?)
  {
  }

  // ---------------------------------------------------------------- the ladder

  /** The attempt numbers of the nudges of one kind, in the order they were sent. */
  function Attempts(notes: seq<Note>, kind: Kind): seq<nat> {
    if notes == [] then []
    else (if notes[0].Nudge? && notes[0].kind == kind then [notes[0].attempt] else []) + Attempts(notes[1..], kind)
  }

  function Made(l: Ladder, kind: Kind): nat {
    match kind
    case Stream => l.stream
    case Text => l.text.attempts
    case Tool => l.tool.attempts
  }

  lemma {:induction false} AttemptsJoin(a: seq<Note>, b: seq<Note>, kind: Kind)
    ensures Attempts(a + b, kind) == Attempts(a, kind) + Attempts(b, kind)
  {
    if a == [] {
      assert a + b == b;
    } else {
      assert (a + b)[1..] == a[1..] + b;
      AttemptsJoin(a[1..], b, kind);
    }
  }

  lemma GraceIsNoNudge(turn: nat, maxTurns: nat, kind: Kind)
    ensures Attempts(Grace(turn, maxTurns), kind) == []
  {
  }

  /** The attempts go up one by one from k and stay below max. */
  ghost predicate Climbs(attempts: seq<nat>, k: nat, max: nat) {
    k + |attempts| <= max && forall j :: 0 <= j < |attempts| ==> attempts[j] == k + j
  }

  predicate OneRung(attempts: seq<nat>, k: nat, max: nat) {
    attempts == [] || (attempts == [k] && k < max)
  }

  ghost predicate WithinAttempts(l: Ladder, maxAttempts: nat) {
    forall kind :: Made(l, kind) <= maxAttempts
  }

  lemma ObserveClimbs(d: Detector, x: string, maxAttempts: nat)
    requires d.attempts <= maxAttempts
    ensures var r := ObserveText(d, x, maxAttempts);
      (r.Quiet? ==> r.d.attempts == d.attempts) && (r.Nudged? ==> r.d.attempts == d.attempts + 1 <= maxAttempts)
    ensures var r := Observe(d, x, maxAttempts);
      (r.Quiet? ==> r.d.attempts == d.attempts) && (r.Nudged? ==> r.d.attempts == d.attempts + 1 <= maxAttempts)
  {
  }

  lemma NoteAttempts(sent: Kind, r: Reading, attempts: nat, turn: nat, kind: Kind)
    ensures Attempts(NoteOf(sent, r, attempts, turn), kind) == if r.Nudged? && sent == kind then [attempts] else []
  {
  }

  lemma NoAttempts(kind: Kind)
    ensures Attempts([], kind) == []
  {
  }

  lemma ToolsClimb(l: Ladder, turn: nat, text: string, sig: string, maxAttempts: nat, kind: Kind)
    requires WithinAttempts(l, maxAttempts)
    ensures var step := OnTools(l, turn, text, sig, maxAttempts);
      var sent := Attempts(NotesIn(step), kind);
      OneRung(sent, Made(l, kind), maxAttempts) && (step.Goes? ==> Made(step.ladder, kind) == Made(l, kind) + |sent|)
  {
    var a, b := ObserveText(l.text, text, maxAttempts), Observe(l.tool, sig, maxAttempts);
    assert Made(l, Text) <= maxAttempts && Made(l, Tool) <= maxAttempts && Made(l, kind) <= maxAttempts;
    ObserveClimbs(l.text, text, maxAttempts);
    ObserveClimbs(l.tool, sig, maxAttempts);
    hide Observe, ObserveText, WithinAttempts;
    var first, second := NoteOf(Text, a, l.text.attempts, turn), NoteOf(Tool, b, l.tool.attempts, turn);
    hide NoteOf;
    NoAttempts(kind);
    NoteAttempts(Text, a, l.text.attempts, turn, kind);
    NoteAttempts(Tool, b, l.tool.attempts, turn, kind);
    AttemptsJoin(first, second, kind);
    hide Attempts;
    if kind == Text {
      assert Attempts(second, kind) == [];
    } else {
      assert Attempts(first, kind) == [];
    }
  }

  /** One turn climbs the ladder of each kind by at most one step. */
  lemma StepClimbs(l: Ladder, turn: nat, world: World, maxAttempts: nat, kind: Kind)
    requires WithinAttempts(l, maxAttempts)
    ensures var step := OnTurn(l, turn, world, maxAttempts);
      var sent := Attempts(NotesIn(step), kind);
      OneRung(sent, Made(l, kind), maxAttempts) && (step.Goes? ==> Made(step.ladder, kind) == Made(l, kind) + |sent|)
  {
    var t := TurnOf(world, turn);
    if t.Responds? {
      ToolsClimb(l, turn, t.normalized, ToolCallSignature(t.calls), maxAttempts, kind);
    }
    assert Made(l, kind) <= maxAttempts;
    hide OnTools, ToolCallSignature, WithinAttempts, TurnOf;
  }

  lemma StepGivesUp(l: Ladder, turn: nat, world: World, maxAttempts: nat) returns (kind: Kind)
    requires WithinAttempts(l, maxAttempts)
    requires OnTurn(l, turn, world, maxAttempts).Ends? && OnTurn(l, turn, world, maxAttempts).outcome.RepetitionStopped?
    ensures Made(l, kind) == maxAttempts && Attempts(NotesIn(OnTurn(l, turn, world, maxAttempts)), kind) == []
  {
    var t := TurnOf(world, turn);
    assert Made(l, Stream) <= maxAttempts && Made(l, Text) <= maxAttempts && Made(l, Tool) <= maxAttempts;
    if t.Repeats? {
      kind := Stream;
    } else if ObserveText(l.text, t.normalized, maxAttempts).GaveUp? {
      kind := Text;
    } else {
      kind := Tool;
    }
  }

  lemma AttemptsSplit(world: World, maxTurns: nat, maxAttempts: nat, n: nat, i: nat, l: Ladder, kind: Kind)
    requires n < maxTurns
    ensures Attempts(Run(world, maxTurns, maxAttempts, n, i, l).notes, kind)
      == Attempts(NotesIn(OnTurn(l, n + 1, world, maxAttempts)), kind) + Attempts(Rest(world, maxTurns, maxAttempts, n, i, l), kind)
  {
    var step, rest := OnTurn(l, n + 1, world, maxAttempts), Rest(world, maxTurns, maxAttempts, n, i, l);
    RunNotes(world, maxTurns, maxAttempts, n, i, l);
    AttemptsJoin(Grace(n + 1, maxTurns), NotesIn(step) + rest, kind);
    AttemptsJoin(NotesIn(step), rest, kind);
    GraceIsNoNudge(n + 1, maxTurns, kind);
  }

  lemma NextWithin(l: Ladder, turn: nat, world: World, maxAttempts: nat)
    requires WithinAttempts(l, maxAttempts) && OnTurn(l, turn, world, maxAttempts).Goes?
    ensures WithinAttempts(OnTurn(l, turn, world, maxAttempts).ladder, maxAttempts)
  {
    forall k
      ensures Made(OnTurn(l, turn, world, maxAttempts).ladder, k) <= maxAttempts
    {
      assert Made(l, k) <= maxAttempts;
      StepClimbs(l, turn, world, maxAttempts, k);
    }
  }

  lemma RestAre(world: World, maxTurns: nat, maxAttempts: nat, n: nat, i: nat, l: Ladder)
    requires n < maxTurns
    ensures var step, rest := OnTurn(l, n + 1, world, maxAttempts), Rest(world, maxTurns, maxAttempts, n, i, l);
      && (step.Goes? ==> rest == Run(world, maxTurns, maxAttempts, n + 1, i, step.ladder).notes)
      && (step.Ends? ==> rest == [])
      && (step.Answers? ==>
            rest == if Drained(world, i).Queued? then Run(world, maxTurns, maxAttempts, n + 1, i + 1, l).notes else [])
  {
    hide OnTurn, Run;
  }

  lemma ClimbsOn(sent: seq<nat>, rest: seq<nat>, k: nat, max: nat)
    requires OneRung(sent, k, max) && k <= max && (rest == [] || Climbs(rest, k + |sent|, max))
    ensures Climbs(sent + rest, k, max)
  {
  }

  lemma AnswerSendsNothing(l: Ladder, turn: nat, world: World, maxAttempts: nat, kind: Kind)
    ensures var step := OnTurn(l, turn, world, maxAttempts);
      step.Answers? ==> Attempts(NotesIn(step), kind) == []
    ensures Attempts([], kind) == []
  {
    hide OnTurn;
  }

  lemma NoTurnsLeft(world: World, maxTurns: nat, maxAttempts: nat, i: nat, l: Ladder)
    ensures Run(world, maxTurns, maxAttempts, maxTurns, i, l) == Report(TurnsExceeded, maxTurns, [])
  {
  }

  /** How a run ends, by its next turn. */
  lemma RunAfterTurn(world: World, maxTurns: nat, maxAttempts: nat, n: nat, i: nat, l: Ladder)
    requires n < maxTurns
    ensures var step, run := OnTurn(l, n + 1, world, maxAttempts), Run(world, maxTurns, maxAttempts, n, i, l);
      match step
      case Goes(next, _) =>
        var rest := Run(world, maxTurns, maxAttempts, n + 1, i, next);
        run.outcome == rest.outcome && run.turns == rest.turns
      case Ends(_, outcome) => run.outcome == outcome && run.turns == n + 1
      case Answers(text) =>
        match Drained(world, i)
        case NoneLeft => run.outcome == Output(text) && run.turns == n + 1
        case Unsaved => run.outcome == Failed && run.turns == n + 1
        case Queued =>
          var rest := Run(world, maxTurns, maxAttempts, n + 1, i + 1, l);
          run.outcome == rest.outcome && run.turns == rest.turns
  {
    hide OnTurn, Grace;
  }

  /** What is left of a run after its next turn climbs on from where that turn leaves. */
  ghost predicate RestClimbs(world: World, maxTurns: nat, maxAttempts: nat, n: nat, i: nat, l: Ladder, kind: Kind) {
    var step := OnTurn(l, n + 1, world, maxAttempts);
    && (step.Goes? ==>
          Climbs(Attempts(Run(world, maxTurns, maxAttempts, n + 1, i, step.ladder).notes, kind), Made(step.ladder, kind), maxAttempts))
    && (step.Answers? && Drained(world, i).Queued? ==>
          Climbs(Attempts(Run(world, maxTurns, maxAttempts, n + 1, i + 1, l).notes, kind), Made(l, kind), maxAttempts))
  }

  lemma RungClimbs(world: World, maxTurns: nat, maxAttempts: nat, n: nat, i: nat, l: Ladder, kind: Kind)
    requires n < maxTurns && WithinAttempts(l, maxAttempts) && RestClimbs(world, maxTurns, maxAttempts, n, i, l, kind)
    ensures Climbs(Attempts(Run(world, maxTurns, maxAttempts, n, i, l).notes, kind), Made(l, kind), maxAttempts)
  {
    assert Made(l, kind) <= maxAttempts;
    var step, rest := OnTurn(l, n + 1, world, maxAttempts), Rest(world, maxTurns, maxAttempts, n, i, l);
    hide OnTurn, Run, Rest, Attempts, NotesIn, Made, Climbs, OneRung, WithinAttempts;
    AnswerSendsNothing(l, n + 1, world, maxAttempts, kind);
    StepClimbs(l, n + 1, world, maxAttempts, kind);
    AttemptsSplit(world, maxTurns, maxAttempts, n, i, l, kind);
    RestAre(world, maxTurns, maxAttempts, n, i, l);
    ClimbsOn(Attempts(NotesIn(step), kind), Attempts(rest, kind), Made(l, kind), maxAttempts);
  }

  /** Over a whole run the nudges of each kind are numbered 0, 1, 2 and so on, and there are
      at most maxAttempts of them. */
  lemma {:induction false} LadderIsClimbed(world: World, maxTurns: nat, maxAttempts: nat, n: nat, i: nat, l: Ladder,
      kind: Kind)
    requires n <= maxTurns && WithinAttempts(l, maxAttempts)
    ensures Climbs(Attempts(Run(world, maxTurns, maxAttempts, n, i, l).notes, kind), Made(l, kind), maxAttempts)
    decreases maxTurns - n
  {
    if n == maxTurns {
      assert Made(l, kind) <= maxAttempts;
      NoTurnsLeft(world, maxTurns, maxAttempts, i, l);
      hide Run;
    } else {
      var step := OnTurn(l, n + 1, world, maxAttempts);
      hide OnTurn, Run, Attempts, Made, Climbs, WithinAttempts;
      if step.Goes? {
        NextWithin(l, n + 1, world, maxAttempts);
        LadderIsClimbed(world, maxTurns, maxAttempts, n + 1, i, step.ladder, kind);
      }
      if step.Answers? && Drained(world, i).Queued? {
        LadderIsClimbed(world, maxTurns, maxAttempts, n + 1, i + 1, l, kind);
      }
      RungClimbs(world, maxTurns, maxAttempts, n, i, l, kind);
    }
  }

  /** A run that is stopped for repetition had all the nudges of one kind. */
  lemma {:induction false} GivesUpAtTheTop(world: World, maxTurns: nat, maxAttempts: nat, n: nat, i: nat,
      l: Ladder) returns (kind: Kind)
    requires n <= maxTurns && WithinAttempts(l, maxAttempts)
    requires Run(world, maxTurns, maxAttempts, n, i, l).outcome.RepetitionStopped?
    ensures Made(l, kind) + |Attempts(Run(world, maxTurns, maxAttempts, n, i, l).notes, kind)| == maxAttempts
    decreases maxTurns - n
  {
    var step := OnTurn(l, n + 1, world, maxAttempts);
    match step {
      case Goes(next, notes) =>
        NextWithin(l, n + 1, world, maxAttempts);
        kind := GivesUpAtTheTop(world, maxTurns, maxAttempts, n + 1, i, next);
        StepClimbs(l, n + 1, world, maxAttempts, kind);
      case Ends(notes, outcome) =>
        kind := StepGivesUp(l, n + 1, world, maxAttempts);
      case Answers(text) =>
        kind := GivesUpAtTheTop(world, maxTurns, maxAttempts, n + 1, i + 1, l);
    }
    AttemptsSplit(world, maxTurns, maxAttempts, n, i, l, kind);
  }

  /** The notes of a run after its next turn. */
  function Rest(world: World, maxTurns: nat, maxAttempts: nat, n: nat, i: nat, l: Ladder): seq<Note> {
    match OnTurn(l, n + 1, world, maxAttempts)
    case Goes(next, _) => Run(world, maxTurns, maxAttempts, n + 1, i, next).notes
    case Ends(_, _) => []
    case Answers(text) => AfterAnswer(world, maxTurns, maxAttempts, n + 1, i, l, text).notes
  }

  lemma RunNotes(world: World, maxTurns: nat, maxAttempts: nat, n: nat, i: nat, l: Ladder)
    requires n < maxTurns
    ensures Run(world, maxTurns, maxAttempts, n, i, l).notes
      == Grace(n + 1, maxTurns) + (NotesIn(OnTurn(l, n + 1, world, maxAttempts)) + Rest(world, maxTurns, maxAttempts, n, i, l))
  {
    hide OnTurn, Grace;
  }
}
