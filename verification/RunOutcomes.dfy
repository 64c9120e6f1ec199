/** How a run ends, in terms of the turns it took. */
module RunOutcomes {
  import opened AgentLoop
  import opened CallSignature

  /** The model answers: it asks for no tools. */
  predicate IsAnswer(t: Turn) {
    t.Responds? && t.calls == []
  }

  /** How many of the first n turns are answers. */
  function AnswersIn(world: World, n: nat): nat {
    if n == 0 then 0 else AnswersIn(world, n - 1) + if IsAnswer(TurnOf(world, n)) then 1 else 0
  }

  /** What the queue of follow-ups holds when turn n, an answer, is through: each answer drains
      it once. */
  function FollowUpAfter(world: World, n: nat): FollowUp {
    var answers := AnswersIn(world, n);
    if answers == 0 then NoneLeft else Drained(world, answers - 1)
  }

  /** The run does not end with turn n, unless a detector gives up or the turns are used up. */
  predicate GoesOn(world: World, n: nat) {
    var t := TurnOf(world, n);
    t.Repeats? || t.Guarded? || (t.Responds? && (IsAnswer(t) ==> FollowUpAfter(world, n).Queued?))
  }

  /** The outcome of a run whose last turn is turn n. */
  predicate EndsWith(world: World, n: nat, outcome: Outcome) {
    var t := TurnOf(world, n);
    match outcome
    case Output(text) => IsAnswer(t) && t.content == text && FollowUpAfter(world, n).NoneLeft?
    case Stopped => t.Canceled?
    case Paused => t.Interrupted?
    case Handed(result) => t == HandsOver(result)
    case Failed => t.Fails? || (IsAnswer(t) && FollowUpAfter(world, n).Unsaved?)
    case Broken => t.Breaks?
    case TurnsExceeded => GoesOn(world, n)
    case RepetitionStopped => t.Repeats? || (t.Responds? && t.calls != [] && !t.truncated)
  }

  /** What turn n does to a run that goes on after it. */
  lemma TurnEndsOrGoesOn(world: World, maxAttempts: nat, n: nat, l: Ladder)
    requires n > 0
    ensures var step := OnTurn(l, n, world, maxAttempts);
      && (step.Goes? ==> GoesOn(world, n) && !IsAnswer(TurnOf(world, n)))
      && (step.Answers? ==> IsAnswer(TurnOf(world, n)) && TurnOf(world, n).Responds? && TurnOf(world, n).content == step.text)
      && (step.Ends? ==> EndsWith(world, n, step.outcome) && !step.outcome.TurnsExceeded?)
  {
    hide ToolCallSignature, AnswersIn;
  }

  /** Of the turns after turn n all but the last go on, and the last one ends the run. */
  ghost predicate EndsAfter(world: World, maxTurns: nat, n: nat, turns: nat, outcome: Outcome) {
    && n < turns <= maxTurns
    && EndsWith(world, turns, outcome) && (outcome.TurnsExceeded? ==> turns == maxTurns)
    && forall k :: n < k < turns ==> GoesOn(world, k)
  }

  lemma {:induction false} EndsFrom(world: World, maxTurns: nat, maxAttempts: nat, n: nat, l: Ladder)
    requires n < maxTurns
    ensures var run := Run(world, maxTurns, maxAttempts, n, AnswersIn(world, n), l);
      EndsAfter(world, maxTurns, n, run.turns, run.outcome)
    decreases maxTurns - n, 0
  {
    hide *;
    var i := AnswersIn(world, n);
    var step := OnTurn(l, n + 1, world, maxAttempts);
    AnswersUpTo(world, n);
    TurnEndsOrGoesOn(world, maxAttempts, n + 1, l);
    RunAfterTurn(world, maxTurns, maxAttempts, n, i, l);
    if step.Goes? {
      RestEnds(world, maxTurns, maxAttempts, n + 1, step.ladder);
    } else if step.Ends? {
      EndsNow(world, maxTurns, n, step.outcome);
    } else {
      AnswerEndsOrGoesOn(world, n + 1, step.text);
      match Drained(world, i)
      case NoneLeft => EndsNow(world, maxTurns, n, Output(step.text));
      case Unsaved => EndsNow(world, maxTurns, n, Failed);
      case Queued => RestEnds(world, maxTurns, maxAttempts, n + 1, l);
    }
  }

  lemma EndsNow(world: World, maxTurns: nat, n: nat, outcome: Outcome)
    requires n < maxTurns && EndsWith(world, n + 1, outcome) && !outcome.TurnsExceeded?
    ensures EndsAfter(world, maxTurns, n, n + 1, outcome)
  {
    hide EndsWith, GoesOn;
  }

  /** The rest of a run that goes on after turn n. */
  lemma {:induction false} RestEnds(world: World, maxTurns: nat, maxAttempts: nat, n: nat, l: Ladder)
    requires 0 < n <= maxTurns && GoesOn(world, n)
    ensures var run := Run(world, maxTurns, maxAttempts, n, AnswersIn(world, n), l);
      EndsAfter(world, maxTurns, n - 1, run.turns, run.outcome)
    decreases maxTurns - n, 1
  {
    if n < maxTurns {
      EndsFrom(world, maxTurns, maxAttempts, n, l);
      hide Run, GoesOn, EndsWith;
    } else {
      NoTurnsLeft(world, maxTurns, maxAttempts, AnswersIn(world, n), l);
      hide Run, GoesOn;
    }
  }

  lemma AnswersUpTo(world: World, n: nat)
    ensures AnswersIn(world, n + 1) == AnswersIn(world, n) + if IsAnswer(TurnOf(world, n + 1)) then 1 else 0
    ensures IsAnswer(TurnOf(world, n + 1)) ==> FollowUpAfter(world, n + 1) == Drained(world, AnswersIn(world, n))
  {
  }

  /** What comes of turn n, an answer. */
  lemma AnswerEndsOrGoesOn(world: World, n: nat, text: string)
    requires IsAnswer(TurnOf(world, n)) && TurnOf(world, n).Responds? && TurnOf(world, n).content == text
    ensures match FollowUpAfter(world, n)
      case NoneLeft => EndsWith(world, n, Output(text))
      case Unsaved => EndsWith(world, n, Failed)
      case Queued => GoesOn(world, n)
  {
    hide FollowUpAfter, TurnOf;
  }

  /** In every run all turns but the last go on, and the last one is of the kind that the
      outcome tells: what a run puts out is the content of its last turn, which asks for no
      tools and after which no follow-up waits. Only a run without turns exceeds its turns
      at once. */
  lemma OutcomeTellsLastTurn(world: World, maxTurns: nat, maxAttempts: nat)
    ensures var run := Run(world, maxTurns, maxAttempts, 0, 0, Fresh());
      if maxTurns == 0 then run.outcome.TurnsExceeded? && run.turns == 0
      else EndsAfter(world, maxTurns, 0, run.turns, run.outcome)
  {
    if maxTurns > 0 {
      assert AnswersIn(world, 0) == 0;
      EndsFrom(world, maxTurns, maxAttempts, 0, Fresh());
    }
  }
}
