/** What turns between two repeated turns do to the repetition detectors: nothing. */
module RepetitionGaps {
  import opened AgentLoop
  import opened CallSignature
  import opened RepetitionRecovery

  // ---------------------------------------------------------------- when turns are consecutive

  predicate PlainWithText(t: Turn) {
    Plain(t) && t.normalized != ""
  }

  /** The last three turns up to k made the same calls. */
  predicate SameCallsInARow(world: World, k: nat) {
    && k >= 3 && Plain(TurnOf(world, k)) && Plain(TurnOf(world, k - 1)) && Plain(TurnOf(world, k - 2))
    && var sig := ToolCallSignature(TurnOf(world, k).calls);
      ToolCallSignature(TurnOf(world, k - 1).calls) == sig && ToolCallSignature(TurnOf(world, k - 2).calls) == sig
  }

  /** The last three turns up to k had the same text. */
  predicate SameTextInARow(world: World, k: nat) {
    && k >= 3 && PlainWithText(TurnOf(world, k)) && PlainWithText(TurnOf(world, k - 1)) && PlainWithText(TurnOf(world, k - 2))
    && var text := TurnOf(world, k).normalized;
      TurnOf(world, k - 1).normalized == text && TurnOf(world, k - 2).normalized == text
  }

  lemma LastThreeSignatures(world: World, k: nat)
    requires k >= 3 && Plain(TurnOf(world, k)) && Plain(TurnOf(world, k - 1)) && Plain(TurnOf(world, k - 2))
    requires ThreeAlike(Signatures(world, k))
    ensures SameCallsInARow(world, k)
  {
    var x :| EndsIn(Signatures(world, k), 3, x);
    var s, n := Signatures(world, k), |Signatures(world, k - 3)|;
    var a, b, c := TurnOf(world, k - 2), TurnOf(world, k - 1), TurnOf(world, k);
    hide ToolCallSignature;
    assert Signatures(world, k - 2) == Signatures(world, k - 3) + [ToolCallSignature(a.calls)];
    assert Signatures(world, k - 1) == Signatures(world, k - 2) + [ToolCallSignature(b.calls)];
    assert s == Signatures(world, k - 1) + [ToolCallSignature(c.calls)];
    assert s[n] == x && s[n + 1] == x && s[n + 2] == x;
  }

  lemma LastThreeTexts(world: World, k: nat)
    requires k >= 3 && PlainWithText(TurnOf(world, k)) && PlainWithText(TurnOf(world, k - 1)) && PlainWithText(TurnOf(world, k - 2))
    requires ThreeAlike(Texts(world, k))
    ensures SameTextInARow(world, k)
  {
    var x :| EndsIn(Texts(world, k), 3, x);
    var s, n := Texts(world, k), |Texts(world, k - 3)|;
    var a, b, c := TurnOf(world, k - 2), TurnOf(world, k - 1), TurnOf(world, k);
    assert Texts(world, k - 2) == Texts(world, k - 3) + [a.normalized];
    assert Texts(world, k - 1) == Texts(world, k - 2) + [b.normalized];
    assert s == Texts(world, k - 1) + [c.normalized];
    assert s[n] == x && s[n + 1] == x && s[n + 2] == x;
  }

  lemma {:induction false} FewerThanTurns(world: World, n: nat)
    ensures |Signatures(world, n)| <= n && |Texts(world, n)| <= n
  {
    hide ToolCallSignature;
    if n > 0 {
      FewerThanTurns(world, n - 1);
    }
  }

  /** A repetition ends in turn k: three consecutive turns made it up exactly when the two
      turns before were executed tool turns too (for texts: with a text). */
  ghost predicate MadeUpOfThreeIff(world: World, kind: Kind, k: nat) {
    && k >= 3
    && (kind.Tool? ==> (SameCallsInARow(world, k) <==> Plain(TurnOf(world, k - 1)) && Plain(TurnOf(world, k - 2))))
    && (kind.Text? ==>
          (SameTextInARow(world, k) <==> PlainWithText(TurnOf(world, k - 1)) && PlainWithText(TurnOf(world, k - 2))))
  }

  lemma RepetitionIsMadeUp(world: World, kind: Kind, k: nat)
    requires !kind.Stream? && EndsRepetition(world, kind, k)
    ensures MadeUpOfThreeIff(world, kind, k)
  {
    FewerThanTurns(world, k);
    var s := if kind.Text? then Texts(world, k) else Signatures(world, k);
    var x :| EndsIn(s, 3, x);
    hide ToolCallSignature, Signatures, Texts;
    if kind.Tool? && Plain(TurnOf(world, k - 1)) && Plain(TurnOf(world, k - 2)) {
      LastThreeSignatures(world, k);
    }
    if kind.Text? && PlainWithText(TurnOf(world, k - 1)) && PlainWithText(TurnOf(world, k - 2)) {
      LastThreeTexts(world, k);
    }
  }

  /** In every run: a nudge in turn k answers three consecutive turns exactly when the two
      turns before were executed tool turns too (for a text nudge: with a text). */
  lemma NudgesAnswerThreeTurnsIff(world: World, maxTurns: nat, maxAttempts: nat, note: Note)
    requires note in Run(world, maxTurns, maxAttempts, 0, 0, Fresh()).notes && note.Nudge? && !note.kind.Stream?
    ensures MadeUpOfThreeIff(world, note.kind, note.turn)
  {
    NudgesAreEarned(world, maxTurns, maxAttempts, 0, 0, Fresh());
    assert Earned(note, world);
    hide Run, EndsRepetition, MadeUpOfThreeIff;
    RepetitionIsMadeUp(world, note.kind, note.turn);
  }

  /** The same holds of the turn in which a run is stopped for repetition, unless the stream
      itself repeated: the detector that gave up saw three alike. */
  lemma StopsAnswerThreeTurnsIff(world: World, maxTurns: nat, maxAttempts: nat) returns (kind: Kind)
    requires Run(world, maxTurns, maxAttempts, 0, 0, Fresh()).outcome.RepetitionStopped?
    ensures var k := Run(world, maxTurns, maxAttempts, 0, 0, Fresh()).turns;
      if kind.Stream? then TurnOf(world, k).Repeats? else EndsRepetition(world, kind, k) && MadeUpOfThreeIff(world, kind, k)
  {
    NudgesAreEarned(world, maxTurns, maxAttempts, 0, 0, Fresh());
    var k := Run(world, maxTurns, maxAttempts, 0, 0, Fresh()).turns;
    assert Repetitive(world, k);
    hide Run, EndsRepetition, MadeUpOfThreeIff;
    if TurnOf(world, k).Repeats? {
      kind := Stream;
    } else {
      kind := if EndsRepetition(world, Text, k) then Text else Tool;
      RepetitionIsMadeUp(world, kind, k);
    }
  }

  // ---------------------------------------------------------------- a run with gaps

  /** Three turns with the same calls, and a guarded turn after the first and the second. */
  function Gapped(t: Turn): World {
    World([t, Guarded, t, Guarded, t], [])
  }

  /** The run that is left after a turn that does not end it. */
  function RestOf(world: World, maxTurns: nat, maxAttempts: nat, n: nat, f: nat, l: Ladder): Report {
    match OnTurn(l, n + 1, world, maxAttempts)
    case Goes(next, _) => Run(world, maxTurns, maxAttempts, n + 1, f, next)
    case _ => Run(world, maxTurns, maxAttempts, n + 1, f + 1, l)
  }

  lemma RestIs(world: World, maxTurns: nat, maxAttempts: nat, n: nat, f: nat, l: Ladder)
    ensures var step, rest := OnTurn(l, n + 1, world, maxAttempts), RestOf(world, maxTurns, maxAttempts, n, f, l);
      rest == if step.Goes? then Run(world, maxTurns, maxAttempts, n + 1, f, step.ladder)
              else Run(world, maxTurns, maxAttempts, n + 1, f + 1, l)
  {
    hide OnTurn, Run;
  }

  lemma RestIsPart(world: World, maxTurns: nat, maxAttempts: nat, n: nat, f: nat, l: Ladder)
    requires n < maxTurns
    requires var step := OnTurn(l, n + 1, world, maxAttempts); step.Goes? || (step.Answers? && Drained(world, f).Queued?)
    ensures var run, rest := Run(world, maxTurns, maxAttempts, n, f, l), RestOf(world, maxTurns, maxAttempts, n, f, l);
      && run.outcome == rest.outcome && run.turns == rest.turns
      && (forall note :: note in rest.notes ==> note in run.notes)
  {
    RunNotes(world, maxTurns, maxAttempts, n, f, l);
    hide OnTurn, Grace;
  }

  lemma GapTurn(world: World, maxTurns: nat, maxAttempts: nat, n: nat, l: Ladder, next: Ladder)
    requires n < maxTurns && OnTurn(l, n + 1, world, maxAttempts) == Goes(next, [])
    ensures forall note :: note in Run(world, maxTurns, maxAttempts, n + 1, 0, next).notes ==>
      note in Run(world, maxTurns, maxAttempts, n, 0, l).notes
  {
    hide Run, OnTurn;
    RestIsPart(world, maxTurns, maxAttempts, n, 0, l);
  }

  /** The third of them is nudged, though no two are consecutive. */
  lemma NudgedAcrossGaps(t: Turn, maxTurns: nat, maxAttempts: nat)
    requires Plain(t) && t.normalized == "" && maxTurns >= 5 && maxAttempts > 0
    ensures Nudge(Tool, 0, 5) in Run(Gapped(t), maxTurns, maxAttempts, 0, 0, Fresh()).notes
    ensures !SameCallsInARow(Gapped(t), 5)
  {
    var world, sig, none := Gapped(t), ToolCallSignature(t.calls), Detector("", 0, 0);
    SignatureIsNotEmpty(t.calls);
    var once, twice := Ladder(0, none, Detector(sig, 0, 0)), Ladder(0, none, Detector(sig, 1, 0));
    assert TurnOf(world, 1) == t && TurnOf(world, 2) == Guarded && TurnOf(world, 3) == t && TurnOf(world, 4) == Guarded;
    assert TurnOf(world, 5) == t;
    hide Run, ToolCallSignature, TurnOf, Gapped;
    GapTurn(world, maxTurns, maxAttempts, 0, Fresh(), once);
    GapTurn(world, maxTurns, maxAttempts, 1, once, once);
    GapTurn(world, maxTurns, maxAttempts, 2, once, twice);
    GapTurn(world, maxTurns, maxAttempts, 3, twice, twice);
    RunNotes(world, maxTurns, maxAttempts, 4, 0, twice);
    assert Nudge(Tool, 0, 5) in NotesIn(OnTurn(twice, 5, world, maxAttempts));
  }

  // ---------------------------------------------------------------- no repetition is missed

  /** What the detector of this kind is shown in turn t, nothing being "". */
  function ValueOf(kind: Kind, t: Turn): string {
    if !Plain(t) then ""
    else match kind
      case Stream => ""
      case Text => t.normalized
      case Tool => ToolCallSignature(t.calls)
  }

  function DetectorOf(l: Ladder, kind: Kind): Detector {
    if kind.Text? then l.text else l.tool
  }

  /** Turns i and j show the same value, and no turn in between shows any. */
  ghost predicate Adjacent(world: World, kind: Kind, i: nat, j: nat) {
    && i < j && ValueOf(kind, TurnOf(world, i)) == ValueOf(kind, TurnOf(world, j)) != ""
    && forall k :: i < k < j ==> ValueOf(kind, TurnOf(world, k)) == ""
  }

  /** Turn j is the last up to n that shows a value. */
  ghost predicate IsLast(world: World, kind: Kind, j: nat, n: nat) {
    && j <= n && ValueOf(kind, TurnOf(world, j)) != ""
    && forall k :: j < k <= n ==> ValueOf(kind, TurnOf(world, k)) == ""
  }

  /** After n turns the detector knows the last value since turn m, and whether it came twice. */
  ghost predicate Knows(world: World, kind: Kind, d: Detector, m: nat, n: nat) {
    && d.count <= 1
    && (forall j :: m < j && IsLast(world, kind, j, n) ==> d.last == ValueOf(kind, TurnOf(world, j)))
    && (forall i, j :: m < i && Adjacent(world, kind, i, j) && IsLast(world, kind, j, n) ==> d.count == 1)
  }

  /** How the detector reads turn n. */
  function ReadingOf(world: World, kind: Kind, d: Detector, n: nat, maxAttempts: nat): Reading {
    ObserveText(d, ValueOf(kind, TurnOf(world, n)), maxAttempts)
  }

  lemma KnowsNext(world: World, kind: Kind, d: Detector, m: nat, n: nat, maxAttempts: nat)
    requires Knows(world, kind, d, m, n) && ReadingOf(world, kind, d, n + 1, maxAttempts).Quiet?
    ensures Knows(world, kind, ReadingOf(world, kind, d, n + 1, maxAttempts).d, m, n + 1)
  {
    var x, d' := ValueOf(kind, TurnOf(world, n + 1)), ReadingOf(world, kind, d, n + 1, maxAttempts).d;
    hide ValueOf;
    forall j: nat | m < j && IsLast(world, kind, j, n + 1)
      ensures d'.last == ValueOf(kind, TurnOf(world, j))
    {
      assert x == "" ==> IsLast(world, kind, j, n);
    }
    forall i: nat, j: nat | m < i && Adjacent(world, kind, i, j) && IsLast(world, kind, j, n + 1)
      ensures d'.count == 1
    {
      if x == "" {
        assert IsLast(world, kind, j, n);
      } else {
        assert j == n + 1 && IsLast(world, kind, i, n);
      }
    }
  }

  lemma ThirdIsNoticed(world: World, kind: Kind, d: Detector, m: nat, i: nat, j: nat, k: nat, maxAttempts: nat)
    requires k > 0 && Knows(world, kind, d, m, k - 1) && m < i && Adjacent(world, kind, i, j) && Adjacent(world, kind, j, k)
    ensures !ReadingOf(world, kind, d, k, maxAttempts).Quiet?
  {
    hide ValueOf;
    assert IsLast(world, kind, j, k - 1);
  }

  lemma NothingKnown(world: World, kind: Kind, d: Detector, n: nat)
    requires d.count == 0
    ensures Knows(world, kind, d, n, n)
  {
  }

  /** What a turn does to the detector of this kind, and to the run. */
  lemma TurnReads(world: World, kind: Kind, l: Ladder, n: nat, maxAttempts: nat)
    requires !kind.Stream?
    ensures var step, r := OnTurn(l, n, world, maxAttempts), ReadingOf(world, kind, DetectorOf(l, kind), n, maxAttempts);
      && (step.Goes? ==> !r.GaveUp? && DetectorOf(step.ladder, kind) == r.d)
      && (step.Goes? && r.Nudged? ==> r.d.count == 0 && Nudge(kind, DetectorOf(l, kind).attempts, n) in NotesIn(step))
      && (step.Ends? && !r.Quiet? ==> step.outcome.RepetitionStopped?)
      && (step.Answers? ==> r.Quiet? && r.d == DetectorOf(l, kind))
  {
    var t := TurnOf(world, n);
    if Plain(t) {
      SignatureIsNotEmpty(t.calls);
    }
    hide ToolCallSignature;
  }

  /** Turn n of the run nudged. */
  ghost predicate NudgedAt(run: Report, kind: Kind, n: nat) {
    exists a :: Nudge(kind, a, n) in run.notes
  }

  lemma NudgeIsSent(world: World, maxTurns: nat, maxAttempts: nat, n: nat, f: nat, l: Ladder, kind: Kind)
    requires n < maxTurns && !kind.Stream? && OnTurn(l, n + 1, world, maxAttempts).Goes?
    requires ReadingOf(world, kind, DetectorOf(l, kind), n + 1, maxAttempts).Nudged?
    ensures NudgedAt(Run(world, maxTurns, maxAttempts, n, f, l), kind, n + 1)
  {
    TurnReads(world, kind, l, n + 1, maxAttempts);
    RunNotes(world, maxTurns, maxAttempts, n, f, l);
    hide OnTurn, Run, ReadingOf, Grace;
    assert Nudge(kind, DetectorOf(l, kind).attempts, n + 1) in Run(world, maxTurns, maxAttempts, n, f, l).notes;
  }

  /** One of the three turns was nudged, or the run was stopped at the last. */
  ghost predicate Noticed(run: Report, kind: Kind, i: nat, j: nat, k: nat) {
    NudgedAt(run, kind, i) || NudgedAt(run, kind, j) || NudgedAt(run, kind, k)
    || (run.outcome.RepetitionStopped? && run.turns == k)
  }

  lemma NoticeCarries(rest: Report, run: Report, kind: Kind, i: nat, j: nat, k: nat)
    requires run.outcome == rest.outcome && run.turns == rest.turns
    requires forall note :: note in rest.notes ==> note in run.notes
    requires Noticed(rest, kind, i, j, k)
    ensures Noticed(run, kind, i, j, k)
  {
  }

  lemma TurnEndsRun(world: World, maxTurns: nat, maxAttempts: nat, n: nat, f: nat, l: Ladder)
    requires n < maxTurns
    ensures var step, run := OnTurn(l, n + 1, world, maxAttempts), Run(world, maxTurns, maxAttempts, n, f, l);
      && (step.Ends? ==> run.outcome == step.outcome && run.turns == n + 1)
      && (step.Answers? && !Drained(world, f).Queued? ==> run.turns == n + 1)
  {
    hide OnTurn;
  }

  /** A turn that is read shows a value, so it lies before the three or is one of them. */
  lemma NotBetween(world: World, kind: Kind, d: Detector, n: nat, i: nat, j: nat, k: nat, maxAttempts: nat)
    requires !ReadingOf(world, kind, d, n, maxAttempts).Quiet? && n < k && n != i && n != j
    requires Adjacent(world, kind, i, j) && Adjacent(world, kind, j, k)
    ensures n < i
  {
    hide ValueOf;
    assert ValueOf(kind, TurnOf(world, n)) != "";
  }

  /** In every run: of three turns that show the same value, with no turn in between that
      shows another, one is nudged, or the run is stopped at the third. */
  lemma {:induction false} RepetitionIsNoticed(world: World, maxTurns: nat, maxAttempts: nat, n: nat, f: nat, l: Ladder,
      kind: Kind, m: nat, i: nat, j: nat, k: nat)
    requires n <= maxTurns && !kind.Stream? && Knows(world, kind, DetectorOf(l, kind), m, n)
    requires m < i && Adjacent(world, kind, i, j) && Adjacent(world, kind, j, k)
    requires n < k <= Run(world, maxTurns, maxAttempts, n, f, l).turns
    ensures Noticed(Run(world, maxTurns, maxAttempts, n, f, l), kind, i, j, k)
    decreases maxTurns - n
  {
    hide Run, OnTurn, ReadingOf, Adjacent, Knows, RestOf;
    var step, run := OnTurn(l, n + 1, world, maxAttempts), Run(world, maxTurns, maxAttempts, n, f, l);
    var d := DetectorOf(l, kind);
    var r := ReadingOf(world, kind, d, n + 1, maxAttempts);
    TurnBudget(world, maxTurns, maxAttempts, n, f, l);
    TurnReads(world, kind, l, n + 1, maxAttempts);
    TurnEndsRun(world, maxTurns, maxAttempts, n, f, l);
    if n + 1 == k {
      ThirdIsNoticed(world, kind, d, m, i, j, k, maxAttempts);
      if step.Goes? {
        NudgeIsSent(world, maxTurns, maxAttempts, n, f, l, kind);
      }
    } else if step.Goes? && r.Nudged? && (n + 1 == i || n + 1 == j) {
      NudgeIsSent(world, maxTurns, maxAttempts, n, f, l, kind);
    } else {
      RestIsPart(world, maxTurns, maxAttempts, n, f, l);
      RestIs(world, maxTurns, maxAttempts, n, f, l);
      var rest := RestOf(world, maxTurns, maxAttempts, n, f, l);
      if r.Quiet? {
        KnowsNext(world, kind, d, m, n, maxAttempts);
        if step.Goes? {
          RepetitionIsNoticed(world, maxTurns, maxAttempts, n + 1, f, step.ladder, kind, m, i, j, k);
        } else {
          RepetitionIsNoticed(world, maxTurns, maxAttempts, n + 1, f + 1, l, kind, m, i, j, k);
        }
      } else {
        NothingKnown(world, kind, r.d, n + 1);
        NotBetween(world, kind, d, n + 1, i, j, k, maxAttempts);
        RepetitionIsNoticed(world, maxTurns, maxAttempts, n + 1, f, step.ladder, kind, n + 1, i, j, k);
      }
      NoticeCarries(rest, run, kind, i, j, k);
    }
  }
}
