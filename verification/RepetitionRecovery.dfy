/** When the turn loop nudges a model that repeats itself, and when it gives up on it. */
module RepetitionRecovery {
  import opened AgentLoop
  import opened CallSignature

  // ---------------------------------------------------------------- only real repetition is nudged

  /** Turn n asked for tools and had them executed. */
  predicate Plain(t: Turn) {
    t.Responds? && t.calls != [] && !t.truncated
  }

  /** The signatures of the plain turns among the first n, in order. */
  function Signatures(world: World, n: nat): seq<string> {
    if n == 0 then [] else
      var t := TurnOf(world, n);
      Signatures(world, n - 1) + if Plain(t) then [ToolCallSignature(t.calls)] else []
  }

  /** Their texts, where there is one. */
  function Texts(world: World, n: nat): seq<string> {
    if n == 0 then [] else
      var t := TurnOf(world, n);
      Texts(world, n - 1) + if Plain(t) && t.normalized != "" then [t.normalized] else []
  }

  /** The last k entries of s are all x. */
  ghost predicate EndsIn(s: seq<string>, k: nat, x: string) {
    k <= |s| && forall i :: |s| - k <= i < |s| ==> s[i] == x
  }

  ghost predicate ThreeAlike(s: seq<string>) {
    exists x :: EndsIn(s, 3, x)
  }

  /** The detector remembers how s ends. */
  ghost predicate Tracks(d: Detector, s: seq<string>) {
    && d.count <= 1
    && (if d.last == "" then d.count == 0 else EndsIn(s, d.count + 1, d.last))
  }

  lemma ObserveTracks(d: Detector, s: seq<string>, x: string, maxAttempts: nat)
    requires Tracks(d, s) && x != ""
    ensures var r := Observe(d, x, maxAttempts);
      (!r.GaveUp? ==> Tracks(r.d, s + [x])) && (!r.Quiet? ==> ThreeAlike(s + [x]))
  {
    if x == d.last {
      assert EndsIn(s + [x], d.count + 2, x);
    } else {
      assert EndsIn(s + [x], 1, x);
    }
  }

  ghost predicate LadderTracks(l: Ladder, world: World, n: nat) {
    Tracks(l.text, Texts(world, n)) && Tracks(l.tool, Signatures(world, n))
  }

  /** A nudge answers three values in a row that are alike, the last of them this turn's. */
  ghost predicate Earned(note: Note, world: World) {
    note.Nudge? ==>
      if note.kind.Stream? then TurnOf(world, note.turn).Repeats? else EndsRepetition(world, note.kind, note.turn)
  }

  ghost predicate AllEarned(notes: seq<Note>, world: World) {
    forall note :: note in notes ==> Earned(note, world)
  }

  lemma AllEarnedJoin(a: seq<Note>, b: seq<Note>, world: World)
    requires AllEarned(a, world) && AllEarned(b, world)
    ensures AllEarned(a + b, world)
  {
  }

  lemma GraceIsEarned(turn: nat, maxTurns: nat, world: World)
    ensures AllEarned(Grace(turn, maxTurns), world)
  {
  }

  lemma StepTracks(l: Ladder, n: nat, world: World, maxAttempts: nat)
    requires LadderTracks(l, world, n)
    ensures var step := OnTurn(l, n + 1, world, maxAttempts);
      (step.Goes? ==> LadderTracks(step.ladder, world, n + 1))
      && (step.Answers? ==> LadderTracks(l, world, n + 1))
      && AllEarned(NotesIn(step), world)
      && (step.Ends? && step.outcome.RepetitionStopped? ==> Repetitive(world, n + 1))
  {
    var t := TurnOf(world, n + 1);
    if Plain(t) {
      ToolsTrack(l, n, world, maxAttempts);
      assert OnTurn(l, n + 1, world, maxAttempts) == OnTools(l, n + 1, t.normalized, ToolCallSignature(t.calls), maxAttempts);
      hide OnTools, OnTurn, LadderTracks, AllEarned, Repetitive, ToolCallSignature;
    } else {
      NothingNew(world, n);
      hide Texts, Signatures, Tracks, EndsRepetition, OnTools, ToolCallSignature;
    }
  }

  /** A turn that is not plain shows the detectors nothing. */
  lemma NothingNew(world: World, n: nat)
    requires !Plain(TurnOf(world, n + 1))
    ensures Texts(world, n + 1) == Texts(world, n) && Signatures(world, n + 1) == Signatures(world, n)
  {
    hide ToolCallSignature;
  }

  lemma ToolsTrack(l: Ladder, n: nat, world: World, maxAttempts: nat)
    requires LadderTracks(l, world, n) && Plain(TurnOf(world, n + 1))
    ensures var t := TurnOf(world, n + 1);
      var step := OnTools(l, n + 1, t.normalized, ToolCallSignature(t.calls), maxAttempts);
      (step.Goes? ==> LadderTracks(step.ladder, world, n + 1))
      && AllEarned(NotesIn(step), world)
      && (step.Ends? ==> Repetitive(world, n + 1))
  {
    var t := TurnOf(world, n + 1);
    var sig := ToolCallSignature(t.calls);
    var a, b := ObserveText(l.text, t.normalized, maxAttempts), Observe(l.tool, sig, maxAttempts);
    SignatureIsNotEmpty(t.calls);
    ObserveTracks(l.tool, Signatures(world, n), sig, maxAttempts);
    if t.normalized != "" {
      ObserveTracks(l.text, Texts(world, n), t.normalized, maxAttempts);
    }
    assert !a.GaveUp? ==> Tracks(a.d, Texts(world, n + 1));
    assert !b.GaveUp? ==> Tracks(b.d, Signatures(world, n + 1));
    assert !a.Quiet? ==> ThreeAlike(Texts(world, n + 1));
    assert !b.Quiet? ==> ThreeAlike(Signatures(world, n + 1));
    hide Tracks, ThreeAlike, Observe, ObserveText, ToolCallSignature, Texts, Signatures;
    var first, second := NoteOf(Text, a, l.text.attempts, n + 1), NoteOf(Tool, b, l.tool.attempts, n + 1);
    assert AllEarned(first, world) && AllEarned(second, world);
    hide AllEarned;
    AllEarnedJoin(first, second, world);
  }

  /** Turn n is part of a repetition. */
  ghost predicate Repetitive(world: World, n: nat) {
    TurnOf(world, n).Repeats? || EndsRepetition(world, Text, n) || EndsRepetition(world, Tool, n)
  }

  /** Turn n is the third in a row to show the same text, or the same calls. */
  ghost predicate EndsRepetition(world: World, kind: Kind, n: nat) {
    var t := TurnOf(world, n);
    if kind.Text? then Plain(t) && t.normalized != "" && ThreeAlike(Texts(world, n))
    else Plain(t) && ThreeAlike(Signatures(world, n))
  }

  /** In every run each nudge is earned, and so is being stopped. */
  lemma {:induction false} NudgesAreEarned(world: World, maxTurns: nat, maxAttempts: nat, n: nat, i: nat, l: Ladder)
    requires n <= maxTurns && LadderTracks(l, world, n)
    ensures var run := Run(world, maxTurns, maxAttempts, n, i, l);
      AllEarned(run.notes, world) && (run.outcome.RepetitionStopped? ==> Repetitive(world, run.turns))
    decreases maxTurns - n
  {
    hide *;
    NothingIsEarned(world);
    if n == maxTurns {
      NoTurnsLeft(world, maxTurns, maxAttempts, i, l);
    } else {
      var step, rest := OnTurn(l, n + 1, world, maxAttempts), Rest(world, maxTurns, maxAttempts, n, i, l);
      StepTracks(l, n, world, maxAttempts);
      RestAre(world, maxTurns, maxAttempts, n, i, l);
      RunAfterTurn(world, maxTurns, maxAttempts, n, i, l);
      if step.Goes? {
        NudgesAreEarned(world, maxTurns, maxAttempts, n + 1, i, step.ladder);
      } else if step.Answers? && Drained(world, i).Queued? {
        NudgesAreEarned(world, maxTurns, maxAttempts, n + 1, i + 1, l);
      }
      RunNotes(world, maxTurns, maxAttempts, n, i, l);
      GraceIsEarned(n + 1, maxTurns, world);
      AllEarnedJoin(NotesIn(step), rest, world);
      AllEarnedJoin(Grace(n + 1, maxTurns), NotesIn(step) + rest, world);
    }
  }

  lemma NothingIsEarned(world: World)
    ensures AllEarned([], world)
  {
  }

  // ---------------------------------------------------------------- how fast the ladder is climbed

  /** How far a detector is: three equal values make one attempt. */
  function Level(d: Detector): nat {
    3 * d.attempts + if d.last == "" then 0 else 1 + d.count
  }

  ghost predicate Sane(d: Detector, maxAttempts: nat) {
    d.count <= 1 && (d.last == "" ==> d.count == 0) && d.attempts <= maxAttempts
  }

  /** A value raises the level by one at most, and by exactly one when it is the value seen
      before; three values after the last attempt the detector gives up. */
  lemma ObserveRaises(d: Detector, x: string, maxAttempts: nat)
    requires Sane(d, maxAttempts) && x != ""
    ensures var r := Observe(d, x, maxAttempts);
      (!r.GaveUp? ==> Sane(r.d, maxAttempts) && Level(r.d) <= Level(d) + 1)
      && (!r.GaveUp? && d.last in ["", x] ==> Level(r.d) == Level(d) + 1 && r.d.last in ["", x])
      && (r.GaveUp? <==> d.last == x && Level(d) + 1 == 3 * (maxAttempts + 1))
      && (r.Nudged? ==> Level(d) + 1 == 3 * (d.attempts + 1))
      && (d.last in ["", x] ==> (r.Nudged? <==> (Level(d) + 1) % 3 == 0 && Level(d) + 1 < 3 * (maxAttempts + 1)))
  {
  }

  /** The model asks for the same tools with the same arguments in each of the first turns. */
  ghost predicate Stuck(world: World, turns: nat, sig: string) {
    forall k :: 1 <= k <= turns ==> Plain(TurnOf(world, k)) && ToolCallSignature(TurnOf(world, k).calls) == sig
  }

  /** After n stuck turns the tool detector is at level n, and the text detector not above. */
  ghost predicate AtLevel(l: Ladder, n: nat, sig: string, maxAttempts: nat) {
    && Sane(l.text, maxAttempts) && Sane(l.tool, maxAttempts)
    && Level(l.text) <= n && Level(l.tool) == n && l.tool.last in ["", sig]
  }

  /** Where a stuck model is stopped. */
  function Limit(maxAttempts: nat): nat {
    3 * (maxAttempts + 1)
  }

  /** The turns that a stuck model gets. */
  function Taken(maxTurns: nat, maxAttempts: nat): nat {
    if maxTurns < Limit(maxAttempts) then maxTurns else Limit(maxAttempts)
  }

  /** The nudge that a stuck model gets in turn n. */
  function StuckNudge(n: nat): seq<Note> {
    if n > 0 && n % 3 == 0 then [Nudge(Tool, n / 3 - 1, n)] else []
  }

  /** The notes without those of the other detectors. */
  function ToolNudges(notes: seq<Note>): seq<Note> {
    if notes == [] then []
    else (if notes[0].Nudge? && notes[0].kind.Tool? then [notes[0]] else []) + ToolNudges(notes[1..])
  }

  lemma {:induction false} ToolNudgesJoin(a: seq<Note>, b: seq<Note>)
    ensures ToolNudges(a + b) == ToolNudges(a) + ToolNudges(b)
  {
    if a == [] {
      assert a + b == b;
    } else {
      assert (a + b)[1..] == a[1..] + b;
      ToolNudgesJoin(a[1..], b);
    }
  }

  lemma NudgesOfOne(kind: Kind, r: Reading, attempts: nat, turn: nat)
    ensures var note := NoteOf(kind, r, attempts, turn);
      ToolNudges(note) == if kind.Tool? then note else []
    ensures ToolNudges([]) == []
  {
  }

  lemma StuckTurn(world: World, maxTurns: nat, maxAttempts: nat, n: nat, l: Ladder, sig: string)
    requires n < Taken(maxTurns, maxAttempts) && Stuck(world, Taken(maxTurns, maxAttempts), sig) && AtLevel(l, n, sig, maxAttempts)
    ensures var step := OnTurn(l, n + 1, world, maxAttempts);
      (if n + 1 == Limit(maxAttempts) then step.Ends? && step.outcome == RepetitionStopped && ToolNudges(NotesIn(step)) == []
       else step.Goes? && AtLevel(step.ladder, n + 1, sig, maxAttempts) && ToolNudges(NotesIn(step)) == StuckNudge(n + 1))
  {
    var t := TurnOf(world, n + 1);
    assert Plain(t) && ToolCallSignature(t.calls) == sig;
    SignatureIsNotEmpty(t.calls);
    assert OnTurn(l, n + 1, world, maxAttempts) == OnTools(l, n + 1, t.normalized, sig, maxAttempts);
    hide OnTurn, Stuck, ToolCallSignature;
    StuckTools(l, n, t.normalized, sig, maxAttempts);
  }

  lemma StuckTools(l: Ladder, n: nat, text: string, sig: string, maxAttempts: nat)
    requires sig != "" && AtLevel(l, n, sig, maxAttempts)
    ensures var step := OnTools(l, n + 1, text, sig, maxAttempts);
      (if n + 1 == Limit(maxAttempts) then step.Ends? && step.outcome == RepetitionStopped && ToolNudges(NotesIn(step)) == []
       else step.Goes? && AtLevel(step.ladder, n + 1, sig, maxAttempts) && ToolNudges(NotesIn(step)) == StuckNudge(n + 1))
  {
    var a, b := ObserveText(l.text, text, maxAttempts), Observe(l.tool, sig, maxAttempts);
    StuckReadings(l, n, text, sig, maxAttempts);
    hide Observe, ObserveText, AtLevel, Limit;
    var first, second := NoteOf(Text, a, l.text.attempts, n + 1), NoteOf(Tool, b, l.tool.attempts, n + 1);
    NudgesOfOne(Text, a, l.text.attempts, n + 1);
    NudgesOfOne(Tool, b, l.tool.attempts, n + 1);
    ToolNudgesJoin(first, second);
    hide ToolNudges, NoteOf, StuckNudge;
    assert [] + second == second;
  }

  lemma StuckReadings(l: Ladder, n: nat, text: string, sig: string, maxAttempts: nat)
    requires sig != "" && AtLevel(l, n, sig, maxAttempts)
    ensures var a, b := ObserveText(l.text, text, maxAttempts), Observe(l.tool, sig, maxAttempts);
      && (a.GaveUp? ==> n + 1 == Limit(maxAttempts)) && (b.GaveUp? <==> n + 1 == Limit(maxAttempts))
      && (!b.GaveUp? ==> NoteOf(Tool, b, l.tool.attempts, n + 1) == StuckNudge(n + 1))
      && (!a.GaveUp? && !b.GaveUp? ==> AtLevel(Ladder(l.stream, a.d, b.d), n + 1, sig, maxAttempts))
  {
    ObserveRaises(l.tool, sig, maxAttempts);
    if text != "" {
      ObserveRaises(l.text, text, maxAttempts);
    }
  }

  /** The nudges that a stuck model gets up to turn n. */
  function StuckNudges(n: nat): seq<Note> {
    if n == 0 then [] else StuckNudges(n - 1) + StuckNudge(n)
  }

  /** One nudge every third turn. */
  lemma {:induction false} StuckNudgesAre(n: nat)
    ensures |StuckNudges(n)| == n / 3
    ensures forall j :: 0 <= j < n / 3 ==> StuckNudges(n)[j] == Nudge(Tool, j, 3 * (j + 1))
  {
    if n > 0 {
      StuckNudgesAre(n - 1);
    }
  }

  /** A stuck model gets a nudge every third turn, each attempt once, and is stopped in turn
      3 * (maxAttempts + 1), whatever it says meanwhile; with fewer turns than that it uses
      them up. */
  lemma StuckModelIsStopped(world: World, maxTurns: nat, maxAttempts: nat, sig: string)
    requires Stuck(world, Taken(maxTurns, maxAttempts), sig)
    ensures var run := Run(world, maxTurns, maxAttempts, 0, 0, Fresh());
      if maxTurns >= Limit(maxAttempts)
      then run.outcome == RepetitionStopped && run.turns == Limit(maxAttempts) && ToolNudges(run.notes) == StuckNudges(3 * maxAttempts)
      else run.outcome == TurnsExceeded && run.turns == maxTurns && ToolNudges(run.notes) == StuckNudges(maxTurns)
  {
    StuckFrom(world, maxTurns, maxAttempts, 0, Fresh(), sig);
    hide Run, ToolNudges, Stuck;
    NoNudgeAfter(maxAttempts);
  }

  lemma NoNudgeAfter(m: nat)
    ensures StuckNudges(Limit(m) - 1) == StuckNudges(3 * m)
    ensures StuckNudges(0) == []
  {
    assert StuckNudge(3 * m + 1) == [] && StuckNudge(3 * m + 2) == [];
    assert StuckNudges(3 * m + 2) == StuckNudges(3 * m + 1) + StuckNudge(3 * m + 2);
  }

  lemma StuckNotes(world: World, maxTurns: nat, maxAttempts: nat, n: nat, l: Ladder)
    requires n < maxTurns
    ensures ToolNudges(Run(world, maxTurns, maxAttempts, n, 0, l).notes)
      == ToolNudges(NotesIn(OnTurn(l, n + 1, world, maxAttempts))) + ToolNudges(Rest(world, maxTurns, maxAttempts, n, 0, l))
  {
    var step, rest := OnTurn(l, n + 1, world, maxAttempts), Rest(world, maxTurns, maxAttempts, n, 0, l);
    RunNotes(world, maxTurns, maxAttempts, n, 0, l);
    assert ToolNudges(Grace(n + 1, maxTurns)) == [];
    hide ToolNudges, OnTurn, Rest, Run, Grace;
    ToolNudgesJoin(Grace(n + 1, maxTurns), NotesIn(step) + rest);
    ToolNudgesJoin(NotesIn(step), rest);
  }

  /** The run ends as it must, with what is left of the nudges after those sent so far. */
  ghost predicate EndsStuck(run: Report, sent: seq<Note>, maxTurns: nat, maxAttempts: nat) {
    if maxTurns >= Limit(maxAttempts)
    then run.outcome == RepetitionStopped && run.turns == Limit(maxAttempts) && sent + ToolNudges(run.notes) == StuckNudges(Limit(maxAttempts) - 1)
    else run.outcome == TurnsExceeded && run.turns == maxTurns && sent + ToolNudges(run.notes) == StuckNudges(maxTurns)
  }

  lemma {:induction false} StuckFrom(world: World, maxTurns: nat, maxAttempts: nat, n: nat, l: Ladder, sig: string)
    requires n <= maxTurns && n < Limit(maxAttempts)
    requires Stuck(world, Taken(maxTurns, maxAttempts), sig) && AtLevel(l, n, sig, maxAttempts)
    ensures EndsStuck(Run(world, maxTurns, maxAttempts, n, 0, l), StuckNudges(n), maxTurns, maxAttempts)
    decreases maxTurns - n
  {
    hide OnTurn, ToolNudges, AtLevel, Stuck, StuckNudge;
    NudgesOfOne(Tool, GaveUp, 0, 0);
    if n < maxTurns {
      StuckTurn(world, maxTurns, maxAttempts, n, l, sig);
      StuckNotes(world, maxTurns, maxAttempts, n, l);
      var step, run := OnTurn(l, n + 1, world, maxAttempts), Run(world, maxTurns, maxAttempts, n, 0, l);
      if n + 1 < Limit(maxAttempts) {
        var next := Run(world, maxTurns, maxAttempts, n + 1, 0, step.ladder);
        assert run.outcome == next.outcome && run.turns == next.turns;
        assert Rest(world, maxTurns, maxAttempts, n, 0, l) == next.notes;
        hide Run, Rest, EndsStuck;
        StuckFrom(world, maxTurns, maxAttempts, n + 1, step.ladder, sig);
        OneTurnMore(run, next, n, maxTurns, maxAttempts);
      }
    }
  }

  lemma OneTurnMore(run: Report, next: Report, n: nat, maxTurns: nat, maxAttempts: nat)
    requires run.outcome == next.outcome && run.turns == next.turns
    requires ToolNudges(run.notes) == StuckNudge(n + 1) + ToolNudges(next.notes)
    requires EndsStuck(next, StuckNudges(n + 1), maxTurns, maxAttempts)
    ensures EndsStuck(run, StuckNudges(n), maxTurns, maxAttempts)
  {
    var tail := ToolNudges(next.notes);
    hide ToolNudges, StuckNudge;
    assert StuckNudges(n + 1) == StuckNudges(n) + StuckNudge(n + 1);
    assert StuckNudges(n) + (StuckNudge(n + 1) + tail) == StuckNudges(n + 1) + tail;
  }

  // ---------------------------------------------------------------- in every run

  predicate InTime(note: Note) {
    note.Nudge? && !note.kind.Stream? ==> note.turn >= 3 * (note.attempt + 1)
  }

  ghost predicate AllInTime(notes: seq<Note>) {
    forall note :: note in notes ==> InTime(note)
  }

  ghost predicate NotAbove(l: Ladder, n: nat, maxAttempts: nat) {
    Sane(l.text, maxAttempts) && Sane(l.tool, maxAttempts) && Level(l.text) <= n && Level(l.tool) <= n
  }

  /** However turns are mixed, attempt number a of a detector is never sent before turn
      3 * (a + 1). */
  lemma {:induction false} NudgesTakeTime(world: World, maxTurns: nat, maxAttempts: nat, n: nat, i: nat, l: Ladder)
    requires n <= maxTurns && NotAbove(l, n, maxAttempts)
    ensures AllInTime(Run(world, maxTurns, maxAttempts, n, i, l).notes)
    decreases maxTurns - n
  {
    if n < maxTurns {
      var step, rest := OnTurn(l, n + 1, world, maxAttempts), Rest(world, maxTurns, maxAttempts, n, i, l);
      StepTakesTime(world, maxAttempts, n, l);
      hide OnTurn, NotAbove, InTime;
      match step {
        case Goes(next, _) =>
          NudgesTakeTime(world, maxTurns, maxAttempts, n + 1, i, next);
        case Ends(_, _) =>
        case Answers(_) =>
          if Drained(world, i).Queued? {
            NudgesTakeTime(world, maxTurns, maxAttempts, n + 1, i + 1, l);
          }
      }
      assert AllInTime(rest);
      RunNotes(world, maxTurns, maxAttempts, n, i, l);
      GraceIsInTime(n + 1, maxTurns);
    }
  }

  lemma GraceIsInTime(turn: nat, maxTurns: nat)
    ensures AllInTime(Grace(turn, maxTurns))
  {
  }

  lemma StepTakesTime(world: World, maxAttempts: nat, n: nat, l: Ladder)
    requires NotAbove(l, n, maxAttempts)
    ensures var step := OnTurn(l, n + 1, world, maxAttempts);
      (step.Goes? ==> NotAbove(step.ladder, n + 1, maxAttempts)) && AllInTime(NotesIn(step))
  {
    StepNotes(l, n + 1, world, maxAttempts);
    var t := TurnOf(world, n + 1);
    if Plain(t) {
      var sig := ToolCallSignature(t.calls);
      SignatureIsNotEmpty(t.calls);
      ObserveRaises(l.tool, sig, maxAttempts);
      if t.normalized != "" {
        ObserveRaises(l.text, t.normalized, maxAttempts);
      }
      hide Observe, ToolCallSignature, Sane;
    }
  }
}
