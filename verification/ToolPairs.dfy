/** Keeping tool calls and tool results paired: orphaned results are dropped before a
    history is kept, missing results are made up before it is sent. */
module ToolPairs {
  import opened Conversation

  predicate MakesCalls(m: Message) {
    m.role.Assistant? && m.calls != []
  }

  /** Message m calls a tool with this call ID. */
  predicate Calls(m: Message, id: string) {
    m.role.Assistant? && exists c :: c in m.calls && c.id == id
  }

  // ---------------------------------------------------------------- orphans

  /** A tool result that no earlier assistant message asked for. */
  predicate Orphan(msgs: seq<Message>, i: nat)
    requires i < |msgs|
  {
    msgs[i].role.Tool? && forall j :: 0 <= j < i ==> !Calls(msgs[j], msgs[i].toolCallId)
  }

  ghost predicate Justified(msgs: seq<Message>) {
    forall i :: 0 <= i < |msgs| ==> !Orphan(msgs, i)
  }

  /** The first n messages without the orphans among them. */
  function WithoutOrphans(msgs: seq<Message>, n: nat): seq<Message>
    requires n <= |msgs|
  {
    if n == 0 then [] else WithoutOrphans(msgs, n - 1) + if Orphan(msgs, n - 1) then [] else [msgs[n - 1]]
  }

  method SanitizeToolPairs(msgs: seq<Message>) returns (result: seq<Message>)
    ensures result == WithoutOrphans(msgs, |msgs|)
  {
    var toolCallIDs: set<string> := {};
    result := [];
    for i := 0 to |msgs|
      invariant forall id :: id in toolCallIDs <==> exists j :: 0 <= j < i && Calls(msgs[j], id)
      invariant result == WithoutOrphans(msgs, i)
    {
      var msg := msgs[i];
      if msg.role.Assistant? && |msg.calls| > 0 {
        ghost var before := toolCallIDs;
        for k := 0 to |msg.calls|
          invariant forall id :: id in toolCallIDs <==> id in before || exists c :: c in msg.calls[..k] && c.id == id
        {
          assert msg.calls[..k + 1] == msg.calls[..k] + [msg.calls[k]];
          toolCallIDs := toolCallIDs + {msg.calls[k].id};
        }
        assert msg.calls[..|msg.calls|] == msg.calls;
        result := result + [msg];
      } else if msg.role.Tool? {
        if msg.toolCallId in toolCallIDs {
          result := result + [msg];
        }
      } else {
        result := result + [msg];
      }
    }
  }

  /** What earlier messages asked for is still asked for after the orphans are gone. */
  lemma {:induction false} CallersStay(msgs: seq<Message>, n: nat, id: string)
    requires n <= |msgs|
    ensures (exists j :: 0 <= j < n && Calls(msgs[j], id)) <==> (exists m :: m in WithoutOrphans(msgs, n) && Calls(m, id))
  {
    if n > 0 {
      CallersStay(msgs, n - 1, id);
      var r := WithoutOrphans(msgs, n - 1);
      assert WithoutOrphans(msgs, n) == r + if Orphan(msgs, n - 1) then [] else [msgs[n - 1]];
      assert forall m :: m in WithoutOrphans(msgs, n) <==> m in r || (!Orphan(msgs, n - 1) && m == msgs[n - 1]);
      if exists j :: 0 <= j < n && Calls(msgs[j], id) {
        var j :| 0 <= j < n && Calls(msgs[j], id);
        if j == n - 1 {
          assert msgs[j] in WithoutOrphans(msgs, n);
        }
      }
    }
  }

  lemma {:induction false} PrefixJustified(msgs: seq<Message>, n: nat)
    requires n <= |msgs|
    ensures Justified(WithoutOrphans(msgs, n))
  {
    if n > 0 {
      PrefixJustified(msgs, n - 1);
      var r, out := WithoutOrphans(msgs, n - 1), WithoutOrphans(msgs, n);
      forall i | 0 <= i < |out|
        ensures !Orphan(out, i)
      {
        if i < |r| {
          assert !Orphan(r, i);
          assert forall j :: 0 <= j < i ==> out[j] == r[j];
        } else if out[i].role.Tool? {
          CallersStay(msgs, n - 1, out[i].toolCallId);
          var m :| m in r && Calls(m, out[i].toolCallId);
          var j :| 0 <= j < |r| && r[j] == m;
          assert out[j] == m;
        }
      }
    }
  }

  /** Sanitizing leaves no orphan, and changes nothing exactly when there was none. */
  lemma {:induction false} SanitizeRemovesOrphans(msgs: seq<Message>)
    ensures Justified(WithoutOrphans(msgs, |msgs|))
    ensures WithoutOrphans(msgs, |msgs|) == msgs <==> Justified(msgs)
  {
    PrefixJustified(msgs, |msgs|);
    if Justified(msgs) {
      NothingToRemove(msgs, |msgs|);
      assert msgs[..|msgs|] == msgs;
    }
  }

  lemma {:induction false} NothingToRemove(msgs: seq<Message>, n: nat)
    requires n <= |msgs| && Justified(msgs)
    ensures WithoutOrphans(msgs, n) == msgs[..n]
  {
    if n > 0 {
      NothingToRemove(msgs, n - 1);
      assert !Orphan(msgs, n - 1);
    }
  }

  lemma {:induction false} SanitizeIsIdempotent(msgs: seq<Message>)
    ensures var once := WithoutOrphans(msgs, |msgs|); WithoutOrphans(once, |once|) == once
  {
    SanitizeRemovesOrphans(msgs);
    SanitizeRemovesOrphans(WithoutOrphans(msgs, |msgs|));
  }

  // ---------------------------------------------------------------- missing results

  /** How many tool results msgs starts with. */
  function RunLength(msgs: seq<Message>): (n: nat)
    ensures n <= |msgs|
  {
    if msgs != [] && msgs[0].role.Tool? then 1 + RunLength(msgs[1..]) else 0
  }

  function Interrupted(c: ToolCall): Message {
    Message(Tool, [], c.id, c.name, "Tool call " + c.name + " was interrupted " + "before it produced " + "a result.")
  }

  predicate Answers(run: seq<Message>, id: string) {
    exists m :: m in run && m.toolCallId == id
  }

  /** The made-up results for the calls that the run does not answer. */
  function Missing(calls: seq<ToolCall>, run: seq<Message>): seq<Message> {
    if calls == [] then [] else
      var c := calls[|calls| - 1];
      Missing(calls[..|calls| - 1], run) + if c.id == "" || Answers(run, c.id) then [] else [Interrupted(c)]
  }

  function Normalized(msgs: seq<Message>): seq<Message> {
    if msgs == [] then []
    else if !MakesCalls(msgs[0]) then [msgs[0]] + Normalized(msgs[1..])
    else
      var n := RunLength(msgs[1..]);
      var run := msgs[1..n + 1];
      [msgs[0]] + run + Missing(msgs[0].calls, run) + Normalized(msgs[n + 1..])
  }

  method NormalizeToolCallHistory(msgs: seq<Message>) returns (out: seq<Message>)
    ensures out == Normalized(msgs)
  {
    hide Normalized, RunLength, Missing, Answers;
    out := [];
    var i := 0;
    assert msgs[0..] == msgs;
    while i < |msgs|
      invariant i <= |msgs|
      invariant out + Normalized(msgs[i..]) == Normalized(msgs)
    {
      var msg := msgs[i];
      ghost var before, start := out, i;
      out := out + [msg];
      if !msg.role.Assistant? || |msg.calls| == 0 {
        StepOverMessage(msgs, before, i);
        i := i + 1;
        continue;
      }
      var matched: set<string> := {};
      RunStarts(msgs, start);
      while i + 1 < |msgs| && msgs[i + 1].role.Tool?
        invariant start <= i < |msgs|
        invariant RunLength(msgs[start + 1..]) == i - start + RunLength(msgs[i + 1..])
        invariant out == before + [msg] + msgs[start + 1..i + 1]
        invariant forall id :: id in matched <==> Answers(msgs[start + 1..i + 1], id)
      {
        RunGoesOn(msgs, start, i);
        AnswersGrow(msgs[start + 1..i + 1], msgs[i + 1]);
        i := i + 1;
        matched := matched + {msgs[i].toolCallId};
        out := out + [msgs[i]];
      }
      ghost var run := msgs[start + 1..i + 1];
      MissingStarts(run);
      for k := 0 to |msg.calls|
        invariant out == before + [msg] + run + Missing(msg.calls[..k], run)
      {
        MissingGoesOn(msg.calls, k, run);
        var call := msg.calls[k];
        if call.id == "" || call.id in matched {
          continue;
        }
        out := out + [Interrupted(call)];
      }
      assert msg.calls[..|msg.calls|] == msg.calls;
      StepOverGroup(msgs, before, start, i);
      i := i + 1;
    }
    NormalizedOfNone();
    assert msgs[i..] == [];
  }

  lemma StepOverMessage(msgs: seq<Message>, before: seq<Message>, i: nat)
    requires i < |msgs| && !MakesCalls(msgs[i])
    ensures before + [msgs[i]] + Normalized(msgs[i + 1..]) == before + Normalized(msgs[i..])
  {
    assert msgs[i..][1..] == msgs[i + 1..];
  }

  lemma StepOverGroup(msgs: seq<Message>, before: seq<Message>, start: nat, i: nat)
    requires start <= i < |msgs| && MakesCalls(msgs[start])
    requires RunLength(msgs[start + 1..]) == i - start + RunLength(msgs[i + 1..])
    requires i + 1 < |msgs| ==> !msgs[i + 1].role.Tool?
    ensures var run := msgs[start + 1..i + 1];
      before + [msgs[start]] + run + Missing(msgs[start].calls, run) + Normalized(msgs[i + 1..]) == before + Normalized(msgs[start..])
  {
    hide Normalized, Missing, MakesCalls;
    var rest, run := msgs[start..], msgs[start + 1..i + 1];
    assert rest[1..] == msgs[start + 1..];
    assert RunLength(msgs[i + 1..]) == 0;
    assert rest[1..i - start + 1] == run && rest[i - start + 1..] == msgs[i + 1..];
    hide RunLength;
    NormalizedStep(rest, i - start);
    Regroup(before, [msgs[start]], run, Missing(msgs[start].calls, run), Normalized(msgs[i + 1..]));
  }

  lemma RunStarts(msgs: seq<Message>, start: nat)
    requires start < |msgs|
    ensures msgs[start + 1..start + 1] == []
    ensures forall id :: !Answers([], id)
  {
  }

  lemma RunGoesOn(msgs: seq<Message>, start: nat, i: nat)
    requires start <= i && i + 1 < |msgs| && msgs[i + 1].role.Tool?
    ensures RunLength(msgs[i + 1..]) == 1 + RunLength(msgs[i + 2..])
    ensures msgs[start + 1..i + 2] == msgs[start + 1..i + 1] + [msgs[i + 1]]
  {
    assert msgs[i + 1..][1..] == msgs[i + 2..];
  }

  lemma AnswersGrow(run: seq<Message>, m: Message)
    ensures forall id :: Answers(run + [m], id) <==> Answers(run, id) || m.toolCallId == id
  {
    assert forall x :: x in run + [m] <==> x in run || x == m;
  }

  lemma MissingStarts(run: seq<Message>)
    ensures Missing([], run) == []
  {
  }

  lemma MissingGoesOn(calls: seq<ToolCall>, k: nat, run: seq<Message>)
    requires k < |calls|
    ensures Missing(calls[..k + 1], run) == Missing(calls[..k], run)
      + if calls[k].id == "" || Answers(run, calls[k].id) then [] else [Interrupted(calls[k])]
  {
    assert calls[..k + 1][..k] == calls[..k];
  }

  lemma NormalizedOfNone()
    ensures Normalized([]) == []
  {
  }

  lemma NormalizedStep(msgs: seq<Message>, n: nat)
    requires msgs != [] && MakesCalls(msgs[0]) && n == RunLength(msgs[1..])
    ensures Normalized(msgs) == [msgs[0]] + msgs[1..n + 1] + Missing(msgs[0].calls, msgs[1..n + 1]) + Normalized(msgs[n + 1..])
  {
    hide Missing, RunLength, MakesCalls;
  }

  lemma Regroup(a: seq<Message>, b: seq<Message>, c: seq<Message>, d: seq<Message>, e: seq<Message>)
    ensures a + b + c + d + e == a + (b + c + d + e)
  {
  }

  lemma Brackets(a: seq<Message>, b: seq<Message>, c: seq<Message>, d: seq<Message>)
    ensures a + b + c + d == a + (b + c) + d
    ensures a + b + c + d == a + b + (c + d)
  {
  }

  /** The tool results that directly follow message i. */
  function RunAfter(msgs: seq<Message>, i: nat): seq<Message>
    requires i < |msgs|
  {
    msgs[i + 1..][..RunLength(msgs[i + 1..])]
  }

  ghost predicate AnsweredAt(msgs: seq<Message>, i: nat)
    requires i < |msgs|
  {
    MakesCalls(msgs[i]) ==> forall c :: c in msgs[i].calls && c.id != "" ==> Answers(RunAfter(msgs, i), c.id)
  }

  /** Every call with an ID has a result in the run of results right after it. */
  ghost predicate Answered(msgs: seq<Message>) {
    forall i :: 0 <= i < |msgs| ==> AnsweredAt(msgs, i)
  }

  lemma AnsweredTail(head: seq<Message>, msgs: seq<Message>, i: nat)
    requires i < |msgs|
    ensures AnsweredAt(head + msgs, |head| + i) <==> AnsweredAt(msgs, i)
  {
    assert (head + msgs)[|head| + i + 1..] == msgs[i + 1..];
  }

  lemma {:induction false} RunOfTools(run: seq<Message>, rest: seq<Message>)
    requires forall m :: m in run ==> m.role.Tool?
    requires rest != [] ==> !rest[0].role.Tool?
    ensures RunLength(run + rest) == |run|
  {
    if run == [] {
      assert run + rest == rest;
    } else {
      RunOfTools(run[1..], rest);
      assert (run + rest)[1..] == run[1..] + rest;
    }
  }

  lemma {:induction false} RunIsTools(msgs: seq<Message>)
    ensures forall m :: m in msgs[..RunLength(msgs)] ==> m.role.Tool?
    ensures var rest := msgs[RunLength(msgs)..]; rest != [] ==> !rest[0].role.Tool?
  {
    if msgs != [] && msgs[0].role.Tool? {
      RunIsTools(msgs[1..]);
      var n := RunLength(msgs[1..]);
      assert msgs[..n + 1] == [msgs[0]] + msgs[1..][..n];
      assert msgs[n + 1..] == msgs[1..][n..];
    }
  }

  lemma InterruptedAnswers(c: ToolCall)
    ensures Synthetic(Interrupted(c)) && Answers([Interrupted(c)], c.id)
  {
    hide Interrupted;
    assert Interrupted(c) in [Interrupted(c)];
    InterruptedIsOwn(c);
  }

  lemma InterruptedIsOwn(c: ToolCall)
    ensures Interrupted(c).toolCallId == c.id && Interrupted(c).name == c.name
  {
  }

  lemma AnswersJoin(run: seq<Message>, more: seq<Message>, id: string)
    ensures Answers(run + more, id) <==> Answers(run, id) || Answers(more, id)
  {
    assert forall m :: m in run + more <==> m in run || m in more;
  }

  lemma {:induction false} MissingAreTools(calls: seq<ToolCall>, run: seq<Message>)
    ensures forall m :: m in Missing(calls, run) ==> Synthetic(m) && exists c :: c in calls && m == Interrupted(c)
    ensures forall c :: c in calls && c.id != "" ==> Answers(run + Missing(calls, run), c.id)
    ensures Missing(calls, run) == [] <==> forall c :: c in calls && c.id != "" ==> Answers(run, c.id)
  {
    if calls != [] {
      var k := |calls| - 1;
      var c, missing := calls[k], Missing(calls[..k], run);
      MissingAreTools(calls[..k], run);
      var more := if c.id == "" || Answers(run, c.id) then [] else [Interrupted(c)];
      assert Missing(calls, run) == missing + more;
      InterruptedAnswers(c);
      hide Missing, Interrupted, Synthetic, Answers;
      assert forall d :: d in calls <==> d in calls[..k] || d == c;
      forall d | d in calls && d.id != ""
        ensures Answers(run + (missing + more), d.id)
      {
        AnswersJoin(run, missing, d.id);
        AnswersJoin(run, missing + more, d.id);
        AnswersJoin(missing, more, d.id);
      }
    }
  }

  /** A made-up result. */
  predicate Synthetic(m: Message) {
    m == Interrupted(ToolCall(m.toolCallId, m.name))
  }

  lemma NormalizedStartsAlike(msgs: seq<Message>)
    ensures msgs == [] <==> Normalized(msgs) == []
    ensures msgs != [] ==> Normalized(msgs)[0] == msgs[0]
  {
  }

  /** The group at the head of msgs: one message with calls and its run of results. */
  lemma HeadGroup(msgs: seq<Message>) returns (run: seq<Message>, rest: seq<Message>)
    requires msgs != [] && MakesCalls(msgs[0])
    ensures msgs == [msgs[0]] + run + rest && run == RunAfter(msgs, 0)
    ensures Normalized(msgs) == [msgs[0]] + run + Missing(msgs[0].calls, run) + Normalized(rest)
    ensures forall m :: m in run ==> m.role.Tool?
    ensures rest != [] ==> !rest[0].role.Tool?
  {
    hide Normalized, Missing, RunLength, MakesCalls;
    var n := RunLength(msgs[1..]);
    run, rest := msgs[1..n + 1], msgs[n + 1..];
    RunIsTools(msgs[1..]);
    assert run == msgs[1..][..n] && rest == msgs[1..][n..];
    assert run == RunAfter(msgs, 0);
    hide RunAfter;
    NormalizedStep(msgs, n);
    HeadParts(msgs, n);
  }

  lemma HeadParts(msgs: seq<Message>, n: nat)
    requires n < |msgs|
    ensures msgs == [msgs[0]] + msgs[1..n + 1] + msgs[n + 1..]
  {
  }

  /** Normalizing answers every call. */
  lemma {:induction false} NormalizeAnswers(msgs: seq<Message>)
    ensures Answered(Normalized(msgs))
    decreases |msgs|
  {
    if msgs == [] {
    } else if !MakesCalls(msgs[0]) {
      NormalizeAnswers(msgs[1..]);
      OneMoreAnswered(msgs[0], Normalized(msgs[1..]));
    } else {
      var run, rest := HeadGroup(msgs);
      var missing, tail := Missing(msgs[0].calls, run), Normalized(rest);
      NormalizeAnswers(rest);
      NormalizedStartsAlike(rest);
      MissingAreTools(msgs[0].calls, run);
      hide Normalized, Missing, RunLength, RunAfter, Answered, Answers, MakesCalls;
      GroupAnswers(msgs[0], run + missing, tail);
      Brackets([msgs[0]], run, missing, tail);
    }
  }

  lemma OneMoreAnswered(m: Message, rest: seq<Message>)
    requires Answered(rest) && !MakesCalls(m)
    ensures Answered([m] + rest)
  {
    assert AnsweredAt([m] + rest, 0);
    hide AnsweredAt, Answered;
    AnsweredBefore([m], rest);
  }

  lemma AnsweredBefore(head: seq<Message>, rest: seq<Message>)
    requires Answered(rest)
    requires forall i :: 0 <= i < |head| ==> AnsweredAt(head + rest, i)
    ensures Answered(head + rest)
  {
    hide AnsweredAt;
    forall i | 0 <= i < |head + rest|
      ensures AnsweredAt(head + rest, i)
    {
      if i >= |head| {
        assert AnsweredAt(rest, i - |head|);
        AnsweredTail(head, rest, i - |head|);
      }
    }
  }

  lemma GroupAnswers(m: Message, run: seq<Message>, rest: seq<Message>)
    requires Answered(rest) && (rest != [] ==> !rest[0].role.Tool?)
    requires forall r :: r in run ==> r.role.Tool?
    requires forall c :: c in m.calls && c.id != "" ==> Answers(run, c.id)
    ensures Answered([m] + run + rest)
  {
    var all := [m] + run + rest;
    RunOfTools(run, rest);
    assert all[1..] == run + rest;
    assert RunAfter(all, 0) == run;
    assert forall i :: 1 <= i < |[m] + run| ==> all[i] == run[i - 1];
    AnsweredBefore([m] + run, rest);
  }

  /** A history comes back unchanged exactly when all its calls are answered. */
  lemma {:induction false} NormalizeFixes(msgs: seq<Message>)
    ensures Normalized(msgs) == msgs <==> Answered(msgs)
    decreases |msgs|
  {
    NormalizeAnswers(msgs);
    if Answered(msgs) {
      AnsweredStays(msgs);
    }
  }

  lemma AnsweredAfter(head: seq<Message>, rest: seq<Message>)
    requires Answered(head + rest)
    ensures Answered(rest)
  {
    hide AnsweredAt;
    forall i | 0 <= i < |rest|
      ensures AnsweredAt(rest, i)
    {
      AnsweredTail(head, rest, i);
      assert AnsweredAt(head + rest, |head| + i);
    }
  }

  lemma AnsweredHead(msgs: seq<Message>, run: seq<Message>)
    requires msgs != [] && MakesCalls(msgs[0]) && Answered(msgs) && run == RunAfter(msgs, 0)
    ensures Missing(msgs[0].calls, run) == []
  {
    assert AnsweredAt(msgs, 0);
    MissingAreTools(msgs[0].calls, run);
  }

  lemma OtherMessageStays(msgs: seq<Message>)
    requires msgs != [] && !MakesCalls(msgs[0])
    ensures Normalized(msgs) == [msgs[0]] + Normalized(msgs[1..]) && msgs == [msgs[0]] + msgs[1..]
  {
  }

  lemma {:induction false} AnsweredStays(msgs: seq<Message>)
    requires Answered(msgs)
    ensures Normalized(msgs) == msgs
    decreases |msgs|
  {
    hide *;
    if msgs == [] {
      NormalizedOfNone();
    } else if !MakesCalls(msgs[0]) {
      OtherMessageStays(msgs);
      AnsweredAfter([msgs[0]], msgs[1..]);
      AnsweredStays(msgs[1..]);
    } else {
      var run, rest := HeadGroup(msgs);
      AnsweredHead(msgs, run);
      AnsweredAfter([msgs[0]] + run, rest);
      AnsweredStays(rest);
      assert [msgs[0]] + run + [] + rest == [msgs[0]] + run + rest;
    }
  }

  lemma {:induction false} NormalizeIsIdempotent(msgs: seq<Message>)
    ensures Normalized(Normalized(msgs)) == Normalized(msgs)
  {
    NormalizeAnswers(msgs);
    NormalizeFixes(Normalized(msgs));
  }

  // ---------------------------------------------------------------- nothing else changes

  /** Wide is msgs with made-up results put in between. */
  ghost predicate Widens(msgs: seq<Message>, wide: seq<Message>) {
    if wide == [] then msgs == [] else
      (msgs != [] && msgs[0] == wide[0] && Widens(msgs[1..], wide[1..]))
      || (Synthetic(wide[0]) && Widens(msgs, wide[1..]))
  }

  lemma {:induction false} WidensAfter(head: seq<Message>, msgs: seq<Message>, wide: seq<Message>)
    requires Widens(msgs, wide)
    ensures Widens(head + msgs, head + wide)
  {
    if head == [] {
      assert head + msgs == msgs && head + wide == wide;
    } else {
      WidensAfter(head[1..], msgs, wide);
      assert (head + msgs)[1..] == head[1..] + msgs && (head + wide)[1..] == head[1..] + wide;
    }
  }

  lemma {:induction false} WidensMore(more: seq<Message>, msgs: seq<Message>, wide: seq<Message>)
    requires Widens(msgs, wide) && forall m :: m in more ==> Synthetic(m)
    ensures Widens(msgs, more + wide)
  {
    if more == [] {
      assert more + wide == wide;
    } else {
      WidensMore(more[1..], msgs, wide);
      assert (more + wide)[1..] == more[1..] + wide;
      assert more[0] in more;
    }
  }

  /** Normalizing keeps every message in place and only inserts made-up results. */
  lemma {:induction false} NormalizeOnlyInserts(msgs: seq<Message>)
    ensures Widens(msgs, Normalized(msgs))
    decreases |msgs|
  {
    if msgs != [] {
      if !MakesCalls(msgs[0]) {
        NormalizeOnlyInserts(msgs[1..]);
        assert Normalized(msgs)[1..] == Normalized(msgs[1..]);
      } else {
        var run, rest := HeadGroup(msgs);
        var missing, tail := Missing(msgs[0].calls, run), Normalized(rest);
        NormalizeOnlyInserts(rest);
        MissingAreTools(msgs[0].calls, run);
        hide *;
        WidensMore(missing, rest, tail);
        WidensAfter([msgs[0]] + run, rest, missing + tail);
        Brackets([msgs[0]], run, missing, tail);
      }
    }
  }

  /** The calls with an ID for which the run holds no result. */
  function Unanswered(calls: seq<ToolCall>, run: seq<Message>): seq<ToolCall> {
    if calls == [] then [] else
      var c := calls[|calls| - 1];
      Unanswered(calls[..|calls| - 1], run) + if c.id != "" && forall m :: m in run ==> m.toolCallId != c.id then [c] else []
  }

  /** A result that answers the call. */
  predicate IsResultOf(m: Message, c: ToolCall) {
    m.role.Tool? && m.calls == [] && m.toolCallId == c.id && m.name == c.name
  }

  ghost predicate AreResultsOf(made: seq<Message>, calls: seq<ToolCall>) {
    |made| == |calls| && forall k :: 0 <= k < |calls| ==> IsResultOf(made[k], calls[k])
  }

  lemma InterruptedIsResult(c: ToolCall)
    ensures IsResultOf(Interrupted(c), c)
  {
  }

  lemma {:induction false} MissingAnswerCalls(calls: seq<ToolCall>, run: seq<Message>)
    ensures AreResultsOf(Missing(calls, run), Unanswered(calls, run))
  {
    if calls != [] {
      var n := |calls| - 1;
      MissingAnswerCalls(calls[..n], run);
      InterruptedIsResult(calls[n]);
      hide Interrupted, IsResultOf;
    }
  }

  /** What normalizing does to a message with calls and the results that follow it: behind
      them comes, in the order of the calls, one result for each call that has none, with the
      call's ID and name; then the rest, normalized. */
  lemma GroupIsCompleted(msgs: seq<Message>) returns (run: seq<Message>, made: seq<Message>, rest: seq<Message>)
    requires msgs != [] && MakesCalls(msgs[0])
    ensures msgs == [msgs[0]] + run + rest && (forall m :: m in run ==> m.role.Tool?) && (rest != [] ==> !rest[0].role.Tool?)
    ensures Normalized(msgs) == [msgs[0]] + run + made + Normalized(rest) && AreResultsOf(made, Unanswered(msgs[0].calls, run))
  {
    hide *;
    run, rest := HeadGroup(msgs);
    made := Missing(msgs[0].calls, run);
    MissingAnswerCalls(msgs[0].calls, run);
  }

  // ---------------------------------------------------------------- both together

  function CallIds(m: Message): set<string> {
    if m.role.Assistant? then set c | c in m.calls :: c.id else {}
  }

  /** No orphan in msgs when the calls in seen came before. */
  predicate JustifiedFrom(msgs: seq<Message>, seen: set<string>) {
    msgs == [] || ((msgs[0].role.Tool? ==> msgs[0].toolCallId in seen) && JustifiedFrom(msgs[1..], seen + CallIds(msgs[0])))
  }

  ghost predicate OrphanFrom(msgs: seq<Message>, i: nat, seen: set<string>)
    requires i < |msgs|
  {
    msgs[i].toolCallId !in seen && Orphan(msgs, i)
  }

  lemma {:induction false} JustifiedFromMeans(msgs: seq<Message>, seen: set<string>)
    ensures JustifiedFrom(msgs, seen) <==> forall i :: 0 <= i < |msgs| ==> !OrphanFrom(msgs, i, seen)
  {
    if msgs != [] {
      var rest, more := msgs[1..], seen + CallIds(msgs[0]);
      JustifiedFromMeans(rest, more);
      assert OrphanFrom(msgs, 0, seen) <==> msgs[0].role.Tool? && msgs[0].toolCallId !in seen;
      forall i | 0 <= i < |rest|
        ensures OrphanFrom(rest, i, more) <==> OrphanFrom(msgs, i + 1, seen)
      {
        OrphanMoves(msgs, i);
      }
      assert forall i :: 0 < i < |msgs| ==> (OrphanFrom(msgs, i, seen) <==> OrphanFrom(rest, i - 1, more));
    }
  }

  lemma OrphanMoves(msgs: seq<Message>, i: nat)
    requires i + 1 < |msgs|
    ensures Orphan(msgs, i + 1) <==> Orphan(msgs[1..], i) && msgs[i + 1].toolCallId !in CallIds(msgs[0])
  {
    var id, rest := msgs[i + 1].toolCallId, msgs[1..];
    assert Calls(msgs[0], id) <==> id in CallIds(msgs[0]);
    assert forall j :: 0 <= j < i ==> rest[j] == msgs[j + 1];
    assert forall j :: 0 < j < i + 1 ==> msgs[j] == rest[j - 1];
  }

  lemma {:induction false} JustifiedOverTools(run: seq<Message>, rest: seq<Message>, seen: set<string>)
    requires forall m :: m in run ==> m.role.Tool?
    ensures JustifiedFrom(run + rest, seen) <==> (forall m :: m in run ==> m.toolCallId in seen) && JustifiedFrom(rest, seen)
  {
    if run == [] {
      assert run + rest == rest;
    } else {
      JustifiedOverTools(run[1..], rest, seen);
      assert (run + rest)[1..] == run[1..] + rest;
      assert seen + CallIds(run[0]) == seen;
      assert run == [run[0]] + run[1..];
    }
  }

  /** The made-up results are no orphans and make none. */
  lemma {:induction false} NormalizeKeepsJustified(msgs: seq<Message>, seen: set<string>)
    ensures JustifiedFrom(Normalized(msgs), seen) <==> JustifiedFrom(msgs, seen)
    decreases |msgs|
  {
    if msgs != [] {
      var more := seen + CallIds(msgs[0]);
      if !MakesCalls(msgs[0]) {
        NormalizeKeepsJustified(msgs[1..], more);
      } else {
        var run, rest := HeadGroup(msgs);
        var missing := Missing(msgs[0].calls, run);
        NormalizeKeepsJustified(rest, more);
        MissingAreTools(msgs[0].calls, run);
        GroupKeepsJustified(msgs[0], run, missing, rest, Normalized(rest), seen);
      }
    }
  }

  lemma GroupKeepsJustified(m: Message, run: seq<Message>, missing: seq<Message>, rest: seq<Message>, tail: seq<Message>,
      seen: set<string>)
    requires m.role.Assistant?
    requires forall r :: r in run ==> r.role.Tool?
    requires forall r :: r in missing ==> Synthetic(r) && exists c :: c in m.calls && r == Interrupted(c)
    requires JustifiedFrom(tail, seen + CallIds(m)) <==> JustifiedFrom(rest, seen + CallIds(m))
    ensures JustifiedFrom([m] + run + missing + tail, seen) <==> JustifiedFrom([m] + run + rest, seen)
  {
    var more := seen + CallIds(m);
    assert ([m] + run + rest)[1..] == run + rest;
    assert ([m] + run + missing + tail)[1..] == run + (missing + tail);
    assert JustifiedFrom([m] + run + rest, seen) <==> JustifiedFrom(run + rest, more);
    assert JustifiedFrom([m] + run + missing + tail, seen) <==> JustifiedFrom(run + (missing + tail), more);
    hide JustifiedFrom;
    JustifiedOverTools(run, rest, more);
    JustifiedOverTools(missing, tail, more);
    JustifiedOverTools(run, missing + tail, more);
  }

  /** After sanitizing and normalizing, results and calls match both ways, and doing
      either again changes nothing. */
  lemma {:induction false} SanitizeThenNormalize(msgs: seq<Message>)
    ensures var out := Normalized(WithoutOrphans(msgs, |msgs|));
      Justified(out) && Answered(out) && WithoutOrphans(out, |out|) == out && Normalized(out) == out
  {
    var kept := WithoutOrphans(msgs, |msgs|);
    var out := Normalized(kept);
    SanitizeRemovesOrphans(msgs);
    JustifiedFromMeans(kept, {});
    assert forall i :: 0 <= i < |kept| ==> !Orphan(kept, i);
    NormalizeKeepsJustified(kept, {});
    JustifiedFromMeans(out, {});
    assert forall i :: 0 <= i < |out| ==> (OrphanFrom(out, i, {}) <==> Orphan(out, i));
    NormalizeAnswers(kept);
    SanitizeRemovesOrphans(out);
    NormalizeFixes(out);
  }
}
