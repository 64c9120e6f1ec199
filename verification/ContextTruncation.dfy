/** Cutting a conversation down to its head and its most recent messages, and where the
    cut falls. Token estimates are a parameter. */
module ContextTruncation {
  import opened Conversation
  import ToolPairs

  /** The tokens of the non-system messages from i on. */
  function Weight(msgs: seq<Message>, i: nat, tokens: Message -> nat): nat
    requires i <= |msgs|
    decreases |msgs| - i
  {
    if i == |msgs| then 0
    else Weight(msgs, i + 1, tokens) + if msgs[i].role.System? then 0 else tokens(msgs[i])
  }

  /** Message i does not fit in with what comes after it; the last message always fits. */
  predicate Overflows(msgs: seq<Message>, i: nat, budget: int, tokens: Message -> nat)
    requires i < |msgs|
  {
    !msgs[i].role.System? && Weight(msgs, i + 1, tokens) > 0 && Weight(msgs, i, tokens) > budget
  }

  /** Nothing from i on overflows. */
  ghost predicate Fits(msgs: seq<Message>, i: nat, budget: int, tokens: Message -> nat) {
    forall j :: i <= j < |msgs| ==> !Overflows(msgs, j, budget, tokens)
  }

  /** Where the backward scan over the messages from head on stops: right after the last
      message that overflows, and at the very end when none does. */
  ghost predicate IsTailStart(msgs: seq<Message>, head: nat, budget: int, tokens: Message -> nat, t: nat) {
    && t <= |msgs|
    && Fits(msgs, t, budget, tokens)
    && (if Fits(msgs, head, budget, tokens) then t == |msgs|
        else head < t && Overflows(msgs, t - 1, budget, tokens))
  }

  /** The cut moves forward past the tool results it would start with. */
  ghost predicate IsAligned(msgs: seq<Message>, start: nat, cut: nat) {
    && start <= cut && (start < cut ==> cut <= |msgs|)
    && (forall i :: start <= i < cut ==> msgs[i].role.Tool?)
    && (cut < |msgs| ==> !msgs[cut].role.Tool?)
  }

  method AlignBoundaryForward(msgs: seq<Message>, start: nat) returns (cut: nat)
    ensures IsAligned(msgs, start, cut)
  {
    cut := start;
    while cut < |msgs| && msgs[cut].role.Tool?
      invariant start <= cut && (start < cut ==> cut <= |msgs|)
      invariant forall i :: start <= i < cut ==> msgs[i].role.Tool?
    {
      cut := cut + 1;
    }
  }

  /** The backward scan that both callers below run. */
  method ScanTail(msgs: seq<Message>, head: nat, budget: int, tokens: Message -> nat) returns (tailStart: nat)
    ensures IsTailStart(msgs, head, budget, tokens, tailStart)
  {
    var accum := 0;
    tailStart := |msgs|;
    var i := |msgs| - 1;
    while i >= head
      invariant i == |msgs| - 1 || head - 1 <= i < |msgs| - 1
      invariant accum == Weight(msgs, i + 1, tokens)
      invariant Fits(msgs, i + 1, budget, tokens)
      invariant tailStart == |msgs|
    {
      if !msgs[i].role.System? {
        var msgLen := tokens(msgs[i]);
        if accum + msgLen > budget && accum > 0 {
          assert Overflows(msgs, i, budget, tokens);
          tailStart := i + 1;
          return;
        }
        accum := accum + msgLen;
      }
      i := i - 1;
    }
  }

  method FindTailCutByTokens(msgs: seq<Message>, headProtect: nat, budget: int, tokens: Message -> nat) returns (cut: nat)
    ensures if msgs == [] then cut == 0 else IsTailCut(msgs, headProtect, budget, tokens, cut)
  {
    if |msgs| == 0 {
      return 0;
    }
    var tailStart := ScanTail(msgs, headProtect, budget, tokens);
    if tailStart <= headProtect + 1 {
      return headProtect + 2;
    }
    cut := AlignBoundaryForward(msgs, tailStart);
  }

  lemma TailStartIsUnique(msgs: seq<Message>, head: nat, budget: int, tokens: Message -> nat, t: nat, u: nat)
    requires IsTailStart(msgs, head, budget, tokens, t) && IsTailStart(msgs, head, budget, tokens, u)
    ensures t == u
  {
    if !Fits(msgs, head, budget, tokens) {
      assert t - 1 < u && u - 1 < t;
    }
  }

  lemma AlignedIsUnique(msgs: seq<Message>, start: nat, c: nat, d: nat)
    requires IsAligned(msgs, start, c) && IsAligned(msgs, start, d)
    ensures c == d
  {
  }

  lemma {:induction false} WeightFalls(msgs: seq<Message>, i: nat, j: nat, tokens: Message -> nat)
    requires i <= j <= |msgs|
    ensures Weight(msgs, i, tokens) >= Weight(msgs, j, tokens)
    decreases j - i
  {
    if i < j {
      WeightFalls(msgs, i + 1, j, tokens);
    }
  }

  /** The messages from i on are within the budget, or weigh as much as a single one of them. */
  ghost predicate WithinBudget(msgs: seq<Message>, i: nat, budget: nat, tokens: Message -> nat)
    requires i <= |msgs|
  {
    Weight(msgs, i, tokens) <= budget
    || exists j :: i <= j < |msgs| && Weight(msgs, i, tokens) == tokens(msgs[j]) && Weight(msgs, j + 1, tokens) == 0
  }

  lemma {:induction false} FittingTailIsSmall(msgs: seq<Message>, i: nat, budget: nat, tokens: Message -> nat)
    requires i <= |msgs| && Fits(msgs, i, budget, tokens)
    ensures WithinBudget(msgs, i, budget, tokens)
    decreases |msgs| - i
  {
    if i < |msgs| {
      FittingTailIsSmall(msgs, i + 1, budget, tokens);
      assert !Overflows(msgs, i, budget, tokens);
    }
  }

  /** The scanned tail is as long as the budget allows: it fits, and the message before it
      would not have. */
  lemma TailIsLongest(msgs: seq<Message>, head: nat, budget: nat, tokens: Message -> nat, t: nat)
    requires head <= |msgs| && IsTailStart(msgs, head, budget, tokens, t)
    ensures WithinBudget(msgs, t, budget, tokens)
    ensures t < |msgs| ==> forall i :: head <= i < t ==> Weight(msgs, i, tokens) > budget
  {
    hide WithinBudget;
    FittingTailIsSmall(msgs, t, budget, tokens);
    if t < |msgs| {
      assert Weight(msgs, t - 1, tokens) > budget;
      hide Weight, Fits, IsTailStart, Overflows;
      forall i | head <= i < t
        ensures Weight(msgs, i, tokens) > budget
      {
        WeightFalls(msgs, i, t - 1, tokens);
      }
    }
  }

  // ---------------------------------------------------------------- the fallback cut

  /** The cut of FindTailCutByTokens. */
  ghost predicate IsTailCut(msgs: seq<Message>, headProtect: nat, budget: int, tokens: Message -> nat, cut: nat) {
    exists t: nat ::
      IsTailStart(msgs, headProtect, budget, tokens, t)
      && (if t <= headProtect + 1 then cut == headProtect + 2 else IsAligned(msgs, t, cut))
  }

  /** The fallback is taken when the first message after the head is the only one that does
      not fit, or when there is at most one message after the head. */
  ghost predicate FallsBack(msgs: seq<Message>, headProtect: nat, budget: int, tokens: Message -> nat) {
    |msgs| <= headProtect + 1
    || (Overflows(msgs, headProtect, budget, tokens) && Fits(msgs, headProtect + 1, budget, tokens))
  }

  /** The cut separates no result from its call, and lies inside the history, exactly when
      the fallback is not taken or happens to hit such a place. */
  lemma TailCutIsSound(msgs: seq<Message>, headProtect: nat, budget: int, tokens: Message -> nat, cut: nat)
    requires msgs != [] && IsTailCut(msgs, headProtect, budget, tokens, cut)
    ensures cut <= |msgs| && (cut < |msgs| ==> !msgs[cut].role.Tool?)
      <==> (FallsBack(msgs, headProtect, budget, tokens) ==>
              headProtect + 2 == |msgs| || (headProtect + 2 < |msgs| && !msgs[headProtect + 2].role.Tool?))
  {
    var t: nat :| IsTailStart(msgs, headProtect, budget, tokens, t)
      && (if t <= headProtect + 1 then cut == headProtect + 2 else IsAligned(msgs, t, cut));
    if t <= headProtect + 1 {
      if |msgs| > headProtect + 1 {
        assert t == headProtect + 1;
      }
      assert FallsBack(msgs, headProtect, budget, tokens);
    } else {
      assert !FallsBack(msgs, headProtect, budget, tokens);
    }
  }

  /** A large message, a call and its result: the cut falls on the result. With the large
      message alone it falls past the end. */
  lemma FallbackMissesBoundary(user: Message, call: Message, answer: Message, tokens: Message -> nat)
    requires user.role.User? && call.role.Assistant? && answer.role.Tool?
    requires tokens(user) == 100 && tokens(call) == 4 && tokens(answer) == 4
    ensures IsTailCut([user, call, answer], 0, 50, tokens, 2) && [user, call, answer][2].role.Tool?
    ensures IsTailCut([user], 0, 50, tokens, 2) && 2 > |[user]|
  {
    var msgs := [user, call, answer];
    assert Weight(msgs, 2, tokens) == 4;
    assert Weight(msgs, 1, tokens) == 8;
    assert Weight(msgs, 0, tokens) == 108;
    assert Overflows(msgs, 0, 50, tokens) && Fits(msgs, 1, 50, tokens);
    assert IsTailStart(msgs, 0, 50, tokens, 1);
    assert Weight([user], 1, tokens) == 0;
    assert !Overflows([user], 0, 50, tokens);
    assert IsTailStart([user], 0, 50, tokens, 1);
  }

  // ---------------------------------------------------------------- truncation

  function NonSystem(msgs: seq<Message>): nat {
    if msgs == [] then 0 else NonSystem(msgs[..|msgs| - 1]) + if msgs[|msgs| - 1].role.System? then 0 else 1
  }

  function HeadStart(msgs: seq<Message>): nat {
    if msgs != [] && msgs[0].role.System? then 1 else 0
  }

  /** The head ends right after the protected messages; with fewer messages than that to
      protect, it holds the leading system message alone. */
  ghost predicate IsHeadEnd(msgs: seq<Message>, protect: int, end: nat) {
    && end <= |msgs|
    && (if NonSystem(msgs) < protect then end == HeadStart(msgs)
        else 0 < end && !msgs[end - 1].role.System? && NonSystem(msgs[..end]) == protect)
  }

  function Notice(): Message {
    Message(System, [], "", "",
      "[CONTEXT TRUNCATION] " + "Earlier messages were " + "dropped to free " + "context space. "
      + "Continue based on " + "the messages below.")
  }

  lemma NoticeIsSystem()
    ensures Notice().role.System?
  {
  }

  ghost predicate AreBounds(msgs: seq<Message>, protect: int, budget: int, tokens: Message -> nat, head: nat, cut: nat) {
    IsHeadEnd(msgs, protect, head) && exists t: nat :: IsTailStart(msgs, head, budget, tokens, t) && IsAligned(msgs, t, cut)
  }

  function Protected(protectFirstN: int): int {
    if protectFirstN <= 0 then 3 else protectFirstN
  }

  /** What Compress returns: a history of up to three messages as it is; else, when there is
      anything to drop, the head, the notice and the tail without their orphans. */
  ghost predicate IsCompressed(msgs: seq<Message>, protect: int, budget: int, tokens: Message -> nat,
      result: seq<Message>, dropped: nat) {
    if |msgs| <= 3 then result == msgs && dropped == 0
    else exists head: nat, cut: nat :: IsCutTo(msgs, protect, budget, tokens, head, cut, result, dropped)
  }

  ghost predicate IsCutTo(msgs: seq<Message>, protect: int, budget: int, tokens: Message -> nat, head: nat, cut: nat,
      result: seq<Message>, dropped: nat) {
    && AreBounds(msgs, protect, budget, tokens, head, cut)
    && (if head >= cut then result == msgs && dropped == 0
        else cut <= |msgs| && dropped == cut - head && result == Truncated(msgs, head, cut))
  }

  class TruncateEngine {
    const protectFirstN: int
    const keepRecentTokens: int
    var compressionCnt: nat

    constructor (protectFirstN: int, keepRecentTokens: int)
      ensures this.protectFirstN == protectFirstN && this.keepRecentTokens == keepRecentTokens && compressionCnt == 0
    {
      this.protectFirstN := protectFirstN;
      this.keepRecentTokens := keepRecentTokens;
      compressionCnt := 0;
    }

    method Compress(msgs: seq<Message>, tokens: Message -> nat) returns (result: seq<Message>, dropped: nat)
      modifies this
      ensures IsCompressed(msgs, Protected(protectFirstN), keepRecentTokens, tokens, result, dropped)
      ensures compressionCnt == old(compressionCnt) + if dropped > 0 then 1 else 0
    {
      hide AreBounds, Truncated, Notice;
      if |msgs| <= 3 {
        return msgs, 0;
      }
      var headEnd, cut := FindBounds(msgs, Protected(protectFirstN), keepRecentTokens, tokens);
      if headEnd >= cut {
        assert IsCutTo(msgs, Protected(protectFirstN), keepRecentTokens, tokens, headEnd, cut, msgs, 0);
        return msgs, 0;
      }
      result := Truncate(msgs, headEnd, cut);
      assert IsCutTo(msgs, Protected(protectFirstN), keepRecentTokens, tokens, headEnd, cut, result, cut - headEnd);
      compressionCnt := compressionCnt + 1;
      return result, cut - headEnd;
    }
  }

  method FindBounds(msgs: seq<Message>, protect: int, budget: int, tokens: Message -> nat) returns (headEnd: nat, cut: nat)
    requires protect > 0
    ensures AreBounds(msgs, protect, budget, tokens, headEnd, cut) && headEnd <= |msgs| && cut <= |msgs|
  {
    hide IsHeadEnd, IsTailStart, IsAligned;
    headEnd := FindHeadEnd(msgs, protect);
    HeadInside(msgs, protect, headEnd);
    var tailStart := ScanTail(msgs, headEnd, budget, tokens);
    cut := AlignBoundaryForward(msgs, tailStart);
    CutInside(msgs, headEnd, budget, tokens, tailStart, cut);
  }

  lemma HeadInside(msgs: seq<Message>, protect: int, end: nat)
    requires IsHeadEnd(msgs, protect, end)
    ensures end <= |msgs|
  {
  }

  lemma CutInside(msgs: seq<Message>, head: nat, budget: int, tokens: Message -> nat, t: nat, cut: nat)
    requires IsTailStart(msgs, head, budget, tokens, t) && IsAligned(msgs, t, cut)
    ensures cut <= |msgs|
  {
  }

  method Truncate(msgs: seq<Message>, head: nat, cut: nat) returns (result: seq<Message>)
    requires head <= cut <= |msgs|
    ensures result == Truncated(msgs, head, cut)
  {
    hide Notice;
    result := msgs[..head] + [Notice()] + msgs[cut..];
    result := ToolPairs.SanitizeToolPairs(result);
  }

  function Truncated(msgs: seq<Message>, head: nat, cut: nat): seq<Message>
    requires head <= cut <= |msgs|
  {
    hide Notice;
    var parts := msgs[..head] + [Notice()] + msgs[cut..];
    ToolPairs.WithoutOrphans(parts, |parts|)
  }

  method FindHeadEnd(msgs: seq<Message>, protect: int) returns (headEnd: nat)
    requires protect > 0
    ensures IsHeadEnd(msgs, protect, headEnd)
  {
    headEnd := HeadStart(msgs);
    var nonSystemCount := 0;
    for i := headEnd to |msgs|
      invariant headEnd == HeadStart(msgs)
      invariant nonSystemCount == NonSystem(msgs[..i]) && nonSystemCount < protect
    {
      assert msgs[..i + 1][..i] == msgs[..i];
      if !msgs[i].role.System? {
        nonSystemCount := nonSystemCount + 1;
        if nonSystemCount >= protect {
          headEnd := i + 1;
          NonSystemGrows(msgs, headEnd);
          return;
        }
      }
    }
    assert msgs[..|msgs|] == msgs;
  }

  lemma {:induction false} NonSystemGrows(msgs: seq<Message>, i: nat)
    requires i <= |msgs|
    ensures NonSystem(msgs[..i]) <= NonSystem(msgs)
    decreases |msgs|
  {
    if i < |msgs| {
      var shorter := msgs[..|msgs| - 1];
      NonSystemGrows(shorter, i);
      assert shorter[..i] == msgs[..i];
    } else {
      assert msgs[..i] == msgs;
    }
  }

  // ---------------------------------------------------------------- what truncation promises

  predicate IsCounted(m: Message) {
    !m.role.System?
  }

  /** A message of the user or the assistant. */
  predicate IsSpoken(m: Message) {
    m.role.User? || m.role.Assistant?
  }

  function Filter(msgs: seq<Message>, keep: Message -> bool): seq<Message> {
    if msgs == [] then [] else
      var last := msgs[|msgs| - 1];
      Filter(msgs[..|msgs| - 1], keep) + if keep(last) then [last] else []
  }

  lemma {:induction false} FilterJoin(a: seq<Message>, b: seq<Message>, keep: Message -> bool)
    ensures Filter(a + b, keep) == Filter(a, keep) + Filter(b, keep)
  {
    if b == [] {
      assert a + b == a;
    } else {
      var n := |b| - 1;
      assert (a + b)[..|a + b| - 1] == a + b[..n];
      FilterJoin(a, b[..n], keep);
    }
  }

  lemma {:induction false} CountedAre(msgs: seq<Message>)
    ensures |Filter(msgs, IsCounted)| == NonSystem(msgs)
  {
    if msgs != [] {
      CountedAre(msgs[..|msgs| - 1]);
    }
  }

  /** Sanitizing drops no message of the user or the assistant, and adds none at all. */
  lemma {:induction false} SanitizeKeepsSpoken(msgs: seq<Message>, n: nat)
    requires n <= |msgs|
    ensures Filter(ToolPairs.WithoutOrphans(msgs, n), IsSpoken) == Filter(msgs[..n], IsSpoken)
    ensures |Filter(ToolPairs.WithoutOrphans(msgs, n), IsCounted)| <= |Filter(msgs[..n], IsCounted)|
  {
    if n > 0 {
      SanitizeKeepsSpoken(msgs, n - 1);
      assert msgs[..n] == msgs[..n - 1] + [msgs[n - 1]];
      FilterOne(msgs[..n - 1], msgs[n - 1]);
      FilterOne(ToolPairs.WithoutOrphans(msgs, n - 1), msgs[n - 1]);
      SanitizeOne(msgs, n);
      hide Filter, ToolPairs.WithoutOrphans, ToolPairs.Orphan;
    }
  }

  lemma SanitizeOne(msgs: seq<Message>, n: nat)
    requires 0 < n <= |msgs|
    ensures var before, m := ToolPairs.WithoutOrphans(msgs, n - 1), msgs[n - 1];
      ToolPairs.WithoutOrphans(msgs, n) == before + [m]
      || (ToolPairs.WithoutOrphans(msgs, n) == before && m.role.Tool?)
  {
  }

  lemma FilterOne(msgs: seq<Message>, m: Message)
    ensures Filter(msgs + [m], IsSpoken) == Filter(msgs, IsSpoken) + if IsSpoken(m) then [m] else []
    ensures Filter(msgs + [m], IsCounted) == Filter(msgs, IsCounted) + if IsCounted(m) then [m] else []
  {
    assert (msgs + [m])[..|msgs|] == msgs;
  }

  /** What is left of the spoken messages, and how much of the counted ones at most. */
  lemma TruncatedSpeaks(msgs: seq<Message>, head: nat, cut: nat)
    requires head <= cut <= |msgs|
    ensures Filter(Truncated(msgs, head, cut), IsSpoken) == Filter(msgs[..head], IsSpoken) + Filter(msgs[cut..], IsSpoken)
    ensures |Filter(Truncated(msgs, head, cut), IsCounted)|
      <= |Filter(msgs[..head], IsCounted)| + |Filter(msgs[cut..], IsCounted)|
  {
    hide Notice;
    NoticeIsSystem();
    var parts := msgs[..head] + [Notice()] + msgs[cut..];
    assert parts[..|parts|] == parts;
    SanitizeKeepsSpoken(parts, |parts|);
    FilterJoin(msgs[..head] + [Notice()], msgs[cut..], IsSpoken);
    FilterJoin(msgs[..head] + [Notice()], msgs[cut..], IsCounted);
    FilterOne(msgs[..head], Notice());
    hide Filter, ToolPairs.WithoutOrphans, IsSpoken, IsCounted;
  }

  lemma {:induction false} HeadEndIsUnique(msgs: seq<Message>, protect: int, h: nat, k: nat)
    requires IsHeadEnd(msgs, protect, h) && IsHeadEnd(msgs, protect, k)
    ensures h == k
  {
    if h != k && NonSystem(msgs) >= protect {
      var a, b := if h < k then h else k, if h < k then k else h;
      assert msgs[..b][..b - 1] == msgs[..b - 1] && msgs[..b - 1][..a] == msgs[..a];
      NonSystemGrows(msgs[..b - 1], a);
    }
  }

  /** There is nothing to drop exactly when the head takes in the whole history. */
  lemma NothingToDrop(msgs: seq<Message>, protect: int, budget: int, tokens: Message -> nat, head: nat, cut: nat)
    requires AreBounds(msgs, protect, budget, tokens, head, cut)
    ensures head <= |msgs| && cut <= |msgs|
    ensures head >= cut <==> head == |msgs|
  {
    var t: nat :| IsTailStart(msgs, head, budget, tokens, t) && IsAligned(msgs, t, cut);
  }

  // ---------------------------------------------------------------- the most recent messages

  ghost predicate EndsWith(s: seq<Message>, tail: seq<Message>) {
    |tail| <= |s| && s[|s| - |tail|..] == tail
  }

  /** The documented promise for the tail, on what is returned: behind the head, the result
      ends with what the user and the assistant said in any stretch that still fits. */
  ghost predicate KeepsRecent(msgs: seq<Message>, head: nat, budget: int, tokens: Message -> nat, result: seq<Message>)
    requires head <= |msgs|
  {
    forall i :: head <= i <= |msgs| && Fits(msgs, i, budget, tokens) ==>
      var said, recent := Filter(result, IsSpoken), Filter(msgs[i..], IsSpoken);
      |Filter(msgs[..head], IsSpoken)| + |recent| <= |said| && EndsWith(said, recent)
  }

  /** The promise holds exactly for up to three messages, when something after the head
      overflows, or when nothing was said after the head: what fits as a whole is dropped. */
  lemma RecentKeptIff(msgs: seq<Message>, protect: int, budget: int, tokens: Message -> nat, head: nat,
      result: seq<Message>, dropped: nat)
    requires IsHeadEnd(msgs, protect, head) && IsCompressed(msgs, protect, budget, tokens, result, dropped)
    ensures KeepsRecent(msgs, head, budget, tokens, result)
      <==> |msgs| <= 3 || !Fits(msgs, head, budget, tokens) || Filter(msgs[head..], IsSpoken) == []
  {
    if |msgs| <= 3 {
      AllIsKept(msgs, head, budget, tokens);
    } else {
      var h: nat, cut: nat :| IsCutTo(msgs, protect, budget, tokens, h, cut, result, dropped);
      HeadEndIsUnique(msgs, protect, h, head);
      NothingToDrop(msgs, protect, budget, tokens, head, cut);
      if head == |msgs| {
        assert msgs[head..] == [];
        AllIsKept(msgs, head, budget, tokens);
      } else {
        hide IsCompressed, IsHeadEnd;
        RecentOfTruncated(msgs, protect, budget, tokens, head, cut);
      }
    }
  }

  lemma AllIsKept(msgs: seq<Message>, head: nat, budget: int, tokens: Message -> nat)
    requires head <= |msgs|
    ensures KeepsRecent(msgs, head, budget, tokens, msgs)
  {
    forall i | head <= i <= |msgs|
      ensures var said, recent := Filter(msgs, IsSpoken), Filter(msgs[i..], IsSpoken);
        |Filter(msgs[..head], IsSpoken)| + |recent| <= |said| && EndsWith(said, recent)
    {
      assert msgs == msgs[..i] + msgs[i..] && msgs[..i] == msgs[..head] + msgs[head..i];
      FilterJoin(msgs[..i], msgs[i..], IsSpoken);
      FilterJoin(msgs[..head], msgs[head..i], IsSpoken);
    }
  }

  lemma RecentOfTruncated(msgs: seq<Message>, protect: int, budget: int, tokens: Message -> nat, head: nat, cut: nat)
    requires AreBounds(msgs, protect, budget, tokens, head, cut) && head < cut <= |msgs|
    ensures KeepsRecent(msgs, head, budget, tokens, Truncated(msgs, head, cut))
      <==> !Fits(msgs, head, budget, tokens) || Filter(msgs[head..], IsSpoken) == []
  {
    var t: nat :| IsTailStart(msgs, head, budget, tokens, t) && IsAligned(msgs, t, cut);
    hide Notice, Truncated, Filter, KeepsRecent, AreBounds, IsAligned;
    TruncatedSpeaks(msgs, head, cut);
    var result := Truncated(msgs, head, cut);
    if Fits(msgs, head, budget, tokens) {
      AlignedStart(msgs, t, cut);
      assert cut == |msgs|;
      hide IsTailStart, Fits;
      WholeTailIsDropped(msgs, head, budget, tokens, result);
    } else {
      assert head < t && Overflows(msgs, t - 1, budget, tokens);
      AlignedStart(msgs, t, cut);
      hide IsTailStart, Fits, Overflows;
      TailIsKept(msgs, head, budget, tokens, t, cut, result);
    }
  }

  lemma AlignedStart(msgs: seq<Message>, t: nat, cut: nat)
    requires IsAligned(msgs, t, cut)
    ensures t <= cut
  {
  }

  lemma WholeTailIsDropped(msgs: seq<Message>, head: nat, budget: int, tokens: Message -> nat, result: seq<Message>)
    requires head <= |msgs| && Fits(msgs, head, budget, tokens)
    requires Filter(result, IsSpoken) == Filter(msgs[..head], IsSpoken) + Filter(msgs[|msgs|..], IsSpoken)
    ensures KeepsRecent(msgs, head, budget, tokens, result) <==> Filter(msgs[head..], IsSpoken) == []
  {
    assert msgs[|msgs|..] == [] && Filter([], IsSpoken) == [];
    forall i | head <= i <= |msgs|
      ensures |Filter(msgs[i..], IsSpoken)| <= |Filter(msgs[head..], IsSpoken)|
    {
      assert msgs[head..] == msgs[head..i] + msgs[i..];
      FilterJoin(msgs[head..i], msgs[i..], IsSpoken);
    }
    hide Filter, Fits;
    assert Fits(msgs, head, budget, tokens);
  }

  lemma TailIsKept(msgs: seq<Message>, head: nat, budget: int, tokens: Message -> nat, t: nat, cut: nat,
      result: seq<Message>)
    requires head < t <= cut <= |msgs| && Overflows(msgs, t - 1, budget, tokens) && IsAligned(msgs, t, cut)
    requires Filter(result, IsSpoken) == Filter(msgs[..head], IsSpoken) + Filter(msgs[cut..], IsSpoken)
    ensures KeepsRecent(msgs, head, budget, tokens, result)
  {
    var last := Filter(msgs[cut..], IsSpoken);
    forall i | head <= i <= |msgs| && Fits(msgs, i, budget, tokens)
      ensures EndsWith(last, Filter(msgs[i..], IsSpoken))
    {
      assert t - 1 < i;
      RecentInTail(msgs, t, cut, i);
    }
    hide Filter, Fits, Overflows, IsAligned;
  }

  /** Between the scanned start and the cut there are only tool results. */
  lemma RecentInTail(msgs: seq<Message>, t: nat, cut: nat, i: nat)
    requires t <= i <= |msgs| && IsAligned(msgs, t, cut) && cut <= |msgs|
    ensures EndsWith(Filter(msgs[cut..], IsSpoken), Filter(msgs[i..], IsSpoken))
  {
    if i <= cut {
      assert msgs[i..] == msgs[i..cut] + msgs[cut..];
      FilterJoin(msgs[i..cut], msgs[cut..], IsSpoken);
      NoneSpoken(msgs[i..cut]);
    } else {
      assert msgs[cut..] == msgs[cut..i] + msgs[i..];
      FilterJoin(msgs[cut..i], msgs[i..], IsSpoken);
    }
  }

  lemma {:induction false} NoneSpoken(msgs: seq<Message>)
    requires forall m :: m in msgs ==> !IsSpoken(m)
    ensures Filter(msgs, IsSpoken) == []
  {
    if msgs != [] {
      NoneSpoken(msgs[..|msgs| - 1]);
    }
  }

  // ---------------------------------------------------------------- the first messages

  /** The documented promise for the head, on what is returned: it starts with the first
      messages of the history, system messages aside. */
  ghost predicate KeepsFirst(msgs: seq<Message>, protect: nat, result: seq<Message>) {
    var all := Filter(msgs, IsCounted);
    all[..if protect <= |all| then protect else |all|] <= Filter(result, IsCounted)
  }

  /** None of the first messages is an orphaned tool result. */
  ghost predicate FirstAreJustified(msgs: seq<Message>, protect: nat) {
    forall i :: 0 <= i < |msgs| && NonSystem(msgs[..i]) < protect ==> !ToolPairs.Orphan(msgs, i)
  }

  /** The history ends with the last message to protect. */
  predicate EndsWithProtected(msgs: seq<Message>, protect: nat) {
    NonSystem(msgs) == protect && msgs != [] && !msgs[|msgs| - 1].role.System?
  }

  /** The promise holds exactly for up to three messages, for none but system ones, and for
      as many as are to be protected, if no more follow or none of the first is an orphan:
      with too few, at least one is always lost. */
  lemma FirstKeptIff(msgs: seq<Message>, protect: nat, budget: int, tokens: Message -> nat, result: seq<Message>,
      dropped: nat)
    requires protect > 0 && IsCompressed(msgs, protect, budget, tokens, result, dropped)
    ensures KeepsFirst(msgs, protect, result)
      <==> (|msgs| <= 3 || NonSystem(msgs) == 0
        || (NonSystem(msgs) >= protect && (EndsWithProtected(msgs, protect) || FirstAreJustified(msgs, protect))))
  {
    hide Notice, Truncated, FirstAreJustified, EndsWithProtected;
    CountedAre(msgs);
    if |msgs| > 3 && NonSystem(msgs) > 0 {
      var head: nat, cut: nat :| IsCutTo(msgs, protect, budget, tokens, head, cut, result, dropped);
      NothingToDrop(msgs, protect, budget, tokens, head, cut);
      if NonSystem(msgs) < protect {
        FewAreNotKept(msgs, protect, budget, tokens, head, cut);
      } else {
        HeadIsWhole(msgs, protect, head);
        if head < |msgs| {
          EnoughKeptIff(msgs, protect, head, cut);
        }
      }
    }
  }

  /** For histories without orphans, as they are kept, the number of messages decides. */
  lemma FirstKeptOfJustified(msgs: seq<Message>, protect: nat, budget: int, tokens: Message -> nat, result: seq<Message>,
      dropped: nat)
    requires protect > 0 && IsCompressed(msgs, protect, budget, tokens, result, dropped) && ToolPairs.Justified(msgs)
    ensures KeepsFirst(msgs, protect, result) <==> |msgs| <= 3 || NonSystem(msgs) >= protect || NonSystem(msgs) == 0
  {
    hide IsCompressed, KeepsFirst, NonSystem, Notice;
    FirstKeptIff(msgs, protect, budget, tokens, result, dropped);
  }

  lemma HeadIsWhole(msgs: seq<Message>, protect: nat, head: nat)
    requires IsHeadEnd(msgs, protect, head) && NonSystem(msgs) >= protect > 0
    ensures head == |msgs| <==> EndsWithProtected(msgs, protect)
  {
    if head == |msgs| {
      assert msgs[..head] == msgs;
    } else if EndsWithProtected(msgs, protect) {
      var n := |msgs| - 1;
      assert msgs[..n][..head] == msgs[..head];
      NonSystemGrows(msgs[..n], head);
    }
  }

  lemma FewAreNotKept(msgs: seq<Message>, protect: nat, budget: int, tokens: Message -> nat, head: nat, cut: nat)
    requires 0 < NonSystem(msgs) < protect && AreBounds(msgs, protect, budget, tokens, head, cut) && cut <= |msgs|
    ensures head < cut && !KeepsFirst(msgs, protect, Truncated(msgs, head, cut))
  {
    hide Notice, Truncated;
    var i := LostMessage(msgs, protect, budget, tokens, head, cut);
    FewerCounted(msgs, head, i, cut);
    CountedAre(msgs);
    TruncatedSpeaks(msgs, head, cut);
    hide Filter, AreBounds;
  }

  lemma FewerCounted(msgs: seq<Message>, head: nat, i: nat, cut: nat)
    requires head <= i < cut <= |msgs| && IsCounted(msgs[i])
    ensures |Filter(msgs[..head], IsCounted)| + |Filter(msgs[cut..], IsCounted)| < |Filter(msgs, IsCounted)|
  {
    var a, b, c, d := msgs[..head], msgs[head..i], msgs[i + 1..cut], msgs[cut..];
    assert msgs == a + b + [msgs[i]] + c + d;
    FilterJoin(a + b + [msgs[i]] + c, d, IsCounted);
    FilterJoin(a + b + [msgs[i]], c, IsCounted);
    FilterOne(a + b, msgs[i]);
    FilterJoin(a, b, IsCounted);
    hide Filter, IsCounted;
  }

  /** Where the head holds enough messages, they are kept exactly when none is an orphan. */
  lemma EnoughKeptIff(msgs: seq<Message>, protect: nat, head: nat, cut: nat)
    requires IsHeadEnd(msgs, protect, head) && NonSystem(msgs) >= protect > 0 && head < cut <= |msgs|
    ensures KeepsFirst(msgs, protect, Truncated(msgs, head, cut)) <==> FirstAreJustified(msgs, protect)
  {
    hide Notice, Truncated, ToolPairs.Orphan, NonSystem;
    CountedAre(msgs);
    HeadHoldsFirst(msgs, protect, head);
    FirstAreHead(msgs, protect, head);
    hide IsHeadEnd, Filter;
    if FirstAreJustified(msgs, protect) {
      JustifiedHeadIsKept(msgs, head, cut);
    } else {
      var p := FirstOrphan(msgs, head);
      OrphanIsMissed(msgs, head, cut, p);
    }
  }

  lemma HeadHoldsFirst(msgs: seq<Message>, protect: nat, head: nat)
    requires IsHeadEnd(msgs, protect, head) && NonSystem(msgs) >= protect
    ensures |Filter(msgs, IsCounted)| >= protect && Filter(msgs, IsCounted)[..protect] == Filter(msgs[..head], IsCounted)
  {
    assert msgs == msgs[..head] + msgs[head..];
    FilterJoin(msgs[..head], msgs[head..], IsCounted);
    CountedAre(msgs[..head]);
  }

  lemma FirstAreHead(msgs: seq<Message>, protect: nat, head: nat)
    requires IsHeadEnd(msgs, protect, head) && NonSystem(msgs) >= protect > 0
    ensures forall i :: 0 <= i < |msgs| ==> (NonSystem(msgs[..i]) < protect <==> i < head)
  {
    forall i | 0 <= i < |msgs|
      ensures NonSystem(msgs[..i]) < protect <==> i < head
    {
      if i < head {
        assert msgs[..head][..head - 1] == msgs[..head - 1] && msgs[..head - 1][..i] == msgs[..i];
        NonSystemGrows(msgs[..head - 1], i);
      } else {
        assert msgs[..i][..head] == msgs[..head];
        NonSystemGrows(msgs[..i], head);
      }
    }
  }

  lemma JustifiedHeadIsKept(msgs: seq<Message>, head: nat, cut: nat)
    requires head <= cut <= |msgs| && forall i :: 0 <= i < head ==> !ToolPairs.Orphan(msgs, i)
    ensures Filter(msgs[..head], IsCounted) <= Filter(Truncated(msgs, head, cut), IsCounted)
  {
    hide Notice;
    var parts := msgs[..head] + [Notice()] + msgs[cut..];
    assert parts[..head] == msgs[..head];
    HeadSurvives(msgs, parts, head);
    PrefixesGrow(parts, head, |parts|);
    var result := Truncated(msgs, head, cut);
    hide Truncated, ToolPairs.WithoutOrphans, ToolPairs.Orphan, Filter;
    assert result == msgs[..head] + result[head..];
    FilterJoin(msgs[..head], result[head..], IsCounted);
  }

  lemma {:induction false} FirstOrphan(msgs: seq<Message>, head: nat) returns (p: nat)
    requires head <= |msgs| && exists i :: 0 <= i < head && ToolPairs.Orphan(msgs, i)
    ensures p < head && ToolPairs.Orphan(msgs, p) && forall i :: 0 <= i < p ==> !ToolPairs.Orphan(msgs, i)
  {
    p := head - 1;
    if exists i :: 0 <= i < p && ToolPairs.Orphan(msgs, i) {
      p := FirstOrphan(msgs, p);
    }
  }

  /** The first that is kept after an orphan is not its like: another such result would need
      a call in between, and that call would be kept before it. */
  lemma OrphanIsMissed(msgs: seq<Message>, head: nat, cut: nat, p: nat)
    requires head <= cut <= |msgs| && p < head && ToolPairs.Orphan(msgs, p)
    requires forall i :: 0 <= i < p ==> !ToolPairs.Orphan(msgs, i)
    ensures !(Filter(msgs[..head], IsCounted) <= Filter(Truncated(msgs, head, cut), IsCounted))
  {
    hide Notice;
    var parts := msgs[..head] + [Notice()] + msgs[cut..];
    assert parts[..head] == msgs[..head] && parts[..p] == msgs[..p];
    HeadSurvives(msgs, parts, p);
    SameOrphan(msgs, parts, head, p);
    var rest := KeptAfterOrphan(parts, p, |parts|);
    var before := msgs[..p];
    assert Truncated(msgs, head, cut) == before + rest;
    assert msgs[..head] == before + [msgs[p]] + msgs[p + 1..head];
    FilterJoin(before, rest, IsCounted);
    FilterJoin(before + [msgs[p]], msgs[p + 1..head], IsCounted);
    FilterOne(before, msgs[p]);
    assert IsCounted(msgs[p]) && msgs[p] == parts[p];
    hide Truncated, ToolPairs.WithoutOrphans;
    var k := |Filter(before, IsCounted)|;
    assert Filter(msgs[..head], IsCounted)[k] == msgs[p];
    assert k < |Filter(before + rest, IsCounted)| ==> Filter(before + rest, IsCounted)[k] == Filter(rest, IsCounted)[0];
  }

  lemma SameOrphan(msgs: seq<Message>, parts: seq<Message>, head: nat, p: nat)
    requires p < head <= |msgs| && head <= |parts| && parts[..head] == msgs[..head]
    ensures parts[p] == msgs[p] && (ToolPairs.Orphan(parts, p) <==> ToolPairs.Orphan(msgs, p))
  {
    assert forall j :: 0 <= j < head ==> parts[..head][j] == parts[j] && msgs[..head][j] == msgs[j];
  }

  /** What is kept of the messages after an orphan does not start with its like. */
  lemma {:induction false} KeptAfterOrphan(msgs: seq<Message>, p: nat, n: nat) returns (rest: seq<Message>)
    requires p < n <= |msgs| && ToolPairs.Orphan(msgs, p)
    ensures ToolPairs.WithoutOrphans(msgs, n) == ToolPairs.WithoutOrphans(msgs, p) + rest
    ensures var kept := Filter(rest, IsCounted);
      if kept == [] then forall j :: 0 <= j < n ==> !ToolPairs.Calls(msgs[j], msgs[p].toolCallId) else kept[0] != msgs[p]
  {
    if n == p + 1 {
      rest := [];
      assert ToolPairs.WithoutOrphans(msgs, n) == ToolPairs.WithoutOrphans(msgs, p) + [];
    } else {
      rest := KeptAfterOrphan(msgs, p, n - 1);
      if !ToolPairs.Orphan(msgs, n - 1) {
        FilterOne(rest, msgs[n - 1]);
        var so := ToolPairs.WithoutOrphans(msgs, p);
        assert so + rest + [msgs[n - 1]] == so + (rest + [msgs[n - 1]]);
        rest := rest + [msgs[n - 1]];
      } else {
        assert ToolPairs.WithoutOrphans(msgs, n) == ToolPairs.WithoutOrphans(msgs, n - 1) + [];
      }
    }
  }

  /** A protected tool result without its call is lost. */
  lemma ProtectedOrphanIsLost(msgs: seq<Message>, budget: int, tokens: Message -> nat, result: seq<Message>, dropped: nat)
    requires |msgs| == 4 && msgs[0].role.Tool? && forall i :: 1 <= i < 4 ==> msgs[i].role.User?
    requires IsCompressed(msgs, 1, budget, tokens, result, dropped)
    ensures !KeepsFirst(msgs, 1, result)
  {
    hide IsCompressed, KeepsFirst, Notice;
    AllCount(msgs);
    assert msgs[..0] == [] && NonSystem([]) == 0;
    NothingBefore(msgs);
    hide NonSystem, ToolPairs.Orphan;
    assert !FirstAreJustified(msgs, 1);
    hide FirstAreJustified;
    FirstKeptIff(msgs, 1, budget, tokens, result, dropped);
  }

  lemma NothingBefore(msgs: seq<Message>)
    requires msgs != [] && msgs[0].role.Tool?
    ensures ToolPairs.Orphan(msgs, 0)
  {
  }

  lemma {:induction false} AllCount(msgs: seq<Message>)
    requires forall m :: m in msgs ==> !m.role.System?
    ensures NonSystem(msgs) == |msgs|
  {
    if msgs != [] {
      AllCount(msgs[..|msgs| - 1]);
    }
  }

  /** With too few messages the scan leaves one out: the one that overflows, or, when none
      does, any after the head. */
  lemma LostMessage(msgs: seq<Message>, protect: int, budget: int, tokens: Message -> nat, head: nat,
      cut: nat) returns (i: nat)
    requires 0 < NonSystem(msgs) < protect && AreBounds(msgs, protect, budget, tokens, head, cut)
    ensures i < |msgs| && head <= i < cut && !msgs[i].role.System?
  {
    var t: nat :| IsTailStart(msgs, head, budget, tokens, t) && IsAligned(msgs, t, cut);
    if Fits(msgs, head, budget, tokens) {
      i := SomeNonSystem(msgs);
    } else {
      i := t - 1;
    }
  }

  lemma {:induction false} SomeNonSystem(msgs: seq<Message>) returns (i: nat)
    requires NonSystem(msgs) > 0
    ensures i < |msgs| && !msgs[i].role.System?
  {
    i := |msgs| - 1;
    if msgs[i].role.System? {
      i := SomeNonSystem(msgs[..i]);
    }
  }

  /** A history of more than three messages without a leading system message, with too few
      messages to protect, that fits in the budget as a whole is dropped as a whole. */
  lemma NothingIsLeft(msgs: seq<Message>, protect: int, budget: int, tokens: Message -> nat, result: seq<Message>,
      dropped: nat)
    requires |msgs| > 3 && HeadStart(msgs) == 0 && NonSystem(msgs) < protect && Fits(msgs, 0, budget, tokens)
    requires IsCompressed(msgs, protect, budget, tokens, result, dropped)
    ensures result == [Notice()] && dropped == |msgs|
  {
    hide Notice;
    var head: nat, cut: nat :| IsCutTo(msgs, protect, budget, tokens, head, cut, result, dropped);
    assert head == 0 && cut == |msgs|;
    var parts := msgs[..0] + [Notice()] + msgs[|msgs|..];
    assert parts == [Notice()];
    hide AreBounds, IsCompressed;
    NoticeSurvives(parts, 0);
    assert ToolPairs.WithoutOrphans(parts, 0) == [];
  }

  /** Four short messages, a budget with room for all of them, and more messages to protect
      than there are: every message is dropped. */
  lemma EverythingMayBeDropped(msgs: seq<Message>, tokens: Message -> nat, result: seq<Message>, dropped: nat)
    requires |msgs| == 4 && forall m :: m in msgs ==> m.role.User? && tokens(m) == 4
    requires IsCompressed(msgs, 10, 100, tokens, result, dropped)
    ensures result == [Notice()] && dropped == 4
  {
    hide Notice;
    assert Weight(msgs, 4, tokens) == 0;
    assert Weight(msgs, 2, tokens) == 8;
    assert Weight(msgs, 0, tokens) == 16;
    WeightsFall(msgs, tokens);
    FewMessages(msgs);
    assert Fits(msgs, 0, 100, tokens);
    hide Weight, NonSystem, AreBounds, Fits, Truncated, IsCompressed;
    NothingIsLeft(msgs, 10, 100, tokens, result, dropped);
  }

  lemma WeightsFall(msgs: seq<Message>, tokens: Message -> nat)
    ensures forall i :: 0 <= i < |msgs| ==> Weight(msgs, 0, tokens) >= Weight(msgs, i, tokens)
  {
    forall i | 0 <= i < |msgs|
      ensures Weight(msgs, 0, tokens) >= Weight(msgs, i, tokens)
    {
      WeightFalls(msgs, 0, i, tokens);
    }
  }

  lemma {:induction false} FewMessages(msgs: seq<Message>)
    ensures NonSystem(msgs) <= |msgs|
  {
    if msgs != [] {
      FewMessages(msgs[..|msgs| - 1]);
    }
  }

  /** What is left holds no orphaned tool result, and the head without its orphans survives. */
  lemma TruncatedIsSound(msgs: seq<Message>, head: nat, cut: nat)
    requires head <= cut <= |msgs|
    ensures ToolPairs.Justified(Truncated(msgs, head, cut))
    ensures ToolPairs.Justified(msgs) ==> msgs[..head] + [Notice()] <= Truncated(msgs, head, cut)
  {
    hide Notice;
    var parts := msgs[..head] + [Notice()] + msgs[cut..];
    assert parts[..head] == msgs[..head] && parts[head] == Notice();
    hide ToolPairs.Justified, ToolPairs.Orphan, ToolPairs.WithoutOrphans;
    ToolPairs.SanitizeRemovesOrphans(parts);
    if ToolPairs.Justified(msgs) {
      HeadSurvives(msgs, parts, head);
      NoticeSurvives(parts, head);
      PrefixesGrow(parts, head + 1, |parts|);
    }
  }

  lemma NoticeSurvives(parts: seq<Message>, n: nat)
    requires n < |parts| && parts[n] == Notice()
    ensures ToolPairs.WithoutOrphans(parts, n + 1) == ToolPairs.WithoutOrphans(parts, n) + [Notice()]
  {
    hide Notice;
    NoticeIsSystem();
  }

  lemma {:induction false} HeadSurvives(msgs: seq<Message>, parts: seq<Message>, n: nat)
    requires n <= |msgs| && n <= |parts| && parts[..n] == msgs[..n]
    requires forall i :: 0 <= i < n ==> !ToolPairs.Orphan(msgs, i)
    ensures ToolPairs.WithoutOrphans(parts, n) == msgs[..n]
  {
    if n > 0 {
      assert parts[..n - 1] == parts[..n][..n - 1] == msgs[..n - 1];
      HeadSurvives(msgs, parts, n - 1);
      assert parts[n - 1] == parts[..n][n - 1] == msgs[n - 1];
      assert !ToolPairs.Orphan(msgs, n - 1);
      assert forall j :: 0 <= j < n ==> parts[..n][j] == parts[j] && msgs[..n][j] == msgs[j];
    }
  }

  lemma {:induction false} PrefixesGrow(msgs: seq<Message>, i: nat, n: nat)
    requires i <= n <= |msgs|
    ensures ToolPairs.WithoutOrphans(msgs, i) <= ToolPairs.WithoutOrphans(msgs, n)
  {
    if i < n {
      PrefixesGrow(msgs, i, n - 1);
    }
  }
}
