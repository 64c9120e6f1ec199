/** Putting a streamed response together: content blocks that are coalesced as they come,
    and tool calls that come in fragments. */
module StreamAssembly {

  // ---------------------------------------------------------------- content blocks

  datatype BlockKind = Text | Thinking | Image | ToolUse | Other

  datatype Block = Block(kind: BlockKind, text: string, url: string, mediaType: string, detail: string,
    signature: string, toolCallId: string, name: string, arguments: string)

  predicate Compatible(a: string, b: string) {
    a == b || a == "" || b == ""
  }

  /** The next block is a continuation of the last one. */
  predicate Coalesces(last: Block, bl: Block) {
    (last.kind == bl.kind && last.url == "" && bl.url == "" && last.mediaType == bl.mediaType && last.detail == bl.detail
      && (bl.kind.Text? || bl.kind.Thinking?))
    || (last.kind.ToolUse? && bl.kind.ToolUse?
      && Compatible(last.toolCallId, bl.toolCallId) && Compatible(last.name, bl.name))
  }

  function Or(a: string, b: string): string {
    if a == "" then b else a
  }

  function Absorb(last: Block, bl: Block): Block {
    if last.kind.ToolUse? then
      last.(toolCallId := Or(last.toolCallId, bl.toolCallId), name := Or(last.name, bl.name),
            arguments := last.arguments + bl.arguments, signature := Or(bl.signature, last.signature))
    else
      last.(text := last.text + bl.text, signature := Or(bl.signature, last.signature))
  }

  function MergeOne(dst: seq<Block>, bl: Block): seq<Block> {
    if dst != [] && Coalesces(dst[|dst| - 1], bl) then dst[|dst| - 1 := Absorb(dst[|dst| - 1], bl)] else dst + [bl]
  }

  function Merge(dst: seq<Block>, src: seq<Block>): seq<Block> {
    if src == [] then dst else MergeOne(Merge(dst, src[..|src| - 1]), src[|src| - 1])
  }

  lemma MergeStep(dst: seq<Block>, src: seq<Block>, i: nat)
    requires i < |src|
    ensures Merge(dst, src[..i + 1]) == MergeOne(Merge(dst, src[..i]), src[i])
  {
    assert src[..i + 1][..i] == src[..i];
  }

  method MergeContentBlocks(dst: seq<Block>, src: seq<Block>) returns (out: seq<Block>)
    ensures out == Merge(dst, src)
  {
    out := dst;
    assert Merge(dst, src[..0]) == dst;
    hide Merge;
    for i := 0 to |src|
      invariant out == Merge(dst, src[..i])
    {
      MergeStep(dst, src, i);
      var bl := src[i];
      if |out| > 0 {
        var last := out[|out| - 1];
        if last.kind == bl.kind && last.url == "" && bl.url == "" && last.mediaType == bl.mediaType
          && last.detail == bl.detail && (bl.kind == Text || bl.kind == Thinking)
        {
          last := last.(text := last.text + bl.text);
          if bl.signature != "" {
            last := last.(signature := bl.signature);
          }
          out := out[|out| - 1 := last];
          continue;
        }
        if last.kind == ToolUse && bl.kind == ToolUse
          && (last.toolCallId == bl.toolCallId || last.toolCallId == "" || bl.toolCallId == "")
          && (last.name == bl.name || last.name == "" || bl.name == "")
        {
          if last.toolCallId == "" {
            last := last.(toolCallId := bl.toolCallId);
          }
          if last.name == "" {
            last := last.(name := bl.name);
          }
          last := last.(arguments := last.arguments + bl.arguments);
          if bl.signature != "" {
            last := last.(signature := bl.signature);
          }
          out := out[|out| - 1 := last];
          continue;
        }
      }
      out := out + [bl];
    }
    assert src[..|src|] == src;
  }

  /** What blocks of one kind say in all: arguments for tool calls, text for the rest. */
  function Said(blocks: seq<Block>, kind: BlockKind): string {
    if blocks == [] then "" else
      var last := blocks[|blocks| - 1];
      Said(blocks[..|blocks| - 1], kind)
        + (if last.kind != kind then "" else if kind.ToolUse? then last.arguments else last.text)
  }

  /** Nothing that is streamed gets lost, doubled or moved to another kind. */
  lemma {:induction false} MergeKeepsWhatIsSaid(dst: seq<Block>, src: seq<Block>, kind: BlockKind)
    ensures Said(Merge(dst, src), kind) == Said(dst, kind) + Said(src, kind)
  {
    if src != [] {
      var n := |src| - 1;
      MergeKeepsWhatIsSaid(dst, src[..n], kind);
      OneKeepsWhatIsSaid(Merge(dst, src[..n]), src[n], kind);
    }
  }

  lemma OneKeepsWhatIsSaid(dst: seq<Block>, bl: Block, kind: BlockKind)
    ensures Said(MergeOne(dst, bl), kind)
      == Said(dst, kind) + (if bl.kind != kind then "" else if kind.ToolUse? then bl.arguments else bl.text)
  {
    var out := MergeOne(dst, bl);
    if dst != [] && Coalesces(dst[|dst| - 1], bl) {
      assert out[..|out| - 1] == dst[..|dst| - 1];
    } else {
      assert out[..|out| - 1] == dst;
    }
  }

  /** No block is a continuation of the one before it. */
  ghost predicate Settled(blocks: seq<Block>) {
    forall i :: 0 < i < |blocks| ==> !Coalesces(blocks[i - 1], blocks[i])
  }

  lemma AbsorbedStaysApart(before: Block, last: Block, bl: Block)
    requires Coalesces(last, bl)
    ensures !Coalesces(before, last) ==> !Coalesces(before, Absorb(last, bl))
  {
  }

  lemma {:induction false} MergeSettles(dst: seq<Block>, src: seq<Block>)
    requires Settled(dst)
    ensures Settled(Merge(dst, src))
  {
    if src != [] {
      var n := |src| - 1;
      MergeSettles(dst, src[..n]);
      var out := Merge(dst, src[..n]);
      if |out| > 1 && Coalesces(out[|out| - 1], src[n]) {
        AbsorbedStaysApart(out[|out| - 2], out[|out| - 1], src[n]);
      }
    }
  }

  /** Blocks come through unchanged exactly when there is nothing to coalesce; merging what
      was merged changes nothing. */
  lemma {:induction false} SettledIffUnchanged(blocks: seq<Block>)
    ensures Merge([], blocks) == blocks <==> Settled(blocks)
  {
    MergeSettles([], blocks);
    if Settled(blocks) {
      SettledStays(blocks);
    }
  }

  lemma {:induction false} SettledStays(blocks: seq<Block>)
    requires Settled(blocks)
    ensures Merge([], blocks) == blocks
  {
    if blocks != [] {
      SettledStays(blocks[..|blocks| - 1]);
    }
  }

  /** The first of two pieces names the tool call as well as the two together do. */
  predicate NamesCall(a: Block, b: Block) {
    a.kind.ToolUse? ==> (a.toolCallId == "" ==> b.toolCallId == "") && (a.name == "" ==> b.name == "")
  }

  lemma AbsorbIsAssociative(last: Block, a: Block, b: Block)
    requires Coalesces(last, a) && Coalesces(a, b)
    ensures Absorb(Absorb(last, a), b) == Absorb(last, Absorb(a, b))
  {
    assert last.text + (a.text + b.text) == last.text + a.text + b.text;
    assert last.arguments + (a.arguments + b.arguments) == last.arguments + a.arguments + b.arguments;
  }

  /** The first piece says nothing at all. */
  predicate Blank(a: Block, b: Block) {
    a.toolCallId == "" && a.name == "" && a.arguments == "" && a.signature == "" && Absorb(a, b) == b
  }

  /** Two pieces of a block come to the same as the block. */
  ghost predicate CutSafely(dst: seq<Block>, a: Block, b: Block) {
    MergeOne(MergeOne(dst, a), b) == MergeOne(dst, Absorb(a, b))
  }

  /** How a provider cuts a block into pieces does not matter exactly when the first piece
      names its tool call, or says nothing; otherwise that piece may go to the call before. */
  lemma CutsDoNotMatterIff(a: Block, b: Block)
    requires Coalesces(a, b)
    ensures (forall dst :: CutSafely(dst, a, b)) <==> NamesCall(a, b) || (a.kind.ToolUse? && Blank(a, b))
  {
    if NamesCall(a, b) || (a.kind.ToolUse? && Blank(a, b)) {
      forall dst
        ensures CutSafely(dst, a, b)
      {
        NamedPieceIsSafe(dst, a, b);
      }
    } else {
      var dst := NamelessPieceGoesAstray(a, b);
      assert !CutSafely(dst, a, b);
    }
  }

  lemma NamedPieceIsSafe(dst: seq<Block>, a: Block, b: Block)
    requires Coalesces(a, b) && (NamesCall(a, b) || (a.kind.ToolUse? && Blank(a, b)))
    ensures CutSafely(dst, a, b)
  {
    if dst != [] && Coalesces(dst[|dst| - 1], a) {
      var last := dst[|dst| - 1];
      if NamesCall(a, b) {
        AbsorbIsAssociative(last, a, b);
      } else {
        assert last.arguments + "" == last.arguments;
        assert Absorb(last, a) == last;
        assert MergeOne(dst, a) == dst;
      }
    }
  }

  lemma NamelessPieceGoesAstray(a: Block, b: Block) returns (dst: seq<Block>)
    requires Coalesces(a, b) && a.kind.ToolUse? && !NamesCall(a, b) && !Blank(a, b)
    ensures !CutSafely(dst, a, b)
  {
    var last := Block(ToolUse, "", "", "", "", "", "", "", "");
    if a.toolCallId == "" && b.toolCallId != "" {
      last := last.(toolCallId := b.toolCallId + "'");
    } else {
      last := last.(name := b.name + "'");
    }
    dst := [last];
    assert MergeOne(dst, a) == [Absorb(last, a)];
    assert MergeOne([Absorb(last, a)], b) == [Absorb(last, a), b];
    assert MergeOne(dst, Absorb(a, b)) == [last, Absorb(a, b)];
    assert [Absorb(last, a), b][0] == Absorb(last, a) && [Absorb(last, a), b][1] == b;
    assert [last, Absorb(a, b)][0] == last && [last, Absorb(a, b)][1] == Absorb(a, b);
  }

  // ---------------------------------------------------------------- blocks streamed in pieces

  /** The signature that came last. */
  function LastSignature(pieces: seq<Block>): string {
    if pieces == [] then ""
    else if pieces[|pieces| - 1].signature != "" then pieces[|pieces| - 1].signature
    else LastSignature(pieces[..|pieces| - 1])
  }

  /** One piece of a block of text, or of a tool call. */
  predicate PieceOf(p: Block, whole: Block) {
    && p.kind == whole.kind
    && (if whole.kind.ToolUse? then p.toolCallId in ["", whole.toolCallId] && p.name in ["", whole.name]
        else p.url == "" && p.mediaType == whole.mediaType && p.detail == whole.detail)
  }

  /** What the whole block is when the pieces so far are all there is to it. */
  function SoFar(whole: Block, pieces: seq<Block>): Block {
    var said := Said(pieces, whole.kind);
    if whole.kind.ToolUse? then whole.(arguments := said, signature := LastSignature(pieces))
    else whole.(text := said, signature := LastSignature(pieces))
  }

  /** The pieces make up the block: it came whole, or the first of the pieces has all that is
      not said piece by piece. */
  ghost predicate MakesUp(pieces: seq<Block>, whole: Block) {
    pieces == [whole]
    || (
      && (whole.kind.Text? || whole.kind.Thinking? || whole.kind.ToolUse?)
      && pieces != [] && (forall p :: p in pieces ==> PieceOf(p, whole))
      && SoFar(whole, pieces) == whole && SoFar(whole, [pieces[0]]) == pieces[0])
  }

  /** Nothing makes b a continuation of a: they are of different kinds, or of a kind that is
      not continued, or text of which one has a place of its own or another format, or tool
      calls with different IDs or names. */
  predicate Apart(a: Block, b: Block) {
    || a.kind != b.kind || a.kind.Image? || a.kind.Other?
    || (!a.kind.ToolUse? && (a.url != "" || b.url != "" || a.mediaType != b.mediaType || a.detail != b.detail))
    || (a.kind.ToolUse? && (Differ(a.toolCallId, b.toolCallId) || Differ(a.name, b.name)))
  }

  predicate Differ(a: string, b: string) {
    a != "" && b != "" && a != b
  }

  lemma ApartIff(a: Block, b: Block)
    ensures Apart(a, b) <==> !Coalesces(a, b)
  {
  }

  lemma MergeGoesOn(dst: seq<Block>, pieces: seq<Block>, n: nat)
    requires 0 < n <= |pieces|
    ensures Merge(dst, pieces[..n]) == MergeOne(Merge(dst, pieces[..n - 1]), pieces[n - 1])
  {
    MergeStep(dst, pieces, n - 1);
  }

  lemma OneMorePiece(whole: Block, pieces: seq<Block>, p: Block)
    requires pieces != [] && PieceOf(p, whole) && (whole.kind.Text? || whole.kind.Thinking? || whole.kind.ToolUse?)
    requires !whole.kind.ToolUse? ==> whole.url == ""
    ensures Coalesces(SoFar(whole, pieces), p)
    ensures Absorb(SoFar(whole, pieces), p) == SoFar(whole, pieces + [p])
  {
    assert (pieces + [p])[..|pieces|] == pieces;
  }

  lemma AbsorbsPiece(dst: seq<Block>, whole: Block, pieces: seq<Block>, p: Block)
    requires pieces != [] && PieceOf(p, whole) && (whole.kind.Text? || whole.kind.Thinking? || whole.kind.ToolUse?)
    requires !whole.kind.ToolUse? ==> whole.url == ""
    ensures MergeOne(dst + [SoFar(whole, pieces)], p) == dst + [SoFar(whole, pieces + [p])]
  {
    OneMorePiece(whole, pieces, p);
    hide SoFar, Coalesces, Absorb, PieceOf;
  }

  lemma FirstPiece(dst: seq<Block>, pieces: seq<Block>, whole: Block)
    requires MakesUp(pieces, whole) && pieces != [whole]
    requires dst == [] || !Coalesces(dst[|dst| - 1], pieces[0])
    ensures Merge(dst, pieces[..1]) == dst + [SoFar(whole, pieces[..1])]
  {
    assert pieces[..1] == [pieces[0]] && pieces[..1][..0] == [];
    hide Coalesces, Absorb, PieceOf, Said, LastSignature;
  }

  lemma PiecesAre(pieces: seq<Block>, whole: Block, n: nat)
    requires MakesUp(pieces, whole) && pieces != [whole] && n < |pieces|
    ensures PieceOf(pieces[n], whole) && (whole.kind.Text? || whole.kind.Thinking? || whole.kind.ToolUse?)
    ensures !whole.kind.ToolUse? ==> whole.url == ""
  {
    assert pieces[0] in pieces && pieces[n] in pieces;
  }

  lemma {:induction false} PiecesMerge(dst: seq<Block>, pieces: seq<Block>, whole: Block, n: nat)
    requires MakesUp(pieces, whole) && pieces != [whole] && 0 < n <= |pieces|
    requires dst == [] || !Coalesces(dst[|dst| - 1], pieces[0])
    ensures Merge(dst, pieces[..n]) == dst + [SoFar(whole, pieces[..n])]
  {
    hide *;
    if n == 1 {
      FirstPiece(dst, pieces, whole);
    } else {
      var before, p := pieces[..n - 1], pieces[n - 1];
      PiecesMerge(dst, pieces, whole, n - 1);
      MergeGoesOn(dst, pieces, n);
      PiecesAre(pieces, whole, n - 1);
      AbsorbsPiece(dst, whole, before, p);
      assert pieces[..n] == before + [p];
    }
  }

  lemma GroupMerges(dst: seq<Block>, pieces: seq<Block>, whole: Block)
    requires MakesUp(pieces, whole)
    requires dst == [] || !Coalesces(dst[|dst| - 1], pieces[0])
    ensures Merge(dst, pieces) == dst + [whole]
  {
    if pieces == [whole] {
      assert pieces[..0] == [] && pieces[..1] == pieces;
      MergeGoesOn(dst, pieces, 1);
    } else {
      PiecesMerge(dst, pieces, whole, |pieces|);
      assert pieces[..|pieces|] == pieces;
    }
  }

  lemma {:induction false} MergeConcat(dst: seq<Block>, p: seq<Block>, q: seq<Block>)
    ensures Merge(dst, p + q) == Merge(Merge(dst, p), q)
  {
    hide MergeOne;
    if q == [] {
      assert p + q == p;
    } else {
      var n := |q| - 1;
      MergeConcat(dst, p, q[..n]);
      assert (p + q)[..|p + q| - 1] == p + q[..n];
    }
  }

  function Flatten(groups: seq<seq<Block>>): seq<Block> {
    if groups == [] then [] else Flatten(groups[..|groups| - 1]) + groups[|groups| - 1]
  }

  /** Each group of pieces makes up its block, and its first piece is no continuation of the
      block before. */
  ghost predicate Streams(groups: seq<seq<Block>>, blocks: seq<Block>) {
    && |groups| == |blocks|
    && (forall i :: 0 <= i < |groups| ==> MakesUp(groups[i], blocks[i]))
    && (forall i :: 0 < i < |groups| ==> groups[i] != [] && Apart(blocks[i - 1], groups[i][0]))
  }

  lemma StreamsPrefix(groups: seq<seq<Block>>, blocks: seq<Block>, n: nat)
    requires Streams(groups, blocks) && |groups| == n + 1
    ensures Streams(groups[..n], blocks[..n]) && MakesUp(groups[n], blocks[n])
    ensures n > 0 ==> groups[n] != [] && !Coalesces(blocks[n - 1], groups[n][0])
  {
    hide MakesUp;
    if n > 0 {
      ApartIff(blocks[n - 1], groups[n][0]);
    }
  }

  lemma LastGroupMerges(before: seq<Block>, last: seq<Block>, blocks: seq<Block>, n: nat)
    requires |blocks| == n + 1 && Merge([], before) == blocks[..n] && MakesUp(last, blocks[n])
    requires n > 0 ==> last != [] && !Coalesces(blocks[n - 1], last[0])
    ensures Merge([], before + last) == blocks
  {
    hide Merge, MakesUp, Coalesces;
    assert n > 0 ==> blocks[..n][|blocks[..n]| - 1] == blocks[n - 1];
    GroupMerges(blocks[..n], last, blocks[n]);
    MergeConcat([], before, last);
    assert blocks == blocks[..n] + [blocks[n]];
  }

  lemma FlattenStep(groups: seq<seq<Block>>, n: nat)
    requires |groups| == n + 1
    ensures Flatten(groups) == Flatten(groups[..n]) + groups[n]
  {
  }

  lemma NothingStreamed()
    ensures Merge([], Flatten([])) == []
  {
  }

  /** However blocks are streamed piece by piece, the very same blocks come out. */
  lemma {:induction false} PiecesMakeBlocks(groups: seq<seq<Block>>, blocks: seq<Block>)
    requires Streams(groups, blocks)
    ensures Merge([], Flatten(groups)) == blocks
  {
    assert |groups| == |blocks|;
    hide *;
    if groups == [] {
      NothingStreamed();
    } else {
      var n := |groups| - 1;
      StreamsPrefix(groups, blocks, n);
      PiecesMakeBlocks(groups[..n], blocks[..n]);
      FlattenStep(groups, n);
      LastGroupMerges(Flatten(groups[..n]), groups[n], blocks, n);
    }
  }

  // ---------------------------------------------------------------- tool call fragments

  datatype Fragment = Fragment(index: int, id: string, name: string, arguments: string)

  datatype Call = Call(id: string, name: string, arguments: string)

  function Extend(c: Call, f: Fragment): Call {
    Call(Or(f.id, c.id), Or(f.name, c.name), c.arguments + f.arguments)
  }

  /** The call that a list of fragments makes up. */
  function CallOf(fragments: seq<Fragment>): Call {
    if fragments == [] then Call("", "", "") else Extend(CallOf(fragments[..|fragments| - 1]), fragments[|fragments| - 1])
  }

  /** The fragments for one index, in order. */
  function At(fragments: seq<Fragment>, index: int): seq<Fragment> {
    if fragments == [] then [] else
      var f := fragments[|fragments| - 1];
      At(fragments[..|fragments| - 1], index) + if f.index == index then [f] else []
  }

  ghost predicate Gathers(calls: map<int, Call>, fragments: seq<Fragment>) {
    && (forall i :: i in calls <==> At(fragments, i) != [])
    && (forall i :: i in calls ==> calls[i] == CallOf(At(fragments, i)))
  }

  ghost predicate Ascending(s: seq<int>) {
    forall i, j :: 0 <= i < j < |s| ==> s[i] < s[j]
  }

  function InsertInt(x: int, s: seq<int>): seq<int> {
    if s == [] || x <= s[0] then [x] + s else [s[0]] + InsertInt(x, s[1..])
  }

  lemma {:induction false} InsertIntKeeps(x: int, s: seq<int>)
    requires Ascending(s) && x !in s
    ensures Ascending(InsertInt(x, s)) && forall y :: y in InsertInt(x, s) <==> y == x || y in s
  {
    if s != [] && x > s[0] {
      InsertIntKeeps(x, s[1..]);
      var rest := InsertInt(x, s[1..]);
      assert InsertInt(x, s) == [s[0]] + rest;
      hide InsertInt;
      assert s == [s[0]] + s[1..];
      assert forall k :: 0 <= k < |rest| ==> rest[k] in rest;
      assert forall k :: 0 < k < |s| ==> s[k] == s[1..][k - 1];
      assert forall y :: y in rest ==> s[0] < y;
    }
  }

  /** Fragments are collected per index, and the calls come in the order of the indices. */
  method AssembleToolCalls(fragments: seq<Fragment>) returns (indices: seq<int>, toolCalls: seq<Call>)
    ensures Assembled(fragments, indices, toolCalls)
  {
    var toolCallMap: map<int, Call> := map[];
    hide Gathers, At, CallOf;
    NoFragments();
    for n := 0 to |fragments|
      invariant Gathers(toolCallMap, fragments[..n])
    {
      var f := fragments[n];
      GathersOne(toolCallMap, fragments, n);
      var tc := if f.index in toolCallMap then toolCallMap[f.index] else Call("", "", "");
      if f.id != "" {
        tc := tc.(id := f.id);
      }
      if f.name != "" {
        tc := tc.(name := f.name);
      }
      tc := tc.(arguments := tc.arguments + f.arguments);
      toolCallMap := toolCallMap[f.index := tc];
    }
    assert fragments[..|fragments|] == fragments;
    indices := SortIndices(toolCallMap.Keys);
    assert forall k :: 0 <= k < |indices| ==> indices[k] in indices;
    toolCalls := [];
    for k := 0 to |indices|
      invariant |toolCalls| == k && forall j :: 0 <= j < k ==> toolCalls[j] == toolCallMap[indices[j]]
    {
      toolCalls := toolCalls + [toolCallMap[indices[k]]];
    }
    GatheredIsAssembled(toolCallMap, fragments, indices, toolCalls);
  }

  lemma SomeIndex(keys: set<int>)
    requires keys != {}
    ensures exists i :: i in keys
  {
    if forall i :: i !in keys {
      assert false;
    }
  }

  method SortIndices(keys: set<int>) returns (indices: seq<int>)
    ensures Ascending(indices) && forall i :: i in indices <==> i in keys
  {
    indices := [];
    var left := keys;
    while left != {}
      invariant left <= keys
      invariant Ascending(indices) && forall i :: i in indices <==> i in keys && i !in left
      decreases left
    {
      SomeIndex(left);
      var i :| i in left;
      InsertIntKeeps(i, indices);
      indices := InsertInt(i, indices);
      left := left - {i};
    }
  }

  /** The calls for the indices that occur, in ascending order. */
  ghost predicate Assembled(fragments: seq<Fragment>, indices: seq<int>, toolCalls: seq<Call>) {
    && Ascending(indices) && (forall i :: i in indices <==> At(fragments, i) != [])
    && |toolCalls| == |indices|
    && (forall k :: 0 <= k < |indices| ==> toolCalls[k] == CallOf(At(fragments, indices[k])))
  }

  lemma GatheredIsAssembled(calls: map<int, Call>, fragments: seq<Fragment>, indices: seq<int>, toolCalls: seq<Call>)
    requires Gathers(calls, fragments) && Ascending(indices) && forall i :: i in indices <==> i in calls
    requires |toolCalls| == |indices| && forall k :: 0 <= k < |indices| ==> indices[k] in calls && toolCalls[k] == calls[indices[k]]
    ensures Assembled(fragments, indices, toolCalls)
  {
    hide At, CallOf;
  }

  lemma NoFragments()
    ensures Gathers(map[], [])
  {
  }

  lemma AtStep(fragments: seq<Fragment>, n: nat, i: int)
    requires n < |fragments|
    ensures At(fragments[..n + 1], i) == At(fragments[..n], i) + if fragments[n].index == i then [fragments[n]] else []
  {
    assert fragments[..n + 1][..n] == fragments[..n];
  }

  lemma CallOfStep(fragments: seq<Fragment>, f: Fragment)
    ensures CallOf(fragments + [f]) == Extend(CallOf(fragments), f) && CallOf([]) == Call("", "", "")
  {
    assert (fragments + [f])[..|fragments|] == fragments;
  }

  lemma GathersOne(calls: map<int, Call>, fragments: seq<Fragment>, n: nat)
    requires n < |fragments| && Gathers(calls, fragments[..n])
    ensures var f := fragments[n];
      Gathers(calls[f.index := Extend(if f.index in calls then calls[f.index] else Call("", "", ""), f)], fragments[..n + 1])
  {
    var f, now := fragments[n], fragments[..n + 1];
    var more := calls[f.index := Extend(if f.index in calls then calls[f.index] else Call("", "", ""), f)];
    forall i
      ensures i in more <==> At(now, i) != []
      ensures i in more ==> more[i] == CallOf(At(now, i))
    {
      GathersAt(calls, fragments, n, i);
    }
  }

  lemma GathersAt(calls: map<int, Call>, fragments: seq<Fragment>, n: nat, i: int)
    requires n < |fragments| && Gathers(calls, fragments[..n])
    ensures var f, now := fragments[n], At(fragments[..n + 1], i);
      if i == f.index
      then now != [] && CallOf(now) == Extend(if i in calls then calls[i] else Call("", "", ""), f)
      else (i in calls <==> now != []) && (i in calls ==> calls[i] == CallOf(now))
  {
    var f, before := fragments[n], At(fragments[..n], i);
    CallOfStep(before, f);
    hide At, CallOf, Extend;
    assert i in calls <==> before != [];
    assert i in calls ==> calls[i] == CallOf(before);
    hide Gathers;
    AtStep(fragments, n, i);
    if i == f.index {
      assert At(fragments[..n + 1], i) == before + [f];
    } else {
      assert At(fragments[..n + 1], i) == before;
    }
  }

  /** The fragments, taken together, spell out the call. */
  ghost predicate Spells(fragments: seq<Fragment>, c: Call) {
    && (forall f :: f in fragments ==> f.id in ["", c.id] && f.name in ["", c.name])
    && HasId(fragments, c.id) && HasName(fragments, c.name)
    && Arguments(fragments) == c.arguments
  }

  ghost predicate HasId(fragments: seq<Fragment>, id: string) {
    exists f :: f in fragments && f.id == id
  }

  ghost predicate HasName(fragments: seq<Fragment>, name: string) {
    exists f :: f in fragments && f.name == name
  }

  function Arguments(fragments: seq<Fragment>): string {
    if fragments == [] then "" else Arguments(fragments[..|fragments| - 1]) + fragments[|fragments| - 1].arguments
  }

  lemma {:induction false} SpelledCall(fragments: seq<Fragment>, c: Call)
    requires forall f :: f in fragments ==> f.id in ["", c.id] && f.name in ["", c.name]
    ensures CallOf(fragments).arguments == Arguments(fragments)
    ensures CallOf(fragments).id == if HasId(fragments, c.id) then c.id else ""
    ensures CallOf(fragments).name == if HasName(fragments, c.name) then c.name else ""
  {
    if fragments != [] {
      var n := |fragments| - 1;
      var before, f := fragments[..n], fragments[n];
      assert forall g :: g in fragments <==> g in before || g == f;
      SpelledCall(before, c);
      assert HasId(fragments, c.id) <==> HasId(before, c.id) || f.id == c.id;
      assert HasName(fragments, c.name) <==> HasName(before, c.name) || f.name == c.name;
      hide HasId, HasName;
    }
  }

  /** However the calls are cut into fragments and however those are interleaved, the same
      calls come out in the same order. */
  lemma FragmentsSpellCalls(fragments: seq<Fragment>, calls: seq<Call>, indices: seq<int>, toolCalls: seq<Call>)
    requires forall i :: 0 <= i < |calls| ==> Spells(At(fragments, i), calls[i])
    requires forall i :: At(fragments, i) != [] ==> 0 <= i < |calls|
    requires Assembled(fragments, indices, toolCalls)
    ensures toolCalls == calls
  {
    forall i | 0 <= i < |calls|
      ensures At(fragments, i) != []
    {
      assert Spells(At(fragments, i), calls[i]);
    }
    AllIndices(indices, |calls|);
    forall k | 0 <= k < |calls|
      ensures toolCalls[k] == calls[k]
    {
      SpelledCall(At(fragments, k), calls[k]);
    }
  }

  lemma {:induction false} AllIndices(indices: seq<int>, n: nat)
    requires Ascending(indices) && forall i :: i in indices <==> 0 <= i < n
    ensures |indices| == n && forall k :: 0 <= k < n ==> indices[k] == k
  {
    if indices != [] {
      var last, rest := indices[|indices| - 1], indices[..|indices| - 1];
      assert last in indices;
      assert n - 1 in indices;
      assert last == n - 1;
      assert indices == rest + [last];
      forall i
        ensures i in rest <==> 0 <= i < n - 1
      {
        assert i in indices <==> i in rest || i == last;
        if i in rest {
          var k :| 0 <= k < |rest| && rest[k] == i;
          assert indices[k] < last;
        }
      }
      AllIndices(rest, n - 1);
    } else {
      assert n > 0 ==> 0 in indices;
    }
  }
}
