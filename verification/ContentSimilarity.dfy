/** Ratcliff/Obershelp similarity of two byte strings: a sparse dynamic program
    for the longest common block, and the recursion that splits around it. */
module ContentSimilarity {

  newtype Byte = x: int | 0 <= x < 256
  type Bytes = seq<Byte>

  // ---------------------------------------------------------------- common blocks

  /** a[i..i+k] and b[j..j+k] are the same bytes. */
  ghost predicate CommonBlock(a: Bytes, b: Bytes, i: int, j: int, k: int) {
    0 <= i && 0 <= j && 0 <= k && i + k <= |a| && j + k <= |b| && a[i..i + k] == b[j..j + k]
  }

  /** A longest common block; among those of that length the one that starts first
      in a, and among those the one that starts first in b. */
  ghost predicate FirstLongest(a: Bytes, b: Bytes, i: int, j: int, k: int) {
    && CommonBlock(a, b, i, j, k)
    && (forall i', j', k' :: CommonBlock(a, b, i', j', k') ==> k' <= k)
    && (k == 0 ==> i == j == 0)
    && (k > 0 ==> forall i', j' :: CommonBlock(a, b, i', j', k) ==> i < i' || (i == i' && j <= j'))
  }

  /** How far the prefixes a[..i] and b[..j] agree, reading backwards. */
  ghost function Overlap(a: Bytes, b: Bytes, i: nat, j: nat): nat
    requires i <= |a| && j <= |b|
  {
    if i == 0 || j == 0 || a[i - 1] != b[j - 1] then 0 else 1 + Overlap(a, b, i - 1, j - 1)
  }

  lemma {:induction false} OverlapAtMost(a: Bytes, b: Bytes, i: nat, j: nat)
    requires i <= |a| && j <= |b|
    ensures Overlap(a, b, i, j) <= i && Overlap(a, b, i, j) <= j
  {
    if !(i == 0 || j == 0 || a[i - 1] != b[j - 1]) {
      OverlapAtMost(a, b, i - 1, j - 1);
    }
  }

  lemma {:induction false} OverlapIsBlock(a: Bytes, b: Bytes, i: nat, j: nat)
    requires i <= |a| && j <= |b|
    ensures Overlap(a, b, i, j) <= i && Overlap(a, b, i, j) <= j
    ensures CommonBlock(a, b, i - Overlap(a, b, i, j), j - Overlap(a, b, i, j), Overlap(a, b, i, j))
  {
    if !(i == 0 || j == 0 || a[i - 1] != b[j - 1]) {
      OverlapIsBlock(a, b, i - 1, j - 1);
      var k := Overlap(a, b, i - 1, j - 1);
      BlockGrows(a, b, i - 1 - k, j - 1 - k, k);
      hide CommonBlock;
    }
  }

  lemma BlockGrows(a: Bytes, b: Bytes, i: int, j: int, k: int)
    requires CommonBlock(a, b, i, j, k) && i + k < |a| && j + k < |b| && a[i + k] == b[j + k]
    ensures CommonBlock(a, b, i, j, k + 1)
  {
    assert a[i..i + k + 1] == a[i..i + k] + [a[i + k]];
    assert b[j..j + k + 1] == b[j..j + k] + [b[j + k]];
  }

  lemma {:induction false} BlockIsOverlap(a: Bytes, b: Bytes, i: nat, j: nat, k: nat)
    requires CommonBlock(a, b, i, j, k)
    ensures k <= Overlap(a, b, i + k, j + k)
    decreases k
  {
    if k > 0 {
      assert a[i + k - 1] == a[i..i + k][k - 1] == b[j..j + k][k - 1] == b[j + k - 1];
      assert a[i..i + k - 1] == a[i..i + k][..k - 1];
      assert b[j..j + k - 1] == b[j..j + k][..k - 1];
      BlockIsOverlap(a, b, i, j, k - 1);
    }
  }

  // ---------------------------------------------------------------- the dynamic program

  /** The ascending places of c in s. */
  ghost function PlacesOf(s: Bytes, c: Byte): seq<nat> {
    if s == [] then [] else
      var n := |s| - 1;
      PlacesOf(s[..n], c) + if s[n] == c then [n] else []
  }

  lemma {:induction false} PlacesOfAreAll(s: Bytes, c: Byte)
    ensures forall p :: 0 <= p < |PlacesOf(s, c)| ==> PlacesOf(s, c)[p] < |s| && s[PlacesOf(s, c)[p]] == c
    ensures forall p, q :: 0 <= p < q < |PlacesOf(s, c)| ==> PlacesOf(s, c)[p] < PlacesOf(s, c)[q]
    ensures forall j :: 0 <= j < |s| && s[j] == c ==> j in PlacesOf(s, c)
  {
    if s != [] {
      PlacesOfAreAll(s[..|s| - 1], c);
    }
  }

  function Places(positions: map<Byte, seq<nat>>, c: Byte): seq<nat> {
    if c in positions then positions[c] else []
  }

  method IndexPositions(b: Bytes) returns (positions: map<Byte, seq<nat>>)
    ensures forall c :: Places(positions, c) == PlacesOf(b, c)
  {
    positions := map[];
    for i := 0 to |b|
      invariant forall c :: Places(positions, c) == PlacesOf(b[..i], c)
    {
      assert b[..i + 1][..i] == b[..i];
      positions := positions[b[i] := Places(positions, b[i]) + [i]];
    }
    assert b[..|b|] == b;
  }

  /** row holds the overlaps that end at a[i-1], a missing entry standing for 0. */
  ghost predicate IsRow(row: map<int, nat>, a: Bytes, b: Bytes, i: nat)
    requires i <= |a|
  {
    && (forall j :: j in row ==> 0 <= j < |b|)
    && (forall j {:trigger j in row} :: 0 <= j < |b| ==> (if j in row then row[j] else 0) == Overlap(a, b, i, j + 1))
  }

  /** row holds the overlaps that end at a[i] at the processed places. */
  ghost predicate PartialRow(row: map<int, nat>, a: Bytes, b: Bytes, i: nat, processed: seq<nat>)
    requires i < |a|
  {
    && (forall j :: j in row <==> j in processed)
    && (forall j :: j in row ==> 0 <= j < |b| && row[j] == Overlap(a, b, i + 1, j + 1))
  }

  lemma ExtendRow(prev: map<int, nat>, row: map<int, nat>, a: Bytes, b: Bytes, i: nat, places: seq<nat>, p: nat)
    requires i < |a| && p < |places| && places == PlacesOf(b, a[i])
    requires IsRow(prev, a, b, i) && PartialRow(row, a, b, i, places[..p])
    ensures var j := places[p];
            var k := (if j - 1 in prev then prev[j - 1] else 0) + 1;
            && j < |b| && k == Overlap(a, b, i + 1, j + 1)
            && PartialRow(row[j := k], a, b, i, places[..p + 1])
  {
    PlaceOf(b, a[i], p);
    hide *;
    NewCell(prev, a, b, i, places[p]);
    RowGrows(row, a, b, i, places[..p], places[p]);
    assert places[..p + 1] == places[..p] + [places[p]];
  }

  lemma PlaceOf(s: Bytes, c: Byte, p: nat)
    requires p < |PlacesOf(s, c)|
    ensures PlacesOf(s, c)[p] < |s| && s[PlacesOf(s, c)[p]] == c
  {
    PlacesOfAreAll(s, c);
  }

  lemma NewCell(prev: map<int, nat>, a: Bytes, b: Bytes, i: nat, j: nat)
    requires i < |a| && j < |b| && a[i] == b[j] && IsRow(prev, a, b, i)
    ensures (if j - 1 in prev then prev[j - 1] else 0) + 1 == Overlap(a, b, i + 1, j + 1)
  {
    assert Overlap(a, b, i + 1, j + 1) == 1 + Overlap(a, b, i, j);
    if j > 0 {
      assert j - 1 in prev || j - 1 !in prev;
    }
  }

  lemma RowGrows(row: map<int, nat>, a: Bytes, b: Bytes, i: nat, processed: seq<nat>, j: nat)
    requires i < |a| && j < |b| && PartialRow(row, a, b, i, processed)
    ensures PartialRow(row[j := Overlap(a, b, i + 1, j + 1)], a, b, i, processed + [j])
  {
    hide Overlap;
    assert forall x :: x in processed + [j] <==> x in processed || x == j;
  }

  /** Cell (p, q) belongs to the first m rows, or to row m + 1 at a processed place. */
  ghost predicate Seen(p: int, q: int, m: int, processed: seq<nat>) {
    p <= m || (p == m + 1 && q - 1 in processed)
  }

  /** The block (i, j, k) is longer than the one ending at cell (p, q), or as long and
      not seen later. */
  ghost predicate Beats(a: Bytes, b: Bytes, i: int, j: int, k: int, p: nat, q: nat)
    requires p <= |a| && q <= |b|
  {
    && Overlap(a, b, p, q) <= k
    && (Overlap(a, b, p, q) == k > 0 ==> i + k < p || (i + k == p && j + k <= q))
  }

  /** (i, j, k) beats every cell seen so far. */
  ghost predicate BestSeen(a: Bytes, b: Bytes, m: nat, processed: seq<nat>, i: int, j: int, k: int) {
    && 0 <= i && 0 <= j && 0 <= k && i + k <= |a| && j + k <= |b|
    && (k == 0 ==> i == j == 0)
    && (k > 0 ==> Seen(i + k, j + k, m, processed) && Overlap(a, b, i + k, j + k) == k)
    && (forall p: nat, q: nat {:trigger Beats(a, b, i, j, k, p, q)} ::
         p <= |a| && q <= |b| && Seen(p, q, m, processed) ==> Beats(a, b, i, j, k, p, q))
  }

  /** Once every place of the row's byte is processed the whole row is seen. */
  lemma RowComplete(a: Bytes, b: Bytes, m: nat, i: int, j: int, k: int)
    requires m < |a| && BestSeen(a, b, m, PlacesOf(b, a[m]), i, j, k)
    ensures BestSeen(a, b, m + 1, [], i, j, k)
  {
    PlacesOfAreAll(b, a[m]);
    forall p: nat, q: nat | p <= |a| && q <= |b| && Seen(p, q, m + 1, [])
      ensures Beats(a, b, i, j, k, p, q)
    {
      if !Seen(p, q, m, PlacesOf(b, a[m])) {
        assert p == m + 1;
        assert q == 0 || a[p - 1] != b[q - 1];
      }
    }
  }

  lemma BestIsFirstLongest(a: Bytes, b: Bytes, i: int, j: int, k: int)
    requires BestSeen(a, b, |a|, [], i, j, k)
    ensures FirstLongest(a, b, i, j, k)
  {
    OverlapIsBlock(a, b, i + k, j + k);
    forall i', j', k' | CommonBlock(a, b, i', j', k')
      ensures k' <= k
      ensures k' == k > 0 ==> i < i' || (i == i' && j <= j')
    {
      BlockIsOverlap(a, b, i', j', k');
      assert Seen(i' + k', j' + k', |a|, []) && Beats(a, b, i, j, k, i' + k', j' + k');
    }
  }

  /** One more cell of the row, to the right of those processed. */
  lemma OneMoreCell(a: Bytes, b: Bytes, m: nat, processed: seq<nat>, place: nat, i: int, j: int, k: int)
    requires m < |a| && place < |b| && BestSeen(a, b, m, processed, i, j, k)
    requires forall p :: p in processed ==> p < place
    ensures var e := Overlap(a, b, m + 1, place + 1);
            if e > k then BestSeen(a, b, m, processed + [place], m + 1 - e, place + 1 - e, e)
            else BestSeen(a, b, m, processed + [place], i, j, k)
  {
    OverlapAtMost(a, b, m + 1, place + 1);
    var e := Overlap(a, b, m + 1, place + 1);
    var i', j', k' := if e > k then m + 1 - e else i, if e > k then place + 1 - e else j, if e > k then e else k;
    assert place in processed + [place];
    forall p: nat, q: nat | p <= |a| && q <= |b| && Seen(p, q, m, processed + [place])
      ensures Beats(a, b, i', j', k', p, q)
    {
      if Seen(p, q, m, processed) {
        assert Beats(a, b, i, j, k, p, q);
      }
    }
  }

  /** What both loops know after the first p places of the row's byte. */
  ghost predicate InRow(a: Bytes, b: Bytes, i: nat, p: nat, row: map<int, nat>, bestA: int, bestB: int, bestLen: int) {
    && i < |a| && p <= |PlacesOf(b, a[i])|
    && PartialRow(row, a, b, i, PlacesOf(b, a[i])[..p])
    && BestSeen(a, b, i, PlacesOf(b, a[i])[..p], bestA, bestB, bestLen)
  }

  lemma RowStart(a: Bytes, b: Bytes, i: nat, bestA: int, bestB: int, bestLen: int)
    requires i < |a| && BestSeen(a, b, i, [], bestA, bestB, bestLen)
    ensures InRow(a, b, i, 0, map[], bestA, bestB, bestLen)
  {
  }

  lemma NoRows(a: Bytes, b: Bytes)
    ensures IsRow(map[], a, b, 0) && BestSeen(a, b, 0, [], 0, 0, 0)
  {
  }

  lemma RowStep(a: Bytes, b: Bytes, i: nat, p: nat, prev: map<int, nat>, row: map<int, nat>, bestA: int, bestB: int,
      bestLen: int)
    requires InRow(a, b, i, p, row, bestA, bestB, bestLen) && p < |PlacesOf(b, a[i])| && IsRow(prev, a, b, i)
    ensures var j := PlacesOf(b, a[i])[p];
            var k := (if j - 1 in prev then prev[j - 1] else 0) + 1;
            && k <= i + 1 && k <= j + 1
            && (if k > bestLen then InRow(a, b, i, p + 1, row[j := k], i - k + 1, j - k + 1, k)
                else InRow(a, b, i, p + 1, row[j := k], bestA, bestB, bestLen))
  {
    hide BestSeen, PartialRow;
    var places := PlacesOf(b, a[i]);
    PlacesOfAreAll(b, a[i]);
    hide PlacesOf;
    ExtendRow(prev, row, a, b, i, places, p);
    OverlapAtMost(a, b, i + 1, places[p] + 1);
    OneMoreCell(a, b, i, places[..p], places[p], bestA, bestB, bestLen);
    assert places[..p + 1] == places[..p] + [places[p]];
  }

  lemma RowEnd(a: Bytes, b: Bytes, i: nat, row: map<int, nat>, bestA: int, bestB: int, bestLen: int)
    requires i < |a| && InRow(a, b, i, |PlacesOf(b, a[i])|, row, bestA, bestB, bestLen)
    ensures IsRow(row, a, b, i + 1) && BestSeen(a, b, i + 1, [], bestA, bestB, bestLen)
  {
    var places := PlacesOf(b, a[i]);
    assert places[..|places|] == places;
    PlacesOfAreAll(b, a[i]);
    RowComplete(a, b, i, bestA, bestB, bestLen);
  }

  method LongestMatch(a: Bytes, b: Bytes) returns (bestA: nat, bestB: nat, bestLen: nat)
    ensures FirstLongest(a, b, bestA, bestB, bestLen)
  {
    hide BestSeen, InRow, IsRow, FirstLongest;
    var bPositions := IndexPositions(b);
    bestA, bestB, bestLen := 0, 0, 0;
    var j2len: map<int, nat> := map[];
    NoRows(a, b);
    for i := 0 to |a|
      invariant IsRow(j2len, a, b, i) && BestSeen(a, b, i, [], bestA, bestB, bestLen)
    {
      var newJ2len: map<int, nat> := map[];
      RowStart(a, b, i, bestA, bestB, bestLen);
      var places := Places(bPositions, a[i]);
      for p := 0 to |places|
        invariant InRow(a, b, i, p, newJ2len, bestA, bestB, bestLen)
      {
        var j := places[p];
        RowStep(a, b, i, p, j2len, newJ2len, bestA, bestB, bestLen);
        var k := (if j - 1 in j2len then j2len[j - 1] else 0) + 1;
        newJ2len := newJ2len[j := k];
        if k > bestLen {
          bestLen := k;
          bestA := i - k + 1;
          bestB := j - k + 1;
        }
      }
      RowEnd(a, b, i, newJ2len, bestA, bestB, bestLen);
      j2len := newJ2len;
    }
    BestIsFirstLongest(a, b, bestA, bestB, bestLen);
  }

  // ---------------------------------------------------------------- the recursion

  /** What the recursion finds: the block it split on, and what it found on each side. */
  datatype Gestalt = NoMatch | Match(before: Gestalt, i: nat, j: nat, k: nat, after: Gestalt) {

    /** The tree records the recursion's choices on a and b. */
    ghost predicate Of(a: Bytes, b: Bytes) {
      match this
      case NoMatch => FirstLongest(a, b, 0, 0, 0)
      case Match(before, i, j, k, after) =>
        && k > 0 && FirstLongest(a, b, i, j, k)
        && before.Of(a[..i], b[..j]) && after.Of(a[i + k..], b[j + k..])
    }

    function Total(): nat {
      if NoMatch? then 0 else before.Total() + k + after.Total()
    }

    /** The same splits with the texts swapped. */
    function Mirror(): Gestalt {
      if NoMatch? then NoMatch else Match(before.Mirror(), j, i, k, after.Mirror())
    }

    /** At every split the block, chosen as the first in a, is also the first in b. */
    ghost predicate FirstInBoth(a: Bytes, b: Bytes) {
      Match? && i + k <= |a| && j + k <= |b| ==>
        && (forall i', j' :: CommonBlock(a, b, i', j', k) ==> j <= j')
        && before.FirstInBoth(a[..i], b[..j]) && after.FirstInBoth(a[i + k..], b[j + k..])
    }

    /** The matching bytes themselves, and where they lie in each text. */
    ghost function Text(a: Bytes): Bytes {
      if NoMatch? || i + k > |a| then [] else Around(before.Text(a[..i]), a[i..i + k], after.Text(a[i + k..]))
    }

    ghost function PlacesInA(): seq<int> {
      if NoMatch? then [] else Around(before.PlacesInA(), Run(i, k), Shift(after.PlacesInA(), i + k))
    }

    ghost function PlacesInB(): seq<int> {
      if NoMatch? then [] else Around(before.PlacesInB(), Run(j, k), Shift(after.PlacesInB(), j + k))
    }
  }

  ghost function Around<T>(before: seq<T>, block: seq<T>, after: seq<T>): seq<T> {
    before + block + after
  }

  ghost function Run(i: int, k: nat): seq<int> {
    seq(k, n requires 0 <= n < k => i + n)
  }

  ghost function Shift(f: seq<int>, d: int): seq<int> {
    seq(|f|, n requires 0 <= n < |f| => f[n] + d)
  }

  /** m bytes match between a and b. */
  ghost predicate IsMatchCount(a: Bytes, b: Bytes, m: int) {
    exists t: Gestalt :: t.Of(a, b) && t.Total() == m
  }

  method MatchingCharCount(a: Bytes, b: Bytes) returns (total: nat)
    ensures IsMatchCount(a, b, total)
    decreases |a|
  {
    if |a| == 0 || |b| == 0 {
      assert NoMatch.Of(a, b);
      return 0;
    }
    var aStart, bStart, length := LongestMatch(a, b);
    if length == 0 {
      assert NoMatch.Of(a, b);
      return 0;
    }
    total := length;
    var before := MatchingCharCount(a[..aStart], b[..bStart]);
    total := total + before;
    var after := MatchingCharCount(a[aStart + length..], b[bStart + length..]);
    total := total + after;
    ghost var s: Gestalt :| s.Of(a[..aStart], b[..bStart]) && s.Total() == before;
    ghost var t: Gestalt :| t.Of(a[aStart + length..], b[bStart + length..]) && t.Total() == after;
    assert Match(s, aStart, bStart, length, t).Of(a, b);
  }

  /** The count is a function of the two texts. */
  lemma {:induction false} GestaltIsUnique(a: Bytes, b: Bytes, s: Gestalt, t: Gestalt)
    requires s.Of(a, b) && t.Of(a, b)
    ensures s == t
  {
    if s.Match? && t.Match? {
      assert CommonBlock(a, b, s.i, s.j, s.k) && CommonBlock(a, b, t.i, t.j, t.k);
      GestaltIsUnique(a[..s.i], b[..s.j], s.before, t.before);
      GestaltIsUnique(a[s.i + s.k..], b[s.j + s.k..], s.after, t.after);
    }
  }

  /** f lists, in increasing order, places of a that spell out c. */
  ghost predicate Spells(f: seq<int>, c: Bytes, a: Bytes) {
    && |f| == |c|
    && (forall n :: 0 <= n < |f| ==> 0 <= f[n] < |a| && a[f[n]] == c[n])
    && (forall m, n :: 0 <= m < n < |f| ==> f[m] < f[n])
  }

  lemma SpellsAround(f: seq<int>, c: Bytes, g: seq<int>, d: Bytes, a: Bytes, i: nat, k: nat)
    requires i + k <= |a| && Spells(f, c, a[..i]) && Spells(g, d, a[i + k..])
    ensures Spells(Around(f, Run(i, k), Shift(g, i + k)), Around(c, a[i..i + k], d), a)
  {
  }

  lemma SplitIsBlock(a: Bytes, b: Bytes, t: Gestalt)
    requires t.Match? && t.Of(a, b)
    ensures t.k > 0 && t.i + t.k <= |a| && t.j + t.k <= |b|
    ensures CommonBlock(a, b, t.i, t.j, t.k)
  {
  }

  lemma SplitParts(a: Bytes, b: Bytes, t: Gestalt)
    requires t.Match? && t.Of(a, b)
    ensures t.k > 0 && t.i + t.k <= |a| && t.j + t.k <= |b| && a[t.i..t.i + t.k] == b[t.j..t.j + t.k]
    ensures t.before.Of(a[..t.i], b[..t.j]) && t.after.Of(a[t.i + t.k..], b[t.j + t.k..])
  {
    SplitIsBlock(a, b, t);
    hide FirstLongest;
  }

  lemma SplitLiesInA(a: Bytes, t: Gestalt)
    requires t.Match? && t.i + t.k <= |a|
    requires Spells(t.before.PlacesInA(), t.before.Text(a[..t.i]), a[..t.i])
    requires Spells(t.after.PlacesInA(), t.after.Text(a[t.i + t.k..]), a[t.i + t.k..])
    ensures Spells(t.PlacesInA(), t.Text(a), a)
  {
    hide Around, Spells, Run, Shift;
    SpellsAround(t.before.PlacesInA(), t.before.Text(a[..t.i]), t.after.PlacesInA(), t.after.Text(a[t.i + t.k..]), a, t.i, t.k);
  }

  lemma SplitLiesInB(a: Bytes, b: Bytes, t: Gestalt)
    requires t.Match? && t.i + t.k <= |a| && t.j + t.k <= |b| && a[t.i..t.i + t.k] == b[t.j..t.j + t.k]
    requires Spells(t.before.PlacesInB(), t.before.Text(a[..t.i]), b[..t.j])
    requires Spells(t.after.PlacesInB(), t.after.Text(a[t.i + t.k..]), b[t.j + t.k..])
    ensures Spells(t.PlacesInB(), t.Text(a), b)
  {
    hide Around, Spells, Run, Shift;
    SpellsAround(t.before.PlacesInB(), t.before.Text(a[..t.i]), t.after.PlacesInB(), t.after.Text(a[t.i + t.k..]), b, t.j, t.k);
  }

  /** The matching bytes are a common subsequence of both texts. */
  lemma {:induction false} MatchesLieInA(a: Bytes, b: Bytes, t: Gestalt)
    requires t.Of(a, b)
    ensures Spells(t.PlacesInA(), t.Text(a), a)
  {
    if t.Match? {
      SplitParts(a, b, t);
      hide *;
      MatchesLieInA(a[..t.i], b[..t.j], t.before);
      MatchesLieInA(a[t.i + t.k..], b[t.j + t.k..], t.after);
      SplitLiesInA(a, t);
    } else {
      hide Gestalt.Of;
    }
  }

  lemma {:induction false} TextLength(a: Bytes, b: Bytes, t: Gestalt)
    requires t.Of(a, b)
    ensures |t.Text(a)| == t.Total()
  {
    if t.Match? {
      SplitIsBlock(a, b, t);
      TextLength(a[..t.i], b[..t.j], t.before);
      TextLength(a[t.i + t.k..], b[t.j + t.k..], t.after);
    }
  }

  lemma {:induction false} MatchesLieInB(a: Bytes, b: Bytes, t: Gestalt)
    requires t.Of(a, b)
    ensures Spells(t.PlacesInB(), t.Text(a), b)
  {
    if t.Match? {
      SplitParts(a, b, t);
      hide *;
      MatchesLieInB(a[..t.i], b[..t.j], t.before);
      MatchesLieInB(a[t.i + t.k..], b[t.j + t.k..], t.after);
      SplitLiesInB(a, b, t);
    } else {
      hide Gestalt.Of;
    }
  }

  /** n increasing places below m: the first is at most m - n. */
  lemma {:induction false} PlacesFit(f: seq<int>, c: Bytes, a: Bytes, n: nat)
    requires Spells(f, c, a) && n <= |f|
    ensures n < |f| ==> n <= f[n] <= |a| - (|f| - n)
    ensures |f| <= |a|
    decreases |f| - n
  {
    LowerBound(f, c, a, n);
    if n < |f| {
      PlacesFit(f, c, a, n + 1);
    } else if n > 0 {
      LowerBound(f, c, a, n - 1);
    }
  }

  lemma {:induction false} LowerBound(f: seq<int>, c: Bytes, a: Bytes, n: nat)
    requires Spells(f, c, a)
    ensures n < |f| ==> n <= f[n]
  {
    if 0 < n < |f| {
      LowerBound(f, c, a, n - 1);
    }
  }

  /** The count never exceeds either length ... */
  lemma {:induction false} CountBounded(a: Bytes, b: Bytes, t: Gestalt)
    requires t.Of(a, b)
    ensures t.Total() <= |a| && t.Total() <= |b|
  {
    MatchesLieInA(a, b, t);
    MatchesLieInB(a, b, t);
    TextLength(a, b, t);
    PlacesFit(t.PlacesInA(), t.Text(a), a, 0);
    PlacesFit(t.PlacesInB(), t.Text(a), b, 0);
  }

  lemma FullSpellingIsAll(f: seq<int>, c: Bytes, a: Bytes)
    requires Spells(f, c, a) && |c| == |a|
    ensures c == a
  {
    forall n | 0 <= n < |a|
      ensures c[n] == a[n]
    {
      PlacesFit(f, c, a, n);
    }
  }

  /** ... and reaches both exactly when the texts are equal. */
  lemma {:induction false} FullCountMeansEqual(a: Bytes, b: Bytes, t: Gestalt)
    requires t.Of(a, b)
    ensures t.Total() == |a| == |b| <==> a == b
  {
    if t.Total() == |a| == |b| {
      MatchesLieInA(a, b, t);
      MatchesLieInB(a, b, t);
      TextLength(a, b, t);
      FullSpellingIsAll(t.PlacesInA(), t.Text(a), a);
      FullSpellingIsAll(t.PlacesInB(), t.Text(a), b);
    }
    if a == b {
      assert CommonBlock(a, b, 0, 0, |a|);
      CountBounded(a, b, t);
    }
  }

  // ---------------------------------------------------------------- the similarity test

  /** 2M / (len(a) + len(b)). */
  function Ratio(matching: nat, a: Bytes, b: Bytes): real
    requires |a| + |b| > 0
  {
    (2 * matching) as real / (|a| + |b|) as real
  }

  /** Both texts are empty, or neither is and twice the count reaches the ratio's share of the
      bytes of both. */
  ghost predicate Similar(a: Bytes, b: Bytes, m: nat, ratio: real) {
    a == b == [] || (a != [] && b != [] && (2 * m) as real >= ratio * (|a| + |b|) as real)
  }

  lemma ProductNotNegative(x: real, d: real)
    requires x >= 0.0 && d > 0.0
    ensures x * d >= 0.0
    ensures x > 0.0 ==> x * d > 0.0
  {
  }

  lemma ProductOrder(x: real, y: real, d: real)
    requires d > 0.0
    ensures x <= y <==> x * d <= y * d
  {
    if x <= y {
      ProductNotNegative(y - x, d);
    } else {
      ProductNotNegative(x - y, d);
    }
  }

  lemma QuotientAtLeast(n: real, d: real, ratio: real)
    requires d > 0.0
    ensures n / d >= ratio <==> n >= ratio * d
  {
    var q := n / d;
    assert q * d == n;
    ProductOrder(ratio, q, d);
  }

  method ContentSimilar(a: Bytes, b: Bytes, ratio: real) returns (similar: bool)
    ensures exists m: nat :: IsMatchCount(a, b, m) && (similar <==> Similar(a, b, m, ratio))
  {
    if a == [] || b == [] {
      assert NoMatch.Of(a, b);
      assert IsMatchCount(a, b, 0);
    }
    if a == [] && b == [] {
      return true;
    }
    if a == [] || b == [] {
      return false;
    }
    var m := MatchingCharCount(a, b);
    similar := Ratio(m, a, b) >= ratio;
    QuotientAtLeast((2 * m) as real, (|a| + |b|) as real, ratio);
  }

  lemma QuotientAtMostOne(n: nat, d: nat)
    requires n <= d && d > 0
    ensures 0.0 <= n as real / d as real <= 1.0
    ensures n as real / d as real == 1.0 <==> n == d
  {
    var q, all := n as real / d as real, d as real;
    assert q * all == n as real;
    ProductOrder(0.0, q, all);
    ProductOrder(q, 1.0, all);
    ProductOrder(1.0, q, all);
  }

  /** The ratio is a number in [0, 1], and 1 exactly on equal texts. */
  lemma {:induction false} RatioRange(a: Bytes, b: Bytes, m: nat)
    requires |a| + |b| > 0 && IsMatchCount(a, b, m)
    ensures 0.0 <= Ratio(m, a, b) <= 1.0
    ensures Ratio(m, a, b) == 1.0 <==> a == b
  {
    var t: Gestalt :| t.Of(a, b) && t.Total() == m;
    CountBounded(a, b, t);
    FullCountMeansEqual(a, b, t);
    QuotientAtMostOne(2 * m, |a| + |b|);
  }

  /** The specification determines the count, so the test is a function of its inputs. */
  lemma {:induction false} CountIsUnique(a: Bytes, b: Bytes, m: int, n: int)
    requires IsMatchCount(a, b, m) && IsMatchCount(a, b, n)
    ensures m == n
  {
    var s: Gestalt :| s.Of(a, b) && s.Total() == m;
    var t: Gestalt :| t.Of(a, b) && t.Total() == n;
    GestaltIsUnique(a, b, s, t);
  }

  lemma {:induction false} BlockBytes(a: Bytes, b: Bytes, i: int, j: int, k: int, n: nat)
    requires CommonBlock(a, b, i, j, k) && n < k
    ensures a[i + n] == b[j + n]
  {
    assert a[i + n] == a[i..i + k][n];
    assert b[j + n] == b[j..j + k][n];
  }

  /** When no two adjacent bytes agree, blocks have at most one byte. */
  lemma {:induction false} NoLongBlock(a: Bytes, b: Bytes, i: int, j: int, k: int)
    requires forall p, q :: 0 <= p < |a| - 1 && 0 <= q < |b| - 1 ==> a[p] != b[q] || a[p + 1] != b[q + 1]
    requires CommonBlock(a, b, i, j, k)
    ensures k <= 1 && (k == 1 ==> a[i] == b[j])
  {
    if k >= 1 {
      BlockBytes(a, b, i, j, k, 0);
    }
    if k >= 2 {
      BlockBytes(a, b, i, j, k, 1);
    }
  }

  lemma {:induction false} FirstSingle(a: Bytes, b: Bytes, i: int, j: int)
    requires forall p, q :: 0 <= p < |a| - 1 && 0 <= q < |b| - 1 ==> a[p] != b[q] || a[p + 1] != b[q + 1]
    requires 0 <= i < |a| && 0 <= j < |b| && a[i] == b[j]
    requires forall p, q :: 0 <= p < |a| && 0 <= q < |b| && a[p] == b[q] ==> i < p || (i == p && j <= q)
    ensures FirstLongest(a, b, i, j, 1)
  {
    assert a[i..i + 1] == b[j..j + 1];
    forall i', j', k' | CommonBlock(a, b, i', j', k')
      ensures k' <= 1 && (k' == 1 ==> a[i'] == b[j'])
    {
      NoLongBlock(a, b, i', j', k');
    }
  }

  lemma BlockBothWays(a: Bytes, b: Bytes, i: int, j: int, k: int)
    ensures CommonBlock(a, b, i, j, k) <==> CommonBlock(b, a, j, i, k)
  {
  }

  lemma FirstBothWays(a: Bytes, b: Bytes, i: int, j: int, k: int)
    requires FirstLongest(a, b, i, j, k) && k > 0
    ensures FirstLongest(b, a, j, i, k) <==> forall i', j' :: CommonBlock(a, b, i', j', k) ==> j <= j'
  {
    hide CommonBlock;
    forall i', j', k'
      ensures CommonBlock(a, b, i', j', k') <==> CommonBlock(b, a, j', i', k')
    {
      BlockBothWays(a, b, i', j', k');
    }
  }

  lemma NoneBothWays(a: Bytes, b: Bytes)
    requires FirstLongest(a, b, 0, 0, 0)
    ensures FirstLongest(b, a, 0, 0, 0)
  {
    forall i', j', k' | CommonBlock(b, a, i', j', k')
      ensures k' <= 0
    {
      BlockBothWays(a, b, j', i', k');
    }
  }

  /** With the texts swapped the recursion splits on the very same blocks exactly when at
      every split the block that starts first in a also starts first in b. */
  lemma {:induction false} SameSplitsIff(a: Bytes, b: Bytes, t: Gestalt)
    requires t.Of(a, b)
    ensures t.Mirror().Of(b, a) <==> t.FirstInBoth(a, b)
  {
    if t.NoMatch? {
      NoneBothWays(a, b);
    } else {
      SplitIsBlock(a, b, t);
      SameSplitsIff(a[..t.i], b[..t.j], t.before);
      SameSplitsIff(a[t.i + t.k..], b[t.j + t.k..], t.after);
      hide FirstLongest, CommonBlock;
      FirstBothWays(a, b, t.i, t.j, t.k);
      assert t.Mirror() == Match(t.before.Mirror(), t.j, t.i, t.k, t.after.Mirror());
    }
  }

  /** The counts then agree. */
  lemma SameSplitsSameCount(a: Bytes, b: Bytes, t: Gestalt)
    requires t.Of(a, b) && t.FirstInBoth(a, b)
    ensures IsMatchCount(a, b, t.Total()) && IsMatchCount(b, a, t.Total())
  {
    SameSplitsIff(a, b, t);
    MirrorKeepsTotal(t);
  }

  lemma {:induction false} MirrorKeepsTotal(t: Gestalt)
    ensures t.Mirror().Total() == t.Total()
  {
    if t.Match? {
      MirrorKeepsTotal(t.before);
      MirrorKeepsTotal(t.after);
    }
  }

  /** Otherwise swapping the texts can change the count, and with it the answer. */
  lemma {:induction false} NotSymmetric()
    ensures var a: Bytes, b: Bytes := [0, 1, 0], [1, 2, 0];
            IsMatchCount(a, b, 1) && IsMatchCount(b, a, 2) && Ratio(1, a, b) < 0.5 < Ratio(2, b, a)
  {
    var a: Bytes, b: Bytes := [0, 1, 0], [1, 2, 0];
    assert Ratio(1, a, b) < 0.5 < Ratio(2, b, a);
    hide Ratio;
    FirstSingle(a, b, 0, 2);
    var t := Match(NoMatch, 0, 2, 1, NoMatch);
    assert t.Of(a, b) && t.Total() == 1;
    FirstSingle(b, a, 0, 1);
    FirstSingle([2, 0], [0], 1, 0);
    var after := Match(NoMatch, 1, 0, 1, NoMatch);
    assert b[1..] == [2, 0] && a[2..] == [0];
    assert after.Of(b[1..], a[2..]) && after.Total() == 1;
    var u := Match(NoMatch, 0, 1, 1, after);
    assert u.Of(b, a) && u.Total() == 2;
  }
}
