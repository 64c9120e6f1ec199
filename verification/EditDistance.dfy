/** The edit distance of the fuzzy matcher: a two-row dynamic program, proved
    against edit scripts.

    An edit script spells out, step by step, how a source text becomes a target
    text.  Nothing in that definition knows about the table the program fills. */
module EditDistance {

  datatype Edit =
    | Keep(c: char)
    | Substitute(from: char, to: char)
    | Delete(from: char)
    | Insert(to: char)

  type Script = seq<Edit>

  function Reads(e: Edit): string {
    match e
    case Keep(c) => [c]
    case Substitute(x, _) => [x]
    case Delete(x) => [x]
    case Insert(_) => []
  }

  function Writes(e: Edit): string {
    match e
    case Keep(c) => [c]
    case Substitute(_, y) => [y]
    case Delete(_) => []
    case Insert(y) => [y]
  }

  /** The text a script reads. */
  function Source(s: Script): string {
    if s == [] then "" else
      var last := s[|s| - 1];
      Source(s[..|s| - 1]) + Reads(last)
  }

  /** The text a script writes. */
  function Target(s: Script): string {
    if s == [] then "" else
      var last := s[|s| - 1];
      Target(s[..|s| - 1]) + Writes(last)
  }

  function Cost(s: Script): nat {
    if s == [] then 0 else
      Cost(s[..|s| - 1]) + if s[|s| - 1].Keep? then 0 else 1
  }

  ghost predicate Rewrites(s: Script, a: string, b: string) {
    Source(s) == a && Target(s) == b
  }

  /** d is the least cost over all scripts that rewrite a into b. */
  ghost predicate IsDistance(a: string, b: string, d: int) {
    && (exists s: Script :: Rewrites(s, a, b) && Cost(s) == d)
    && (forall s: Script :: Rewrites(s, a, b) ==> d <= Cost(s))
  }

  function Min3(x: int, y: int, z: int): int {
    var m := if y < x then y else x;
    if z < m then z else m
  }

  /** The value of one cell of the full table. */
  ghost function Cell(a: string, b: string): nat {
    if a == "" then |b|
    else if b == "" then |a|
    else
      var a', b' := a[..|a| - 1], b[..|b| - 1];
      Min3(Cell(a, b') + 1, Cell(a', b) + 1,
           Cell(a', b') + if a[|a| - 1] == b[|b| - 1] then 0 else 1)
  }

  // ---------------------------------------------------------------- cells are distances

  lemma Snoc(s: Script, e: Edit)
    ensures (s + [e])[..|s + [e]| - 1] == s
  {
  }

  lemma OneMoreEdit(r: Script, e: Edit, a: string, b: string)
    requires Rewrites(r, a, b)
    ensures Rewrites(r + [e], a + Reads(e), b + Writes(e))
    ensures Cost(r + [e]) == Cost(r) + if e.Keep? then 0 else 1
  {
    Snoc(r, e);
  }

  /** The last edit of a cheapest script, and the texts before it. */
  lemma LastEdit(a: string, b: string) returns (a': string, b': string, e: Edit)
    requires a != "" || b != ""
    ensures |a'| + |b'| < |a| + |b|
    ensures a == a' + Reads(e) && b == b' + Writes(e)
    ensures Cell(a, b) == Cell(a', b') + if e.Keep? then 0 else 1
  {
    assert a != "" ==> a == a[..|a| - 1] + [a[|a| - 1]];
    assert b != "" ==> b == b[..|b| - 1] + [b[|b| - 1]];
    if b != "" && Cell(a, b) == Cell(a, b[..|b| - 1]) + 1 {
      return a, b[..|b| - 1], Insert(b[|b| - 1]);
    }
    if a != "" && Cell(a, b) == Cell(a[..|a| - 1], b) + 1 {
      return a[..|a| - 1], b, Delete(a[|a| - 1]);
    }
    var x, y := a[|a| - 1], b[|b| - 1];
    return a[..|a| - 1], b[..|b| - 1], if x == y then Keep(x) else Substitute(x, y);
  }

  /** Some script costs exactly what the cell says. */
  lemma {:induction false} CellIsReached(a: string, b: string) returns (s: Script)
    ensures Rewrites(s, a, b) && Cost(s) == Cell(a, b)
    decreases |a| + |b|
  {
    if a == "" && b == "" {
      return [];
    }
    hide *;
    var a', b', e := LastEdit(a, b);
    var r := CellIsReached(a', b');
    OneMoreEdit(r, e, a', b');
    return r + [e];
  }

  /** Appending one character to either side raises the cell by at most one. */
  lemma CellGrowsSlowly(a: string, b: string, x: char)
    ensures Cell(a + [x], b) <= Cell(a, b) + 1
    ensures Cell(a, b + [x]) <= Cell(a, b) + 1
  {
    assert (a + [x])[..|a|] == a && (b + [x])[..|b|] == b;
  }

  lemma CellOfPair(a: string, b: string, x: char, y: char)
    ensures Cell(a + [x], b + [y]) <= Cell(a, b) + if x == y then 0 else 1
  {
    assert (a + [x])[..|a|] == a && (b + [y])[..|b|] == b;
  }

  /** No script is cheaper than the cell. */
  lemma {:induction false} CellIsLeast(s: Script)
    ensures Cell(Source(s), Target(s)) <= Cost(s)
  {
    if s != [] {
      var r := s[..|s| - 1];
      CellIsLeast(r);
      match s[|s| - 1] {
        case Keep(c) => CellOfPair(Source(r), Target(r), c, c);
        case Substitute(x, y) => CellOfPair(Source(r), Target(r), x, y);
        case Delete(x) =>
          CellGrowsSlowly(Source(r), Target(r), x);
          assert Target(s) == Target(r);
        case Insert(y) =>
          CellGrowsSlowly(Source(r), Target(r), y);
          assert Source(s) == Source(r);
      }
    }
  }

  lemma CellIsDistance(a: string, b: string)
    ensures IsDistance(a, b, Cell(a, b))
  {
    var s := CellIsReached(a, b);
    forall s: Script | Rewrites(s, a, b)
      ensures Cell(a, b) <= Cost(s)
    {
      CellIsLeast(s);
    }
  }

  // ---------------------------------------------------------------- the program

  /** row holds the cells of the i-th table row, up to and including column n. */
  ghost predicate RowHolds(row: seq<int>, a: string, i: int, b: string, n: int) {
    && 0 <= i <= |a| && n < |row| && n <= |b|
    && forall k :: 0 <= k <= n ==> row[k] == Cell(a[..i], b[..k])
  }

  lemma EdgeCells(a: string, b: string)
    ensures a == "" ==> Cell(a, b) == |b|
    ensures b == "" ==> Cell(a, b) == |a|
  {
  }

  lemma NextCell(prev: seq<int>, curr: seq<int>, a: string, i: int, b: string, j: int)
    requires 1 <= i && 1 <= j <= |b| && |curr| == |prev|
    requires RowHolds(prev, a, i - 1, b, |b|)
    requires i <= |a| && RowHolds(curr, a, i, b, j - 1)
    ensures Cell(a[..i], b[..j])
         == Min3(prev[j] + 1, curr[j - 1] + 1, prev[j - 1] + if a[i - 1] == b[j - 1] then 0 else 1)
  {
    assert a[..i][..i - 1] == a[..i - 1] && b[..j][..j - 1] == b[..j - 1];
  }

  lemma RowGrows(row: seq<int>, a: string, i: int, b: string, n: nat, value: int)
    requires 0 <= i <= |a| && n <= |b| && n < |row|
    requires n > 0 ==> RowHolds(row, a, i, b, n - 1)
    requires value == Cell(a[..i], b[..n])
    ensures RowHolds(row[n := value], a, i, b, n)
  {
    hide Cell;
  }

  /** Two rows are kept and swapped after each character of a. */
  method LevenshteinDistance(a: string, b: string) returns (d: int)
    ensures IsDistance(a, b, d)
  {
    hide IsDistance, Cell, RowHolds, Min3;
    CellIsDistance(a, b);
    EdgeCells(a, b);
    var la, lb := |a|, |b|;
    if la == 0 {
      return lb;
    }
    if lb == 0 {
      return la;
    }
    var prev := new int[lb + 1];
    var curr := new int[lb + 1];
    for j := 0 to lb + 1
      invariant j > 0 ==> RowHolds(prev[..], a, 0, b, j - 1)
    {
      EdgeCells(a[..0], b[..j]);
      RowGrows(prev[..], a, 0, b, j, j);
      ghost var before := prev[..];
      prev[j] := j;
      assert prev[..] == before[j := j];
    }
    for i := 1 to la + 1
      invariant prev != curr && prev.Length == curr.Length == lb + 1
      invariant fresh(prev) && fresh(curr)
      invariant RowHolds(prev[..], a, i - 1, b, lb)
    {
      EdgeCells(a[..i], b[..0]);
      RowGrows(curr[..], a, i, b, 0, i);
      ghost var unset := curr[..];
      curr[0] := i;
      assert curr[..] == unset[0 := i];
      for j := 1 to lb + 1
        invariant RowHolds(prev[..], a, i - 1, b, lb)
        invariant RowHolds(curr[..], a, i, b, j - 1)
      {
        var cost := if a[i - 1] == b[j - 1] then 0 else 1;
        var del := prev[j] + 1;
        var ins := curr[j - 1] + 1;
        var sub := prev[j - 1] + cost;
        NextCell(prev[..], curr[..], a, i, b, j);
        RowGrows(curr[..], a, i, b, j, Min3(del, ins, sub));
        ghost var before := curr[..];
        curr[j] := Min3(del, ins, sub);
        assert curr[..] == before[j := curr[j]];
      }
      prev, curr := curr, prev;
    }
    RowEnds(prev[..], a, b);
    return prev[lb];
  }

  lemma RowEnds(row: seq<int>, a: string, b: string)
    requires RowHolds(row, a, |a|, b, |b|)
    ensures |b| < |row| && row[|b|] == Cell(a, b)
  {
    assert a[..|a|] == a && b[..|b|] == b;
  }

  // ---------------------------------------------------------------- the distance is a metric

  /** The specification determines the result. */
  lemma DistanceIsUnique(a: string, b: string, d: int, e: int)
    requires IsDistance(a, b, d) && IsDistance(a, b, e)
    ensures d == e
  {
    var s: Script :| Rewrites(s, a, b) && Cost(s) == d;
    var t: Script :| Rewrites(t, a, b) && Cost(t) == e;
    assert Rewrites(s, a, b) && Rewrites(t, a, b);
  }

  lemma {:induction false} FreeScriptKeeps(s: Script)
    requires Cost(s) == 0
    ensures Source(s) == Target(s)
  {
    if s != [] {
      FreeScriptKeeps(s[..|s| - 1]);
    }
  }

  lemma {:induction false} Identity(a: string) returns (s: Script)
    ensures Rewrites(s, a, a) && Cost(s) == 0
  {
    if a == "" {
      s := [];
    } else {
      var r := Identity(a[..|a| - 1]);
      s := r + [Keep(a[|a| - 1])];
      Snoc(r, Keep(a[|a| - 1]));
      assert a == a[..|a| - 1] + [a[|a| - 1]];
    }
  }

  lemma ZeroExactlyOnEqual(a: string, b: string, d: int)
    requires IsDistance(a, b, d)
    ensures 0 <= d
    ensures d == 0 <==> a == b
  {
    var s: Script :| Rewrites(s, a, b) && Cost(s) == d;
    if d == 0 {
      FreeScriptKeeps(s);
    }
    if a == b {
      var t := Identity(a);
      assert Rewrites(t, a, b);
    }
  }

  function Reverse(e: Edit): Edit {
    match e
    case Keep(c) => Keep(c)
    case Substitute(x, y) => Substitute(y, x)
    case Delete(x) => Insert(x)
    case Insert(y) => Delete(y)
  }

  lemma {:induction false} Undo(s: Script) returns (r: Script)
    ensures Source(r) == Target(s) && Target(r) == Source(s) && Cost(r) == Cost(s)
  {
    if s == [] {
      r := [];
    } else {
      var q := Undo(s[..|s| - 1]);
      r := q + [Reverse(s[|s| - 1])];
      Snoc(q, Reverse(s[|s| - 1]));
    }
  }

  lemma Symmetric(a: string, b: string, d: int)
    requires IsDistance(a, b, d)
    ensures IsDistance(b, a, d)
  {
    var s: Script :| Rewrites(s, a, b) && Cost(s) == d;
    var r := Undo(s);
    assert Rewrites(r, b, a);
    forall t: Script | Rewrites(t, b, a)
      ensures d <= Cost(t)
    {
      var u := Undo(t);
      assert Rewrites(u, a, b);
    }
  }

  lemma Unsnoc(s: Script)
    requires s != []
    ensures Source(s) == Source(s[..|s| - 1]) + Reads(s[|s| - 1])
    ensures Target(s) == Target(s[..|s| - 1]) + Writes(s[|s| - 1])
    ensures Cost(s) == Cost(s[..|s| - 1]) + if s[|s| - 1].Keep? then 0 else 1
  {
  }

  /** Doing e and then f to one character, neither inserting nor deleting it both. */
  function Merged(e: Edit, f: Edit): (g: Edit)
    requires !e.Delete? && !f.Insert? && Writes(e) == Reads(f) && !(e.Insert? && f.Delete?)
    ensures Reads(g) == Reads(e) && Writes(g) == Writes(f)
    ensures g.Keep? <== e.Keep? && f.Keep?
  {
    match e {
      case Keep(_) => f
      case Insert(_) => if f.Keep? then e else Insert(f.to)
      case Substitute(x, _) => if f.Keep? then e else if f.Delete? then Delete(x) else Substitute(x, f.to)
    }
  }

  lemma SameLast(u: string, x: char, v: string, y: char)
    requires u + [x] == v + [y]
    ensures u == v && x == y
  {
    assert (u + [x])[..|u|] == u && (v + [y])[..|v|] == v;
    assert (u + [x])[|u|] == x && (v + [y])[|v|] == y;
  }

  lemma LastCharacter(u: string, e: Edit, v: string, f: Edit)
    requires !e.Delete? && !f.Insert? && u + Writes(e) == v + Reads(f)
    ensures u == v && Writes(e) == Reads(f)
  {
    SameLast(u, Writes(e)[0], v, Reads(f)[0]);
  }

  /** Running s and then t can be done by one script that is no dearer. */
  lemma {:induction false} Compose(s: Script, t: Script) returns (r: Script)
    requires Target(s) == Source(t)
    ensures Rewrites(r, Source(s), Target(t)) && Cost(r) <= Cost(s) + Cost(t)
    decreases |s| + |t|
  {
    if s == [] && t == [] {
      return [];
    }
    if s != [] { Unsnoc(s); }
    if t != [] { Unsnoc(t); }
    assert s == [] ==> Target(s) == "" && Cost(s) == 0;
    assert t == [] ==> Source(t) == "" && Cost(t) == 0;
    hide Source, Target, Cost, Rewrites;
    if s != [] && s[|s| - 1].Delete? {
      var q := Compose(s[..|s| - 1], t);
      OneMoreEdit(q, s[|s| - 1], Source(s[..|s| - 1]), Target(t));
      return q + [s[|s| - 1]];
    }
    if t != [] && t[|t| - 1].Insert? {
      var q := Compose(s, t[..|t| - 1]);
      OneMoreEdit(q, t[|t| - 1], Source(s), Target(t[..|t| - 1]));
      return q + [t[|t| - 1]];
    }
    var s', e, t', f := s[..|s| - 1], s[|s| - 1], t[..|t| - 1], t[|t| - 1];
    LastCharacter(Target(s'), e, Source(t'), f);
    hide Reads, Writes;
    var q := Compose(s', t');
    if e.Insert? && f.Delete? {
      return q;
    }
    OneMoreEdit(q, Merged(e, f), Source(s'), Target(t'));
    return q + [Merged(e, f)];
  }

  lemma Triangle(a: string, b: string, c: string, ab: int, bc: int, ac: int)
    requires IsDistance(a, b, ab) && IsDistance(b, c, bc) && IsDistance(a, c, ac)
    ensures ac <= ab + bc
  {
    var s: Script :| Rewrites(s, a, b) && Cost(s) == ab;
    var t: Script :| Rewrites(t, b, c) && Cost(t) == bc;
    var r := Compose(s, t);
    assert Rewrites(r, a, c);
  }

  lemma {:induction false} ScriptLengths(s: Script)
    ensures |Source(s)| - |Target(s)| <= Cost(s)
    ensures |Target(s)| - |Source(s)| <= Cost(s)
  {
    if s != [] {
      ScriptLengths(s[..|s| - 1]);
    }
  }

  lemma {:induction false} CellAtMost(a: string, b: string)
    ensures Cell(a, b) <= if |a| < |b| then |b| else |a|
    decreases |a|
  {
    if a != "" && b != "" {
      CellAtMost(a[..|a| - 1], b[..|b| - 1]);
    }
  }

  /** The distance lies between the difference and the maximum of the lengths. */
  lemma Bounds(a: string, b: string, d: int)
    requires IsDistance(a, b, d)
    ensures |a| - |b| <= d && |b| - |a| <= d
    ensures d <= |a| || d <= |b|
  {
    var s: Script :| Rewrites(s, a, b) && Cost(s) == d;
    ScriptLengths(s);
    CellAtMost(a, b);
    CellIsDistance(a, b);
    DistanceIsUnique(a, b, d, Cell(a, b));
  }
}
