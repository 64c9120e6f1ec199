/** Structural validation of a surface: a three-colour depth-first search over the
    child references of its components. */
module SurfaceTree {

  type Id = string

  const ROOT: Id := "root"

  /** A defined component: its type, and its child references in the order listed. */
  datatype Component = Component(kind: string, refs: seq<Id>)

  type Components = map<Id, Component>

  datatype Error =
    | NoRoot
    | UnknownType(at: Id)
    | UndefinedReference(from: Id, to: Id)
    | CircularReference(from: Id, to: Id)

  // ---------------------------------------------------------------- paths and cycles

  ghost predicate Edge(g: Components, x: Id, y: Id) {
    x in g && y in g && y in g[x].refs
  }

  /** p is a path along references between defined components. */
  ghost predicate IsPath(g: Components, p: seq<Id>) {
    && p != []
    && (forall k :: 0 <= k < |p| ==> p[k] in g)
    && (forall k :: 0 <= k < |p| - 1 ==> Edge(g, p[k], p[k + 1]))
  }

  ghost predicate IsCycle(g: Components, p: seq<Id>) {
    IsPath(g, p) && |p| >= 2 && p[0] == p[|p| - 1]
  }

  ghost predicate HasCycle(g: Components) {
    exists p :: IsCycle(g, p)
  }

  /** order lists components so that references only go from later to earlier ones. */
  ghost predicate Topological(g: Components, order: seq<Id>) {
    && (forall i, j :: 0 <= i < j < |order| ==> order[i] != order[j])
    && (forall i :: 0 <= i < |order| ==> order[i] in g)
    && (forall i, y {:trigger Edge(g, order[i], y)} :: 0 <= i < |order| && Edge(g, order[i], y) ==> y in order[..i])
  }

  /** Along a path that starts in a topological order, positions only go down. */
  lemma {:induction false} PathGoesDown(g: Components, order: seq<Id>, p: seq<Id>, k: nat) returns (i: nat, j: nat)
    requires Topological(g, order) && IsPath(g, p) && p[0] in order && k < |p|
    ensures i < |order| && j < |order| && order[i] == p[0] && order[j] == p[k]
    ensures j <= i - k
  {
    if k == 0 {
      i :| 0 <= i < |order| && order[i] == p[0];
      j := i;
    } else {
      var m;
      i, m := PathGoesDown(g, order, p, k - 1);
      assert Edge(g, order[m], p[k]);
      j :| 0 <= j < m && order[j] == p[k];
    }
  }

  lemma {:induction false} TopologicalMeansAcyclic(g: Components, order: seq<Id>)
    requires Topological(g, order) && forall x :: x in g ==> x in order
    ensures !HasCycle(g)
  {
    forall p | IsCycle(g, p)
      ensures false
    {
      var i, j := PathGoesDown(g, order, p, |p| - 1);
    }
  }

  // ---------------------------------------------------------------- the search

  datatype Color = White | Gray | Black

  function ColorIn(color: map<Id, Color>, x: Id): Color {
    if x in color then color[x] else White
  }

  ghost function Unvisited(g: Components, color: map<Id, Color>): set<Id> {
    set x | x in g && ColorIn(color, x) == White
  }

  /** The reported reference is the last edge of a cycle. */
  ghost predicate ClosesCycle(g: Components, x: Id, y: Id) {
    exists p :: IsCycle(g, p) && p[|p| - 2] == x && p[|p| - 1] == y
  }

  /** The gray components are the path from the start of the search to the component
      being explored; the black ones are those finished, in the order they finished. */
  ghost predicate Consistent(g: Components, color: map<Id, Color>, errs: seq<Error>, finished: seq<Id>, stack: seq<Id>) {
    && (stack != [] ==> IsPath(g, stack))
    && Painted(g, color, finished, stack)
    && (forall e :: e in errs ==> e.CircularReference? && ClosesCycle(g, e.from, e.to))
    && (errs == [] ==> Topological(g, finished))
  }

  ghost predicate Painted(g: Components, color: map<Id, Color>, finished: seq<Id>, stack: seq<Id>) {
    && (forall x :: ColorIn(color, x) == Gray <==> x in stack)
    && (forall x :: ColorIn(color, x) == Black <==> x in finished)
    && (forall x :: ColorIn(color, x) != White ==> x in g)
  }

  lemma {:induction false} EnterKeeps(g: Components, color: map<Id, Color>, errs: seq<Error>, finished: seq<Id>,
      stack: seq<Id>, id: Id)
    requires Consistent(g, color, errs, finished, stack) && ColorIn(color, id) == White && id in g
    requires stack != [] ==> Edge(g, stack[|stack| - 1], id)
    ensures Consistent(g, color[id := Gray], errs, finished, stack + [id])
    ensures Unvisited(g, color[id := Gray]) < Unvisited(g, color)
  {
    assert forall x :: x in stack + [id] <==> x in stack || x == id;
    assert Unvisited(g, color[id := Gray]) == Unvisited(g, color) - {id};
    assert id in Unvisited(g, color);
  }

  lemma {:induction false} GrayHit(g: Components, color: map<Id, Color>, errs: seq<Error>, finished: seq<Id>,
      stack: seq<Id>, y: Id)
    requires Consistent(g, color, errs, finished, stack) && stack != []
    requires ColorIn(color, y) == Gray && Edge(g, stack[|stack| - 1], y)
    ensures Consistent(g, color, errs + [CircularReference(stack[|stack| - 1], y)], finished, stack)
  {
    BackEdge(g, stack, y);
    hide IsPath, Topological, ClosesCycle;
  }

  lemma {:induction false} BackEdge(g: Components, stack: seq<Id>, y: Id)
    requires stack != [] && IsPath(g, stack) && y in stack && Edge(g, stack[|stack| - 1], y)
    ensures ClosesCycle(g, stack[|stack| - 1], y)
  {
    var k :| 0 <= k < |stack| && stack[k] == y;
    var p := stack[k..] + [y];
    assert IsCycle(g, p);
    assert p[|p| - 2] == stack[|stack| - 1];
  }

  lemma {:induction false} PathPrefix(g: Components, stack: seq<Id>, id: Id)
    requires IsPath(g, stack + [id]) && stack != []
    ensures IsPath(g, stack)
  {
    forall k | 0 <= k < |stack| - 1
      ensures Edge(g, stack[k], stack[k + 1])
    {
      assert Edge(g, (stack + [id])[k], (stack + [id])[k + 1]);
    }
    assert forall k :: 0 <= k < |stack| ==> stack[k] == (stack + [id])[k];
  }

  lemma {:induction false} BlackenKeepsPaint(g: Components, color: map<Id, Color>, finished: seq<Id>, stack: seq<Id>, id: Id)
    requires Painted(g, color, finished, stack + [id]) && id !in stack
    ensures Painted(g, color[id := Black], finished + [id], stack)
    ensures id in g && id !in finished
  {
    assert forall x :: x in stack + [id] <==> x in stack || x == id;
    assert forall x :: x in finished + [id] <==> x in finished || x == id;
  }

  lemma {:induction false} LeaveKeeps(g: Components, color: map<Id, Color>, errs: seq<Error>, finished: seq<Id>,
      stack: seq<Id>, id: Id)
    requires Consistent(g, color, errs, finished, stack + [id]) && id !in stack
    requires errs == [] ==> forall y :: Edge(g, id, y) ==> ColorIn(color, y) == Black
    ensures Consistent(g, color[id := Black], errs, finished + [id], stack)
  {
    BlackenKeepsPaint(g, color, finished, stack, id);
    if stack != [] {
      PathPrefix(g, stack, id);
    }
    if errs == [] {
      FinishKeepsOrder(g, finished, id);
    }
    hide IsPath, Topological, ClosesCycle;
  }

  lemma {:induction false} FinishKeepsOrder(g: Components, finished: seq<Id>, id: Id)
    requires Topological(g, finished) && id !in finished && id in g
    requires forall y :: Edge(g, id, y) ==> y in finished
    ensures Topological(g, finished + [id])
  {
    var order := finished + [id];
    forall i, y | 0 <= i < |order| && Edge(g, order[i], y)
      ensures y in order[..i]
    {
      assert order[..i] == finished[..i];
      if i == |finished| {
        assert finished[..i] == finished;
      } else {
        assert Edge(g, finished[i], y);
      }
    }
  }

  lemma ColoredAreDefined(g: Components, color: map<Id, Color>, errs: seq<Error>, finished: seq<Id>, stack: seq<Id>, x: Id)
    requires Consistent(g, color, errs, finished, stack) && ColorIn(color, x) != White
    ensures x in g
  {
  }

  class Search {
    const g: Components
    var color: map<Id, Color>
    var errs: seq<Error>
    ghost var finished: seq<Id>

    constructor (g: Components)
      ensures this.g == g && color == map[] && errs == [] && finished == []
    {
      this.g := g;
      color := map[];
      errs := [];
      finished := [];
    }

    ghost predicate Valid(stack: seq<Id>)
      reads this
    {
      Consistent(g, color, errs, finished, stack)
    }

    /** Explores id and everything it leads to that is still white. */
    method Visit(id: Id, ghost stack: seq<Id>)
      requires Valid(stack) && ColorIn(color, id) == White
      requires stack != [] && id in g ==> Edge(g, stack[|stack| - 1], id)
      modifies this
      ensures Valid(stack)
      ensures id in g ==> ColorIn(color, id) == Black
      ensures forall x :: ColorIn(old(color), x) == Black ==> ColorIn(color, x) == Black
      ensures Unvisited(g, color) <= Unvisited(g, old(color))
      ensures old(errs) <= errs
      decreases Unvisited(g, color)
    {
      if id !in g {
        return;
      }
      EnterKeeps(g, color, errs, finished, stack, id);
      assert id !in stack;
      hide Consistent;
      color := color[id := Gray];
      ghost var path := stack + [id];
      var refs := g[id].refs;
      for i := 0 to |refs|
        invariant Valid(path)
        invariant Unvisited(g, color) < Unvisited(g, old(color))
        invariant forall x :: ColorIn(old(color), x) == Black ==> ColorIn(color, x) == Black
        invariant old(errs) <= errs
        invariant errs == [] ==> forall k :: 0 <= k < i && refs[k] in g ==> ColorIn(color, refs[k]) == Black
      {
        var ref := refs[i];
        assert ref in g ==> Edge(g, path[|path| - 1], ref);
        match ColorIn(color, ref) {
          case Gray =>
            ColoredAreDefined(g, color, errs, finished, path, ref);
            GrayHit(g, color, errs, finished, path, ref);
            errs := errs + [CircularReference(id, ref)];
          case White =>
            Visit(ref, path);
          case Black =>
        }
      }
      LeaveKeeps(g, color, errs, finished, stack, id);
      color := color[id := Black];
      finished := finished + [id];
    }

    /** The root first, then whatever the root does not reach, in any order. */
    method DetectCycles()
      requires Valid([]) && color == map[] && errs == []
      modifies this
      ensures errs == [] <==> !HasCycle(g)
      ensures forall e :: e in errs ==> e.CircularReference? && ClosesCycle(g, e.from, e.to)
    {
      if ROOT in g {
        Visit(ROOT, []);
      }
      var todo := g.Keys;
      while todo != {}
        invariant Valid([]) && todo <= g.Keys
        invariant forall x :: x in g && x !in todo ==> ColorIn(color, x) == Black
      {
        var id :| id in todo;
        if ColorIn(color, id) == White {
          Visit(id, []);
        }
        todo := todo - {id};
      }
      if errs == [] {
        TopologicalMeansAcyclic(g, finished);
      } else {
        var e := errs[0];
        assert ClosesCycle(g, e.from, e.to);
      }
    }
  }

  // ---------------------------------------------------------------- the whole validation

  /** What the validation is documented to check. */
  ghost predicate WellFormed(g: Components, known: set<string>) {
    && ROOT in g
    && (forall x :: x in g ==> g[x].kind == "" || g[x].kind in known)
    && (forall x, y :: x in g && y in g[x].refs ==> y in g)
    && !HasCycle(g)
  }

  method ValidateSurfaceTree(g: Components, known: set<string>) returns (errs: seq<Error>)
    ensures errs == [] <==> WellFormed(g, known)
  {
    errs := if ROOT in g then [] else [NoRoot];
    var todo := g.Keys;
    while todo != {}
      invariant todo <= g.Keys
      invariant errs == [] <==>
        && ROOT in g
        && (forall x :: x in g && x !in todo ==> g[x].kind == "" || g[x].kind in known)
        && (forall x, y :: x in g && x !in todo && y in g[x].refs ==> y in g)
    {
      var id :| id in todo;
      if g[id].kind != "" && g[id].kind !in known {
        errs := errs + [UnknownType(id)];
      }
      var refs := g[id].refs;
      ghost var before := errs;
      for i := 0 to |refs|
        invariant errs == [] <==> before == [] && forall k :: 0 <= k < i ==> refs[k] in g
      {
        if refs[i] !in g {
          errs := errs + [UndefinedReference(id, refs[i])];
        }
      }
      todo := todo - {id};
    }
    var search := new Search(g);
    search.DetectCycles();
    errs := errs + search.errs;
  }

  // ---------------------------------------------------------------- what acceptance means

  lemma {:induction false} RepeatMakesCycle(g: Components, p: seq<Id>, i: nat, j: nat)
    requires IsPath(g, p) && i < j < |p| && p[i] == p[j]
    ensures HasCycle(g)
  {
    var q := p[i..j + 1];
    forall k | 0 <= k < |q| - 1
      ensures Edge(g, q[k], q[k + 1])
    {
      assert Edge(g, p[i + k], p[i + k + 1]);
    }
    assert IsCycle(g, q);
  }

  lemma {:induction false} DistinctInSet(p: seq<Id>, keys: set<Id>)
    requires forall i, j :: 0 <= i < j < |p| ==> p[i] != p[j]
    requires forall i :: 0 <= i < |p| ==> p[i] in keys
    ensures |p| <= |keys|
  {
    if p != [] {
      var n := |p| - 1;
      DistinctInSet(p[..n], keys - {p[n]});
    }
  }

  /** Walking an accepted surface ends: no path is longer than the surface is large. */
  lemma {:induction false} AcceptedPathsEnd(g: Components, known: set<string>, p: seq<Id>)
    requires WellFormed(g, known) && IsPath(g, p)
    ensures |p| <= |g|
  {
    forall i, j | 0 <= i < j < |p|
      ensures p[i] != p[j]
    {
      if p[i] == p[j] {
        RepeatMakesCycle(g, p, i, j);
      }
    }
    DistinctInSet(p, g.Keys);
    assert |g| == |g.Keys|;
  }

  // ---------------------------------------------------------------- when a surface is a tree

  /** p leads from the root to x. */
  ghost predicate IsRoute(g: Components, p: seq<Id>, x: Id) {
    IsPath(g, p) && p[0] == ROOT && p[|p| - 1] == x
  }

  /** Every component is reached from the root in exactly one way; a component that its
      parent lists twice is reached in one way. */
  ghost predicate IsTree(g: Components) {
    && (forall x :: x in g ==> exists p :: IsRoute(g, p, x))
    && (forall x, p, q :: IsRoute(g, p, x) && IsRoute(g, q, x) ==> p == q)
  }

  /** Every component but the root is referenced by exactly one component. */
  ghost predicate OneParentEach(g: Components) {
    && (forall y :: y in g && y != ROOT ==> exists x :: Edge(g, x, y))
    && (forall x, x', y :: y != ROOT && Edge(g, x, y) && Edge(g, x', y) ==> x == x')
  }

  lemma PathExtends(g: Components, p: seq<Id>, y: Id)
    requires IsPath(g, p) && Edge(g, p[|p| - 1], y)
    ensures IsPath(g, p + [y])
  {
    var q := p + [y];
    forall k | 0 <= k < |q| - 1
      ensures Edge(g, q[k], q[k + 1])
    {
      if k < |p| - 1 {
        assert q[k] == p[k] && q[k + 1] == p[k + 1];
      }
    }
  }

  lemma PathExtendsBack(g: Components, x: Id, p: seq<Id>)
    requires IsPath(g, p) && Edge(g, x, p[0])
    ensures IsPath(g, [x] + p)
  {
    var q := [x] + p;
    forall k | 0 <= k < |q| - 1
      ensures Edge(g, q[k], q[k + 1])
    {
      if k > 0 {
        assert q[k] == p[k - 1] && q[k + 1] == p[k];
      }
    }
  }

  lemma PathShortens(g: Components, p: seq<Id>)
    requires IsPath(g, p) && |p| > 1
    ensures IsPath(g, p[..|p| - 1]) && Edge(g, p[|p| - 2], p[|p| - 1])
  {
    assert p == p[..|p| - 1] + [p[|p| - 1]];
    PathPrefix(g, p[..|p| - 1], p[|p| - 1]);
  }

  /** Going up from parent to parent ends at the root, as no path is longer than the surface. */
  lemma {:induction false} ClimbToRoot(g: Components, known: set<string>, p: seq<Id>) returns (q: seq<Id>)
    requires WellFormed(g, known) && OneParentEach(g) && IsPath(g, p)
    ensures IsRoute(g, q, p[|p| - 1])
    decreases |g| - |p|
  {
    AcceptedPathsEnd(g, known, p);
    if p[0] == ROOT {
      q := p;
    } else {
      var x :| Edge(g, x, p[0]);
      PathExtendsBack(g, x, p);
      AcceptedPathsEnd(g, known, [x] + p);
      q := ClimbToRoot(g, known, [x] + p);
    }
  }

  /** Where every component has one parent, no component has two routes. */
  lemma {:induction false} RoutesAreOne(g: Components, x: Id, p: seq<Id>, q: seq<Id>)
    requires OneParentEach(g) && !HasCycle(g) && IsRoute(g, p, x) && IsRoute(g, q, x)
    ensures p == q
    decreases |p|
  {
    if x == ROOT {
      RouteToRoot(g, p);
      RouteToRoot(g, q);
    } else {
      PathShortens(g, p);
      PathShortens(g, q);
      var n, m := |p| - 1, |q| - 1;
      RoutesAreOne(g, p[n - 1], p[..n], q[..m]);
      assert p == p[..n] + [x] && q == q[..m] + [x];
    }
  }

  lemma RouteToRoot(g: Components, p: seq<Id>)
    requires IsRoute(g, p, ROOT) && !HasCycle(g)
    ensures p == [ROOT]
  {
    if |p| >= 2 {
      RouteBackIsCycle(g, p);
    }
  }

  lemma RouteBackIsCycle(g: Components, p: seq<Id>)
    requires IsRoute(g, p, ROOT) && |p| >= 2
    ensures HasCycle(g)
  {
    assert IsCycle(g, p);
  }

  lemma TreeHasOneParentEach(g: Components)
    requires IsTree(g)
    ensures OneParentEach(g)
  {
    hide IsPath;
    forall y | y in g && y != ROOT
      ensures exists x :: Edge(g, x, y)
    {
      var p :| IsRoute(g, p, y);
      LastEdge(g, p);
    }
    forall x, x', y | y != ROOT && Edge(g, x, y) && Edge(g, x', y)
      ensures x == x'
    {
      var p :| IsRoute(g, p, x);
      var p' :| IsRoute(g, p', x');
      RouteExtends(g, p, x, y);
      RouteExtends(g, p', x', y);
      assert p + [y] == p' + [y];
      assert (p + [y])[..|p|] == p && (p' + [y])[..|p'|] == p';
    }
  }

  lemma LastEdge(g: Components, p: seq<Id>)
    requires IsPath(g, p) && p[0] != p[|p| - 1]
    ensures |p| > 1 && Edge(g, p[|p| - 2], p[|p| - 1])
  {
    PathShortens(g, p);
  }

  lemma RouteExtends(g: Components, p: seq<Id>, x: Id, y: Id)
    requires IsRoute(g, p, x) && Edge(g, x, y)
    ensures IsRoute(g, p + [y], y)
  {
    PathExtends(g, p, y);
  }

  /** An accepted surface is a tree exactly when every component but the root is referenced
      by exactly one component. */
  lemma AcceptedIsTreeIff(g: Components, known: set<string>)
    requires WellFormed(g, known)
    ensures IsTree(g) <==> OneParentEach(g)
  {
    if IsTree(g) {
      TreeHasOneParentEach(g);
    }
    if OneParentEach(g) {
      forall x | x in g
        ensures exists p :: IsRoute(g, p, x)
      {
        var p := ClimbToRoot(g, known, [x]);
      }
      forall x, p, q | IsRoute(g, p, x) && IsRoute(g, q, x)
        ensures p == q
      {
        RoutesAreOne(g, x, p, q);
      }
    }
  }

  /** A component with two parents, and one with none. */
  function Diamond(): Components {
    map["root" := Component("", ["a", "b"]), "a" := Component("", ["c"]),
        "b" := Component("", ["c"]), "c" := Component("", []), "d" := Component("", [])]
  }

  lemma DiamondIsAccepted()
    ensures WellFormed(Diamond(), {})
  {
    DiamondIsAcyclic();
    hide HasCycle;
  }

  lemma DiamondIsAcyclic()
    ensures !HasCycle(Diamond())
  {
    var g, order: seq<Id> := Diamond(), ["c", "a", "b", "root", "d"];
    hide HasCycle;
    forall i, y | 0 <= i < |order| && Edge(g, order[i], y)
      ensures y in order[..i]
    {
      assert order[..1] == ["c"] && order[..2] == ["c", "a"] && order[..3] == ["c", "a", "b"];
      assert i in {0, 1, 2, 3, 4};
    }
    TopologicalMeansAcyclic(g, order);
  }

  /** Accepted does not mean a tree: a component may have two parents and another none. */
  lemma AcceptedNeedNotBeTree()
    ensures WellFormed(Diamond(), {}) && !IsTree(Diamond())
    ensures Edge(Diamond(), "a", "c") && Edge(Diamond(), "b", "c") && forall x :: !Edge(Diamond(), x, "d")
  {
    DiamondIsAccepted();
    hide WellFormed, IsTree;
    AcceptedIsTreeIff(Diamond(), {});
    var a: Id, b: Id, c: Id := "a", "b", "c";
    assert a[0] != b[0] && c[0] != ROOT[0];
    assert Edge(Diamond(), a, c) && Edge(Diamond(), b, c);
  }
}
