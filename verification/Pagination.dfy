/** Listing tasks page by page with a cursor token. */
module Pagination {
  import opened Options

  /** What listing depends on: the ID of a task and when it was last updated. */
  datatype Task = Task(id: string, updated: int)

  /** A page token, decoded; the text encoding is abstract. */
  datatype Token = NoToken | After(updated: int, id: string)

  datatype Page = Page(tasks: seq<Task>, next: Token, pageSize: nat, totalSize: nat)

  datatype Result = Ok(page: Page) | Err(message: string)

  // ---------------------------------------------------------------- order

  /** The lexicographic order of strings. */
  predicate Less(a: string, b: string) {
    b != [] && (a == [] || a[0] < b[0] || (a[0] == b[0] && Less(a[1..], b[1..])))
  }

  /** Most recently updated first, then by ID. */
  predicate Before(a: Task, b: Task) {
    a.updated > b.updated || (a.updated == b.updated && Less(a.id, b.id))
  }

  lemma {:induction false} LessIsTotal(a: string, b: string)
    ensures Less(a, b) || a == b || Less(b, a)
    ensures !(Less(a, b) && Less(b, a)) && !Less(a, a)
    decreases |a|
  {
    if a != [] && b != [] {
      LessIsTotal(a[1..], b[1..]);
      assert a == [a[0]] + a[1..] && b == [b[0]] + b[1..];
    }
    if a != [] {
      LessIsTotal(a[1..], a[1..]);
    }
  }

  /** a and b agree up to place k, and there a ends or has the smaller character. */
  ghost predicate SmallerAt(a: string, b: string, k: nat) {
    k <= |a| && k < |b| && a[..k] == b[..k] && (k < |a| ==> a[k] < b[k])
  }

  lemma SmallerAtNext(a: string, b: string, k: nat)
    requires a != [] && b != [] && a[0] == b[0]
    ensures SmallerAt(a, b, k + 1) <==> SmallerAt(a[1..], b[1..], k)
  {
    if k < |a| && k < |b| {
      assert a[..k + 1] == [a[0]] + a[1..][..k] && b[..k + 1] == [b[0]] + b[1..][..k];
    }
  }

  lemma SmallerAtStart(a: string, b: string, k: nat)
    requires SmallerAt(a, b, k)
    ensures b != [] && (k == 0 && a != [] ==> a[0] < b[0]) && (k > 0 ==> a != [] && a[0] == b[0])
  {
    if k > 0 {
      assert a[..k][0] == a[0] && b[..k][0] == b[0];
    }
  }

  lemma {:induction false} LessIff(a: string, b: string)
    ensures Less(a, b) <==> exists k: nat :: SmallerAt(a, b, k)
  {
    if a != [] && b != [] && a[0] == b[0] {
      LessIff(a[1..], b[1..]);
      assert Less(a, b) <==> Less(a[1..], b[1..]);
      hide Less, SmallerAt;
      if k: nat :| SmallerAt(a, b, k) {
        SmallerAtStart(a, b, k);
        SmallerAtNext(a, b, k - 1);
      }
      if k: nat :| SmallerAt(a[1..], b[1..], k) {
        SmallerAtNext(a, b, k);
      }
    } else if Less(a, b) {
      assert SmallerAt(a, b, 0);
    } else {
      hide SmallerAt;
      forall k: nat | SmallerAt(a, b, k)
        ensures false
      {
        SmallerAtStart(a, b, k);
      }
    }
  }

  lemma {:induction false} LessIsTransitive(a: string, b: string, c: string)
    requires Less(a, b) && Less(b, c)
    ensures Less(a, c)
    decreases |a|
  {
    if a != [] && a[0] == b[0] && b[0] == c[0] {
      LessIsTransitive(a[1..], b[1..], c[1..]);
    }
  }

  lemma BeforeIsTransitive(a: Task, b: Task, c: Task)
    requires Before(a, b) && Before(b, c)
    ensures Before(a, c)
  {
    if a.updated == b.updated == c.updated {
      LessIsTransitive(a.id, b.id, c.id);
    }
  }

  ghost predicate Ordered(s: seq<Task>) {
    forall i, j :: 0 <= i < j < |s| ==> Before(s[i], s[j])
  }

  ghost predicate UniqueIds(s: seq<Task>) {
    forall i, j :: 0 <= i < j < |s| ==> s[i].id != s[j].id
  }

  lemma OrderedJoin(a: seq<Task>, b: seq<Task>)
    requires Ordered(a) && Ordered(b)
    requires forall x, y :: x in a && y in b ==> Before(x, y)
    ensures Ordered(a + b)
  {
    hide Before;
    var s := a + b;
    forall i, j | 0 <= i < j < |s|
      ensures Before(s[i], s[j])
    {
      if i < |a| {
        assert s[i] == a[i] && a[i] in a;
      }
      if j >= |a| {
        assert s[j] == b[j - |a|] && b[j - |a|] in b;
      }
    }
  }

  lemma OrderedSplit(a: seq<Task>, b: seq<Task>)
    requires Ordered(a + b)
    ensures Ordered(a) && Ordered(b)
    ensures forall x, y :: x in a && y in b ==> Before(x, y)
  {
    hide Before;
    var s := a + b;
    assert forall i :: 0 <= i < |a| ==> a[i] == s[i];
    assert forall j :: 0 <= j < |b| ==> b[j] == s[|a| + j];
  }

  /** Stable sorting. */
  function SortTasks(s: seq<Task>): seq<Task> {
    if s == [] then [] else Insert(s[0], SortTasks(s[1..]))
  }

  function Insert(t: Task, s: seq<Task>): seq<Task> {
    if s == [] || !Before(s[0], t) then [t] + s else [s[0]] + Insert(t, s[1..])
  }

  lemma {:induction false} InsertAdds(t: Task, s: seq<Task>)
    ensures multiset(Insert(t, s)) == multiset{t} + multiset(s)
    ensures forall x :: x in Insert(t, s) <==> x == t || x in s
  {
    if s != [] {
      InsertAdds(t, s[1..]);
      assert s == [s[0]] + s[1..];
    }
  }

  /** Sorting neither loses nor doubles a task. */
  lemma {:induction false} SortPermutes(s: seq<Task>)
    ensures multiset(SortTasks(s)) == multiset(s)
    ensures forall x :: x in SortTasks(s) <==> x in s
  {
    if s != [] {
      SortPermutes(s[1..]);
      InsertAdds(s[0], SortTasks(s[1..]));
      assert s == [s[0]] + s[1..];
    }
  }

  lemma {:induction false} InsertOrders(t: Task, s: seq<Task>)
    requires Ordered(s) && forall x :: x in s ==> x.id != t.id
    ensures Ordered(Insert(t, s))
  {
    if s == [] {
    } else if Before(s[0], t) {
      var rest := Insert(t, s[1..]);
      assert s == [s[0]] + s[1..];
      OrderedSplit([s[0]], s[1..]);
      InsertOrders(t, s[1..]);
      InsertAdds(t, s[1..]);
      hide Insert, Before, Ordered;
      OrderedJoin([s[0]], rest);
    } else {
      LessIsTotal(s[0].id, t.id);
      assert Before(t, s[0]);
      forall x | x in s
        ensures Before(t, x)
      {
        var i :| 0 <= i < |s| && s[i] == x;
        if i > 0 {
          BeforeIsTransitive(t, s[0], x);
        }
      }
      OrderedJoin([t], s);
    }
  }

  lemma {:induction false} SortOrders(s: seq<Task>)
    requires UniqueIds(s)
    ensures Ordered(SortTasks(s))
  {
    if s != [] {
      SortOrders(s[1..]);
      SortPermutes(s[1..]);
      InsertOrders(s[0], SortTasks(s[1..]));
    }
  }

  // ---------------------------------------------------------------- one page

  predicate Matches(t: Task, statusAfter: Option<int>) {
    statusAfter.Some? ==> t.updated >= statusAfter.value
  }

  function Matching(s: seq<Task>, statusAfter: Option<int>): seq<Task> {
    if s == [] then [] else
      var t := s[|s| - 1];
      Matching(s[..|s| - 1], statusAfter) + if Matches(t, statusAfter) then [t] else []
  }

  /** The cursor test. */
  predicate PastCursor(t: Task, cursor: Token) {
    cursor.After? ==> t.updated < cursor.updated || (t.updated == cursor.updated && Less(cursor.id, t.id))
  }

  function Remaining(s: seq<Task>, cursor: Token): seq<Task> {
    if s == [] then [] else
      var t := s[|s| - 1];
      Remaining(s[..|s| - 1], cursor) + if PastCursor(t, cursor) then [t] else []
  }

  function CursorAt(t: Task): Token {
    After(t.updated, t.id)
  }

  function PageOf(matching: seq<Task>, cursor: Token, size: nat): Page {
    var filtered := Remaining(matching, cursor);
    var end := if size > |filtered| then |filtered| else size;
    var next := if end < |filtered| && end > 0 then CursorAt(filtered[end - 1]) else NoToken;
    Page(filtered[..end], next, size, |matching|)
  }

  function PageSize(pageSize: int): (size: int)
    ensures pageSize >= 0 ==> size > 0
  {
    if pageSize == 0 then 50 else pageSize
  }

  function List(tasks: seq<Task>, pageSize: int, statusAfter: Option<int>, token: Token): Result {
    var size := PageSize(pageSize);
    if size < 1 || size > 100 then Err("pageSize must be between 1 and 100")
    else if token.After? && token.id == "" then Err("invalid pageToken")
    else Ok(PageOf(Matching(SortTasks(tasks), statusAfter), token, size))
  }

  lemma MatchingStep(s: seq<Task>, i: nat, statusAfter: Option<int>)
    requires i < |s|
    ensures Matching(s[..i + 1], statusAfter) == Matching(s[..i], statusAfter) + if Matches(s[i], statusAfter) then [s[i]] else []
  {
    assert s[..i + 1][..i] == s[..i];
  }

  lemma RemainingStep(s: seq<Task>, i: nat, cursor: Token)
    requires i < |s|
    ensures Remaining(s[..i + 1], cursor) == Remaining(s[..i], cursor) + if PastCursor(s[i], cursor) then [s[i]] else []
  {
    assert s[..i + 1][..i] == s[..i];
  }

  lemma NoTasks(statusAfter: Option<int>, cursor: Token)
    ensures Matching([], statusAfter) == [] && Remaining([], cursor) == []
  {
  }

  method ListTasks(tasks: seq<Task>, pageSize: int, statusAfter: Option<int>, token: Token) returns (r: Result)
    ensures r == List(tasks, pageSize, statusAfter, token)
    ensures r.Err? <==> pageSize < 0 || pageSize > 100 || (token.After? && token.id == "")
  {
    NoTasks(statusAfter, token);
    hide Matching, Remaining, SortTasks;
    var size := pageSize;
    if size == 0 {
      size := 50;
    }
    if size < 1 || size > 100 {
      return Err("pageSize must be between 1 and 100");
    }
    if token.After? && token.id == "" {
      return Err("invalid pageToken");
    }
    var sorted := SortTasks(tasks);
    var matching: seq<Task> := [];
    for i := 0 to |sorted|
      invariant matching == Matching(sorted[..i], statusAfter)
    {
      MatchingStep(sorted, i, statusAfter);
      if statusAfter.Some? && sorted[i].updated < statusAfter.value {
        continue;
      }
      matching := matching + [sorted[i]];
    }
    assert sorted[..|sorted|] == sorted;
    var filtered: seq<Task> := [];
    for i := 0 to |matching|
      invariant filtered == Remaining(matching[..i], token)
    {
      RemainingStep(matching, i, token);
      if token.After? && !PastCursor(matching[i], token) {
        continue;
      }
      filtered := filtered + [matching[i]];
    }
    assert matching[..|matching|] == matching;
    var end := size;
    if end > |filtered| {
      end := |filtered|;
    }
    var next := NoToken;
    if end < |filtered| && end > 0 {
      next := CursorAt(filtered[end - 1]);
    }
    return Ok(Page(filtered[..end], next, size, |matching|));
  }

  // ---------------------------------------------------------------- filters keep order

  lemma {:induction false} MatchingKeeps(s: seq<Task>, statusAfter: Option<int>)
    ensures forall t :: t in Matching(s, statusAfter) <==> t in s && Matches(t, statusAfter)
    ensures Ordered(s) ==> Ordered(Matching(s, statusAfter))
  {
    if s != [] {
      var n := |s| - 1;
      var m, last := Matching(s[..n], statusAfter), [s[n]];
      assert s == s[..n] + last;
      assert Matching(s, statusAfter) == if Matches(s[n], statusAfter) then m + last else m;
      MatchingKeeps(s[..n], statusAfter);
      hide Matching, Matches, Ordered, Before;
      if Ordered(s) {
        OrderedSplit(s[..n], last);
        OrderedJoin(m, last);
      }
    }
  }

  lemma {:induction false} RemainingKeeps(s: seq<Task>, cursor: Token)
    ensures forall t :: t in Remaining(s, cursor) <==> t in s && PastCursor(t, cursor)
    ensures Ordered(s) ==> Ordered(Remaining(s, cursor))
  {
    if s != [] {
      var n := |s| - 1;
      var m, last := Remaining(s[..n], cursor), [s[n]];
      assert s == s[..n] + last;
      assert Remaining(s, cursor) == if PastCursor(s[n], cursor) then m + last else m;
      RemainingKeeps(s[..n], cursor);
      hide Remaining, PastCursor, Ordered, Before;
      if Ordered(s) {
        OrderedSplit(s[..n], last);
        OrderedJoin(m, last);
      }
    }
  }

  /** The cursor test is exactly "strictly after the last task of the page before", so in an
      ordered list it cuts off exactly that page and what came before it. */
  lemma CursorCuts(s: seq<Task>, k: nat)
    requires Ordered(s) && 0 < k <= |s|
    ensures Remaining(s, CursorAt(s[k - 1])) == s[k..]
  {
    LaterRemain(s, k, |s|);
    assert s[..|s|] == s;
  }

  lemma {:induction false} NoneEarlier(s: seq<Task>, k: nat, n: nat)
    requires Ordered(s) && 0 < k <= |s| && n <= k
    ensures Remaining(s[..n], CursorAt(s[k - 1])) == []
  {
    if n > 0 {
      NoneEarlier(s, k, n - 1);
      CursorCutsAt(s, k, n);
      RemainingStep(s, n - 1, CursorAt(s[k - 1]));
      hide Remaining, PastCursor, Ordered;
    }
  }

  lemma {:induction false} LaterRemain(s: seq<Task>, k: nat, n: nat)
    requires Ordered(s) && 0 < k <= n <= |s|
    ensures Remaining(s[..n], CursorAt(s[k - 1])) == s[k..n]
  {
    if n == k {
      NoneEarlier(s, k, n);
    } else {
      LaterRemain(s, k, n - 1);
      CursorCutsAt(s, k, n);
      RemainingStep(s, n - 1, CursorAt(s[k - 1]));
      hide Remaining, PastCursor, Ordered;
      assert s[k..n] == s[k..n - 1] + [s[n - 1]];
    }
  }

  lemma CursorCutsAt(s: seq<Task>, k: nat, n: nat)
    requires Ordered(s) && 0 < k <= |s| && 0 < n <= |s|
    ensures PastCursor(s[n - 1], CursorAt(s[k - 1])) <==> n > k
  {
    var t, last := s[n - 1], s[k - 1];
    LessIsTotal(t.id, last.id);
    assert n < k ==> Before(t, last);
    assert k < n ==> Before(last, t);
  }

  lemma NoCursorPasses(t: Task)
    ensures PastCursor(t, NoToken)
  {
  }

  lemma {:induction false} NoCursorKeepsAll(s: seq<Task>)
    ensures Remaining(s, NoToken) == s
  {
    hide *;
    if s == [] {
      NoTasks(None, NoToken);
    } else {
      var n := |s| - 1;
      NoCursorKeepsAll(s[..n]);
      RemainingStep(s, n, NoToken);
      NoCursorPasses(s[n]);
      assert s[..n + 1] == s && s == s[..n] + [s[n]];
    }
  }

  // ---------------------------------------------------------------- following the tokens

  datatype Walk = Walk(pages: seq<seq<Task>>, ended: bool)

  /** Follow the page tokens from token on; request i sees the tasks snaps[i]. */
  function Follow(snaps: seq<seq<Task>>, pageSize: int, statusAfter: Option<int>, token: Token): Walk {
    if snaps == [] then Walk([], false) else
      match List(snaps[0], pageSize, statusAfter, token)
      case Err(_) => Walk([], false)
      case Ok(page) =>
        if page.next.NoToken? then Walk([page.tasks], true) else
          var rest := Follow(snaps[1..], pageSize, statusAfter, page.next);
          Walk([page.tasks] + rest.pages, rest.ended)
  }

  function Concat(pages: seq<seq<Task>>): seq<Task> {
    if pages == [] then [] else pages[0] + Concat(pages[1..])
  }

  ghost predicate ListOK(tasks: seq<Task>) {
    UniqueIds(tasks) && forall t :: t in tasks ==> t.id != ""
  }

  /** The page holds the first of the tasks past the cursor, and its token leaves the rest. */
  ghost predicate TakesFirst(all: seq<Task>, token: Token, page: Page) {
    && Ordered(page.tasks)
    && (forall t :: t in page.tasks ==> t in all && PastCursor(t, token))
    && (page.next.After? ==> page.tasks != [] && page.next == CursorAt(page.tasks[|page.tasks| - 1]))
    && (forall t :: t in all && PastCursor(t, token) ==> t in page.tasks || (page.next.After? && PastCursor(t, page.next)))
  }

  lemma PageIsNext(all: seq<Task>, token: Token, size: nat)
    requires Ordered(all) && size > 0
    ensures TakesFirst(all, token, PageOf(all, token, size))
  {
    var filtered, page := Remaining(all, token), PageOf(all, token, size);
    RemainingKeeps(all, token);
    hide Remaining, PastCursor, Ordered;
    FirstOnes(filtered, |page.tasks|);
  }

  lemma FirstOnes(s: seq<Task>, end: nat)
    requires Ordered(s) && (if s == [] then end == 0 else 0 < end <= |s|)
    ensures Ordered(s[..end])
    ensures forall t :: t in s ==> t in s[..end] || (0 < end && PastCursor(t, CursorAt(s[end - 1])))
  {
    forall t | t in s
      ensures t in s[..end] || (0 < end && PastCursor(t, CursorAt(s[end - 1])))
    {
      var i :| 0 <= i < |s| && s[i] == t;
      if i < end {
        assert s[..end][i] == t;
      } else {
        assert Before(s[end - 1], t);
      }
    }
  }

  /** Task t is there, in this version, at every request. */
  ghost predicate Stays(t: Task, snaps: seq<seq<Task>>) {
    forall i :: 0 <= i < |snaps| ==> t in snaps[i]
  }

  /** The listed tasks match, come in order and lie past the cursor. */
  ghost predicate ListedInOrder(listed: seq<Task>, statusAfter: Option<int>, token: Token) {
    Ordered(listed) && forall t :: t in listed ==> PastCursor(t, token) && Matches(t, statusAfter)
  }

  /** Every matching task past the cursor that stays is listed. */
  ghost predicate MissesNone(listed: seq<Task>, snaps: seq<seq<Task>>, statusAfter: Option<int>, token: Token) {
    forall t :: Stays(t, snaps) && Matches(t, statusAfter) && PastCursor(t, token) ==> t in listed
  }

  /** Whatever is added, removed or updated between the requests: tasks come in order, so
      no task comes twice in the same version, and a task that stays is not missed. */
  lemma {:induction false} FollowChanging(snaps: seq<seq<Task>>, pageSize: int, statusAfter: Option<int>, token: Token)
    requires forall i :: 0 <= i < |snaps| ==> UniqueIds(snaps[i])
    ensures var walk := Follow(snaps, pageSize, statusAfter, token);
      ListedInOrder(Concat(walk.pages), statusAfter, token)
      && (walk.ended ==> MissesNone(Concat(walk.pages), snaps, statusAfter, token))
  {
    if snaps != [] && List(snaps[0], pageSize, statusAfter, token).Ok? {
      var page := List(snaps[0], pageSize, statusAfter, token).page;
      var all := Matching(SortTasks(snaps[0]), statusAfter);
      AllAreListed(snaps[0], statusAfter);
      PageIsNext(all, token, PageSize(pageSize));
      assert page == PageOf(all, token, PageSize(pageSize));
      hide List, PageOf, SortTasks, Matching, ListedInOrder, MissesNone, TakesFirst, UniqueIds;
      if page.next.NoToken? {
        assert Concat([page.tasks]) == page.tasks;
        LastPageLists(snaps, all, page, statusAfter, token);
      } else {
        FollowChanging(snaps[1..], pageSize, statusAfter, page.next);
        var rest := Follow(snaps[1..], pageSize, statusAfter, page.next);
        assert ([page.tasks] + rest.pages)[1..] == rest.pages;
        assert Concat([page.tasks] + rest.pages) == page.tasks + Concat(rest.pages);
        NextPageLists(snaps, all, page, Concat(rest.pages), statusAfter, token);
      }
    }
  }

  lemma LastPageLists(snaps: seq<seq<Task>>, all: seq<Task>, page: Page, statusAfter: Option<int>, token: Token)
    requires snaps != [] && TakesFirst(all, token, page) && page.next.NoToken?
    requires forall t :: t in all <==> t in snaps[0] && Matches(t, statusAfter)
    ensures ListedInOrder(page.tasks, statusAfter, token) && MissesNone(page.tasks, snaps, statusAfter, token)
  {
    hide PastCursor, Matches, Ordered;
  }

  lemma NextPageLists(snaps: seq<seq<Task>>, all: seq<Task>, page: Page, rest: seq<Task>, statusAfter: Option<int>,
      token: Token)
    requires snaps != [] && TakesFirst(all, token, page) && page.next.After?
    requires forall t :: t in all <==> t in snaps[0] && Matches(t, statusAfter)
    requires ListedInOrder(rest, statusAfter, page.next)
    ensures ListedInOrder(page.tasks + rest, statusAfter, token)
    ensures MissesNone(rest, snaps[1..], statusAfter, page.next) ==> MissesNone(page.tasks + rest, snaps, statusAfter, token)
  {
    hide PastCursor, Matches, Ordered;
    PagesJoin(page.tasks, rest, token);
    assert forall t :: Stays(t, snaps) ==> Stays(t, snaps[1..]) && t in snaps[0];
  }

  lemma PagesJoin(page: seq<Task>, rest: seq<Task>, token: Token)
    requires Ordered(page) && Ordered(rest) && page != []
    requires forall t :: t in page ==> PastCursor(t, token)
    requires forall t :: t in rest ==> PastCursor(t, CursorAt(page[|page| - 1]))
    ensures Ordered(page + rest)
    ensures forall t :: t in rest ==> PastCursor(t, token)
  {
    var last := page[|page| - 1];
    assert last in page;
    forall t | t in rest
      ensures PastCursor(t, token)
      ensures forall x :: x in page ==> Before(x, t)
    {
      forall x | x in page
        ensures Before(x, t)
      {
        var i :| 0 <= i < |page| && page[i] == x;
        if i < |page| - 1 {
          BeforeIsTransitive(x, last, t);
        }
      }
      if token.After? {
        BeforeIsTransitive(Task(token.id, token.updated), last, t);
      }
    }
    OrderedJoin(page, rest);
  }

  function Same(tasks: seq<Task>, n: nat): (r: seq<seq<Task>>)
    ensures |r| == n && forall i :: 0 <= i < n ==> r[i] == tasks
  {
    if n == 0 then [] else [tasks] + Same(tasks, n - 1)
  }

  /** How many pages hold n tasks; an empty list takes one page. */
  function PageCount(n: nat, size: nat): nat
    requires size > 0
  {
    if n <= size then 1 else 1 + PageCount(n - size, size)
  }

  lemma {:induction false} PageCountIsCeiling(n: nat, size: nat)
    requires size > 0
    ensures (PageCount(n, size) - 1) * size <= n <= PageCount(n, size) * size
    ensures n > 0 ==> (PageCount(n, size) - 1) * size < n
  {
    if n > size {
      PageCountIsCeiling(n - size, size);
      var c := PageCount(n - size, size);
      assert (1 + c) * size == size + c * size;
      assert c * size == size + (c - 1) * size;
    }
  }

  /** The walk hands out all, cut into full pages but for the last. */
  ghost predicate CutsUp(walk: Walk, all: seq<Task>, size: nat)
    requires size > 0
  {
    && walk.ended && Concat(walk.pages) == all && |walk.pages| == PageCount(|all|, size)
    && forall i :: 0 <= i < |walk.pages| - 1 ==> |walk.pages[i]| == size
  }

  /** With the tasks fixed, the pages are the sorted matching tasks, and there are just as
      many of them as needed. */
  lemma PagesPartition(tasks: seq<Task>, pageSize: int, statusAfter: Option<int>, n: nat)
    requires ListOK(tasks) && 0 <= pageSize <= 100
    requires n >= PageCount(|Matching(SortTasks(tasks), statusAfter)|, PageSize(pageSize))
    ensures CutsUp(Follow(Same(tasks, n), pageSize, statusAfter, NoToken), Matching(SortTasks(tasks), statusAfter), PageSize(pageSize))
  {
    var all := Matching(SortTasks(tasks), statusAfter);
    NoCursorKeepsAll(all);
    hide *;
    assert all[0..] == all;
    PagesFrom(tasks, all, pageSize, statusAfter, n, 0, NoToken);
  }

  lemma {:induction false} PagesFrom(tasks: seq<Task>, all: seq<Task>, pageSize: int, statusAfter: Option<int>,
      n: nat, k: nat, token: Token)
    requires ListOK(tasks) && 0 <= pageSize <= 100 && all == Matching(SortTasks(tasks), statusAfter)
    requires k <= |all| && Remaining(all, token) == all[k..] && (token.After? ==> token.id != "")
    requires n >= PageCount(|all| - k, PageSize(pageSize))
    ensures CutsUp(Follow(Same(tasks, n), pageSize, statusAfter, token), all[k..], PageSize(pageSize))
    decreases n
  {
    var size := PageSize(pageSize);
    hide *;
    PageCountStep(|all| - k, size);
    FollowStep(tasks, all, pageSize, statusAfter, n, token);
    if |all| - k <= size {
      LastPage(all, k, token, size);
    } else {
      FullPage(tasks, all, statusAfter, k, token, size);
      var page := PageOf(all, token, size);
      PagesFrom(tasks, all, pageSize, statusAfter, n - 1, k + size, page.next);
      OnePageMore(all, k, page, Follow(Same(tasks, n - 1), pageSize, statusAfter, page.next), size);
    }
  }

  /** The walk of a page and what follows it. */
  function Continued(page: Page, rest: Walk): Walk {
    if page.next.NoToken? then Walk([page.tasks], true) else Walk([page.tasks] + rest.pages, rest.ended)
  }

  lemma PageCountStep(n: nat, size: nat)
    requires size > 0
    ensures PageCount(n, size) == if n <= size then 1 else 1 + PageCount(n - size, size)
  {
  }

  lemma FollowStep(tasks: seq<Task>, all: seq<Task>, pageSize: int, statusAfter: Option<int>, n: nat, token: Token)
    requires n > 0 && 0 <= pageSize <= 100 && all == Matching(SortTasks(tasks), statusAfter) && (token.After? ==> token.id != "")
    ensures var page := PageOf(all, token, PageSize(pageSize));
      var rest := Follow(Same(tasks, n - 1), pageSize, statusAfter, page.next);
      Follow(Same(tasks, n), pageSize, statusAfter, token) == Continued(page, rest)
  {
    var snaps, page := Same(tasks, n), PageOf(all, token, PageSize(pageSize));
    assert snaps[0] == tasks && snaps[1..] == Same(tasks, n - 1);
    assert List(tasks, pageSize, statusAfter, token) == Ok(page);
    hide List, PageOf, Matching, SortTasks;
  }

  lemma LastPage(all: seq<Task>, k: nat, token: Token, size: nat)
    requires k <= |all| && 0 < size && |all| - k <= size && Remaining(all, token) == all[k..]
    ensures var page := PageOf(all, token, size);
      forall rest :: CutsUp(Continued(page, rest), all[k..], size)
  {
    var page := PageOf(all, token, size);
    assert page.tasks == all[k..];
    assert Concat([page.tasks]) == page.tasks;
  }

  lemma FullPage(tasks: seq<Task>, all: seq<Task>, statusAfter: Option<int>, k: nat, token: Token, size: nat)
    requires ListOK(tasks) && all == Matching(SortTasks(tasks), statusAfter)
    requires 0 < size && k + size < |all| && Remaining(all, token) == all[k..]
    ensures var page := PageOf(all, token, size);
      page.tasks == all[k..k + size] && page.next.After? && page.next.id != "" && Remaining(all, page.next) == all[k + size..]
  {
    hide *;
    PageFrom(all, k, token, size);
    AllHaveIds(tasks, all, statusAfter, k + size - 1);
    CursorCuts(all, k + size);
    CursorIs(all[k + size - 1]);
  }

  lemma AllHaveIds(tasks: seq<Task>, all: seq<Task>, statusAfter: Option<int>, i: nat)
    requires ListOK(tasks) && all == Matching(SortTasks(tasks), statusAfter) && i < |all|
    ensures Ordered(all) && all[i].id != ""
  {
    AllAreListed(tasks, statusAfter);
    hide Matching, SortTasks, Ordered;
    assert all[i] in all;
  }

  lemma CursorIs(t: Task)
    ensures CursorAt(t) == After(t.updated, t.id)
  {
  }

  lemma PageFrom(all: seq<Task>, k: nat, token: Token, size: nat)
    requires 0 < size && k + size < |all| && Remaining(all, token) == all[k..]
    ensures var page := PageOf(all, token, size);
      page.tasks == all[k..k + size] && page.next == CursorAt(all[k + size - 1])
  {
    hide Remaining;
    assert all[k..][..size] == all[k..k + size];
  }

  lemma OnePageMore(all: seq<Task>, k: nat, page: Page, rest: Walk, size: nat)
    requires 0 < size && k + size < |all| && page.tasks == all[k..k + size] && page.next.After?
    requires CutsUp(rest, all[k + size..], size)
    ensures CutsUp(Continued(page, rest), all[k..], size)
  {
    var pages := [page.tasks] + rest.pages;
    assert pages[1..] == rest.pages;
    assert all[k..] == page.tasks + all[k + size..];
  }

  lemma AllAreListed(tasks: seq<Task>, statusAfter: Option<int>)
    requires UniqueIds(tasks)
    ensures Ordered(Matching(SortTasks(tasks), statusAfter))
    ensures forall t :: t in Matching(SortTasks(tasks), statusAfter) <==> t in tasks && Matches(t, statusAfter)
  {
    SortOrders(tasks);
    SortPermutes(tasks);
    MatchingKeeps(SortTasks(tasks), statusAfter);
  }

  // ---------------------------------------------------------------- what every page reports

  lemma {:induction false} OrderedAreDistinct(s: seq<Task>)
    requires Ordered(s)
    ensures |set t | t in s| == |s|
  {
    if s != [] {
      var n := |s| - 1;
      assert s == s[..n] + [s[n]];
      OrderedAreDistinct(s[..n]);
      assert (set t | t in s) == (set t | t in s[..n]) + {s[n]};
      forall t | t in s[..n]
        ensures t != s[n]
      {
        var i :| 0 <= i < n && s[i] == t;
        LessIsTotal(t.id, t.id);
        assert Before(s[i], s[n]);
      }
    }
  }

  /** Whatever the token, a page holds only tasks updated at the given time or later, no more
      than the page size, which is 50 unless another is asked for; and it reports how many
      such tasks there are in all. */
  lemma PageReportsTotal(tasks: seq<Task>, pageSize: int, statusAfter: Option<int>, token: Token)
    requires UniqueIds(tasks) && List(tasks, pageSize, statusAfter, token).Ok?
    ensures var page := List(tasks, pageSize, statusAfter, token).page;
      var matching := set t | t in tasks && (statusAfter.Some? ==> t.updated >= statusAfter.value);
      && page.totalSize == |matching| && page.pageSize == (if pageSize == 0 then 50 else pageSize)
      && |page.tasks| <= page.pageSize && forall t :: t in page.tasks ==> t in matching
  {
    var all := Matching(SortTasks(tasks), statusAfter);
    AllAreListed(tasks, statusAfter);
    RemainingKeeps(all, token);
    OrderedAreDistinct(all);
    hide Matching, SortTasks, Remaining, Ordered, PastCursor;
    var matching := set t | t in tasks && (statusAfter.Some? ==> t.updated >= statusAfter.value);
    assert (set t | t in all) == matching;
  }
}
