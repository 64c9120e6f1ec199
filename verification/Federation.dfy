/** Federated search: following referrals from registry to registry, breadth first, within
    a budget of hops and registries. */
module Federation {

  /** A referral, its text parsed and normalized. */
  datatype Link = Unparsable | Endpoint(name: string)

  datatype Reply = Failed | Referrals(links: seq<Link>)

  /** What each registry answers; those not listed fail. */
  type Web = map<string, Reply>

  function ReplyOf(web: Web, e: string): Reply {
    if e in web then web[e] else Failed
  }

  predicate Refers(web: Web, p: string, e: string) {
    ReplyOf(web, p).Referrals? && Endpoint(e) in ReplyOf(web, p).links
  }

  /** Endpoint e is at most d referrals away from base. */
  ghost predicate Within(web: Web, base: string, e: string, d: nat)
    decreases d
  {
    e == base || (d > 0 && exists p :: Within(web, base, p, d - 1) && Refers(web, p, e))
  }

  lemma {:induction false} WithinMore(web: Web, base: string, e: string, d: nat, k: nat)
    requires Within(web, base, e, d) && d <= k
    ensures Within(web, base, e, k)
    decreases d
  {
    if e != base {
      var p :| Within(web, base, p, d - 1) && Refers(web, p, e);
      WithinMore(web, base, p, d - 1, k - 1);
    }
  }

  datatype Pending = Pending(link: Link, depth: nat)

  datatype Found = Found(endpoint: string, ok: bool)

  datatype Deadline = Never | AfterSteps(n: nat)

  datatype Outcome = Finished | Rejected | BaseFailed | Aborted

  // ---------------------------------------------------------------- the invariant

  /** The queue is in breadth-first order. */
  ghost predicate InOrder(queue: seq<Pending>) {
    forall i, j :: 0 <= i <= j < |queue| ==> queue[i].depth <= queue[j].depth <= queue[i].depth + 1
  }

  /** What was seen came before all that waits. */
  ghost predicate Earlier(depthOf: map<string, nat>, queue: seq<Pending>) {
    forall e, i :: e in depthOf && 0 <= i < |queue| ==> depthOf[e] <= queue[i].depth
  }

  /** Everything seen or waiting can be reached by as many referrals as its depth says. */
  ghost predicate Grounded(web: Web, base: string, maxHops: nat, depthOf: map<string, nat>, queue: seq<Pending>) {
    && (forall e :: e in depthOf ==> depthOf[e] <= maxHops && Within(web, base, e, depthOf[e]))
    && (forall i :: 0 <= i < |queue| ==> queue[i].depth <= maxHops)
    && (forall i :: 0 <= i < |queue| && queue[i].link.Endpoint? ==> Within(web, base, queue[i].link.name, queue[i].depth))
  }

  /** Endpoint e is seen or waits, at depth d or before. */
  ghost predicate Covered(e: string, d: nat, depthOf: map<string, nat>, queue: seq<Pending>) {
    (e in depthOf && depthOf[e] <= d) || exists i :: 0 <= i < |queue| && queue[i].link == Endpoint(e) && queue[i].depth <= d
  }

  /** No referral of a registry that was asked is forgotten. */
  ghost predicate Complete(web: Web, maxHops: nat, depthOf: map<string, nat>, queue: seq<Pending>) {
    forall p, e :: p in depthOf && depthOf[p] < maxHops && Refers(web, p, e) ==> Covered(e, depthOf[p] + 1, depthOf, queue)
  }

  /** What was found, in terms of what was seen. */
  ghost predicate Records(web: Web, results: seq<Found>, depthOf: map<string, nat>) {
    && (forall e :: e in depthOf <==> exists i :: 0 <= i < |results| && results[i].endpoint == e)
    && (forall i :: 0 <= i < |results| ==> results[i].ok == ReplyOf(web, results[i].endpoint).Referrals?)
    && (forall i, j :: 0 <= i < j < |results| ==> results[i].endpoint != results[j].endpoint)
  }

  lemma SkipKeepsComplete(web: Web, maxHops: nat, depthOf: map<string, nat>, queue: seq<Pending>)
    requires queue != [] && queue[0].link.Endpoint? && queue[0].link.name in depthOf
    requires Earlier(depthOf, queue) && Complete(web, maxHops, depthOf, queue)
    ensures Complete(web, maxHops, depthOf, queue[1..])
  {
    forall p, e | p in depthOf && depthOf[p] < maxHops && Refers(web, p, e)
      ensures Covered(e, depthOf[p] + 1, depthOf, queue[1..])
    {
      assert Covered(e, depthOf[p] + 1, depthOf, queue);
      CoveredAfterPop(e, depthOf[p] + 1, depthOf, queue);
    }
  }

  lemma CoveredAfterPop(e: string, d: nat, depthOf: map<string, nat>, queue: seq<Pending>)
    requires queue != [] && queue[0].link.Endpoint? && Covered(e, d, depthOf, queue)
    requires queue[0].link.name in depthOf ==> depthOf[queue[0].link.name] <= queue[0].depth
    ensures var x := queue[0].link.name;
      Covered(e, d, if x in depthOf then depthOf else depthOf[x := queue[0].depth], queue[1..])
  {
    if !(e in depthOf && depthOf[e] <= d) {
      var i :| 0 <= i < |queue| && queue[i].link == Endpoint(e) && queue[i].depth <= d;
      if i > 0 {
        assert queue[1..][i - 1] == queue[i];
      }
    }
  }

  lemma CoveredLonger(e: string, d: nat, depthOf: map<string, nat>, queue: seq<Pending>, more: seq<Pending>)
    requires Covered(e, d, depthOf, queue)
    ensures Covered(e, d, depthOf, queue + more)
  {
    if !(e in depthOf && depthOf[e] <= d) {
      var i :| 0 <= i < |queue| && queue[i].link == Endpoint(e) && queue[i].depth <= d;
      assert (queue + more)[i] == queue[i];
    }
  }

  /** The referrals of a registry, as they are put in the queue. */
  function Refer(links: seq<Link>, depth: nat): (r: seq<Pending>)
    ensures |r| == |links| && forall i :: 0 <= i < |links| ==> r[i] == Pending(links[i], depth)
  {
    if links == [] then [] else Refer(links[..|links| - 1], depth) + [Pending(links[|links| - 1], depth)]
  }

  /** What a registry that was asked at this depth puts in the queue, when there is room. */
  function NewReferrals(web: Web, maxHops: nat, x: string, depth: nat): seq<Pending> {
    if ReplyOf(web, x).Referrals? && depth < maxHops then Refer(ReplyOf(web, x).links, depth + 1) else []
  }

  lemma VisitKeepsComplete(web: Web, maxHops: nat, depthOf: map<string, nat>, queue: seq<Pending>)
    requires queue != [] && queue[0].link.Endpoint? && queue[0].link.name !in depthOf
    requires Complete(web, maxHops, depthOf, queue)
    ensures var x, d := queue[0].link.name, queue[0].depth;
      Complete(web, maxHops, depthOf[x := d], queue[1..] + NewReferrals(web, maxHops, x, d))
  {
    var x, d := queue[0].link.name, queue[0].depth;
    var now, more := depthOf[x := d], NewReferrals(web, maxHops, x, d);
    forall p, e | p in now && now[p] < maxHops && Refers(web, p, e)
      ensures Covered(e, now[p] + 1, now, queue[1..] + more)
    {
      if p == x {
        var k :| 0 <= k < |ReplyOf(web, x).links| && ReplyOf(web, x).links[k] == Endpoint(e);
        var i := |queue[1..]| + k;
        assert (queue[1..] + more)[i] == Pending(Endpoint(e), d + 1);
      } else {
        assert Covered(e, depthOf[p] + 1, depthOf, queue);
        CoveredAfterPop(e, depthOf[p] + 1, depthOf, queue);
        CoveredLonger(e, now[p] + 1, now, queue[1..], more);
      }
    }
  }

  /** The queue after the first k of the new referrals. */
  lemma VisitKeepsOrder(web: Web, base: string, maxHops: nat, depthOf: map<string, nat>, queue: seq<Pending>, k: nat)
    requires queue != [] && queue[0].link.Endpoint?
    requires InOrder(queue) && Earlier(depthOf, queue) && Grounded(web, base, maxHops, depthOf, queue)
    requires k <= |NewReferrals(web, maxHops, queue[0].link.name, queue[0].depth)|
    ensures var x, d := queue[0].link.name, queue[0].depth;
      var rest := queue[1..] + NewReferrals(web, maxHops, x, d)[..k];
      InOrder(rest) && Earlier(depthOf[x := d], rest) && Grounded(web, base, maxHops, depthOf[x := d], rest)
  {
    var x, d := queue[0].link.name, queue[0].depth;
    var more := NewReferrals(web, maxHops, x, d)[..k];
    var rest := queue[1..] + more;
    forall i | 0 <= i < |more|
      ensures more[i].depth == d + 1 <= maxHops && (more[i].link.Endpoint? ==> Within(web, base, more[i].link.name, d + 1))
    {
      if more[i].link.Endpoint? {
        assert Refers(web, x, more[i].link.name);
      }
    }
    assert forall i :: 0 <= i < |queue| - 1 ==> rest[i] == queue[i + 1];
    assert forall i :: |queue| - 1 <= i < |rest| ==> rest[i] == more[i - (|queue| - 1)];
  }

  lemma SkipKeepsOrder(web: Web, base: string, maxHops: nat, depthOf: map<string, nat>, queue: seq<Pending>)
    requires queue != []
    requires InOrder(queue) && Earlier(depthOf, queue) && Grounded(web, base, maxHops, depthOf, queue)
    ensures InOrder(queue[1..]) && Earlier(depthOf, queue[1..]) && Grounded(web, base, maxHops, depthOf, queue[1..])
  {
    assert forall i :: 0 <= i < |queue| - 1 ==> queue[1..][i] == queue[i + 1];
  }

  /** Everything nearer than all that waits was seen, at its shortest distance; once nothing
      waits, that is everything within reach. */
  lemma {:induction false} ReachedAll(web: Web, base: string, maxHops: nat, depthOf: map<string, nat>,
      queue: seq<Pending>, e: string, d: nat)
    requires Complete(web, maxHops, depthOf, queue) && base in depthOf && depthOf[base] == 0
    requires d <= maxHops && Within(web, base, e, d) && forall i :: 0 <= i < |queue| ==> d < queue[i].depth
    ensures e in depthOf && depthOf[e] <= d
    decreases d
  {
    if e != base {
      var p :| Within(web, base, p, d - 1) && Refers(web, p, e);
      ReachedAll(web, base, maxHops, depthOf, queue, p, d - 1);
      assert Covered(e, depthOf[p] + 1, depthOf, queue);
    }
  }

  // ---------------------------------------------------------------- the search

  /** The results come in the order of their distance. */
  ghost predicate NearestFirst(results: seq<Found>, depthOf: map<string, nat>) {
    && (forall i :: 0 <= i < |results| ==> results[i].endpoint in depthOf)
    && (forall i, j :: 0 <= i < j < |results| ==> depthOf[results[i].endpoint] <= depthOf[results[j].endpoint])
  }

  /** How many referrals the registries in results sent back. */
  function Offered(web: Web, results: seq<Found>): nat {
    if results == [] then 0 else
      var reply := ReplyOf(web, results[|results| - 1].endpoint);
      Offered(web, results[..|results| - 1]) + if reply.Referrals? then |reply.links| else 0
  }

  /** The queue is no longer than the referrals sent so far, and was full only if those
      were more than there are registries to ask. */
  ghost predicate HasRoom(web: Web, maxRegistries: nat, results: seq<Found>, queue: seq<Pending>, dropped: bool) {
    && |queue| <= Offered(web, results) + (if results == [] then 1 else 0)
    && (dropped ==> Offered(web, results) > maxRegistries)
  }

  /** All that holds between two steps of the search. */
  ghost predicate Holds(web: Web, base: string, maxHops: nat, maxRegistries: nat, results: seq<Found>,
      depthOf: map<string, nat>, queue: seq<Pending>, dropped: bool) {
    && HasRoom(web, maxRegistries, results, queue, dropped)
    && InOrder(queue) && Earlier(depthOf, queue) && Grounded(web, base, maxHops, depthOf, queue)
    && Records(web, results, depthOf) && NearestFirst(results, depthOf)
    && (!dropped ==> Complete(web, maxHops, depthOf, queue))
    && (if base in depthOf then depthOf[base] == 0 else results == [] && queue == [Pending(Endpoint(base), 0)])
  }

  lemma HoldsAtStart(web: Web, base: string, maxHops: nat, maxRegistries: nat)
    ensures Holds(web, base, maxHops, maxRegistries, [], map[], [Pending(Endpoint(base), 0)], false)
  {
  }

  lemma SkipHolds(web: Web, base: string, maxHops: nat, maxRegistries: nat, results: seq<Found>,
      depthOf: map<string, nat>, queue: seq<Pending>, dropped: bool)
    requires Holds(web, base, maxHops, maxRegistries, results, depthOf, queue, dropped)
    requires queue != [] && queue[0].link.Endpoint? && queue[0].link.name in depthOf
    ensures Holds(web, base, maxHops, maxRegistries, results, depthOf, queue[1..], dropped)
  {
    if !dropped {
      SkipKeepsComplete(web, maxHops, depthOf, queue);
    }
    SkipKeepsOrder(web, base, maxHops, depthOf, queue);
  }

  lemma VisitHolds(web: Web, base: string, maxHops: nat, maxRegistries: nat, results: seq<Found>,
      depthOf: map<string, nat>, queue: seq<Pending>, longer: seq<Pending>, k: nat, dropped: bool)
    requires Holds(web, base, maxHops, maxRegistries, results, depthOf, queue, dropped)
    requires queue != [] && queue[0].link.Endpoint? && queue[0].link.name !in depthOf
    requires var added := NewReferrals(web, maxHops, queue[0].link.name, queue[0].depth);
      k <= |added| && longer == queue[1..] + added[..k] && (k < |added| ==> |longer| >= maxRegistries)
    ensures var x, d := queue[0].link.name, queue[0].depth;
      Holds(web, base, maxHops, maxRegistries, results + [Found(x, ReplyOf(web, x).Referrals?)], depthOf[x := d], longer,
        dropped || k < |NewReferrals(web, maxHops, x, d)|)
  {
    var x, d := queue[0].link.name, queue[0].depth;
    var added := NewReferrals(web, maxHops, x, d);
    VisitKeepsOrder(web, base, maxHops, depthOf, queue, k);
    if !dropped && k == |added| {
      VisitKeepsComplete(web, maxHops, depthOf, queue);
      assert added[..k] == added;
    }
    FoundRecords(web, results, depthOf, x, d);
    FoundIsFarther(results, depthOf, x, d, queue);
    VisitHasRoom(web, maxHops, maxRegistries, results, queue, longer, k, dropped);
    hide InOrder, Earlier, Grounded, Records, NearestFirst, Complete, HasRoom, NewReferrals;
  }

  lemma FoundRecords(web: Web, results: seq<Found>, depthOf: map<string, nat>, x: string, d: nat)
    requires Records(web, results, depthOf) && x !in depthOf
    ensures Records(web, results + [Found(x, ReplyOf(web, x).Referrals?)], depthOf[x := d])
  {
    var now := results + [Found(x, ReplyOf(web, x).Referrals?)];
    assert now[|results|].endpoint == x;
    assert forall i :: 0 <= i < |results| ==> now[i] == results[i];
    assert forall i :: 0 <= i < |results| ==> results[i].endpoint in depthOf;
    forall e | e in depthOf
      ensures exists i :: 0 <= i < |now| && now[i].endpoint == e
    {
      var i :| 0 <= i < |results| && results[i].endpoint == e;
      assert now[i].endpoint == e;
    }
  }

  lemma FoundIsFarther(results: seq<Found>, depthOf: map<string, nat>, x: string, d: nat, queue: seq<Pending>)
    requires NearestFirst(results, depthOf) && x !in depthOf
    requires Earlier(depthOf, queue) && queue != [] && queue[0].depth == d
    ensures forall ok :: NearestFirst(results + [Found(x, ok)], depthOf[x := d])
  {
  }

  lemma VisitHasRoom(web: Web, maxHops: nat, maxRegistries: nat, results: seq<Found>, queue: seq<Pending>,
      longer: seq<Pending>, k: nat, dropped: bool)
    requires HasRoom(web, maxRegistries, results, queue, dropped) && queue != [] && queue[0].link.Endpoint?
    requires var added := NewReferrals(web, maxHops, queue[0].link.name, queue[0].depth);
      k <= |added| && longer == queue[1..] + added[..k] && (k < |added| ==> |longer| >= maxRegistries)
    ensures var x := queue[0].link.name;
      HasRoom(web, maxRegistries, results + [Found(x, ReplyOf(web, x).Referrals?)], longer,
        dropped || k < |NewReferrals(web, maxHops, x, queue[0].depth)|)
  {
    var x := queue[0].link.name;
    var now := results + [Found(x, ReplyOf(web, x).Referrals?)];
    assert now[..|now| - 1] == results;
  }

  /** Every registry is asked at most once, at most maxRegistries are, and only those within
      maxHops referrals, nearest first. As long as no more referrals were sent than that number,
      none is asked before a nearer one. A search that ends with registries to spare, and was
      not sent more referrals than that number, has asked all of those, each at its shortest
      distance. */
  ghost predicate IsSearch(web: Web, base: string, maxHops: nat, maxRegistries: nat, results: seq<Found>,
      depthOf: map<string, nat>, outcome: Outcome) {
    && |results| <= maxRegistries && Records(web, results, depthOf) && NearestFirst(results, depthOf)
    && (forall e :: e in depthOf ==> depthOf[e] <= maxHops && Within(web, base, e, depthOf[e]))
    && (outcome.Finished? && |results| < maxRegistries && Offered(web, results) <= maxRegistries ==>
          forall e, d: nat :: d <= maxHops && Within(web, base, e, d) ==> e in depthOf && depthOf[e] <= d)
    && (Offered(web, results) <= maxRegistries ==>
          forall x, e, d: nat :: x in depthOf && d < depthOf[x] && Within(web, base, e, d) ==> e in depthOf && depthOf[e] <= d)
  }

  lemma HoldsMeansSearch(web: Web, base: string, maxHops: nat, maxRegistries: nat, results: seq<Found>,
      depthOf: map<string, nat>, queue: seq<Pending>, dropped: bool, outcome: Outcome)
    requires Holds(web, base, maxHops, maxRegistries, results, depthOf, queue, dropped)
    requires |results| <= maxRegistries && (outcome.Finished? ==> queue == [] || |results| == maxRegistries)
    ensures IsSearch(web, base, maxHops, maxRegistries, results, depthOf, outcome)
  {
    StartIsUnasked(web, base, maxHops, maxRegistries, results, depthOf, queue, dropped);
    if !dropped {
      forall x, e, d: nat | x in depthOf && d < depthOf[x] && Within(web, base, e, d)
        ensures e in depthOf && depthOf[e] <= d
      {
        ReachedAll(web, base, maxHops, depthOf, queue, e, d);
      }
    }
    if outcome.Finished? && |results| < maxRegistries && !dropped {
      forall e, d: nat | d <= maxHops && Within(web, base, e, d)
        ensures e in depthOf && depthOf[e] <= d
      {
        ReachedAll(web, base, maxHops, depthOf, queue, e, d);
      }
    }
  }

  /** A registry that was asked, below the hop limit, sent a referral that does not parse. */
  ghost predicate SentUnparsable(web: Web, maxHops: nat, depthOf: map<string, nat>) {
    exists p :: p in depthOf && depthOf[p] < maxHops && ReplyOf(web, p).Referrals? && Unparsable in ReplyOf(web, p).links
  }

  /** Why a search may stop early: what waits was sent, and no more was looked at than was sent. */
  ghost predicate Sent(web: Web, maxHops: nat, results: seq<Found>, depthOf: map<string, nat>, queue: seq<Pending>,
      steps: nat) {
    && steps + |queue| <= Offered(web, results) + 1
    && ((exists i :: 0 <= i < |queue| && queue[i].link.Unparsable?) ==> SentUnparsable(web, maxHops, depthOf))
  }

  lemma SentAtStart(web: Web, maxHops: nat, base: string)
    ensures Sent(web, maxHops, [], map[], [Pending(Endpoint(base), 0)], 0)
  {
  }

  lemma SkipIsSent(web: Web, maxHops: nat, results: seq<Found>, depthOf: map<string, nat>, queue: seq<Pending>, steps: nat)
    requires Sent(web, maxHops, results, depthOf, queue, steps) && queue != []
    ensures Sent(web, maxHops, results, depthOf, queue[1..], steps + 1)
  {
  }

  lemma VisitIsSent(web: Web, maxHops: nat, results: seq<Found>, depthOf: map<string, nat>, queue: seq<Pending>,
      longer: seq<Pending>, k: nat, steps: nat)
    requires Sent(web, maxHops, results, depthOf, queue, steps)
    requires queue != [] && queue[0].link.Endpoint? && queue[0].link.name !in depthOf
    requires var added := NewReferrals(web, maxHops, queue[0].link.name, queue[0].depth);
      k <= |added| && longer == queue[1..] + added[..k]
    ensures var x, d := queue[0].link.name, queue[0].depth;
      Sent(web, maxHops, results + [Found(x, ReplyOf(web, x).Referrals?)], depthOf[x := d], longer, steps + 1)
  {
    var x, d := queue[0].link.name, queue[0].depth;
    var now, more := results + [Found(x, ReplyOf(web, x).Referrals?)], depthOf[x := d];
    assert now[..|now| - 1] == results;
    var added := NewReferrals(web, maxHops, x, d);
    if i :| 0 <= i < |longer| && longer[i].link.Unparsable? {
      if i < |queue| - 1 {
        assert queue[i + 1].link.Unparsable?;
        var p :| p in depthOf && depthOf[p] < maxHops && ReplyOf(web, p).Referrals? && Unparsable in ReplyOf(web, p).links;
        assert p in more && more[p] == depthOf[p];
      } else {
        assert longer[i] == added[i - (|queue| - 1)];
        assert Unparsable in ReplyOf(web, x).links;
        assert x in more && more[x] == d;
      }
    }
  }

  /** Why a search ends as it does: it fails with the base alone, and is aborted only when
      the deadline passed before all that was sent was looked at, or by a referral that does
      not parse. */
  ghost predicate EndsFor(web: Web, base: string, maxHops: nat, deadline: Deadline, results: seq<Found>,
      depthOf: map<string, nat>, outcome: Outcome) {
    && (outcome.BaseFailed? <==> deadline != AfterSteps(0) && ReplyOf(web, base).Failed?)
    && (outcome.BaseFailed? ==> results == [])
    && (outcome.Aborted? ==>
          (deadline.AfterSteps? && deadline.n <= Offered(web, results)) || SentUnparsable(web, maxHops, depthOf))
  }

  method SearchFederated(base: string, web: Web, hops: int, registries: int, deadline: Deadline)
    returns (results: seq<Found>, outcome: Outcome, ghost depthOf: map<string, nat>)
    ensures outcome.Rejected? <==> hops < 0 || registries < 0
    ensures outcome.Rejected? ==> results == []
    ensures !outcome.Rejected? ==>
      var maxHops, maxRegistries := if hops == 0 then 2 else hops, if registries == 0 then 8 else registries;
      IsSearch(web, base, maxHops, maxRegistries, results, depthOf, outcome)
      && EndsFor(web, base, maxHops, deadline, results, depthOf, outcome)
  {
    if hops < 0 || registries < 0 {
      return [], Rejected, map[];
    }
    var maxHops: nat, maxRegistries: nat := hops, registries;
    if maxHops == 0 {
      maxHops := 2;
    }
    if maxRegistries == 0 {
      maxRegistries := 8;
    }
    results, outcome, depthOf := AskRegistries(base, web, maxHops, maxRegistries, deadline);
  }

  /** The loop of the search, with the budgets filled in. */
  method AskRegistries(base: string, web: Web, maxHops: nat, maxRegistries: nat, deadline: Deadline)
    returns (results: seq<Found>, outcome: Outcome, ghost depthOf: map<string, nat>)
    requires maxRegistries > 0
    ensures !outcome.Rejected? && IsSearch(web, base, maxHops, maxRegistries, results, depthOf, outcome)
    ensures EndsFor(web, base, maxHops, deadline, results, depthOf, outcome)
  {
    results, depthOf := [], map[];
    ghost var dropped := false;
    var queue := [Pending(Endpoint(base), 0)];
    var seen: set<string> := {};
    var steps := 0;
    GoesAtStart(web, base, maxHops, maxRegistries);
    hide Goes, IsSearch, EndsFor, NewReferrals;
    while |queue| > 0 && |results| < maxRegistries
      invariant Goes(web, base, maxHops, maxRegistries, results, depthOf, queue, dropped, steps)
      invariant seen == depthOf.Keys
      decreases maxRegistries - |results|, |queue|
    {
      if deadline.AfterSteps? && steps >= deadline.n {
        AbortMeans(web, base, maxHops, maxRegistries, deadline, results, depthOf, queue, dropped, steps);
        return results, Aborted, depthOf;
      }
      var pending, before := queue[0], queue;
      queue := queue[1..];
      if pending.link.Unparsable? {
        AbortMeans(web, base, maxHops, maxRegistries, deadline, results, depthOf, before, dropped, steps);
        return results, Aborted, depthOf;
      }
      var endpoint := pending.link.name;
      if endpoint in seen {
        SkipGoes(web, base, maxHops, maxRegistries, results, depthOf, before, dropped, steps);
        steps := steps + 1;
        continue;
      }
      seen := seen + {endpoint};
      if ReplyOf(web, endpoint).Failed? && pending.depth == 0 {
        BaseFails(web, base, maxHops, maxRegistries, deadline, results, depthOf, before, dropped, steps);
        return [], BaseFailed, map[];
      }
      depthOf, results, queue, dropped :=
        AskRegistry(base, web, maxHops, maxRegistries, depthOf, results, before, dropped, steps);
      steps := steps + 1;
    }
    outcome := Finished;
    FinishMeans(web, base, maxHops, maxRegistries, deadline, results, depthOf, queue, dropped, steps);
  }

  /** All that holds between two rounds of the loop. */
  ghost predicate Goes(web: Web, base: string, maxHops: nat, maxRegistries: nat, results: seq<Found>,
      depthOf: map<string, nat>, queue: seq<Pending>, dropped: bool, steps: nat) {
    && |results| <= maxRegistries
    && Holds(web, base, maxHops, maxRegistries, results, depthOf, queue, dropped)
    && Sent(web, maxHops, results, depthOf, queue, steps)
    && (if base in depthOf then ReplyOf(web, base).Referrals? else steps == 0)
  }

  lemma GoesAtStart(web: Web, base: string, maxHops: nat, maxRegistries: nat)
    ensures Goes(web, base, maxHops, maxRegistries, [], map[], [Pending(Endpoint(base), 0)], false, 0)
    ensures IsSearch(web, base, maxHops, maxRegistries, [], map[], BaseFailed)
  {
    HoldsAtStart(web, base, maxHops, maxRegistries);
    SentAtStart(web, maxHops, base);
    hide Holds, IsSearch, Sent;
    HoldsMeansSearch(web, base, maxHops, maxRegistries, [], map[], [Pending(Endpoint(base), 0)], false, BaseFailed);
  }

  lemma SkipGoes(web: Web, base: string, maxHops: nat, maxRegistries: nat, results: seq<Found>,
      depthOf: map<string, nat>, queue: seq<Pending>, dropped: bool, steps: nat)
    requires Goes(web, base, maxHops, maxRegistries, results, depthOf, queue, dropped, steps)
    requires queue != [] && queue[0].link.Endpoint? && queue[0].link.name in depthOf
    ensures Goes(web, base, maxHops, maxRegistries, results, depthOf, queue[1..], dropped, steps + 1)
  {
    StartIsUnasked(web, base, maxHops, maxRegistries, results, depthOf, queue, dropped);
    hide Holds, Sent;
    SkipHolds(web, base, maxHops, maxRegistries, results, depthOf, queue, dropped);
    SkipIsSent(web, maxHops, results, depthOf, queue, steps);
  }

  lemma VisitGoes(web: Web, base: string, maxHops: nat, maxRegistries: nat, results: seq<Found>,
      depthOf: map<string, nat>, queue: seq<Pending>, longer: seq<Pending>, k: nat, dropped: bool, steps: nat)
    requires Goes(web, base, maxHops, maxRegistries, results, depthOf, queue, dropped, steps) && |results| < maxRegistries
    requires queue != [] && queue[0].link.Endpoint? && queue[0].link.name !in depthOf
    requires ReplyOf(web, queue[0].link.name).Failed? ==> queue[0].depth > 0
    requires var added := NewReferrals(web, maxHops, queue[0].link.name, queue[0].depth);
      k <= |added| && longer == queue[1..] + added[..k] && (k < |added| ==> |longer| >= maxRegistries)
    ensures var x, d := queue[0].link.name, queue[0].depth;
      Goes(web, base, maxHops, maxRegistries, results + [Found(x, ReplyOf(web, x).Referrals?)], depthOf[x := d], longer,
        dropped || k < |NewReferrals(web, maxHops, x, d)|, steps + 1)
  {
    StartIsUnasked(web, base, maxHops, maxRegistries, results, depthOf, queue, dropped);
    hide Holds, Sent, NewReferrals;
    VisitHolds(web, base, maxHops, maxRegistries, results, depthOf, queue, longer, k, dropped);
    VisitIsSent(web, maxHops, results, depthOf, queue, longer, k, steps);
  }

  lemma BaseFails(web: Web, base: string, maxHops: nat, maxRegistries: nat, deadline: Deadline, results: seq<Found>,
      depthOf: map<string, nat>, queue: seq<Pending>, dropped: bool, steps: nat)
    requires Goes(web, base, maxHops, maxRegistries, results, depthOf, queue, dropped, steps)
    requires queue != [] && queue[0].link.Endpoint? && queue[0].depth == 0 && queue[0].link.name !in depthOf
    requires ReplyOf(web, queue[0].link.name).Failed? && (deadline.AfterSteps? ==> steps < deadline.n)
    ensures IsSearch(web, base, maxHops, maxRegistries, [], map[], BaseFailed)
    ensures EndsFor(web, base, maxHops, deadline, [], map[], BaseFailed)
  {
    OnlyBaseAtStart(web, base, maxHops, maxRegistries, results, depthOf, queue, dropped);
    GoesAtStart(web, base, maxHops, maxRegistries);
    hide Holds, Sent, IsSearch;
  }

  lemma AbortMeans(web: Web, base: string, maxHops: nat, maxRegistries: nat, deadline: Deadline, results: seq<Found>,
      depthOf: map<string, nat>, queue: seq<Pending>, dropped: bool, steps: nat)
    requires Goes(web, base, maxHops, maxRegistries, results, depthOf, queue, dropped, steps) && queue != []
    requires (deadline.AfterSteps? && steps >= deadline.n) || queue[0].link.Unparsable?
    ensures IsSearch(web, base, maxHops, maxRegistries, results, depthOf, Aborted)
    ensures EndsFor(web, base, maxHops, deadline, results, depthOf, Aborted)
  {
    SentMeans(web, maxHops, results, depthOf, queue, steps);
    StartIsUnasked(web, base, maxHops, maxRegistries, results, depthOf, queue, dropped);
    hide Holds, Sent, IsSearch;
    HoldsMeansSearch(web, base, maxHops, maxRegistries, results, depthOf, queue, dropped, Aborted);
  }

  lemma FinishMeans(web: Web, base: string, maxHops: nat, maxRegistries: nat, deadline: Deadline, results: seq<Found>,
      depthOf: map<string, nat>, queue: seq<Pending>, dropped: bool, steps: nat)
    requires Goes(web, base, maxHops, maxRegistries, results, depthOf, queue, dropped, steps)
    requires maxRegistries > 0 && (queue == [] || |results| == maxRegistries)
    ensures IsSearch(web, base, maxHops, maxRegistries, results, depthOf, Finished)
    ensures EndsFor(web, base, maxHops, deadline, results, depthOf, Finished)
  {
    StartIsUnasked(web, base, maxHops, maxRegistries, results, depthOf, queue, dropped);
    hide Holds, Sent, IsSearch;
    HoldsMeansSearch(web, base, maxHops, maxRegistries, results, depthOf, queue, dropped, Finished);
  }

  lemma SentMeans(web: Web, maxHops: nat, results: seq<Found>, depthOf: map<string, nat>, queue: seq<Pending>, steps: nat)
    requires Sent(web, maxHops, results, depthOf, queue, steps) && queue != []
    ensures steps <= Offered(web, results)
    ensures queue[0].link.Unparsable? ==> SentUnparsable(web, maxHops, depthOf)
  {
  }

  /** Nothing is found before the base is asked. */
  lemma StartIsUnasked(web: Web, base: string, maxHops: nat, maxRegistries: nat, results: seq<Found>,
      depthOf: map<string, nat>, queue: seq<Pending>, dropped: bool)
    requires Holds(web, base, maxHops, maxRegistries, results, depthOf, queue, dropped)
    ensures base !in depthOf ==> results == [] && depthOf == map[] && queue == [Pending(Endpoint(base), 0)]
  {
  }

  /** What the registry at the front of the queue answers is recorded, and its referrals wait. */
  method AskRegistry(base: string, web: Web, maxHops: nat, maxRegistries: nat, ghost depthOf: map<string, nat>,
      results: seq<Found>, queue: seq<Pending>, ghost dropped: bool, ghost steps: nat)
    returns (ghost deeper: map<string, nat>, more: seq<Found>, longer: seq<Pending>, ghost lost: bool)
    requires Goes(web, base, maxHops, maxRegistries, results, depthOf, queue, dropped, steps) && |results| < maxRegistries
    requires queue != [] && queue[0].link.Endpoint? && queue[0].link.name !in depthOf
    requires ReplyOf(web, queue[0].link.name).Failed? ==> queue[0].depth > 0
    ensures deeper == depthOf[queue[0].link.name := queue[0].depth] && |more| == |results| + 1
    ensures Goes(web, base, maxHops, maxRegistries, more, deeper, longer, lost, steps + 1)
  {
    hide Goes, NewReferrals;
    var endpoint, depth := queue[0].link.name, queue[0].depth;
    var k;
    longer, k := Follow(web, maxHops, maxRegistries, endpoint, depth, queue[1..]);
    more := results + [Found(endpoint, ReplyOf(web, endpoint).Referrals?)];
    VisitGoes(web, base, maxHops, maxRegistries, results, depthOf, queue, longer, k, dropped, steps);
    deeper, lost := depthOf[endpoint := depth], dropped || k < |NewReferrals(web, maxHops, endpoint, depth)|;
  }

  /** The referrals of a registry wait as long as there is room in the queue; k of them fit. */
  method Follow(web: Web, maxHops: nat, room: nat, x: string, depth: nat, queue: seq<Pending>)
    returns (longer: seq<Pending>, k: nat)
    ensures k <= |NewReferrals(web, maxHops, x, depth)|
    ensures longer == queue + NewReferrals(web, maxHops, x, depth)[..k]
    ensures k < |NewReferrals(web, maxHops, x, depth)| ==> |longer| >= room
  {
    longer, k := queue, 0;
    var reply := ReplyOf(web, x);
    if reply.Referrals? && depth < maxHops {
      ghost var all := Refer(reply.links, depth + 1);
      assert all == NewReferrals(web, maxHops, x, depth);
      hide Refer, NewReferrals;
      for r := 0 to |reply.links|
        invariant k == r && longer == queue + all[..k]
      {
        if |longer| >= room {
          break;
        }
        assert all[..k + 1] == all[..k] + [all[k]];
        longer := longer + [Pending(reply.links[r], depth + 1)];
        k := k + 1;
      }
    }
  }

  /** Depth 0 is the base, and nothing is found before it. */
  lemma OnlyBaseAtStart(web: Web, base: string, maxHops: nat, maxRegistries: nat, results: seq<Found>,
      depthOf: map<string, nat>, queue: seq<Pending>, dropped: bool)
    requires Holds(web, base, maxHops, maxRegistries, results, depthOf, queue, dropped)
    requires queue != [] && queue[0].link.Endpoint? && queue[0].depth == 0 && queue[0].link.name !in depthOf
    ensures queue[0].link.name == base
  {
    assert Within(web, base, queue[0].link.name, 0);
  }
}
