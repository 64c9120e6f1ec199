/** The per-address token bucket of the A2A server, over real time and real tokens. */
module RateLimiter {
  import opened Options

  type Address = string

  datatype Bucket = Bucket(tokens: real, lastCheck: real)

  function Min(x: real, y: real): real {
    if x < y then x else y
  }

  // ---------------------------------------------------------------- one address

  /** rate is in tokens per second; cleanup is the age, in seconds, past which an unused
      bucket is purged. */
  datatype Config = Config(rate: real, capacity: int, cleanup: real)

  /** The tokens that come in over a time. */
  function Accrued(rate: real, elapsed: real): real {
    elapsed * rate
  }

  /** What a bucket has filled up to by time now. */
  function Refilled(c: Config, b: Bucket, now: real): real {
    Min(c.capacity as real, b.tokens + Accrued(c.rate, now - b.lastCheck))
  }

  /** The bucket after a request at time now, and whether it is admitted. */
  function Take(c: Config, b: Option<Bucket>, now: real): (Bucket, bool) {
    match b
    case None => (Bucket(c.capacity as real - 1.0, now), true)
    case Some(b) =>
      var tokens := Refilled(c, b, now);
      if tokens >= 1.0 then (Bucket(tokens - 1.0, now), true) else (Bucket(tokens, now), false)
  }

  /** The bucket after a purge at time now. */
  function Purged(c: Config, b: Option<Bucket>, now: real): Option<Bucket> {
    if b.Some? && b.value.lastCheck < now - c.cleanup then None else b
  }

  // ---------------------------------------------------------------- the limiter

  class Limiter {
    const config: Config
    var buckets: map<Address, Bucket>

    constructor (rate: real, capacity: int, cleanup: real)
      ensures config == Config(rate, capacity, cleanup) && buckets == map[]
    {
      config := Config(rate, capacity, cleanup);
      buckets := map[];
    }

    function BucketOf(ip: Address): Option<Bucket>
      reads this
    {
      if ip in buckets then Some(buckets[ip]) else None
    }

    method Allow(ip: Address, now: real) returns (admitted: bool)
      modifies this
      ensures admitted == Take(config, old(BucketOf(ip)), now).1
      ensures BucketOf(ip) == Some(Take(config, old(BucketOf(ip)), now).0)
      ensures forall other :: other != ip ==> BucketOf(other) == old(BucketOf(other))
    {
      if ip !in buckets {
        buckets := buckets[ip := Bucket(config.capacity as real - 1.0, now)];
        return true;
      }
      var b := buckets[ip];
      b := Bucket(Refilled(config, b, now), now);
      buckets := buckets[ip := b];
      if b.tokens >= 1.0 {
        buckets := buckets[ip := Bucket(b.tokens - 1.0, now)];
        return true;
      }
      return false;
    }

    method PurgeStale(now: real)
      modifies this
      ensures forall ip :: BucketOf(ip) == Purged(config, old(BucketOf(ip)), now)
    {
      var todo := buckets.Keys;
      while todo != {}
        invariant todo <= buckets.Keys
        invariant forall ip :: ip in todo ==> BucketOf(ip) == old(BucketOf(ip))
        invariant forall ip :: ip !in todo ==> BucketOf(ip) == Purged(config, old(BucketOf(ip)), now)
      {
        var ip :| ip in todo;
        if buckets[ip].lastCheck < now - config.cleanup {
          buckets := buckets - {ip};
        }
        todo := todo - {ip};
      }
    }
  }

  // ---------------------------------------------------------------- runs of one address

  datatype Event = Request(at: real) | Purge(at: real)

  /** The clock never runs backwards. */
  ghost predicate Monotone(events: seq<Event>) {
    forall i, j :: 0 <= i < j < |events| ==> events[i].at <= events[j].at
  }

  function After(c: Config, b: Option<Bucket>, e: Event): Option<Bucket> {
    if e.Request? then Some(Take(c, b, e.at).0) else Purged(c, b, e.at)
  }

  function AfterAll(c: Config, b: Option<Bucket>, events: seq<Event>): Option<Bucket>
    decreases |events|
  {
    if events == [] then b else AfterAll(c, After(c, b, events[0]), events[1..])
  }

  /** The answers to the requests, in order. */
  function Answers(c: Config, b: Option<Bucket>, events: seq<Event>): seq<bool>
    decreases |events|
  {
    if events == [] then []
    else (if events[0].Request? then [Take(c, b, events[0].at).1] else []) + Answers(c, After(c, b, events[0]), events[1..])
  }

  function Admitted(answers: seq<bool>): nat {
    if answers == [] then 0 else (if answers[0] then 1 else 0) + Admitted(answers[1..])
  }

  function WithoutPurges(events: seq<Event>): seq<Event> {
    if events == [] then []
    else (if events[0].Request? then [events[0]] else []) + WithoutPurges(events[1..])
  }

  /** Every stretch of a run that lies within [s, t] admits at most capacity + rate * (t - s)
      requests. */
  ghost predicate Bounded(c: Config, events: seq<Event>) {
    forall i: nat, j: nat, s: real, t: real :: i <= j <= |events| && Within(events[i..j], s, t) && s <= t ==>
      Admitted(Answers(c, AfterAll(c, None, events[..i]), events[i..j])) as real <= Bound(c, s, t)
  }

  ghost predicate Within(events: seq<Event>, s: real, t: real) {
    forall k :: 0 <= k < |events| ==> s <= events[k].at <= t
  }

  function Bound(c: Config, s: real, t: real): real {
    c.capacity as real + c.rate * (t - s)
  }

  // ---------------------------------------------------------------- the level of a bucket

  /** The tokens there would be at time now; no bucket counts as a full one. */
  function Level(c: Config, b: Option<Bucket>, now: real): real {
    match b
    case None => c.capacity as real
    case Some(b) => Refilled(c, b, now)
  }

  /** The limiter is configured as its documentation describes. */
  ghost predicate Sane(c: Config) {
    c.rate >= 0.0 && c.capacity >= 1 && c.cleanup >= 0.0
  }

  /** Purging only removes buckets that have filled up again. */
  ghost predicate PurgesFull(c: Config) {
    c.rate * c.cleanup >= c.capacity as real
  }

  ghost predicate Good(c: Config, b: Option<Bucket>, now: real) {
    b.Some? ==> 0.0 <= b.value.tokens <= c.capacity as real && b.value.lastCheck <= now
  }

  lemma AccruedIs(r: real, x: real)
    ensures Accrued(r, x) == r * x
  {
  }

  lemma {:induction false} AccruedMonotone(r: real, x: real, y: real)
    requires r >= 0.0 && x <= y
    ensures Accrued(r, x) <= Accrued(r, y)
    ensures 0.0 <= x ==> 0.0 <= Accrued(r, x)
  {
    assert (y - x) * r >= 0.0;
  }

  lemma AccruedAdds(r: real, x: real, y: real)
    ensures Accrued(r, x + y) == Accrued(r, x) + Accrued(r, y)
    ensures Accrued(r, 0.0) == 0.0
  {
  }

  lemma {:induction false} LevelRises(c: Config, b: Option<Bucket>, s: real, u: real)
    requires Sane(c) && Good(c, b, s) && s <= u
    ensures Good(c, b, u)
    ensures 0.0 <= Level(c, b, s) <= Level(c, b, u) <= Level(c, b, s) + Accrued(c.rate, u - s)
    ensures Level(c, b, u) <= c.capacity as real
  {
    hide Accrued;
    AccruedMonotone(c.rate, u - s, u - s);
    assert c.capacity as real >= 1.0;
    if b.Some? {
      var p, q := s - b.value.lastCheck, u - b.value.lastCheck;
      AccruedMonotone(c.rate, p, q);
      AccruedAdds(c.rate, p, u - s);
      assert p + (u - s) == q;
    }
  }

  /** A request is admitted exactly at level 1 or more, and then takes one off. */
  lemma {:induction false} RequestAtLevel(c: Config, b: Option<Bucket>, u: real)
    requires Sane(c) && Good(c, b, u)
    ensures var (b', ok) := Take(c, b, u);
            && Good(c, Some(b'), u)
            && (ok <==> Level(c, b, u) >= 1.0)
            && Level(c, Some(b'), u) == Level(c, b, u) - if ok then 1.0 else 0.0
  {
    hide Accrued;
    LevelRises(c, b, u, u);
    AccruedAdds(c.rate, 0.0, 0.0);
  }

  lemma {:induction false} PurgeAtLevel(c: Config, b: Option<Bucket>, u: real)
    requires Sane(c) && PurgesFull(c) && Good(c, b, u)
    ensures Good(c, Purged(c, b, u), u) && Level(c, Purged(c, b, u), u) == Level(c, b, u)
  {
    hide Accrued;
    if b.Some? && b.value.lastCheck < u - c.cleanup {
      AccruedIs(c.rate, c.cleanup);
      AccruedMonotone(c.rate, c.cleanup, u - b.value.lastCheck);
      assert Refilled(c, b.value, u) == c.capacity as real;
    }
  }

  // ---------------------------------------------------------------- the bound

  lemma {:induction false} AdmittedWithin(c: Config, b: Option<Bucket>, events: seq<Event>, s: real, t: real)
    requires Sane(c) && Good(c, b, s) && s <= t && Monotone(events) && Within(events, s, t)
    requires PurgesFull(c) || forall k :: 0 <= k < |events| ==> events[k].Request?
    ensures Admitted(Answers(c, b, events)) as real <= Level(c, b, s) + Accrued(c.rate, t - s)
    decreases |events|
  {
    hide Accrued, Level, Good, Take, Purged, PurgesFull;
    LevelRises(c, b, s, t);
    if events != [] {
      var e, b' := events[0], After(c, b, events[0]);
      LevelRises(c, b, s, e.at);
      if e.Request? {
        RequestAtLevel(c, b, e.at);
      } else {
        PurgeAtLevel(c, b, e.at);
      }
      var rest := Answers(c, b', events[1..]);
      if e.Request? {
        var ok := Take(c, b, e.at).1;
        assert ([ok] + rest)[1..] == rest;
      } else {
        assert [] + rest == rest;
      }
      AdmittedWithin(c, b', events[1..], e.at, t);
      AccruedAdds(c.rate, e.at - s, t - e.at);
      assert (e.at - s) + (t - e.at) == t - s;
    }
  }

  /** From any good bucket, the requests admitted over [s, t] are at most its level at s plus
      what comes in meanwhile. */
  lemma {:induction false} AdmittedAtMost(c: Config, b: Option<Bucket>, events: seq<Event>, s: real, t: real)
    requires Sane(c) && Good(c, b, s) && s <= t && Monotone(events) && Within(events, s, t)
    requires PurgesFull(c) || forall k :: 0 <= k < |events| ==> events[k].Request?
    ensures Admitted(Answers(c, b, events)) as real <= Level(c, b, s) + c.rate * (t - s)
  {
    AdmittedWithin(c, b, events, s, t);
    AccruedIs(c.rate, t - s);
    hide *;
  }

  /** Buckets stay good along a run. */
  lemma {:induction false} StaysGood(c: Config, b: Option<Bucket>, events: seq<Event>, s: real, t: real)
    requires Sane(c) && Good(c, b, s) && s <= t && Monotone(events) && Within(events, s, t)
    ensures Good(c, AfterAll(c, b, events), t)
    decreases |events|
  {
    LevelRises(c, b, s, t);
    if events != [] {
      LevelRises(c, b, s, events[0].at);
      RequestAtLevel(c, b, events[0].at);
      StaysGood(c, After(c, b, events[0]), events[1..], events[0].at, t);
    }
  }

  lemma BoundIs(c: Config, s: real, t: real)
    ensures Bound(c, s, t) == c.capacity as real + Accrued(c.rate, t - s)
  {
  }

  lemma {:induction false} SaneRunsBounded(c: Config, events: seq<Event>)
    requires Sane(c) && Monotone(events)
    requires PurgesFull(c) || forall k :: 0 <= k < |events| ==> events[k].Request?
    ensures Bounded(c, events)
  {
    hide Accrued, Bound, PurgesFull, Answers, Admitted, AfterAll, Within, Monotone;
    forall i: nat, j: nat, s: real, t: real | i <= j <= |events| && Within(events[i..j], s, t) && s <= t
      ensures Admitted(Answers(c, AfterAll(c, None, events[..i]), events[i..j])) as real <= Bound(c, s, t)
    {
      BoundIs(c, s, t);
      if i < j {
        StretchBounded(c, events, i, j, s, t);
      } else {
        AccruedMonotone(c.rate, t - s, t - s);
        NothingAdmitted(c, AfterAll(c, None, events[..i]));
        assert events[i..j] == [];
      }
    }
  }

  lemma NothingAdmitted(c: Config, b: Option<Bucket>)
    ensures Admitted(Answers(c, b, [])) == 0
  {
  }

  lemma {:induction false} StretchBounded(c: Config, events: seq<Event>, i: nat, j: nat, s: real, t: real)
    requires Sane(c) && Monotone(events) && i < j <= |events| && Within(events[i..j], s, t)
    requires PurgesFull(c) || forall k :: 0 <= k < |events| ==> events[k].Request?
    ensures Admitted(Answers(c, AfterAll(c, None, events[..i]), events[i..j])) as real
      <= c.capacity as real + Accrued(c.rate, t - s)
  {
    hide Accrued, PurgesFull, Answers, Admitted, Take;
    var u, b := events[i].at, AfterAll(c, None, events[..i]);
    assert u == events[i..j][0].at;
    if i > 0 {
      StaysGood(c, None, events[..i], events[0].at, u);
    }
    forall k | 0 <= k < j - i
      ensures u <= events[i..j][k].at <= t
    {
      assert events[i..j][k] == events[i + k];
    }
    AdmittedWithin(c, b, events[i..j], u, t);
    LevelRises(c, b, u, u);
    AccruedMonotone(c.rate, t - u, t - s);
  }

  // ---------------------------------------------------------------- who waits gets in

  /** The smaller of what a bucket holds with what came in, and its capacity. */
  function Filled(c: Config, x: real, more: real): real {
    if x + more < c.capacity as real then x + more else c.capacity as real
  }

  lemma BucketFillsBy(c: Config, x: real, s: real, u: real, more: real)
    requires more == Accrued(c.rate, u - s)
    ensures var tokens := Filled(c, x, more);
      Take(c, Some(Bucket(x, s)), u) == (Bucket(if tokens >= 1.0 then tokens - 1.0 else tokens, u), tokens >= 1.0)
  {
    hide Accrued;
  }

  /** A bucket fills at exactly the configured rate, up to its capacity; a request is admitted
      exactly when there is a whole token, and takes one. */
  lemma {:induction false} BucketFills(c: Config, x: real, s: real, u: real)
    ensures var tokens := Filled(c, x, c.rate * (u - s));
      Take(c, Some(Bucket(x, s)), u) == (Bucket(if tokens >= 1.0 then tokens - 1.0 else tokens, u), tokens >= 1.0)
  {
    AccruedIs(c.rate, u - s);
    hide *;
    BucketFillsBy(c, x, s, u, c.rate * (u - s));
  }

  /** Requests are never closer than the time in which a token comes in. */
  ghost predicate Spaced(c: Config, events: seq<Event>) {
    forall i, j :: 0 <= i < j < |events| && events[i].Request? && events[j].Request? ==>
      c.rate * (events[j].at - events[i].at) >= 1.0
  }

  /** From a bucket, there is a token by each of the requests, were it the only one. */
  ghost predicate ReadyFor(c: Config, b: Option<Bucket>, s: real, events: seq<Event>) {
    forall i :: 0 <= i < |events| && events[i].Request? ==> Level(c, b, s) + Accrued(c.rate, events[i].at - s) >= 1.0
  }

  ghost predicate AllAdmitted(answers: seq<bool>) {
    forall i :: 0 <= i < |answers| ==> answers[i]
  }

  /** Whoever keeps to the rate is never turned away, whenever the purges run. */
  lemma {:induction false} SpacedRequestsGetIn(c: Config, events: seq<Event>)
    requires Sane(c) && Monotone(events) && Spaced(c, events)
    ensures AllAdmitted(Answers(c, None, events))
  {
    hide Accrued, Spaced, Answers, AllAdmitted;
    var s := if events == [] then 0.0 else events[0].at;
    forall i | 0 <= i < |events|
      ensures Level(c, None, s) + Accrued(c.rate, events[i].at - s) >= 1.0
    {
      AccruedMonotone(c.rate, 0.0, events[i].at - s);
    }
    SpacedFrom(c, None, s, events);
  }

  lemma {:induction false} SpacedFrom(c: Config, b: Option<Bucket>, s: real, events: seq<Event>)
    requires Sane(c) && Good(c, b, s) && Monotone(events) && (events != [] ==> s <= events[0].at)
    requires Spaced(c, events) && ReadyFor(c, b, s, events)
    ensures AllAdmitted(Answers(c, b, events))
    decreases |events|
  {
    if events != [] {
      SpacedRest(c, events);
      hide Accrued, Level, Good, Take, Purged, Spaced, ReadyFor;
      var e, b' := events[0], After(c, b, events[0]);
      if e.Request? {
        RequestWhenReady(c, b, s, events);
      } else {
        PurgeWhenReady(c, b, s, events);
      }
      SpacedFrom(c, b', e.at, events[1..]);
    }
  }

  lemma SpacedRest(c: Config, events: seq<Event>)
    requires events != [] && Spaced(c, events)
    ensures Spaced(c, events[1..])
    ensures events[0].Request? ==>
      forall i :: 0 < i < |events| && events[i].Request? ==> Accrued(c.rate, events[i].at - events[0].at) >= 1.0
  {
    var rest := events[1..];
    forall i, j | 0 <= i < j < |rest| && rest[i].Request? && rest[j].Request?
      ensures c.rate * (rest[j].at - rest[i].at) >= 1.0
    {
      assert rest[i] == events[i + 1] && rest[j] == events[j + 1];
    }
    hide Accrued;
    forall i | 0 < i < |events| && events[0].Request? && events[i].Request?
      ensures Accrued(c.rate, events[i].at - events[0].at) >= 1.0
    {
      AccruedIs(c.rate, events[i].at - events[0].at);
    }
  }

  lemma RequestWhenReady(c: Config, b: Option<Bucket>, s: real, events: seq<Event>)
    requires Sane(c) && events != [] && events[0].Request? && Good(c, b, s) && s <= events[0].at
    requires Spaced(c, events) && ReadyFor(c, b, s, events)
    ensures var (b', ok) := Take(c, b, events[0].at);
      ok && Good(c, Some(b'), events[0].at) && ReadyFor(c, Some(b'), events[0].at, events[1..])
  {
    var u := events[0].at;
    SpacedRest(c, events);
    LevelRises(c, b, s, u);
    LevelAtLeast(c, b, s, u);
    RequestAtLevel(c, b, u);
    var b' := Take(c, b, u).0;
    hide Accrued, Level, Good, Take, Spaced;
    assert Level(c, Some(b'), u) >= 0.0;
    assert forall i :: 0 <= i < |events[1..]| ==> events[1..][i] == events[i + 1];
  }

  lemma PurgeWhenReady(c: Config, b: Option<Bucket>, s: real, events: seq<Event>)
    requires Sane(c) && events != [] && events[0].Purge? && Good(c, b, s) && Monotone(events) && s <= events[0].at
    requires ReadyFor(c, b, s, events)
    ensures var b' := Purged(c, b, events[0].at);
      Good(c, b', events[0].at) && ReadyFor(c, b', events[0].at, events[1..])
  {
    var u := events[0].at;
    var b' := Purged(c, b, u);
    LevelRises(c, b, s, u);
    hide Accrued;
    var rest := events[1..];
    forall i | 0 <= i < |rest| && rest[i].Request?
      ensures Level(c, b', u) + Accrued(c.rate, rest[i].at - u) >= 1.0
    {
      var v := rest[i].at;
      assert rest[i] == events[i + 1];
      AccruedMonotone(c.rate, 0.0, v - u);
      LevelAtLeast(c, b, s, u);
      AccruedAdds(c.rate, u - s, v - u);
      assert (u - s) + (v - u) == v - s;
    }
  }

  /** A bucket is full, or has taken in all that came. */
  lemma LevelAtLeast(c: Config, b: Option<Bucket>, s: real, u: real)
    requires Sane(c) && Good(c, b, s) && s <= u
    ensures Level(c, b, u) >= 1.0 || Level(c, b, u) == Level(c, b, s) + Accrued(c.rate, u - s)
  {
    LevelLaterBy(c, b, s, u);
    hide Accrued, Level, Good;
    assert c.capacity as real >= 1.0;
  }

  // ---------------------------------------------------------------- purging is invisible

  lemma {:induction false} LevelLaterBy(c: Config, b: Option<Bucket>, s: real, u: real)
    requires Sane(c) && Good(c, b, s) && s <= u
    ensures Level(c, b, u) == Min(c.capacity as real, Level(c, b, s) + Accrued(c.rate, u - s))
  {
    hide Accrued;
    AccruedMonotone(c.rate, u - s, u - s);
    if b.Some? {
      var p, q := s - b.value.lastCheck, u - b.value.lastCheck;
      AccruedAdds(c.rate, p, u - s);
      assert p + (u - s) == q;
    }
  }

  /** Two buckets at one level answer alike, also when one of them is purged on the way. */
  lemma {:induction false} SameLevelSameAnswers(c: Config, b: Option<Bucket>, d: Option<Bucket>, events: seq<Event>, s: real)
    requires Sane(c) && PurgesFull(c) && Good(c, b, s) && Good(c, d, s) && Level(c, b, s) == Level(c, d, s)
    requires Monotone(events) && (events != [] ==> s <= events[0].at)
    ensures Answers(c, b, events) == Answers(c, d, WithoutPurges(events))
    decreases |events|
  {
    hide Accrued, Level, Good, Take, Purged;
    if events != [] {
      var e := events[0];
      LevelLaterBy(c, b, s, e.at);
      LevelLaterBy(c, d, s, e.at);
      assert Level(c, b, e.at) == Level(c, d, e.at);
      LevelRises(c, b, s, e.at);
      LevelRises(c, d, s, e.at);
      if e.Request? {
        RequestAtLevel(c, b, e.at);
        RequestAtLevel(c, d, e.at);
        SameLevelSameAnswers(c, After(c, b, e), After(c, d, e), events[1..], e.at);
        var rest := WithoutPurges(events[1..]);
        assert WithoutPurges(events) == [e] + rest && ([e] + rest)[1..] == rest;
      } else {
        PurgeAtLevel(c, b, e.at);
        SameLevelSameAnswers(c, After(c, b, e), d, events[1..], e.at);
        assert [] + Answers(c, After(c, b, e), events[1..]) == Answers(c, After(c, b, e), events[1..]);
        assert WithoutPurges(events) == WithoutPurges(events[1..]);
      }
    }
  }

  /** Purging changes no answer, whatever the requests and whenever the purges run. */
  ghost predicate Transparent(c: Config) {
    forall events: seq<Event> :: Monotone(events) ==> Answers(c, None, events) == Answers(c, None, WithoutPurges(events))
  }

  function Burst(n: nat, at: real): seq<Event> {
    seq(n, _ => Request(at))
  }

  /** As many requests at once as there are whole tokens all get in, and use them up. */
  lemma {:induction false} BurstWithinLevel(c: Config, b: Option<Bucket>, n: nat, u: real)
    requires Sane(c) && Good(c, b, u) && n as real <= Level(c, b, u)
    ensures Admitted(Answers(c, b, Burst(n, u))) == n
    ensures Good(c, AfterAll(c, b, Burst(n, u)), u)
    ensures Level(c, AfterAll(c, b, Burst(n, u)), u) == Level(c, b, u) - n as real
    decreases n
  {
    hide Accrued, Level, Good, Take;
    if n > 0 {
      RequestAtLevel(c, b, u);
      var e := Request(u);
      assert Burst(n, u)[1..] == Burst(n - 1, u) && Burst(n, u)[0] == e;
      BurstWithinLevel(c, After(c, b, e), n - 1, u);
      var rest := Answers(c, After(c, b, e), Burst(n - 1, u));
      assert ([true] + rest)[1..] == rest;
    }
  }

  lemma {:induction false} AnswersConcat(c: Config, b: Option<Bucket>, p: seq<Event>, q: seq<Event>)
    ensures Answers(c, b, p + q) == Answers(c, b, p) + Answers(c, AfterAll(c, b, p), q)
    decreases |p|
  {
    hide Take, Purged;
    if p == [] {
      assert p + q == q;
    } else {
      AnswersConcat(c, After(c, b, p[0]), p[1..], q);
      assert (p + q)[1..] == p[1..] + q && (p + q)[0] == p[0];
      var first := if p[0].Request? then [Take(c, b, p[0].at).1] else [];
      assert first + (Answers(c, After(c, b, p[0]), p[1..]) + Answers(c, AfterAll(c, b, p), q))
          == (first + Answers(c, After(c, b, p[0]), p[1..])) + Answers(c, AfterAll(c, b, p), q);
    }
  }

  lemma {:induction false} AdmittedConcat(p: seq<bool>, q: seq<bool>)
    ensures Admitted(p + q) == Admitted(p) + Admitted(q)
  {
    if p == [] {
      assert p + q == q;
    } else {
      AdmittedConcat(p[1..], q);
      assert (p + q)[1..] == p[1..] + q;
    }
  }

  /** A full burst, a purge just late enough to remove the half-filled bucket, and another
      full burst. */
  function Refill(c: Config, at: real): seq<Event>
    requires c.capacity >= 0
  {
    Burst(c.capacity, 0.0) + ([Purge(at)] + Burst(c.capacity, at))
  }

  lemma ShareOf(gap: real, rate: real) returns (share: real)
    requires gap > 0.0 && rate > 0.0
    ensures share > 0.0 && rate * share < gap
  {
    share := gap / 2.0 / rate;
    assert share * rate == gap / 2.0;
    PositiveFactor(share, rate);
  }

  lemma PositiveFactor(x: real, r: real)
    requires r > 0.0 && x * r > 0.0
    ensures x > 0.0
  {
  }

  /** A moment past the cleanup age at which the bucket is still not full. */
  lemma {:induction false} LateButNotFull(c: Config) returns (at: real)
    requires Sane(c) && !PurgesFull(c)
    ensures at > c.cleanup && c.rate * at < c.capacity as real
  {
    if c.rate == 0.0 {
      at := c.cleanup + 1.0;
    } else {
      var share := ShareOf(c.capacity as real - c.rate * c.cleanup, c.rate);
      at := c.cleanup + share;
      assert c.rate * at == c.rate * c.cleanup + c.rate * share;
    }
  }

  lemma {:induction false} RefillIsRun(c: Config, at: real)
    requires c.capacity >= 0 && at >= 0.0
    ensures Monotone(Refill(c, at)) && Within(Refill(c, at), 0.0, at)
  {
  }

  /** With the purge both bursts get in whole; without it they cannot. */
  lemma {:induction false} PurgeDoublesBurst(c: Config, at: real)
    requires Sane(c) && at > c.cleanup
    ensures Admitted(Answers(c, None, Refill(c, at))) == 2 * c.capacity
  {
    var n: nat := c.capacity;
    var first, second := Burst(n, 0.0), Burst(n, at);
    var b := AfterAll(c, None, first);
    BurstWithinLevel(c, None, n, 0.0);
    LastCheckOfBurst(c, None, n, 0.0);
    BurstWithinLevel(c, None, n, at);
    assert After(c, b, Purge(at)) == None;
    hide Accrued, Take, Purged, Level, Good, Burst;
    AnswersConcat(c, None, first, [Purge(at)] + second);
    assert ([Purge(at)] + second)[1..] == second;
    assert Answers(c, b, [Purge(at)] + second) == [] + Answers(c, None, second);
    assert [] + Answers(c, None, second) == Answers(c, None, second);
    AdmittedConcat(Answers(c, None, first), Answers(c, None, second));
  }

  lemma {:induction false} LastCheckOfBurst(c: Config, b: Option<Bucket>, n: nat, u: real)
    requires n > 0
    ensures AfterAll(c, b, Burst(n, u)).Some? && AfterAll(c, b, Burst(n, u)).value.lastCheck == u
    decreases n
  {
    hide Accrued;
    assert Burst(n, u)[1..] == Burst(n - 1, u) && Burst(n, u)[0] == Request(u);
    if n > 1 {
      LastCheckOfBurst(c, After(c, b, Request(u)), n - 1, u);
    }
  }

  lemma {:induction false} RequestsOnly(c: Config, at: real)
    requires c.capacity >= 0
    ensures WithoutPurges(Refill(c, at)) == Burst(c.capacity, 0.0) + Burst(c.capacity, at)
  {
    var first, second := Burst(c.capacity, 0.0), Burst(c.capacity, at);
    WithoutPurgesConcat(first, [Purge(at)] + second);
    assert ([Purge(at)] + second)[1..] == second;
    BurstHasNoPurges(c.capacity, 0.0);
    BurstHasNoPurges(c.capacity, at);
    assert [] + WithoutPurges(second) == second;
  }

  lemma {:induction false} WithoutPurgesConcat(p: seq<Event>, q: seq<Event>)
    ensures WithoutPurges(p + q) == WithoutPurges(p) + WithoutPurges(q)
  {
    if p == [] {
      assert p + q == q;
    } else {
      WithoutPurgesConcat(p[1..], q);
      assert (p + q)[1..] == p[1..] + q && (p + q)[0] == p[0];
      var first, rest := if p[0].Request? then [p[0]] else [], WithoutPurges(p[1..]);
      assert WithoutPurges(p) == first + rest && WithoutPurges(p + q) == first + (rest + WithoutPurges(q));
      hide WithoutPurges;
    }
  }

  lemma {:induction false} BurstHasNoPurges(n: nat, at: real)
    ensures WithoutPurges(Burst(n, at)) == Burst(n, at)
  {
    if n > 0 {
      assert Burst(n, at)[1..] == Burst(n - 1, at);
      BurstHasNoPurges(n - 1, at);
    }
  }

  /** Purging is invisible exactly when a bucket refills within the cleanup age. */
  lemma {:induction false} TransparentIff(c: Config)
    requires Sane(c)
    ensures Transparent(c) <==> PurgesFull(c)
  {
    if PurgesFull(c) {
      forall events: seq<Event> | Monotone(events)
        ensures Answers(c, None, events) == Answers(c, None, WithoutPurges(events))
      {
        var s := if events == [] then 0.0 else events[0].at;
        SameLevelSameAnswers(c, None, None, events, s);
      }
    } else {
      PurgingShows(c);
    }
  }

  lemma PurgingShows(c: Config)
    requires Sane(c) && !PurgesFull(c)
    ensures !Transparent(c)
  {
    var at := LateButNotFull(c);
    PurgeDoublesBurst(c, at);
    RefillIsRun(c, at);
    RequestsOnly(c, at);
    var events := Burst(c.capacity, 0.0) + Burst(c.capacity, at);
    AdmittedAtMost(c, None, events, 0.0, at);
    assert Level(c, None, 0.0) == c.capacity as real && at - 0.0 == at;
    hide PurgesFull, Level, Answers, Admitted, Refill, Burst, WithoutPurges, Monotone, Within;
    assert Monotone(Refill(c, at));
  }

  /** The bound on every stretch of every run, purges included, holds exactly when the
      capacity is positive and a bucket refills within the cleanup age. */
  lemma {:induction false} BoundedIff(c: Config)
    requires c.rate >= 0.0 && c.cleanup >= 0.0
    ensures (forall events: seq<Event> :: Monotone(events) ==> Bounded(c, events)) <==> c.capacity >= 1 && PurgesFull(c)
  {
    if c.capacity >= 1 && PurgesFull(c) {
      forall events: seq<Event> | Monotone(events)
        ensures Bounded(c, events)
      {
        SaneRunsBounded(c, events);
      }
    } else if c.capacity >= 1 {
      var at := LateButNotFull(c);
      PurgeDoublesBurst(c, at);
      RefillIsRun(c, at);
      WholeRun(c, Refill(c, at), 0.0, at);
    } else {
      FirstRequestGetsIn(c);
    }
  }

  lemma {:induction false} WholeRun(c: Config, events: seq<Event>, s: real, t: real)
    requires s <= t && Within(events, s, t)
    ensures Bounded(c, events) ==> Admitted(Answers(c, None, events)) as real <= Bound(c, s, t)
  {
    assert events[0..|events|] == events && events[..0] == [];
  }

  /** A limiter without capacity still admits the first request from an address. */
  lemma {:induction false} FirstRequestGetsIn(c: Config)
    requires c.capacity <= 0
    ensures Monotone([Request(0.0)]) && !Bounded(c, [Request(0.0)])
  {
    WholeRun(c, [Request(0.0)], 0.0, 0.0);
    assert Answers(c, None, [Request(0.0)]) == [true] + Answers(c, After(c, None, Request(0.0)), []);
    assert Admitted([true]) == 1;
    AccruedAdds(c.rate, 0.0, 0.0);
  }
}
