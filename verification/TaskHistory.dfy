/** The per-task event histories of the A2A server, kept for clients that resubscribe.

    Every task numbers its events 1, 2, 3, ...; its history is trimmed to a maximal
    length, and whole tasks are evicted or purged to bound the total, which a counter
    tracks.  Each method is one atomic operation. */
module TaskHistory {
  import opened Options

  type TaskId = string

  /** An event: the times of the first and the last entry of the task snapshot it carries,
      if it carries any, and whether it is the task's last. */
  datatype Event = Event(firstTime: Option<int>, lastTime: Option<int>, isFinal: bool)

  datatype Entry = Entry(event: Event, seqNo: int)

  datatype TaskState = TaskState(history: seq<Entry>, nextSeq: int)

  type Tasks = map<TaskId, TaskState>

  const FRESH := TaskState([], 0)

  // ---------------------------------------------------------------- the total

  ghost function Total(m: Tasks): int {
    if m.Keys == {} then 0 else
      var id :| id in m.Keys;
      |m[id].history| + Total(m - {id})
  }

  lemma {:induction false} TotalSplits(m: Tasks, id: TaskId)
    requires id in m
    ensures Total(m) == |m[id].history| + Total(m - {id})
  {
    var x :| x in m.Keys && Total(m) == |m[x].history| + Total(m - {x});
    if x != id {
      TotalSplits(m - {x}, id);
      TotalSplits(m - {id}, x);
      assert m - {x} - {id} == m - {id} - {x};
    }
  }

  lemma {:induction false} TotalOfUpdate(m: Tasks, id: TaskId, ts: TaskState)
    ensures Total(m[id := ts]) == Total(m) + |ts.history| - if id in m then |m[id].history| else 0
  {
    TotalSplits(m[id := ts], id);
    if id in m {
      TotalSplits(m, id);
      assert m[id := ts] - {id} == m - {id};
    } else {
      assert m[id := ts] - {id} == m;
    }
  }

  lemma {:induction false} TotalIsNatural(m: Tasks)
    ensures Total(m) >= 0
  {
    if m.Keys != {} {
      var id :| id in m.Keys;
      TotalSplits(m, id);
      TotalIsNatural(m - {id});
    }
  }

  // ---------------------------------------------------------------- one task

  /** The history is the last stretch of the numbers handed out. */
  ghost predicate Contiguous(ts: TaskState) {
    && |ts.history| <= ts.nextSeq
    && forall i :: 0 <= i < |ts.history| ==> ts.history[i].seqNo == ts.nextSeq - |ts.history| + 1 + i
  }

  /** Numbers the event, makes room for it and appends it. */
  function Appended(ts: TaskState, ev: Event, maxHistoryLen: int): TaskState
    requires maxHistoryLen >= 1
  {
    var nextSeq := ts.nextSeq + 1;
    var trimmed := if |ts.history| >= maxHistoryLen then |ts.history| - maxHistoryLen + 1 else 0;
    TaskState(ts.history[trimmed..] + [Entry(ev, nextSeq)], nextSeq)
  }

  lemma FreshIsInOrder()
    ensures Contiguous(FRESH)
  {
  }

  lemma {:induction false} AppendedKeeps(ts: TaskState, ev: Event, maxHistoryLen: int)
    requires maxHistoryLen >= 1 && Contiguous(ts)
    ensures var t := Appended(ts, ev, maxHistoryLen);
            && Contiguous(t) && |t.history| <= maxHistoryLen
            && t.history[|t.history| - 1] == Entry(ev, ts.nextSeq + 1)
  {
  }

  /** No more is trimmed than the maximal length asks for, and from the front. */
  lemma AppendedTrims(ts: TaskState, ev: Event, maxHistoryLen: int)
    requires maxHistoryLen >= 1
    ensures var all, kept := ts.history + [Entry(ev, ts.nextSeq + 1)], Appended(ts, ev, maxHistoryLen).history;
      |kept| == (if |all| <= maxHistoryLen then |all| else maxHistoryLen) && kept == all[|all| - |kept|..]
  {
    var all, kept := ts.history + [Entry(ev, ts.nextSeq + 1)], Appended(ts, ev, maxHistoryLen).history;
    assert kept == all[|all| - |kept|..];
  }

  // ---------------------------------------------------------------- eviction

  ghost predicate Older(ts: TaskState, time: int) {
    ts.history != [] && ts.history[0].event.firstTime.Some? && ts.history[0].event.firstTime.value < time
  }

  /** The oldest of the tasks that can be evicted at time now. */
  ghost predicate IsOldest(m: Tasks, id: TaskId, now: int) {
    && id in m && Older(m[id], now)
    && forall x :: x in m && Older(m[x], now) ==> NoYounger(m[id], m[x])
  }

  ghost predicate NoYounger(a: TaskState, b: TaskState) {
    && a.history != [] && a.history[0].event.firstTime.Some?
    && b.history != [] && b.history[0].event.firstTime.Some?
    && a.history[0].event.firstTime.value <= b.history[0].event.firstTime.value
  }

  ghost predicate Dated(ts: TaskState) {
    ts.history != [] && ts.history[0].event.firstTime.Some?
  }

  /** m is t without some dated tasks, each at least as old as every dated task left. */
  ghost predicate EvictedOldest(t: Tasks, m: Tasks) {
    && (forall x :: x in m ==> x in t && m[x] == t[x])
    && (forall x :: x in t && x !in m ==> Dated(t[x]))
    && (forall x, y :: x in t && x !in m && y in m && Dated(m[y]) ==> NoYounger(t[x], m[y]))
  }

  /** The last task to go had to: with it the total was still too large. */
  ghost predicate EvictedLittle(t: Tasks, m: Tasks, maxTotalHist: int) {
    m != t ==> exists x :: x in t && x !in m && Total(m) + |t[x].history| > maxTotalHist
  }

  lemma EvictOneNeeded(t: Tasks, m: Tasks, id: TaskId, maxTotalHist: int)
    requires EvictedOldest(t, m) && id in m && Total(m) > maxTotalHist
    ensures EvictedLittle(t, m - {id}, maxTotalHist)
  {
    TotalSplits(m, id);
    assert id in t && id !in m - {id} && m[id] == t[id];
  }

  lemma OldestIsThere(m: Tasks, id: TaskId, now: int)
    requires IsOldest(m, id, now)
    ensures id in m
  {
  }

  lemma NothingEvicted(t: Tasks)
    ensures EvictedOldest(t, t)
    ensures forall maxTotalHist :: EvictedLittle(t, t, maxTotalHist)
  {
  }

  lemma EvictOne(t: Tasks, m: Tasks, id: TaskId, now: int)
    requires EvictedOldest(t, m) && IsOldest(m, id, now)
    ensures EvictedOldest(t, m - {id})
  {
  }

  // ---------------------------------------------------------------- histories of operations

  /** A recorded or published event, or tasks that are evicted or purged. */
  datatype Op = Append(id: TaskId, event: Event) | Forget(ids: set<TaskId>)

  function StateIn(m: Tasks, id: TaskId): TaskState {
    if id in m then m[id] else FRESH
  }

  function Apply(m: Tasks, op: Op, maxHistoryLen: int): Tasks
    requires maxHistoryLen >= 1
  {
    match op
    case Append(id, ev) => m[id := Appended(StateIn(m, id), ev, maxHistoryLen)]
    case Forget(ids) => m - ids
  }

  /** Eviction forgets the tasks that are gone. */
  lemma EvictionForgets(t: Tasks, m: Tasks, maxHistoryLen: int)
    requires maxHistoryLen >= 1 && EvictedOldest(t, m)
    ensures m == Apply(t, Forget(t.Keys - m.Keys), maxHistoryLen)
  {
    var gone := t.Keys - m.Keys;
    assert (t - gone).Keys == m.Keys;
  }

  function After(m: Tasks, ops: seq<Op>, maxHistoryLen: int): Tasks
    requires maxHistoryLen >= 1
  {
    if ops == [] then m
    else Apply(After(m, ops[..|ops| - 1], maxHistoryLen), ops[|ops| - 1], maxHistoryLen)
  }

  // ---------------------------------------------------------------- the server's part

  class Server {
    var taskStates: Tasks
    var totalHistSize: int
    const maxHistoryLen: int
    const maxTotalHist: int

    /** The counter is the total, and every history is in order and short enough. */
    ghost predicate Valid()
      reads this
    {
      && maxHistoryLen >= 1
      && totalHistSize == Total(taskStates)
      && forall id :: id in taskStates ==>
           Contiguous(taskStates[id]) && |taskStates[id].history| <= maxHistoryLen
    }

    constructor (maxHistoryLen: int, maxTotalHist: int)
      requires maxHistoryLen >= 1
      ensures Valid() && taskStates == map[]
      ensures this.maxHistoryLen == maxHistoryLen && this.maxTotalHist == maxTotalHist
    {
      taskStates := map[];
      totalHistSize := 0;
      this.maxHistoryLen := maxHistoryLen;
      this.maxTotalHist := maxTotalHist;
    }

    function StateOf(id: TaskId): TaskState
      reads this
    {
      StateIn(taskStates, id)
    }

    method AppendEvent(id: TaskId, ev: Event)
      requires Valid()
      modifies this
      ensures Valid()
      ensures taskStates == Apply(old(taskStates), Append(id, ev), maxHistoryLen)
    {
      hide Total, Contiguous;
      var ts := StateOf(id);
      FreshIsInOrder();
      var nextSeq := ts.nextSeq + 1;
      var history := ts.history;
      var trimmed := 0;
      if |history| >= maxHistoryLen {
        trimmed := |history| - maxHistoryLen + 1;
        history := history[trimmed..];
      }
      history := history + [Entry(ev, nextSeq)];
      AppendedKeeps(ts, ev, maxHistoryLen);
      assert TaskState(history, nextSeq) == Appended(ts, ev, maxHistoryLen);
      TotalOfUpdate(taskStates, id, TaskState(history, nextSeq));
      taskStates := taskStates[id := TaskState(history, nextSeq)];
      totalHistSize := totalHistSize + 1 - trimmed;
    }

    /** Publishing appends; the subscribers are served by their own queues. */
    method PublishTaskUpdate(id: TaskId, ev: Event)
      requires Valid()
      modifies this
      ensures Valid()
      ensures taskStates == Apply(old(taskStates), Append(id, ev), maxHistoryLen)
    {
      AppendEvent(id, ev);
    }

    /** The task whose oldest event is oldest, if any is older than now. */
    method Oldest(now: int) returns (oldest: Option<TaskId>)
      ensures oldest.Some? ==> IsOldest(taskStates, oldest.value, now)
      ensures oldest == None ==> forall id :: id in taskStates ==> !Older(taskStates[id], now)
    {
      oldest := None;
      var oldestTime := now;
      var todo := taskStates.Keys;
      while todo != {}
        invariant todo <= taskStates.Keys
        invariant oldest == None ==> oldestTime == now
        invariant oldest.Some? ==> oldest.value in taskStates && Older(taskStates[oldest.value], now)
        invariant oldest.Some? ==> oldestTime == taskStates[oldest.value].history[0].event.firstTime.value
        invariant forall id :: id in taskStates && id !in todo ==> !Older(taskStates[id], oldestTime)
      {
        var id :| id in todo;
        var history := taskStates[id].history;
        if |history| > 0 {
          var first := history[0].event.firstTime;
          if first.Some? && first.value < oldestTime {
            oldestTime := first.value;
            oldest := Some(id);
          }
        }
        todo := todo - {id};
      }
    }

    /** Records a snapshot and then evicts whole tasks, oldest first, until the total fits
        or no task is old enough. The clock stands at now or later whenever it is read. */
    method RecordTask(id: TaskId, ev: Event, now: int)
      requires Valid()
      modifies this
      ensures Valid()
      ensures totalHistSize <= maxTotalHist || forall x :: x in taskStates ==> !Older(taskStates[x], now)
      ensures var t := Apply(old(taskStates), Append(id, ev), maxHistoryLen);
              && EvictedOldest(t, taskStates) && EvictedLittle(t, taskStates, maxTotalHist)
              && taskStates == Apply(t, Forget(t.Keys - taskStates.Keys), maxHistoryLen)
              && (Total(t) <= maxTotalHist ==> taskStates == t)
    {
      AppendEvent(id, ev);
      ghost var t := taskStates;
      hide Total, Contiguous, Apply, EvictedOldest, EvictedLittle, Older;
      NothingEvicted(t);
      EvictOldTasks(t, now);
      EvictionForgets(t, taskStates, maxHistoryLen);
    }

    method EvictOldTasks(ghost t: Tasks, now: int)
      requires Valid() && EvictedOldest(t, taskStates) && EvictedLittle(t, taskStates, maxTotalHist)
      modifies this
      ensures Valid() && EvictedOldest(t, taskStates) && EvictedLittle(t, taskStates, maxTotalHist)
      ensures totalHistSize <= maxTotalHist || forall x :: x in taskStates ==> !Older(taskStates[x], now)
      ensures Total(old(taskStates)) <= maxTotalHist ==> taskStates == old(taskStates)
    {
      hide Total, Contiguous, EvictedOldest, EvictedLittle, IsOldest;
      while totalHistSize > maxTotalHist
        invariant Valid() && EvictedOldest(t, taskStates) && EvictedLittle(t, taskStates, maxTotalHist)
        invariant Total(old(taskStates)) <= maxTotalHist ==> taskStates == old(taskStates)
        decreases |taskStates|
      {
        var reading: int :| reading >= now;
        var oldest := Oldest(reading);
        if oldest == None {
          break;
        }
        OldestIsThere(taskStates, oldest.value, reading);
        TotalSplits(taskStates, oldest.value);
        EvictOneNeeded(t, taskStates, oldest.value, maxTotalHist);
        EvictOne(t, taskStates, oldest.value, reading);
        totalHistSize := totalHistSize - |taskStates[oldest.value].history|;
        taskStates := taskStates - {oldest.value};
      }
    }

    /** Forgets the tasks whose last known update lies before the cutoff. */
    method PurgeOldTasks(cutoff: int)
      requires Valid()
      modifies this
      ensures Valid()
      ensures taskStates
        == Apply(old(taskStates), Forget(set id | id in old(taskStates) && Expired(old(taskStates)[id], cutoff)), maxHistoryLen)
    {
      hide Total, Contiguous;
      var todo := taskStates.Keys;
      while todo != {}
        invariant Valid() && todo <= taskStates.Keys <= old(taskStates).Keys
        invariant taskStates == old(taskStates) - set id | id in old(taskStates) && id !in todo && Expired(old(taskStates)[id], cutoff)
      {
        var id :| id in todo;
        var history := taskStates[id].history;
        var last := if |history| > 0 then history[|history| - 1].event.lastTime else None;
        assert last.Some? && last.value < cutoff <==> Expired(taskStates[id], cutoff);
        hide Expired;
        if last.Some? && last.value < cutoff {
          TotalSplits(taskStates, id);
          totalHistSize := totalHistSize - |taskStates[id].history|;
          taskStates := taskStates - {id};
        }
        todo := todo - {id};
      }
    }

    /** The entries sent to a client that has seen everything up to afterSeq. */
    method Replay(id: TaskId, afterSeq: int) returns (replay: seq<Entry>)
      requires Valid()
      ensures replay == ReplayOf(StateOf(id).history, afterSeq)
    {
      var history := StateOf(id).history;
      if afterSeq > 0 {
        replay := [];
        for i := 0 to |history|
          invariant replay == ReplayOf(history[..i], afterSeq)
        {
          assert history[..i + 1][..i] == history[..i];
          if history[i].seqNo > afterSeq {
            replay := replay + [history[i]];
          }
        }
        assert history[..|history|] == history;
      } else {
        replay := history;
      }
    }

    /** Replay over the wire ends with the first final event. */
    method SendReplay(id: TaskId, afterSeq: int) returns (sent: seq<Entry>, over: bool)
      requires Valid()
      ensures sent == UntilFinal(ReplayOf(StateOf(id).history, afterSeq))
      ensures over <==> exists e :: e in ReplayOf(StateOf(id).history, afterSeq) && e.event.isFinal
    {
      var replay := Replay(id, afterSeq);
      hide UntilFinal, ReplayOf, Total, Contiguous;
      sent := [];
      assert replay[0..] == replay;
      for i := 0 to |replay|
        invariant sent == replay[..i] && UntilFinal(replay) == replay[..i] + UntilFinal(replay[i..])
        invariant forall e :: e in replay[..i] ==> !e.event.isFinal
      {
        UntilFinalStep(replay, i);
        sent := sent + [replay[i]];
        if replay[i].event.isFinal {
          return sent, true;
        }
      }
      NothingToSend();
      assert replay[..|replay|] == replay && replay[|replay|..] == [];
      return sent, false;
    }

    /** Shutting down drops every history and leaves the counter alone. */
    method Shutdown()
      modifies this
      ensures taskStates == map[] && totalHistSize == old(totalHistSize)
      ensures old(Valid()) ==> (Valid() <==> Total(old(taskStates)) == 0)
    {
      taskStates := map[];
    }
  }

  ghost predicate Expired(ts: TaskState, cutoff: int) {
    && ts.history != []
    && ts.history[|ts.history| - 1].event.lastTime.Some?
    && ts.history[|ts.history| - 1].event.lastTime.value < cutoff
  }

  // ---------------------------------------------------------------- replay

  function ReplayOf(history: seq<Entry>, afterSeq: int): seq<Entry> {
    if afterSeq <= 0 || history == [] then history
    else
      var last := history[|history| - 1];
      ReplayOf(history[..|history| - 1], afterSeq) + if last.seqNo > afterSeq then [last] else []
  }

  /** A client that names a positive number k gets exactly the retained events with larger
      numbers, as a suffix of the history; it misses nothing exactly when k + 1 is still
      retained or k is the last number handed out or beyond. */
  lemma {:induction false} ReplayIsSuffix(ts: TaskState, k: int)
    requires Contiguous(ts) && k > 0
    ensures var first := ts.nextSeq - |ts.history| + 1;
            var from := if k < first then 0 else if k >= ts.nextSeq then |ts.history| else k + 1 - first;
            && ReplayOf(ts.history, k) == ts.history[from..]
            && ((forall n :: k < n <= ts.nextSeq ==> Replayed(ReplayOf(ts.history, k), n)) <==> first <= k + 1)
  {
    var first := ts.nextSeq - |ts.history| + 1;
    var from := if k < first then 0 else if k >= ts.nextSeq then |ts.history| else k + 1 - first;
    SuffixByNumber(ts.history, first, k, from);
    var r := ReplayOf(ts.history, k);
    if first <= k + 1 {
      forall n | k < n <= ts.nextSeq
        ensures Replayed(r, n)
      {
        assert r[n - first - from] == ts.history[n - first];
      }
    } else {
      assert !Replayed(r, k + 1);
    }
  }

  ghost predicate Replayed(replay: seq<Entry>, n: int) {
    exists e :: e in replay && e.seqNo == n
  }

  lemma {:induction false} SuffixByNumber(history: seq<Entry>, first: int, k: int, from: nat)
    requires k > 0 && from <= |history|
    requires forall i :: 0 <= i < |history| ==> history[i].seqNo == first + i
    requires forall i :: 0 <= i < |history| ==> (history[i].seqNo > k <==> i >= from)
    ensures ReplayOf(history, k) == history[from..]
  {
    if history != [] {
      var n := |history| - 1;
      if from <= n {
        SuffixByNumber(history[..n], first, k, from);
        assert history[from..] == history[..n][from..] + [history[n]];
      } else {
        SuffixByNumber(history[..n], first, k, n);
        assert history[..n][n..] == [];
      }
    }
  }

  function UntilFinal(replay: seq<Entry>): seq<Entry> {
    if replay == [] then []
    else if replay[0].event.isFinal then [replay[0]]
    else [replay[0]] + UntilFinal(replay[1..])
  }

  lemma UntilFinalStep(replay: seq<Entry>, i: nat)
    requires i < |replay|
    ensures replay[..i + 1] == replay[..i] + [replay[i]]
    ensures replay[..i] + UntilFinal(replay[i..])
      == replay[..i + 1] + if replay[i].event.isFinal then [] else UntilFinal(replay[i + 1..])
  {
    assert replay[i..][1..] == replay[i + 1..];
  }

  lemma NothingToSend()
    ensures UntilFinal([]) == []
  {
  }

  /** Nothing of the replay is withheld exactly when no event but the last is final. */
  lemma {:induction false} AllIsSentIff(replay: seq<Entry>)
    ensures UntilFinal(replay) <= replay
    ensures UntilFinal(replay) == replay <==> forall i :: 0 <= i < |replay| - 1 ==> !replay[i].event.isFinal
    ensures var sent := UntilFinal(replay);
      (forall i :: 0 <= i < |sent| - 1 ==> !sent[i].event.isFinal)
      && (sent != replay ==> sent != [] && sent[|sent| - 1].event.isFinal)
  {
    if replay != [] {
      AllIsSentIff(replay[1..]);
      assert replay == [replay[0]] + replay[1..];
      assert forall i :: 0 < i < |replay| ==> replay[i] == replay[1..][i - 1];
      assert forall i :: 0 <= i < |replay[1..]| ==> replay[1..][i] == replay[i + 1];
    }
  }

  // ---------------------------------------------------------------- replay over a history

  /** Task id is forgotten by one of the operations. */
  predicate Forgotten(ops: seq<Op>, id: TaskId) {
    exists i :: 0 <= i < |ops| && ops[i].Forget? && id in ops[i].ids
  }

  /** The entries made for task id by these operations, since it was last forgotten. */
  function NewEntries(m: Tasks, ops: seq<Op>, id: TaskId, maxHistoryLen: int): seq<Entry>
    requires maxHistoryLen >= 1
  {
    if ops == [] then [] else
      var before, op := ops[..|ops| - 1], ops[|ops| - 1];
      var entries := NewEntries(m, before, id, maxHistoryLen);
      if op.Append? && op.id == id then entries + [Entry(op.event, StateIn(After(m, before, maxHistoryLen), id).nextSeq + 1)]
      else if op.Forget? && id in op.ids then []
      else entries
  }

  /** What operations leave of a task that had handed out number k: as long as it is not
      forgotten all new entries have larger numbers; afterwards all its entries are new. */
  ghost predicate Continues(ts: TaskState, entries: seq<Entry>, forgotten: bool, k: int) {
    && Contiguous(ts)
    && (if forgotten then forall e :: e in ts.history ==> e in entries
        else k <= ts.nextSeq && forall e :: e in entries ==> e.seqNo > k)
  }

  lemma {:induction false} OpsContinue(m: Tasks, ops: seq<Op>, id: TaskId, k: int, maxHistoryLen: int)
    requires maxHistoryLen >= 1 && Contiguous(StateIn(m, id)) && k <= StateIn(m, id).nextSeq
    ensures Continues(StateIn(After(m, ops, maxHistoryLen), id), NewEntries(m, ops, id, maxHistoryLen), Forgotten(ops, id), k)
  {
    if ops != [] {
      var before, op := ops[..|ops| - 1], ops[|ops| - 1];
      OpsContinue(m, before, id, k, maxHistoryLen);
      assert ops == before + [op];
      OneMoreOp(m, before, op, id, maxHistoryLen);
      OneMoreEntry(m, before, op, id, maxHistoryLen);
      ForgottenNow(before, op, id);
      hide Continues, After, NewEntries, Forgotten, Appended, StateIn, Contiguous;
      var ts, entries := StateIn(After(m, before, maxHistoryLen), id), NewEntries(m, before, id, maxHistoryLen);
      if op.Append? && op.id == id {
        AppendContinues(ts, entries, Forgotten(before, id), k, op.event, maxHistoryLen);
      } else if op.Forget? && id in op.ids {
        FreshContinues(k);
      }
    }
  }

  lemma AppendContinues(ts: TaskState, entries: seq<Entry>, forgotten: bool, k: int, ev: Event, maxHistoryLen: int)
    requires maxHistoryLen >= 1 && Continues(ts, entries, forgotten, k)
    ensures Continues(Appended(ts, ev, maxHistoryLen), entries + [Entry(ev, ts.nextSeq + 1)], forgotten, k)
  {
    AppendedKeeps(ts, ev, maxHistoryLen);
    AppendedHolds(ts, ev, maxHistoryLen);
    hide Appended, Contiguous;
    var added := Entry(ev, ts.nextSeq + 1);
    assert forall e :: e in entries + [added] <==> e in entries || e == added;
  }

  lemma FreshContinues(k: int)
    ensures Continues(FRESH, [], true, k)
  {
  }

  lemma OneMoreOp(m: Tasks, before: seq<Op>, op: Op, id: TaskId, maxHistoryLen: int)
    requires maxHistoryLen >= 1
    ensures var ts := StateIn(After(m, before, maxHistoryLen), id);
      StateIn(After(m, before + [op], maxHistoryLen), id)
      == (if op.Append? && op.id == id then Appended(ts, op.event, maxHistoryLen)
          else if op.Forget? && id in op.ids then FRESH else ts)
  {
    var ops, now := before + [op], After(m, before, maxHistoryLen);
    assert ops[..|ops| - 1] == before && ops[|ops| - 1] == op;
    assert After(m, ops, maxHistoryLen) == Apply(now, op, maxHistoryLen);
    hide Appended, After;
  }

  lemma OneMoreEntry(m: Tasks, before: seq<Op>, op: Op, id: TaskId, maxHistoryLen: int)
    requires maxHistoryLen >= 1
    ensures var ts, entries := StateIn(After(m, before, maxHistoryLen), id), NewEntries(m, before, id, maxHistoryLen);
      NewEntries(m, before + [op], id, maxHistoryLen)
      == (if op.Append? && op.id == id then entries + [Entry(op.event, ts.nextSeq + 1)]
          else if op.Forget? && id in op.ids then [] else entries)
  {
    hide After;
    var ops := before + [op];
    assert ops[..|ops| - 1] == before && ops[|ops| - 1] == op;
  }

  lemma ForgottenNow(before: seq<Op>, op: Op, id: TaskId)
    ensures Forgotten(before + [op], id) <==> Forgotten(before, id) || (op.Forget? && id in op.ids)
  {
    var ops := before + [op];
    assert ops[|before|] == op;
    assert forall i :: 0 <= i < |before| ==> ops[i] == before[i];
  }

  lemma AppendedHolds(ts: TaskState, ev: Event, maxHistoryLen: int)
    requires maxHistoryLen >= 1
    ensures forall e :: e in Appended(ts, ev, maxHistoryLen).history ==> e in ts.history || e == Entry(ev, ts.nextSeq + 1)
    ensures Appended(ts, ev, maxHistoryLen).nextSeq == ts.nextSeq + 1
  {
  }

  lemma {:induction false} ReplayHolds(history: seq<Entry>, k: int)
    requires k > 0
    ensures forall e :: e in ReplayOf(history, k) <==> e in history && e.seqNo > k
  {
    if history != [] {
      var n := |history| - 1;
      ReplayHolds(history[..n], k);
      assert history == history[..n] + [history[n]];
    }
  }

  /** Over any history of operations: a client that has seen number k, and asks for what came
      after, gets every event appended since and still retained exactly when the task was not
      forgotten in between, or nothing is retained, or k is below all retained numbers. */
  lemma ReplayIsRightIff(m: Tasks, ops: seq<Op>, id: TaskId, k: int, maxHistoryLen: int)
    requires maxHistoryLen >= 1 && Contiguous(StateIn(m, id)) && 0 < k <= StateIn(m, id).nextSeq
    ensures var history := StateIn(After(m, ops, maxHistoryLen), id).history;
      (forall e :: e in NewEntries(m, ops, id, maxHistoryLen) && e in history ==> e in ReplayOf(history, k))
      <==> !Forgotten(ops, id) || history == [] || k < history[0].seqNo
  {
    var ts := StateIn(After(m, ops, maxHistoryLen), id);
    OpsContinue(m, ops, id, k, maxHistoryLen);
    ReplayHolds(ts.history, k);
    hide After, NewEntries, ReplayOf, Forgotten;
    if Forgotten(ops, id) && ts.history != [] {
      assert ts.history[0] in ts.history;
    }
  }

  lemma NothingAfterOwnNumber(ev: Event)
    ensures ReplayOf([Entry(ev, 1)], 1) == []
  {
    assert [Entry(ev, 1)][..0] == [];
  }

  /** A client that saw number 1 of a task, which is purged and comes back, is sent nothing,
      though the task has a new event. */
  method PurgedNumberHidesEvent(ev: Event, later: Event, cutoff: int)
    returns (seen: seq<Entry>, retained: seq<Entry>, replay: seq<Entry>)
    requires ev.lastTime.Some? && ev.lastTime.value < cutoff
    ensures seen == [Entry(ev, 1)] && retained == [Entry(later, 1)] && replay == []
  {
    var id := "task";
    var server := new Server(64, 1000);
    server.PublishTaskUpdate(id, ev);
    assert server.StateOf(id).history == [Entry(ev, 1)];
    seen := server.Replay(id, 0);
    server.PurgeOldTasks(cutoff);
    assert id !in server.taskStates;
    server.PublishTaskUpdate(id, later);
    assert server.StateOf(id).history == [Entry(later, 1)];
    retained := server.Replay(id, 0);
    replay := server.Replay(id, 1);
    NothingAfterOwnNumber(later);
  }
}
