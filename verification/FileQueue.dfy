/** The per-path lock of the file mutation queue, as a protocol.

    Any number of callers run WithFile at once, each any number of times.  A step is
    one critical section of the program; lock objects are numbered in the order in
    which they are allocated, so a deleted and recreated lock is a different number. */
module FileQueue {
  import opened Options

  type Key = string
  type Caller = nat
  type LockId = nat

  /** Where a caller stands in WithFile. */
  datatype Pc =
    | Outside
    | WantsLock(key: Key, lock: LockId)
    | InFn(key: Key, lock: LockId)
    | Unlocked(key: Key, lock: LockId)

  datatype FileLock = FileLock(owner: Option<Caller>, refs: int)

  datatype State = State(queues: map<Key, LockId>, locks: seq<FileLock>, callers: seq<Pc>)

  datatype Step =
    | Enter(c: Caller, key: Key)
    | Acquire(c: Caller)
    | Release(c: Caller)
    | Leave(c: Caller)

  ghost predicate Init(s: State) {
    s.queues == map[] && s.locks == [] && forall c :: 0 <= c < |s.callers| ==> s.callers[c] == Outside
  }

  /** The step can be taken: the caller stands at it, and a mutex to take is free. */
  predicate Enabled(s: State, step: Step) {
    && step.c < |s.callers|
    && var pc := s.callers[step.c];
       match step
       case Enter(_, key) => pc.Outside? && (key in s.queues ==> s.queues[key] < |s.locks|)
       case Acquire(_) => pc.WantsLock? && pc.lock < |s.locks| && s.locks[pc.lock].owner == None
       case Release(_) => pc.InFn? && pc.lock < |s.locks|
       case Leave(_) => pc.Unlocked? && pc.lock < |s.locks|
  }

  function Next(s: State, step: Step): State
    requires Enabled(s, step)
  {
    var pc := s.callers[step.c];
    match step
    case Enter(c, key) =>
      if key in s.queues then
        var l := s.queues[key];
        s.(locks := s.locks[l := s.locks[l].(refs := s.locks[l].refs + 1)],
           callers := s.callers[c := WantsLock(key, l)])
      else
        var l := |s.locks|;
        s.(queues := s.queues[key := l],
           locks := s.locks + [FileLock(None, 1)],
           callers := s.callers[c := WantsLock(key, l)])
    case Acquire(c) =>
      s.(locks := s.locks[pc.lock := s.locks[pc.lock].(owner := Some(c))],
         callers := s.callers[c := InFn(pc.key, pc.lock)])
    case Release(c) =>
      s.(locks := s.locks[pc.lock := s.locks[pc.lock].(owner := None)],
         callers := s.callers[c := Unlocked(pc.key, pc.lock)])
    case Leave(c) =>
      var refs := s.locks[pc.lock].refs - 1;
      s.(queues := if refs == 0 then s.queues - {pc.key} else s.queues,
         locks := s.locks[pc.lock := s.locks[pc.lock].(refs := refs)],
         callers := s.callers[c := Outside])
  }

  /** The i-th step of the trace is taken. */
  ghost predicate StepAt(trace: seq<State>, steps: seq<Step>, i: nat)
    requires i < |steps| < |trace|
  {
    Enabled(trace[i], steps[i]) && trace[i + 1] == Next(trace[i], steps[i])
  }

  /** trace is a run of the protocol: from an initial state, step by step. */
  ghost predicate IsRun(trace: seq<State>, steps: seq<Step>) {
    && |trace| == |steps| + 1 && Init(trace[0])
    && forall i :: 0 <= i < |steps| ==> StepAt(trace, steps, i)
  }

  // ---------------------------------------------------------------- what every state keeps

  /** The callers that hold a reference to lock l. */
  ghost function Users(callers: seq<Pc>, l: LockId): set<Caller> {
    set c | 0 <= c < |callers| && !callers[c].Outside? && callers[c].lock == l
  }

  /** Every caller uses the lock its key's entry points to. */
  ghost predicate CallersShare(s: State) {
    forall c :: 0 <= c < |s.callers| && !s.callers[c].Outside? ==>
      s.callers[c].key in s.queues && s.queues[s.callers[c].key] == s.callers[c].lock
  }

  /** Entries point to different locks, each in use. */
  ghost predicate EntriesLive(s: State) {
    && (forall k :: k in s.queues ==> s.queues[k] < |s.locks| && s.locks[s.queues[k]].refs > 0)
    && (forall k, k' :: k in s.queues && k' in s.queues && s.queues[k] == s.queues[k'] ==> k == k')
  }

  /** The reference count of a lock is the number of its users. */
  ghost predicate RefsCount(s: State) {
    forall l :: 0 <= l < |s.locks| ==> s.locks[l].refs == |Users(s.callers, l)|
  }

  ghost predicate OwnedBy(s: State, l: LockId, d: Caller) {
    d < |s.callers| && s.callers[d].InFn? && s.callers[d].lock == l
  }

  /** The owner of a lock is inside fn with it, and the other way round. */
  ghost predicate OwnersInside(s: State) {
    && (forall l :: 0 <= l < |s.locks| && s.locks[l].owner.Some? ==> OwnedBy(s, l, s.locks[l].owner.value))
    && (forall c :: 0 <= c < |s.callers| && s.callers[c].InFn? ==>
         s.callers[c].lock < |s.locks| && s.locks[s.callers[c].lock].owner == Some(c))
  }

  ghost predicate Inv(s: State) {
    CallersShare(s) && EntriesLive(s) && RefsCount(s) && OwnersInside(s)
  }

  lemma InitHolds(s: State)
    requires Init(s)
    ensures Inv(s)
  {
  }

  lemma UsersAdd(callers: seq<Pc>, c: Caller, pc: Pc, l: LockId)
    requires c < |callers| && callers[c].Outside? && !pc.Outside?
    ensures |Users(callers[c := pc], l)| == |Users(callers, l)| + if pc.lock == l then 1 else 0
  {
    assert Users(callers[c := pc], l) == if pc.lock == l then Users(callers, l) + {c} else Users(callers, l);
  }

  lemma UsersKeep(callers: seq<Pc>, c: Caller, pc: Pc, l: LockId)
    requires c < |callers| && !callers[c].Outside? && !pc.Outside? && pc.lock == callers[c].lock
    ensures |Users(callers[c := pc], l)| == |Users(callers, l)|
  {
    assert Users(callers[c := pc], l) == Users(callers, l);
  }

  lemma UsersRemove(callers: seq<Pc>, c: Caller, l: LockId)
    requires c < |callers| && !callers[c].Outside?
    ensures |Users(callers[c := Outside], l)| == |Users(callers, l)| - if callers[c].lock == l then 1 else 0
  {
    assert Users(callers[c := Outside], l) == Users(callers, l) - {c};
    assert c in Users(callers, l) <==> callers[c].lock == l;
  }

  lemma NoUsers(callers: seq<Pc>, l: LockId)
    requires forall c :: 0 <= c < |callers| && !callers[c].Outside? ==> callers[c].lock != l
    ensures |Users(callers, l)| == 0
  {
    assert Users(callers, l) == {};
  }

  lemma SomeUser(callers: seq<Pc>, l: LockId, c: Caller)
    requires c < |callers| && !callers[c].Outside? && callers[c].lock == l
    ensures |Users(callers, l)| > 0
  {
    assert c in Users(callers, l);
  }

  /** RefsCount carried over from s to t, lock by lock. */
  lemma {:induction false} StepKeepsRefs(s: State, step: Step)
    requires CallersShare(s) && EntriesLive(s) && RefsCount(s) && Enabled(s, step)
    ensures RefsCount(Next(s, step))
  {
    var t := Next(s, step);
    var pc, pc' := s.callers[step.c], t.callers[step.c];
    forall l | 0 <= l < |t.locks|
      ensures t.locks[l].refs == |Users(t.callers, l)|
    {
      hide Users;
      if step.Enter? {
        UsersAdd(s.callers, step.c, pc', l);
        if l == |s.locks| {
          NoUsers(s.callers, l);
        }
      } else if step.Leave? {
        UsersRemove(s.callers, step.c, l);
      } else {
        UsersKeep(s.callers, step.c, pc', l);
      }
    }
  }

  lemma {:induction false} StepKeepsOwners(s: State, step: Step)
    requires CallersShare(s) && EntriesLive(s) && OwnersInside(s) && Enabled(s, step)
    ensures OwnersInside(Next(s, step))
  {
    var t := Next(s, step);
    forall l | 0 <= l < |t.locks| && t.locks[l].owner.Some?
      ensures OwnedBy(t, l, t.locks[l].owner.value)
    {
      if l < |s.locks| && s.locks[l].owner == t.locks[l].owner {
        assert OwnedBy(s, l, s.locks[l].owner.value);
      }
    }
  }

  /** The caller that leaves last takes its own entry with it. */
  lemma {:induction false} LeaveKeepsEntries(s: State, c: Caller)
    requires CallersShare(s) && EntriesLive(s) && RefsCount(s) && Enabled(s, Leave(c))
    ensures CallersShare(Next(s, Leave(c))) && EntriesLive(Next(s, Leave(c)))
  {
    var t := Next(s, Leave(c));
    var pc := s.callers[c];
    StepKeepsRefs(s, Leave(c));
    hide Users;
    forall d | 0 <= d < |t.callers| && !t.callers[d].Outside? && t.callers[d].lock == pc.lock
      ensures t.locks[pc.lock].refs > 0
    {
      SomeUser(t.callers, pc.lock, d);
    }
    assert forall k :: k in s.queues && k != pc.key ==> s.queues[k] != pc.lock;
  }

  lemma {:induction false} OtherStepsKeepEntries(s: State, step: Step)
    requires CallersShare(s) && EntriesLive(s) && Enabled(s, step) && !step.Leave?
    ensures CallersShare(Next(s, step)) && EntriesLive(Next(s, step))
  {
  }

  lemma {:induction false} StepKeeps(s: State, step: Step)
    requires Inv(s) && Enabled(s, step)
    ensures Inv(Next(s, step))
  {
    StepKeepsRefs(s, step);
    StepKeepsOwners(s, step);
    if step.Leave? {
      LeaveKeepsEntries(s, step.c);
    } else {
      OtherStepsKeepEntries(s, step);
    }
  }

  lemma {:induction false} RunKeeps(trace: seq<State>, steps: seq<Step>, i: nat)
    requires IsRun(trace, steps) && i < |trace|
    ensures Inv(trace[i])
  {
    if i == 0 {
      InitHolds(trace[0]);
    } else {
      RunKeeps(trace, steps, i - 1);
      assert StepAt(trace, steps, i - 1);
      StepKeeps(trace[i - 1], steps[i - 1]);
    }
  }

  // ---------------------------------------------------------------- the promises

  /** At every moment of every run, at most one caller is inside fn for a key. */
  lemma {:induction false} MutualExclusion(trace: seq<State>, steps: seq<Step>, i: nat, c: Caller, d: Caller)
    requires IsRun(trace, steps) && i < |trace|
    requires c < |trace[i].callers| && d < |trace[i].callers|
    requires trace[i].callers[c].InFn? && trace[i].callers[d].InFn?
    requires trace[i].callers[c].key == trace[i].callers[d].key
    ensures c == d
  {
    RunKeeps(trace, steps, i);
  }

  /** The map holds an entry for a key exactly while some caller uses the key; all of
      them share the entry's lock, whose count is their number. */
  lemma {:induction false} EntriesAreInUse(trace: seq<State>, steps: seq<Step>, i: nat, key: Key)
    requires IsRun(trace, steps) && i < |trace|
    ensures var s := trace[i];
            var users := set c | 0 <= c < |s.callers| && !s.callers[c].Outside? && s.callers[c].key == key;
            && (key in s.queues <==> users != {})
            && (key in s.queues ==>
                 && s.queues[key] < |s.locks|
                 && s.locks[s.queues[key]].refs == |users|
                 && forall c :: c in users ==> s.callers[c].lock == s.queues[key])
  {
    RunKeeps(trace, steps, i);
    var s := trace[i];
    var users := set c | 0 <= c < |s.callers| && !s.callers[c].Outside? && s.callers[c].key == key;
    if key in s.queues {
      assert users == Users(s.callers, s.queues[key]);
    } else {
      assert users == {};
    }
  }

  /** When no caller is inside WithFile the map is empty. */
  lemma {:induction false} EmptyAtQuiescence(trace: seq<State>, steps: seq<Step>, i: nat)
    requires IsRun(trace, steps) && i < |trace|
    requires forall c :: 0 <= c < |trace[i].callers| ==> trace[i].callers[c].Outside?
    ensures trace[i].queues == map[]
  {
    forall key | key in trace[i].queues
      ensures false
    {
      EntriesAreInUse(trace, steps, i, key);
    }
  }

  /** A caller outside can always come in; and while anyone is inside WithFile, one of
      those inside can move, so no reachable state is a deadlock. */
  lemma {:induction false} NoDeadlock(trace: seq<State>, steps: seq<Step>, i: nat, c: Caller, key: Key)
    requires IsRun(trace, steps) && i < |trace| && c < |trace[i].callers|
    ensures trace[i].callers[c].Outside? ==> Enabled(trace[i], Enter(c, key))
    ensures !trace[i].callers[c].Outside? ==> exists step: Step :: !step.Enter? && Enabled(trace[i], step)
  {
    RunKeeps(trace, steps, i);
    var s := trace[i];
    match s.callers[c] {
      case Outside =>
      case WantsLock(_, l) =>
        match s.locks[l].owner {
          case None => assert Enabled(s, Acquire(c));
          case Some(d) => assert Enabled(s, Release(d));
        }
      case InFn(_, _) => assert Enabled(s, Release(c));
      case Unlocked(_, _) => assert Enabled(s, Leave(c));
    }
  }

  /** From the step Enter to its step Leave a caller works on the key it came with. */
  lemma {:induction false} KeepsItsKey(trace: seq<State>, steps: seq<Step>, i: nat, j: nat, c: Caller, key: Key)
    requires IsRun(trace, steps) && i < j < |trace| && steps[i] == Enter(c, key)
    requires forall k :: i < k < j ==> steps[k] != Leave(c)
    ensures c < |trace[j].callers| && !trace[j].callers[c].Outside? && trace[j].callers[c].key == key
    decreases j
  {
    assert StepAt(trace, steps, j - 1);
    if i < j - 1 {
      KeepsItsKey(trace, steps, i, j - 1, c, key);
    }
  }

  /** Callers of different keys never wait for each other: who wants the lock gets it at once,
      unless another caller is inside fn with the very same key. */
  lemma {:induction false} WaitsForSameKeyOnly(trace: seq<State>, steps: seq<Step>, i: nat, c: Caller)
    requires IsRun(trace, steps) && i < |trace| && c < |trace[i].callers| && trace[i].callers[c].WantsLock?
    ensures var s := trace[i];
      Enabled(s, Acquire(c))
      <==> !exists d :: 0 <= d < |s.callers| && s.callers[d].InFn? && s.callers[d].key == s.callers[c].key
  {
    RunKeeps(trace, steps, i);
    var s := trace[i];
    var l := s.callers[c].lock;
    if s.locks[l].owner.Some? {
      var d := s.locks[l].owner.value;
      assert OwnedBy(s, l, d);
      assert s.callers[d].key == s.callers[c].key;
    }
  }
}
