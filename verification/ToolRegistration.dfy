/** Step-scoped tool registration: a model step captures the registered tools and later
    resolves a call only if the registration it captured is still the current one. */
module ToolRegistration {
  import opened Options

  type Name = string

  /** A tool, told apart from others by its pointer. */
  datatype Tool = Tool(name: Name, pointer: nat)

  /** A registration object, told apart from all others by when it was allocated. */
  type Token = nat

  datatype StepTool = StepTool(registration: Token, tool: Tool)

  datatype Reg = Reg(tools: map<Name, Tool>, registrations: map<Name, Token>, next: nat)

  datatype Resolution = Found(tool: Tool) | NotFound | StaleRegistration | StepClosed

  function RegisterOne(r: Reg, t: Tool): Reg {
    Reg(r.tools[t.name := t], r.registrations[t.name := r.next], r.next + 1)
  }

  function RegisterAll(r: Reg, ts: seq<Tool>): Reg {
    if ts == [] then r else RegisterOne(RegisterAll(r, ts[..|ts| - 1]), ts[|ts| - 1])
  }

  function UnregisterAll(r: Reg, names: seq<Name>): Reg {
    if names == [] then r else
      var q := UnregisterAll(r, names[..|names| - 1]);
      var name := names[|names| - 1];
      q.(tools := q.tools - {name}, registrations := q.registrations - {name})
  }

  function Captured(r: Reg): map<Name, StepTool> {
    map name | name in r.tools && name in r.registrations :: StepTool(r.registrations[name], r.tools[name])
  }

  function ResolveIn(r: Reg, tools: map<Name, StepTool>, closed: bool, name: Name): Resolution {
    if closed then StepClosed
    else if name in tools then
      if name in r.registrations && r.registrations[name] == tools[name].registration then Found(tools[name].tool)
      else StaleRegistration
    else if name in r.registrations then StaleRegistration
    else NotFound
  }

  // ---------------------------------------------------------------- the objects

  class Registry {
    var tools: map<Name, Tool>
    var registrations: map<Name, Token>
    var next: nat

    ghost predicate Valid()
      reads this
    {
      KeysAgree(State())
    }

    function State(): Reg
      reads this
    {
      Reg(tools, registrations, next)
    }

    constructor ()
      ensures Valid() && State() == Reg(map[], map[], 0)
    {
      tools, registrations := map[], map[];
      next := 0;
    }

    method Register(ts: seq<Tool>)
      requires Valid()
      modifies this
      ensures Valid() && State() == RegisterAll(old(State()), ts)
    {
      for i := 0 to |ts|
        invariant Valid() && State() == RegisterAll(old(State()), ts[..i])
      {
        assert ts[..i + 1][..i] == ts[..i];
        tools := tools[ts[i].name := ts[i]];
        registrations := registrations[ts[i].name := next];
        next := next + 1;
      }
      assert ts[..|ts|] == ts;
    }

    method Unregister(names: seq<Name>)
      requires Valid()
      modifies this
      ensures Valid() && State() == UnregisterAll(old(State()), names)
    {
      for i := 0 to |names|
        invariant Valid() && State() == UnregisterAll(old(State()), names[..i])
      {
        assert names[..i + 1][..i] == names[..i];
        tools := tools - {names[i]};
        registrations := registrations - {names[i]};
      }
      assert names[..|names|] == names;
    }

    method CaptureStep() returns (step: RegistrationStep)
      requires Valid()
      ensures fresh(step) && step.registry == this && !step.closed && step.tools == Captured(State())
    {
      var captured: map<Name, StepTool> := map[];
      var todo := tools.Keys;
      while todo != {}
        invariant todo <= tools.Keys
        invariant captured == map name | name in tools && name !in todo :: StepTool(registrations[name], tools[name])
      {
        var name :| name in todo;
        captured := captured[name := StepTool(registrations[name], tools[name])];
        todo := todo - {name};
      }
      step := new RegistrationStep(this, captured);
    }
  }

  class RegistrationStep {
    const registry: Registry
    var tools: map<Name, StepTool>
    var closed: bool

    constructor (registry: Registry, tools: map<Name, StepTool>)
      ensures this.registry == registry && this.tools == tools && !closed
    {
      this.registry := registry;
      this.tools := tools;
      closed := false;
    }

    method Close()
      modifies this
      ensures closed && tools == map[]
    {
      closed := true;
      tools := map[];
    }

    method Resolve(name: Name) returns (r: Resolution)
      ensures r == ResolveIn(registry.State(), tools, closed, name)
    {
      if closed {
        return StepClosed;
      }
      if name in tools {
        var entry := tools[name];
        if name !in registry.registrations || registry.registrations[name] != entry.registration {
          return StaleRegistration;
        }
        return Found(entry.tool);
      }
      if name in registry.registrations {
        return StaleRegistration;
      }
      return NotFound;
    }
  }

  // ---------------------------------------------------------------- histories

  datatype Op =
    | Register(tools: seq<Tool>)
    | Unregister(names: seq<Name>)
    | Capture
    | Close(step: nat)

  datatype Step = Step(tools: map<Name, StepTool>, closed: bool)

  /** The registry and all steps captured so far. */
  datatype World = World(reg: Reg, steps: seq<Step>)

  const START := World(Reg(map[], map[], 0), [])

  function Apply(w: World, op: Op): World {
    match op
    case Register(ts) => w.(reg := RegisterAll(w.reg, ts))
    case Unregister(names) => w.(reg := UnregisterAll(w.reg, names))
    case Capture => w.(steps := w.steps + [Step(Captured(w.reg), false)])
    case Close(k) => if k < |w.steps| then w.(steps := w.steps[k := Step(map[], true)]) else w
  }

  function After(ops: seq<Op>): World {
    if ops == [] then START else Apply(After(ops[..|ops| - 1]), ops[|ops| - 1])
  }

  function Resolve(w: World, k: nat, name: Name): Resolution
    requires k < |w.steps|
  {
    ResolveIn(w.reg, w.steps[k].tools, w.steps[k].closed, name)
  }

  /** The operation registers or removes the name. */
  predicate Touches(op: Op, name: Name) {
    match op
    case Register(ts) => exists t :: t in ts && t.name == name
    case Unregister(names) => name in names
    case _ => false
  }

  predicate KeysAgree(r: Reg) {
    r.tools.Keys == r.registrations.Keys && forall name :: name in r.registrations ==> r.registrations[name] < r.next
  }

  /** The name's registration is the same before and after. */
  predicate Kept(before: Reg, after: Reg, name: Name) {
    && (name in before.registrations <==> name in after.registrations)
    && (name in before.registrations ==> after.registrations[name] == before.registrations[name])
  }

  /** The name is gone, or registered with an object that did not exist before. */
  predicate Renewed(before: Reg, after: Reg, name: Name) {
    name in after.registrations ==> after.registrations[name] >= before.next
  }

  lemma {:induction false} RegisterEffect(r: Reg, ts: seq<Tool>, name: Name)
    requires KeysAgree(r)
    ensures var q := RegisterAll(r, ts);
            && KeysAgree(q) && q.next >= r.next
            && (if Touches(Register(ts), name) then Renewed(r, q, name) else Kept(r, q, name))
  {
    if ts != [] {
      var n := |ts| - 1;
      RegisterEffect(r, ts[..n], name);
      assert ts == ts[..n] + [ts[n]];
    }
  }

  lemma {:induction false} UnregisterEffect(r: Reg, names: seq<Name>, name: Name)
    requires KeysAgree(r)
    ensures var q := UnregisterAll(r, names);
            && KeysAgree(q) && q.next == r.next
            && (if name in names then name !in q.registrations else Kept(r, q, name))
  {
    if names != [] {
      var n := |names| - 1;
      UnregisterEffect(r, names[..n], name);
      assert names == names[..n] + [names[n]];
    }
  }

  lemma {:induction false} OpEffect(w: World, op: Op, name: Name)
    requires KeysAgree(w.reg)
    ensures var q := Apply(w, op).reg;
            && KeysAgree(q) && q.next >= w.reg.next
            && (if Touches(op, name) then Renewed(w.reg, q, name) else Kept(w.reg, q, name))
  {
    match op {
      case Register(ts) => RegisterEffect(w.reg, ts, name);
      case Unregister(names) => UnregisterEffect(w.reg, names, name);
      case _ =>
    }
  }

  /** The two maps of the registry always have the same keys. */
  lemma {:induction false} MapsShareKeys(ops: seq<Op>)
    ensures KeysAgree(After(ops).reg)
  {
    if ops != [] {
      var n := |ops| - 1;
      MapsShareKeys(ops[..n]);
      OpEffect(After(ops[..n]), ops[n], "");
    }
  }

  ghost predicate TouchedBetween(ops: seq<Op>, p: int, i: int, name: Name)
    requires i <= |ops|
  {
    exists q :: p < q < i && 0 <= q && Touches(ops[q], name)
  }

  /** Registration objects that are gone stay gone. */
  lemma {:induction false} TokenAfter(ops: seq<Op>, p: nat, i: nat, name: Name)
    requires p < i <= |ops| && !Touches(ops[p], name)
    ensures var before, after := After(ops[..p]).reg, After(ops[..i]).reg;
            && before.next <= after.next
            && (if TouchedBetween(ops, p, i, name) then Renewed(before, after, name) else Kept(before, after, name))
    decreases i
  {
    hide Apply, KeysAgree;
    assert ops[..i][..i - 1] == ops[..i - 1];
    MapsShareKeys(ops[..i - 1]);
    OpEffect(After(ops[..i - 1]), ops[i - 1], name);
    if p < i - 1 {
      TokenAfter(ops, p, i - 1, name);
      assert TouchedBetween(ops, p, i, name) <==> TouchedBetween(ops, p, i - 1, name) || Touches(ops[i - 1], name);
    }
  }

  lemma AfterOneMore(ops: seq<Op>, i: nat)
    requires 0 < i <= |ops|
    ensures After(ops[..i]) == Apply(After(ops[..i - 1]), ops[i - 1])
  {
    assert ops[..i][..i - 1] == ops[..i - 1];
    hide Apply;
  }

  lemma ApplyKeepsStep(w: World, op: Op, k: nat)
    requires k < |w.steps|
    ensures k < |Apply(w, op).steps|
    ensures Apply(w, op).steps[k] == if op == Close(k) then Step(map[], true) else w.steps[k]
  {
  }

  /** A captured step keeps what it captured until it is closed. */
  lemma {:induction false} StepAfter(ops: seq<Op>, p: nat, i: nat)
    requires p < i <= |ops| && ops[p] == Capture
    ensures var k := |After(ops[..p]).steps|;
            && k < |After(ops[..i]).steps|
            && After(ops[..i]).steps[k] ==
                 if exists q :: p < q < i && ops[q] == Close(k) then Step(map[], true)
                 else Step(Captured(After(ops[..p]).reg), false)
    decreases i
  {
    AfterOneMore(ops, i);
    if p < i - 1 {
      hide Apply, After;
      StepAfter(ops, p, i - 1);
      ApplyKeepsStep(After(ops[..i - 1]), ops[i - 1], |After(ops[..p]).steps|);
    }
  }

  // ---------------------------------------------------------------- which tool a name stands for

  /** The last tool of this name in a list. */
  function LastNamed(ts: seq<Tool>, name: Name): Option<Tool> {
    if ts == [] then None
    else if ts[|ts| - 1].name == name then Some(ts[|ts| - 1])
    else LastNamed(ts[..|ts| - 1], name)
  }

  /** The tool that was registered last under this name, if it was not removed since. */
  function Current(ops: seq<Op>, name: Name): Option<Tool> {
    if ops == [] then None else
      var before := Current(ops[..|ops| - 1], name);
      match ops[|ops| - 1]
      case Register(ts) => if LastNamed(ts, name).Some? then LastNamed(ts, name) else before
      case Unregister(names) => if name in names then None else before
      case _ => before
  }

  function ToolOf(r: Reg, name: Name): Option<Tool> {
    if name in r.tools then Some(r.tools[name]) else None
  }

  lemma {:induction false} RegisteredTool(r: Reg, ts: seq<Tool>, name: Name)
    ensures ToolOf(RegisterAll(r, ts), name) == if LastNamed(ts, name).Some? then LastNamed(ts, name) else ToolOf(r, name)
  {
    if ts != [] {
      RegisteredTool(r, ts[..|ts| - 1], name);
    }
  }

  lemma {:induction false} RemovedTool(r: Reg, names: seq<Name>, name: Name)
    ensures ToolOf(UnregisterAll(r, names), name) == if name in names then None else ToolOf(r, name)
  {
    if names != [] {
      var n := |names| - 1;
      RemovedTool(r, names[..n], name);
      assert names == names[..n] + [names[n]];
    }
  }

  /** After any history each name stands for the tool that was registered last under it, and
      for none if it was removed since. */
  lemma {:induction false} LastRegisteredIsThere(ops: seq<Op>, name: Name)
    ensures ToolOf(After(ops).reg, name) == Current(ops, name)
  {
    if ops != [] {
      var n := |ops| - 1;
      LastRegisteredIsThere(ops[..n], name);
      match ops[n] {
        case Register(ts) => RegisteredTool(After(ops[..n]).reg, ts, name);
        case Unregister(names) => RemovedTool(After(ops[..n]).reg, names, name);
        case _ =>
      }
    }
  }

  /** Over any history: the step captured at p, asked at i for a name, finds the tool that
      the name stood for at p exactly when it is open and the name has been neither registered
      nor removed since, the same tool registered again included; a closed step finds nothing;
      a name it did not capture is stale while registered and unknown otherwise. */
  lemma {:induction false} ResolvesIffUntouched(ops: seq<Op>, p: nat, i: nat, name: Name)
    requires p < i <= |ops| && ops[p] == Capture
    ensures var k, captured := |After(ops[..p]).steps|, Current(ops[..p], name);
            && k < |After(ops[..i]).steps|
            && Resolve(After(ops[..i]), k, name) ==
                 if exists q :: p < q < i && ops[q] == Close(k) then StepClosed
                 else if captured.Some? then
                   if TouchedBetween(ops, p, i, name) then StaleRegistration
                   else Found(captured.value)
                 else if Current(ops[..i], name).Some? then StaleRegistration
                 else NotFound
  {
    StepAfter(ops, p, i);
    TokenAfter(ops, p, i, name);
    MapsShareKeys(ops[..p]);
    MapsShareKeys(ops[..i]);
    LastRegisteredIsThere(ops[..p], name);
    LastRegisteredIsThere(ops[..i], name);
    hide Current, After;
    assert !Touches(ops[p], name);
  }

  /** Removing a tool and registering the very same one again makes the step stale. */
  lemma {:induction false} SameToolAgainIsStale(t: Tool)
    ensures var w := After([Register([t]), Capture, Unregister([t.name]), Register([t])]);
            |w.steps| == 1 && w.reg.tools == map[t.name := t] && Resolve(w, 0, t.name) == StaleRegistration
  {
    var ops := [Register([t]), Capture, Unregister([t.name]), Register([t])];
    assert ops[..3] == [Register([t]), Capture, Unregister([t.name])];
    assert ops[..3][..2] == [Register([t]), Capture] == ops[..2];
    assert ops[..2][..1] == [Register([t])] == ops[..1];
    assert ops[..1][..0] == [] == ops[..0];
    assert After(ops[..0]) == START;
    assert ops[..4] == ops;
    var r1 := RegisterAll(START.reg, [t]);
    assert [t][..0] == [];
    assert r1 == RegisterOne(RegisterAll(START.reg, [t][..0]), t);
    assert After(ops[..1]) == World(r1, []);
    assert After(ops[..2]).reg == r1;
    ResolvesIffUntouched(ops, 1, 4, t.name);
    assert Touches(ops[2], t.name);
    assert forall q :: 1 < q < 4 ==> !ops[q].Close?;
    var r3 := UnregisterAll(r1, [t.name]);
    assert [t.name][..0] == [];
    assert UnregisterAll(r1, []) == r1;
    assert r3.tools == r1.tools - {t.name} == map[];
    assert RegisterAll(r3, [t]) == RegisterOne(RegisterAll(r3, [t][..0]), t);
  }
}
