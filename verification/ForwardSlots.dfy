/** Slots of single-plugin forwards: a vector that never shrinks, a stack of slots to reuse, and deletion that
    waits for a running call.  Callbacks register, unregister and execute forwards in turn. */
module ForwardSlots {

  datatype Slot = Slot(isFree: bool, hasFunc: bool, inExec: bool, toDelete: bool, func: int)

  /** `free` is the stack of reusable handles, its top last.  Handle 2i + 1 names slot i. */
  datatype Manager = Manager(slots: seq<Slot>, free: seq<int>)

  predicate IsHandle(m: Manager, id: int) { id > 0 && id % 2 == 1 && id / 2 < |m.slots| }

  function SlotOf(m: Manager, id: int): Slot
    requires IsHandle(m, id)
  {
    m.slots[id / 2]
  }

  function Set(m: Manager, id: int, s: Slot): Manager
    requires IsHandle(m, id)
  {
    m.(slots := m.slots[id / 2 := s])
  }

  predicate GoodFree(m: Manager) { forall k :: 0 <= k < |m.free| ==> IsHandle(m, m.free[k]) }

  // ---------------------------------------------------------------- the operations

  /** What registration under a function index or a public name stores; a name may not be found. */
  function NewSlot(found: bool, func: int): Slot { Slot(false, found, false, false, func) }

  /** The handle, or -1 with the inspected slot already overwritten. */
  function Register(m: Manager, found: bool, func: int): (Manager, int)
    requires GoodFree(m)
  {
    if m.free != [] then
      var id := m.free[|m.free| - 1];
      var m1 := Set(m, id, NewSlot(found, func));
      if found then (m1.(free := m.free[..|m.free| - 1]), id) else (m1, -1)
    else if found then (m.(slots := m.slots + [NewSlot(found, func)]), 2 * |m.slots| + 1)
    else (m, -1)
  }

  function Unregister(m: Manager, id: int): Manager {
    if !IsHandle(m, id) || SlotOf(m, id).isFree then m
    else if SlotOf(m, id).inExec then Set(m, id, SlotOf(m, id).(toDelete := true))
    else Set(m, id, SlotOf(m, id).(isFree := true)).(free := m.free + [id])
  }

  /** Whether a call of the forward reaches the plugin. */
  predicate Runs(m: Manager, id: int, executable: bool)
    requires IsHandle(m, id)
  {
    var s := SlotOf(m, id);
    !s.isFree && s.hasFunc && !s.toDelete && executable
  }

  function Enter(m: Manager, id: int): Manager
    requires IsHandle(m, id)
  {
    Set(m, id, SlotOf(m, id).(inExec := true))
  }

  /** The end of the plugin call. */
  function Return(m: Manager, id: int): Manager
    requires IsHandle(m, id)
  {
    Set(m, id, SlotOf(m, id).(inExec := false))
  }

  /** The end of executeForwards: a deletion that waited takes place. */
  function Settle(m: Manager, id: int): Manager
    requires IsHandle(m, id)
  {
    if SlotOf(m, id).toDelete then Unregister(Set(m, id, SlotOf(m, id).(toDelete := false)), id) else m
  }

  // ---------------------------------------------------------------- runs

  /** What plugins do; the body of an execution is what the callback does. */
  datatype Action =
    | Reg(found: bool, func: int)
    | Unreg(id: int)
    | Exec(id: int, executable: bool, body: seq<Action>)

  /** The manager, and who has what: handles clients hold, handles given up during their own call, and the
      handles whose calls are running. */
  datatype World = World(m: Manager, held: set<int>, dying: set<int>, running: set<int>)

  function Perform(w: World, a: Action): World
    requires GoodFree(w.m)
    ensures GoodFree(Perform(w, a).m) && |w.m.slots| <= |Perform(w, a).m.slots|
    decreases a, 0
  {
    match a
    case Reg(found, func) =>
      var (m, id) := Register(w.m, found, func);
      w.(m := m, held := if found then w.held + {id} else w.held)
    case Unreg(id) =>
      w.(m := Unregister(w.m, id), held := w.held - {id}, dying := if id in w.running then w.dying + {id} else w.dying)
    case Exec(id, executable, body) =>
      if !IsHandle(w.m, id) then w
      else if !Runs(w.m, id, executable) then w.(m := Settle(w.m, id))
      else
        var w1 := w.(m := Enter(w.m, id), running := w.running + {id});
        var w2 := PerformAll(w1, body);
        World(Settle(Return(w2.m, id), id), w2.held, w2.dying - {id}, w2.running - {id})
  }

  function PerformAll(w: World, script: seq<Action>): World
    requires GoodFree(w.m)
    ensures GoodFree(PerformAll(w, script).m) && |w.m.slots| <= |PerformAll(w, script).m.slots|
    decreases script, 1
  {
    if script == [] then w else PerformAll(Perform(w, script[0]), script[1..])
  }

  /** Clients give up only handles they hold, and a live handle is not executed inside its own call. */
  predicate Allowed(w: World, a: Action)
    requires GoodFree(w.m)
    decreases a, 0
  {
    match a
    case Reg(_, _) => true
    case Unreg(id) => id in w.held
    case Exec(id, executable, body) =>
      && IsHandle(w.m, id) && (id in w.running ==> id in w.dying)
      && (Runs(w.m, id, executable) ==>
            AllAllowed(w.(m := Enter(w.m, id), running := w.running + {id}), body))
  }

  predicate AllAllowed(w: World, script: seq<Action>)
    requires GoodFree(w.m)
    decreases script, 1
  {
    script == [] || (Allowed(w, script[0]) && AllAllowed(Perform(w, script[0]), script[1..]))
  }

  // ---------------------------------------------------------------- the invariant

  predicate NoDuplicates(s: seq<int>) { forall a, b :: 0 <= a < b < |s| ==> s[a] != s[b] }

  /** Every slot is held, dying or on the stack, and only one of these; what is on the stack is not running and
      cannot be called. */
  ghost predicate Inv(w: World) {
    && GoodFree(w.m) && NoDuplicates(w.m.free)
    && (forall id :: IsHandle(w.m, id) <==> id in w.held || id in w.dying || id in w.m.free)
    && w.held !! w.dying && (forall id :: id in w.m.free ==> id !in w.held && id !in w.dying)
    && (forall id :: id in w.running ==> id in w.held || id in w.dying)
    && (forall id :: id in w.dying ==> id in w.running)
    && (forall id :: IsHandle(w.m, id) ==> GoodSlot(w, id))
  }

  ghost predicate GoodSlot(w: World, id: int)
    requires IsHandle(w.m, id)
  {
    var s := SlotOf(w.m, id);
    && (s.inExec <==> id in w.running) && (s.toDelete <==> id in w.dying)
    && (if id in w.m.free then s.isFree || !s.hasFunc else !s.isFree && s.hasFunc)
  }

  /** Running calls keep their slots: still running, the same function. */
  ghost predicate RunningKept(w: World, w': World) {
    && w'.running == w.running
    && forall id :: id in w.running && IsHandle(w.m, id) ==>
         IsHandle(w'.m, id) && SlotOf(w'.m, id).func == SlotOf(w.m, id).func && SlotOf(w'.m, id).inExec
  }

  lemma InvGood(w: World)
    requires Inv(w)
    ensures GoodFree(w.m)
  {
  }

  /** Registration takes the top slot of the stack ... */
  lemma ReuseInv(w: World, func: int)
    requires Inv(w) && w.m.free != []
    ensures var w' := Perform(w, Reg(true, func)); var id := w.m.free[|w.m.free| - 1];
      && Inv(w') && RunningKept(w, w') && w'.held == w.held + {id} && w'.dying == w.dying
      && id !in w.held && id !in w.dying && id !in w.running
  {
  }

  /** ... a name that is not found leaves it there, overwritten ... */
  lemma MissInv(w: World, func: int)
    requires Inv(w)
    ensures var w' := Perform(w, Reg(false, func));
      Inv(w') && RunningKept(w, w') && w'.held == w.held && w'.dying == w.dying && w'.m.free == w.m.free
  {
  }

  /** ... and with an empty stack the vector grows. */
  lemma AppendInv(w: World, func: int)
    requires Inv(w) && w.m.free == []
    ensures var w' := Perform(w, Reg(true, func)); var id := 2 * |w.m.slots| + 1;
      && Inv(w') && RunningKept(w, w') && w'.held == w.held + {id} && w'.dying == w.dying
      && id !in w.held && id !in w.dying && id !in w.running
  {
    var w' := Perform(w, Reg(true, func));
    var id := 2 * |w.m.slots| + 1;
    assert !IsHandle(w.m, id);
    forall k ensures IsHandle(w'.m, k) <==> IsHandle(w.m, k) || k == id {}
    forall k | IsHandle(w'.m, k) ensures GoodSlot(w', k) {
      if k != id { assert GoodSlot(w, k); }
    }
  }

  lemma UnregisterInv(w: World, id: int)
    requires Inv(w) && id in w.held
    ensures var w' := Perform(w, Unreg(id));
      && Inv(w') && RunningKept(w, w')
      && (id in w.running ==> w'.m.free == w.m.free && id in w'.dying)
      && (id !in w.running ==> w'.m.free == w.m.free + [id])
  {
    var w' := Perform(w, Unreg(id));
    assert IsHandle(w.m, id) && GoodSlot(w, id);
    forall k ensures IsHandle(w'.m, k) == IsHandle(w.m, k) {}
    forall k | IsHandle(w'.m, k) ensures GoodSlot(w', k) { assert GoodSlot(w, k); }
  }

  lemma EnterInv(w: World, id: int)
    requires Inv(w) && IsHandle(w.m, id) && id !in w.running && Runs(w.m, id, true)
    ensures Inv(w.(m := Enter(w.m, id), running := w.running + {id})) && id in w.held
  {
  }

  /** The end of a call: the handle stays with its holder, or the slot goes on the stack, once. */
  lemma LeaveInv(w: World, id: int)
    requires Inv(w) && id in w.running
    ensures var m := Settle(Return(w.m, id), id);
      && Inv(World(m, w.held, w.dying - {id}, w.running - {id}))
      && id !in w.m.free && m.free == (if id in w.dying then w.m.free + [id] else w.m.free)
      && (forall k :: k != id && IsHandle(w.m, k) ==> IsHandle(m, k) && SlotOf(m, k) == SlotOf(w.m, k))
  {
    assert IsHandle(w.m, id) && GoodSlot(w, id);
    var m := Settle(Return(w.m, id), id);
    var w' := World(m, w.held, w.dying - {id}, w.running - {id});
    forall k ensures IsHandle(m, k) == IsHandle(w.m, k) {}
    forall k | IsHandle(m, k) ensures GoodSlot(w', k) { assert GoodSlot(w, k); }
  }

  lemma IdleInv(w: World, id: int, executable: bool)
    requires Inv(w) && IsHandle(w.m, id) && !Runs(w.m, id, executable)
    ensures Settle(w.m, id) == w.m
  {
  }

  lemma KeptTrans(a: World, b: World, c: World)
    requires RunningKept(a, b) && RunningKept(b, c)
    ensures RunningKept(a, c)
  {
  }

  /** Whatever allowed thing happens, at any nesting: the slots stay partitioned, and no running call loses its
      slot. */
  lemma {:induction false} PerformInv(w: World, a: Action)
    requires Inv(w) && Allowed(w, a)
    ensures Inv(Perform(w, a)) && RunningKept(w, Perform(w, a))
    decreases a, 0
  {
    hide Inv, RunningKept, Register, Unregister, Settle, Return, Enter;
    match a {
      case Reg(found, func) =>
        if !found { MissInv(w, func); } else if w.m.free != [] { ReuseInv(w, func); } else { AppendInv(w, func); }
      case Unreg(id) => UnregisterInv(w, id);
      case Exec(id, executable, body) =>
        if Runs(w.m, id, executable) {
          ExecInv(w, id, body);
        } else {
          IdleInv(w, id, executable);
          KeptSelf(w);
        }
    }
  }

  lemma KeptSelf(w: World)
    requires Inv(w)
    ensures RunningKept(w, w)
  {
  }

  /** The world while the callback of `id` runs, at its end. */
  function Inside(w: World, id: int, body: seq<Action>): World
    requires GoodFree(w.m) && IsHandle(w.m, id)
  {
    PerformAll(w.(m := Enter(w.m, id), running := w.running + {id}), body)
  }

  lemma NotRunning(w: World, id: int)
    requires Inv(w) && IsHandle(w.m, id) && Runs(w.m, id, true) && (id in w.running ==> id in w.dying)
    ensures id !in w.running
  {
  }

  /** A call that runs: its slot is not on the stack when the callback ends, and goes there at that moment,
      once, if the handle was given up meanwhile. */
  lemma {:induction false} ExecInv(w: World, id: int, body: seq<Action>)
    requires Inv(w) && Allowed(w, Exec(id, true, body)) && Runs(w.m, id, true)
    ensures var w' := Perform(w, Exec(id, true, body)); var in_ := Inside(w, id, body);
      && Inv(w') && RunningKept(w, w')
      && id !in in_.m.free && SlotOf(in_.m, id).func == SlotOf(w.m, id).func
      && (if id in in_.held then w'.m.free == in_.m.free && id in w'.held
          else w'.m.free == in_.m.free + [id] && id !in w'.held)
    decreases body, 2
  {
    hide Inv, Unregister, Settle, Return, Enter;
    NotRunning(w, id);
    EnterInv(w, id);
    var w1 := w.(m := Enter(w.m, id), running := w.running + {id});
    PerformAllInv(w1, body);
    InvGood(w);
    var w2 := Inside(w, id, body);
    assert w2 == PerformAll(w1, body) && id in w2.running;
    LeaveInv(w2, id);
    EnterKeeps(w, id);
    HeldOrDying(w2, id);
  }

  lemma HeldOrDying(w: World, id: int)
    requires Inv(w) && id in w.running
    ensures IsHandle(w.m, id) && (id in w.dying <==> id !in w.held)
  {
  }

  lemma EnterKeeps(w: World, id: int)
    requires IsHandle(w.m, id)
    ensures IsHandle(Enter(w.m, id), id) && SlotOf(Enter(w.m, id), id).func == SlotOf(w.m, id).func
    ensures forall k :: k != id && IsHandle(w.m, k) ==>
      IsHandle(Enter(w.m, id), k) && SlotOf(Enter(w.m, id), k) == SlotOf(w.m, k)
  {
  }

  lemma {:induction false} PerformAllInv(w: World, script: seq<Action>)
    requires Inv(w) && AllAllowed(w, script)
    ensures Inv(PerformAll(w, script)) && RunningKept(w, PerformAll(w, script))
    decreases script, 1
  {
    hide Inv, RunningKept, Perform, Allowed;
    if script == [] {
      KeptSelf(w);
    } else {
      InvGood(w);
      PerformInv(w, script[0]);
      PerformAllInv(Perform(w, script[0]), script[1..]);
      KeptTrans(w, Perform(w, script[0]), PerformAll(w, script));
    }
  }

  const EMPTY := World(Manager([], []), {}, {}, {})

  /** Every allowed run from the start. */
  lemma RunInv(script: seq<Action>)
    requires AllAllowed(EMPTY, script)
    ensures Inv(PerformAll(EMPTY, script)) && PerformAll(EMPTY, script).running == {}
  {
    PerformAllInv(EMPTY, script);
  }

  // ---------------------------------------------------------------- what the rules exclude

  /** Executing a running handle, whatever its callback does, leaves the outer call its protection exactly when
      that handle is already dying or nothing is executed; then nothing happens at all. Otherwise no client could hold
      handles in any way that keeps the invariant while the outer call runs. */
  lemma ReentryExactly(w: World, id: int, executable: bool, body: seq<Action>)
    requires Inv(w) && id in w.running && IsHandle(w.m, id)
    ensures var m := Perform(w, Exec(id, executable, body)).m;
      && IsHandle(m, id) && (SlotOf(m, id).inExec <==> id in w.dying || !executable)
      && (SlotOf(m, id).inExec ==> m == w.m)
      && (!SlotOf(m, id).inExec ==> forall held, dying :: !Inv(World(m, held, dying, w.running)))
  {
    assert GoodSlot(w, id);
    if id !in w.dying && executable {
      var w1 := w.(m := Enter(w.m, id), running := w.running + {id});
      var m := Settle(Return(PerformAll(w1, body).m, id), id);
      Unprotected(m, id, w.running);
    }
  }

  lemma Unprotected(m: Manager, id: int, running: set<int>)
    requires IsHandle(m, id) && !SlotOf(m, id).inExec && id in running
    ensures forall held, dying :: !Inv(World(m, held, dying, running))
  {
    forall held, dying ensures !Inv(World(m, held, dying, running)) {
      assert !GoodSlot(World(m, held, dying, running), id);
    }
  }

  /** It can happen: a plugin registers a forward, re-enters it, gives it up and registers another, and finds the
      other under the handle whose call still runs. */
  lemma ReentryFromStart()
    ensures var w := PerformAll(EMPTY, [Reg(true, 7)]);
      && IsHandle(w.m, 1) && Runs(w.m, 1, true) && SlotOf(w.m, 1).func == 7
      && var late := Inside(w, 1, [Exec(1, true, []), Unreg(1), Reg(true, 8)]);
         IsHandle(late.m, 1) && SlotOf(late.m, 1).func == 8
  {
    var one := World(Manager([NewSlot(true, 7)], []), {1}, {}, {});
    assert PerformAll(EMPTY, [Reg(true, 7)]) == one;
    var w1 := one.(m := Enter(one.m, 1), running := {1});
    var body := [Exec(1, true, []), Unreg(1), Reg(true, 8)];
    assert Perform(w1, body[0]) == one;
    assert Perform(one, Unreg(1)) == World(Manager([NewSlot(true, 7).(isFree := true)], [1]), {}, {}, {});
  }

  /** A handle nobody holds is safe to give up again unless it lies on the stack unmarked, which a failed
      registration leaves behind: then it is pushed a second time. */
  lemma StaleExactly(w: World, id: int)
    requires Inv(w) && id !in w.held
    ensures NoDuplicates(Unregister(w.m, id).free) <==> !(id in w.m.free && !SlotOf(w.m, id).isFree)
  {
    if IsHandle(w.m, id) {
      assert GoodSlot(w, id);
      if id in w.m.free && !SlotOf(w.m, id).isFree {
        var f := Unregister(w.m, id).free;
        var k :| 0 <= k < |w.m.free| && w.m.free[k] == id;
        assert f[k] == f[|f| - 1];
      }
    }
  }

  /** The inner call of a re-entered handle clears the mark of the outer one. */
  lemma ReentryClears(w: World, id: int)
    requires Inv(w) && id in w.running && id in w.held
    ensures var w' := Perform(w, Exec(id, true, []));
      && IsHandle(w'.m, id) && SlotOf(w'.m, id) == SlotOf(w.m, id).(inExec := false) && !SlotOf(w'.m, id).isFree
  {
  }

  /** So a client that re-enters its handle, gives it up and registers again finds its still running slot under
      another function. */
  lemma ReentryReuses(w: World, id: int, func: int)
    requires Inv(w) && id in w.running && id in w.held
    ensures var a := Perform(w, Exec(id, true, [])); var late := Perform(Perform(a, Unreg(id)), Reg(true, func));
      IsHandle(late.m, id) && SlotOf(late.m, id).func == func
  {
    hide Inv;
    ReentryClears(w, id);
    InvGood(w);
    var a := Perform(w, Exec(id, true, []));
    UnregisterThenRegister(a, id, func);
  }

  /** An idle slot given up is the next one handed out. */
  lemma UnregisterThenRegister(w: World, id: int, func: int)
    requires GoodFree(w.m) && IsHandle(w.m, id) && !SlotOf(w.m, id).inExec && !SlotOf(w.m, id).isFree
    ensures var late := Perform(Perform(w, Unreg(id)), Reg(true, func));
      late.m == Set(w.m, id, NewSlot(true, func)) && id in late.held
  {
    var b := Perform(w, Unreg(id));
    assert b.m.free == w.m.free + [id];
    assert b.m.free[..|b.m.free| - 1] == w.m.free;
  }

  // ---------------------------------------------------------------- the manager object

  class ForwardManager {
    var spForwards: seq<Slot>
    var freeSPForwards: seq<int>

    constructor ()
      ensures Value() == EMPTY.m
    {
      spForwards, freeSPForwards := [], [];
    }

    function Value(): Manager
      reads this
    {
      Manager(spForwards, freeSPForwards)
    }

    /** The slots stay partitioned, and the new handle is one that nobody had. */
    method RegisterSPForward(found: bool, func: int, ghost w: World) returns (retVal: int)
      requires w.m == Value() && GoodFree(w.m)
      modifies this
      ensures (Value(), retVal) == Register(w.m, found, func) && Value() == Perform(w, Reg(found, func)).m
      ensures Inv(w) ==> Inv(Perform(w, Reg(found, func)))
      ensures Inv(w) && found ==>
        && retVal !in w.held + w.dying + w.running && IsHandle(Value(), retVal)
        && SlotOf(Value(), retVal) == NewSlot(true, func)
    {
      hide Inv;
      if Inv(w) {
        if !found { MissInv(w, func); } else if w.m.free != [] { ReuseInv(w, func); } else { AppendInv(w, func); }
      }
      if freeSPForwards != [] {
        retVal := freeSPForwards[|freeSPForwards| - 1];
        spForwards := spForwards[retVal / 2 := NewSlot(found, func)];
        if !found { return -1; }
        freeSPForwards := freeSPForwards[..|freeSPForwards| - 1];
      } else {
        retVal := 2 * |spForwards| + 1;
        if !found { return -1; }
        spForwards := spForwards + [NewSlot(found, func)];
      }
    }

    /** Given up by its holder, an idle handle is reusable at once, a running one keeps its slot for now. */
    method UnregisterSPForward(id: int, ghost w: World)
      requires w.m == Value()
      modifies this
      ensures Value() == Unregister(w.m, id)
      ensures Inv(w) && id in w.held ==>
        && Inv(Perform(w, Unreg(id))) && Value().free == (if id in w.running then w.m.free else w.m.free + [id])
    {
      hide Inv;
      if Inv(w) {
        InvGood(w);
        if id in w.held { UnregisterInv(w, id); }
      }
      if !(id > 0 && id % 2 == 1 && id / 2 < |spForwards|) || spForwards[id / 2].isFree { return; }
      var fwd := spForwards[id / 2];
      if fwd.inExec {
        spForwards := spForwards[id / 2 := fwd.(toDelete := true)];
      } else {
        spForwards := spForwards[id / 2 := fwd.(isFree := true)];
        freeSPForwards := freeSPForwards + [id];
      }
    }

    /** The callback performs `body`, which may come back here. */
    method ExecuteForwards(id: int, executable: bool, body: seq<Action>, ghost w: World)
      requires w.m == Value() && GoodFree(w.m) && IsHandle(w.m, id)
      modifies this
      ensures Value() == Perform(w, Exec(id, executable, body)).m
      decreases body, 2
    {
      var fwd := spForwards[id / 2];
      if !fwd.isFree && fwd.hasFunc && !fwd.toDelete && executable {
        spForwards := spForwards[id / 2 := fwd.(inExec := true)];
        PerformScript(body, w.(m := Enter(w.m, id), running := w.running + {id}));
        spForwards := spForwards[id / 2 := spForwards[id / 2].(inExec := false)];
      }
      if spForwards[id / 2].toDelete {
        spForwards := spForwards[id / 2 := spForwards[id / 2].(toDelete := false)];
        UnregisterSPForward(id, w.(m := Value()));
      }
    }

    method PerformScript(script: seq<Action>, ghost w: World)
      requires w.m == Value() && GoodFree(w.m)
      modifies this
      ensures Value() == PerformAll(w, script).m
      decreases script, 1
    {
      if script != [] {
        match script[0] {
          case Reg(found, func) => var _ := RegisterSPForward(found, func, w);
          case Unreg(id) => UnregisterSPForward(id, w);
          case Exec(id, executable, body) =>
            if id > 0 && id % 2 == 1 && id / 2 < |spForwards| { ExecuteForwards(id, executable, body, w); }
        }
        PerformScript(script[1..], Perform(w, script[0]));
      }
    }
  }
}
