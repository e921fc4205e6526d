/** Timed tasks: slots that hold a forward to call at a time, once, a number of times or for ever, and are
    reused when free. */
module Tasks {

  const FOREVER := -1
  const ANY := -1

  datatype Owner = Owner(func: int, id: int, plugin: int)
  datatype Timing = Timing(base: real, next: real, loop: bool, repeat: int)
  datatype Mode = Plain | AfterStart | BeforeEnd

  datatype Task = Task(free: bool, inExecute: bool, owner: Owner, timing: Timing, mode: Mode)

  /** Bits 1, 2, 4 and 8 of the flags. */
  datatype Flags = Flags(loop: bool, forever: bool, afterStart: bool, beforeEnd: bool)

  datatype Order = Order(owner: Owner, flags: Flags, base: real, repeat: int)

  /** What the outside world sees happen. */
  datatype Event = Registered(func: int) | Called(func: int, now: real) | Unregistered(func: int)

  datatype Mgr = Mgr(tasks: seq<Task>, log: seq<Event>)

  const NOBODY := Owner(-1, 0, -1)
  const BLANK := Timing(0.0, 0.0, false, 0)
  const NEW := Task(true, false, NOBODY, BLANK, Plain)

  // ---------------------------------------------------------------- one slot

  function Cleared(t: Task): Task { Task(true, t.inExecute, NOBODY, BLANK, Plain) }

  /** What registration stores. */
  function Placed(o: Order, now: real): Task {
    var timing := Timing(o.base, now + o.base, o.flags.forever || o.flags.loop,
                         if o.flags.forever then FOREVER else if o.flags.loop then o.repeat else 0);
    var mode := if o.flags.afterStart then AfterStart else if o.flags.beforeEnd then BeforeEnd else Plain;
    Task(false, false, o.owner, timing, mode)
  }

  function Drop(owner: Owner): seq<Event> { if owner.func >= 0 then [Unregistered(owner.func)] else [] }

  function Clear(m: Mgr, i: nat): (r: Mgr)
    requires i < |m.tasks|
    ensures |r.tasks| == |m.tasks|
  {
    Mgr(m.tasks[i := Cleared(m.tasks[i])], m.log + Drop(m.tasks[i].owner))
  }

  function Set(m: Mgr, i: nat, o: Order, now: real): Mgr
    requires i < |m.tasks|
  {
    Mgr(m.tasks[i := Placed(o, now)], m.log + Drop(m.tasks[i].owner) + [Registered(o.owner.func)])
  }

  predicate Matches(t: Task, id: int, plugin: int) {
    !t.free && (plugin == ANY || t.owner.plugin == plugin) && t.owner.id == id
  }

  /** changeBase and resetNextExecTime. */
  function Changed(t: Task, base: real, now: real): Task {
    t.(timing := t.timing.(base := base, next := if t.inExecute then t.timing.next else now + base))
  }

  // ---------------------------------------------------------------- the manager

  function FreeSlot(tasks: seq<Task>, k: nat): (i: nat)
    requires k <= |tasks|
    ensures k <= i <= |tasks| && (i < |tasks| ==> tasks[i].free && !tasks[i].inExecute)
    decreases |tasks| - k
  {
    if k == |tasks| || (tasks[k].free && !tasks[k].inExecute) then k else FreeSlot(tasks, k + 1)
  }

  function AddTask(m: Mgr, o: Order, now: real): Mgr {
    var i := FreeSlot(m.tasks, 0);
    Set(if i < |m.tasks| then m else m.(tasks := m.tasks + [NEW]), i, o, now)
  }

  function RemoveFrom(m: Mgr, id: int, plugin: int, k: nat): (r: Mgr)
    requires k <= |m.tasks|
    ensures |r.tasks| == |m.tasks|
    decreases |m.tasks| - k
  {
    if k == |m.tasks| then m
    else RemoveFrom(if Matches(m.tasks[k], id, plugin) then Clear(m, k) else m, id, plugin, k + 1)
  }

  function CountMatches(tasks: seq<Task>, id: int, plugin: int): nat {
    if tasks == [] then 0
    else CountMatches(tasks[..|tasks| - 1], id, plugin) + if Matches(tasks[|tasks| - 1], id, plugin) then 1 else 0
  }

  function Rebase(m: Mgr, id: int, plugin: int, base: real, now: real): Mgr {
    m.(tasks := seq(|m.tasks|, i requires 0 <= i < |m.tasks| =>
        if Matches(m.tasks[i], id, plugin) then Changed(m.tasks[i], base, now) else m.tasks[i]))
  }

  /** What plugins ask of the manager. */
  datatype Action = Register(order: Order) | Remove(id: int, plugin: int) | Change(id: int, plugin: int, base: real)

  function Apply(m: Mgr, a: Action, now: real): (r: Mgr)
    ensures |r.tasks| >= |m.tasks|
  {
    match a
    case Register(o) => AddTask(m, o, now)
    case Remove(id, plugin) => RemoveFrom(m, id, plugin, 0)
    case Change(id, plugin, base) => Rebase(m, id, plugin, base, now)
  }

  function ApplyAll(m: Mgr, script: seq<Action>, now: real): (r: Mgr)
    ensures |r.tasks| >= |m.tasks|
    decreases |script|
  {
    if script == [] then m else ApplyAll(Apply(m, script[0], now), script[1..], now)
  }

  /** The timers at a frame, and what the callback of each slot does if it is called. */
  datatype Clock = Clock(now: real, limit: real, left: real)
  datatype Frame = Frame(clock: Clock, does: seq<seq<Action>>)

  function Does(f: Frame, i: nat): seq<Action> { if i < |f.does| then f.does[i] else [] }

  predicate Due(t: Task, c: Clock) {
    match t.mode
    case AfterStart => c.now - c.left + 1.0 >= t.timing.base
    case BeforeEnd => c.limit != 0.0 && (c.left + c.limit * 60.0) - c.now - 1.0 <= t.timing.base
    case Plain => t.timing.next <= c.now
  }

  predicate Exhausted(t: Task) { t.timing.loop && t.timing.repeat == 0 }

  function Mark(m: Mgr, i: nat, on: bool): Mgr
    requires i < |m.tasks|
  {
    m.(tasks := m.tasks[i := m.tasks[i].(inExecute := on)])
  }

  /** The call itself. */
  function Call(m: Mgr, i: nat, f: Frame): (r: Mgr)
    requires i < |m.tasks|
    ensures |r.tasks| >= |m.tasks|
  {
    var entered := Mark(m, i, true).(log := m.log + [Called(m.tasks[i].owner.func, f.clock.now)]);
    Mark(ApplyAll(entered, Does(f, i), f.clock.now), i, false)
  }

  function Charged(t: Timing): Timing { if t.loop && t.repeat != FOREVER then t.(repeat := t.repeat - 1) else t }

  predicate Finished(t: Timing) { !t.loop || (t.repeat != FOREVER && t.repeat - 1 <= 0) }

  /** After the call: count it, and free the slot or set the next time. */
  function Settle(m: Mgr, i: nat): (r: Mgr)
    requires i < |m.tasks|
    ensures |r.tasks| == |m.tasks|
  {
    var t := m.tasks[i];
    if t.free then m
    else if Finished(t.timing) then Clear(m, i)
    else m.(tasks := m.tasks[i := t.(timing := Charged(t.timing).(next := t.timing.next + t.timing.base))])
  }

  function Execute(m: Mgr, i: nat, f: Frame): (r: Mgr)
    requires i < |m.tasks|
    ensures |r.tasks| >= |m.tasks|
  {
    if !Due(m.tasks[i], f.clock) then m
    else Settle(if Exhausted(m.tasks[i]) then m else Call(m, i, f), i)
  }

  /** Slots added during the frame wait for the next. */
  function FrameFrom(m: Mgr, f: Frame, i: nat, last: nat): (r: Mgr)
    requires i <= last <= |m.tasks|
    ensures |r.tasks| >= |m.tasks|
    decreases last - i
  {
    if i == last then m else FrameFrom(if m.tasks[i].free then m else Execute(m, i, f), f, i + 1, last)
  }

  datatype Step = AtFrame(frame: Frame) | Native(action: Action, now: real)

  function Run(m: Mgr, steps: seq<Step>): (r: Mgr)
    ensures |r.tasks| >= |m.tasks|
    decreases |steps|
  {
    if steps == [] then m
    else
      var m' := match steps[0] case AtFrame(f) => FrameFrom(m, f, 0, |m.tasks|) case Native(a, now) => Apply(m, a, now);
      Run(m', steps[1..])
  }

  // ---------------------------------------------------------------- every forward is unregistered once

  function Times(log: seq<Event>, e: Event): nat {
    if log == [] then 0 else Times(log[..|log| - 1], e) + if log[|log| - 1] == e then 1 else 0
  }

  function One(b: bool): nat { if b then 1 else 0 }

  predicate Holds(t: Task, func: int) { !t.free && t.owner.func == func }

  function Live(tasks: seq<Task>, func: int): nat {
    if tasks == [] then 0 else Live(tasks[..|tasks| - 1], func) + One(Holds(tasks[|tasks| - 1], func))
  }

  predicate GoodTask(t: Task) { t.free <==> t.owner.func < 0 }

  predicate Good(m: Mgr) { forall i :: 0 <= i < |m.tasks| ==> GoodTask(m.tasks[i]) }

  /** Whatever was registered is live or unregistered, and never both. */
  predicate Balanced(m: Mgr, func: int) {
    Times(m.log, Registered(func)) == Times(m.log, Unregistered(func)) + Live(m.tasks, func)
  }

  ghost predicate Inv(m: Mgr) { Good(m) && forall func: nat :: Balanced(m, func) }

  lemma {:induction false} LiveUpdate(tasks: seq<Task>, i: nat, t: Task, func: int)
    requires i < |tasks|
    ensures Live(tasks[i := t], func) + One(Holds(tasks[i], func)) == Live(tasks, func) + One(Holds(t, func))
    decreases |tasks|
  {
    var n := |tasks| - 1;
    if i < n {
      LiveUpdate(tasks[..n], i, t, func);
      assert tasks[i := t][..n] == tasks[..n][i := t];
    } else {
      assert tasks[i := t][..n] == tasks[..n];
    }
  }

  lemma TimesSnoc(log: seq<Event>, a: Event, e: Event)
    ensures Times(log + [a], e) == Times(log, e) + One(a == e)
  {
  }

  lemma LiveSnoc(tasks: seq<Task>, t: Task, func: int)
    ensures Live(tasks + [t], func) == Live(tasks, func) + One(Holds(t, func))
  {
  }

  lemma DropTimes(log: seq<Event>, owner: Owner, func: nat)
    ensures Times(log + Drop(owner), Registered(func)) == Times(log, Registered(func))
    ensures Times(log + Drop(owner), Unregistered(func)) == Times(log, Unregistered(func)) + One(owner.func == func)
  {
    if owner.func >= 0 {
      TimesSnoc(log, Unregistered(owner.func), Registered(func));
      TimesSnoc(log, Unregistered(owner.func), Unregistered(func));
    } else {
      assert log + Drop(owner) == log;
    }
  }

  lemma ClearInv(m: Mgr, i: nat)
    requires Inv(m) && i < |m.tasks|
    ensures Inv(Clear(m, i))
  {
    forall func: nat ensures Balanced(Clear(m, i), func) {
      assert Balanced(m, func);
      DropTimes(m.log, m.tasks[i].owner, func);
      LiveUpdate(m.tasks, i, Cleared(m.tasks[i]), func);
    }
  }

  lemma SetInv(m: Mgr, i: nat, o: Order, now: real)
    requires Inv(m) && i < |m.tasks| && o.owner.func >= 0
    ensures Inv(Set(m, i, o, now))
  {
    forall func: nat ensures Balanced(Set(m, i, o, now), func) {
      assert Balanced(m, func);
      DropTimes(m.log, m.tasks[i].owner, func);
      TimesSnoc(m.log + Drop(m.tasks[i].owner), Registered(o.owner.func), Registered(func));
      TimesSnoc(m.log + Drop(m.tasks[i].owner), Registered(o.owner.func), Unregistered(func));
      LiveUpdate(m.tasks, i, Placed(o, now), func);
    }
  }

  lemma GrowInv(m: Mgr)
    requires Inv(m)
    ensures Inv(m.(tasks := m.tasks + [NEW]))
  {
    forall func: nat ensures Balanced(m.(tasks := m.tasks + [NEW]), func) {
      assert Balanced(m, func);
      LiveSnoc(m.tasks, NEW, func);
    }
  }

  /** Changing anything but who is where. */
  lemma SameLive(a: seq<Task>, b: seq<Task>, func: int)
    requires |a| == |b| && forall i :: 0 <= i < |a| ==> a[i].free == b[i].free && a[i].owner == b[i].owner
    ensures Live(a, func) == Live(b, func)
    decreases |a|
  {
  }

  lemma RetimedInv(m: Mgr, tasks: seq<Task>)
    requires Inv(m) && |tasks| == |m.tasks|
    requires forall i :: 0 <= i < |tasks| ==> tasks[i].free == m.tasks[i].free && tasks[i].owner == m.tasks[i].owner
    ensures Inv(m.(tasks := tasks))
  {
    forall func: nat ensures Balanced(m.(tasks := tasks), func) {
      assert Balanced(m, func);
      SameLive(tasks, m.tasks, func);
    }
  }

  lemma CalledInv(m: Mgr, func: int, now: real)
    requires Inv(m)
    ensures Inv(m.(log := m.log + [Called(func, now)]))
  {
    forall f: nat ensures Balanced(m.(log := m.log + [Called(func, now)]), f) {
      assert Balanced(m, f);
      TimesSnoc(m.log, Called(func, now), Registered(f));
      TimesSnoc(m.log, Called(func, now), Unregistered(f));
    }
  }

  lemma {:induction false} RemoveInv(m: Mgr, id: int, plugin: int, k: nat)
    requires Inv(m) && k <= |m.tasks|
    ensures Inv(RemoveFrom(m, id, plugin, k))
    decreases |m.tasks| - k
  {
    hide Inv, Clear;
    if k < |m.tasks| {
      if Matches(m.tasks[k], id, plugin) { ClearInv(m, k); }
      RemoveInv(if Matches(m.tasks[k], id, plugin) then Clear(m, k) else m, id, plugin, k + 1);
    }
  }

  /** Registrations come with a forward. */
  predicate Proper(a: Action) { a.Register? ==> a.order.owner.func >= 0 }

  predicate AllProper(script: seq<Action>) { forall i :: 0 <= i < |script| ==> Proper(script[i]) }

  lemma ApplyInv(m: Mgr, a: Action, now: real)
    requires Inv(m) && Proper(a)
    ensures Inv(Apply(m, a, now))
  {
    hide Inv, RemoveFrom, Set, FreeSlot;
    match a {
      case Register(o) =>
        var i := FreeSlot(m.tasks, 0);
        GrowInv(m);
        SetInv(if i < |m.tasks| then m else m.(tasks := m.tasks + [NEW]), i, o, now);
      case Remove(id, plugin) => RemoveInv(m, id, plugin, 0);
      case Change(id, plugin, base) => RetimedInv(m, Rebase(m, id, plugin, base, now).tasks);
    }
  }

  lemma {:induction false} ApplyAllInv(m: Mgr, script: seq<Action>, now: real)
    requires Inv(m) && AllProper(script)
    ensures Inv(ApplyAll(m, script, now))
    decreases |script|
  {
    hide Inv, Apply;
    if script != [] {
      ApplyInv(m, script[0], now);
      ApplyAllInv(Apply(m, script[0], now), script[1..], now);
    }
  }

  lemma ExecuteInv(m: Mgr, i: nat, f: Frame)
    requires Inv(m) && i < |m.tasks| && AllProper(Does(f, i))
    ensures Inv(Execute(m, i, f))
  {
    hide Inv, ApplyAll, Clear, Does, Due;
    if Due(m.tasks[i], f.clock) {
      if !Exhausted(m.tasks[i]) {
        CalledInv(m, m.tasks[i].owner.func, f.clock.now);
        var called := m.(log := m.log + [Called(m.tasks[i].owner.func, f.clock.now)]);
        RetimedInv(called, Mark(called, i, true).tasks);
        ApplyAllInv(Mark(called, i, true), Does(f, i), f.clock.now);
        var after := ApplyAll(Mark(called, i, true), Does(f, i), f.clock.now);
        RetimedInv(after, Mark(after, i, false).tasks);
        assert Call(m, i, f) == Mark(after, i, false);
        SettleInv(Mark(after, i, false), i);
      } else {
        SettleInv(m, i);
      }
    }
  }

  lemma SettleInv(m: Mgr, i: nat)
    requires Inv(m) && i < |m.tasks|
    ensures Inv(Settle(m, i))
  {
    hide Inv, Clear;
    if !m.tasks[i].free {
      if Finished(m.tasks[i].timing) { ClearInv(m, i); } else { RetimedInv(m, Settle(m, i).tasks); }
    }
  }

  ghost predicate ProperStep(s: Step) {
    match s case AtFrame(f) => (forall i: nat :: AllProper(Does(f, i))) case Native(a, _) => Proper(a)
  }

  lemma {:induction false} FrameInv(m: Mgr, f: Frame, i: nat, last: nat)
    requires Inv(m) && i <= last <= |m.tasks| && forall k: nat :: AllProper(Does(f, k))
    ensures Inv(FrameFrom(m, f, i, last))
    decreases last - i
  {
    hide Inv, Execute, AllProper;
    if i < last {
      assert AllProper(Does(f, i));
      if !m.tasks[i].free { ExecuteInv(m, i, f); }
      FrameInv(if m.tasks[i].free then m else Execute(m, i, f), f, i + 1, last);
    }
  }

  /** Over every run, whatever callbacks do: each registration is matched by one task still there or by one
      unregistration of its forward, never by two. */
  lemma {:induction false} RunInv(m: Mgr, steps: seq<Step>)
    requires Inv(m) && forall k :: 0 <= k < |steps| ==> ProperStep(steps[k])
    ensures Inv(Run(m, steps))
    decreases |steps|
  {
    hide Inv, FrameFrom, Apply, AllProper;
    if steps != [] {
      assert ProperStep(steps[0]);
      match steps[0] {
        case AtFrame(f) => FrameInv(m, f, 0, |m.tasks|); RunInv(FrameFrom(m, f, 0, |m.tasks|), steps[1..]);
        case Native(a, now) => ApplyInv(m, a, now); RunInv(Apply(m, a, now), steps[1..]);
      }
    }
  }

  lemma {:induction false} LiveNone(tasks: seq<Task>, func: int)
    ensures Live(tasks, func) == 0 <==> forall i :: 0 <= i < |tasks| ==> !Holds(tasks[i], func)
    decreases |tasks|
  {
    if tasks != [] { LiveNone(tasks[..|tasks| - 1], func); }
  }

  /** So a forward registered once is unregistered exactly once if its task is gone, and not at all before. */
  lemma UnregisteredOnce(m: Mgr, func: nat)
    requires Inv(m) && Times(m.log, Registered(func)) == 1
    ensures Times(m.log, Unregistered(func)) ==
      if exists i :: 0 <= i < |m.tasks| && Holds(m.tasks[i], func) then 0 else 1
  {
    LiveNone(m.tasks, func);
    assert Balanced(m, func);
  }

  // ---------------------------------------------------------------- a task replaced by its own callback

  /** The slot of a running task: given up perhaps, but never handed out. */
  ghost predicate Busy(m: Mgr, i: nat, owner: Owner) {
    i < |m.tasks| && m.tasks[i].inExecute && (m.tasks[i].free || m.tasks[i].owner == owner)
  }

  lemma {:induction false} RemoveBusy(m: Mgr, id: int, plugin: int, k: nat, i: nat, owner: Owner)
    requires Busy(m, i, owner) && k <= |m.tasks|
    ensures Busy(RemoveFrom(m, id, plugin, k), i, owner)
    decreases |m.tasks| - k
  {
    if k < |m.tasks| {
      RemoveBusy(if Matches(m.tasks[k], id, plugin) then Clear(m, k) else m, id, plugin, k + 1, i, owner);
    }
  }

  lemma {:induction false} ApplyAllBusy(m: Mgr, script: seq<Action>, now: real, i: nat, owner: Owner)
    requires Busy(m, i, owner)
    ensures Busy(ApplyAll(m, script, now), i, owner)
    decreases |script|
  {
    hide RemoveFrom, FreeSlot;
    if script != [] {
      if script[0].Remove? { RemoveBusy(m, script[0].id, script[0].plugin, 0, i, owner); }
      ApplyAllBusy(Apply(m, script[0], now), script[1..], now, i, owner);
    }
  }

  /** What the callback leaves behind: a task that removed itself is not charged, and whatever was registered
      meanwhile lies in other slots, which the old run does not touch. */
  lemma OldRunSparesNew(m: Mgr, i: nat, f: Frame)
    requires i < |m.tasks| && !m.tasks[i].free && Due(m.tasks[i], f.clock) && !Exhausted(m.tasks[i])
    ensures var entered := Mark(m, i, true).(log := m.log + [Called(m.tasks[i].owner.func, f.clock.now)]);
      var left := ApplyAll(entered, Does(f, i), f.clock.now); var r := Execute(m, i, f);
      && |r.tasks| == |left.tasks| && (forall j :: 0 <= j < |left.tasks| && j != i ==> r.tasks[j] == left.tasks[j])
      && (left.tasks[i].free || left.tasks[i].owner == m.tasks[i].owner)
      && (left.tasks[i].free ==> r.tasks[i] == left.tasks[i].(inExecute := false) && r.log == left.log)
  {
    hide ApplyAll, Does, Due;
    var entered := Mark(m, i, true).(log := m.log + [Called(m.tasks[i].owner.func, f.clock.now)]);
    ApplyAllBusy(entered, Does(f, i), f.clock.now, i, m.tasks[i].owner);
    assert Call(m, i, f) == Mark(ApplyAll(entered, Does(f, i), f.clock.now), i, false);
  }

  // ---------------------------------------------------------------- one task seen on its own

  datatype Life = Alive(task: Task) | Gone

  function CallTimes(log: seq<Event>, func: int): seq<real> {
    if log == [] then []
    else
      var last := log[|log| - 1];
      CallTimes(log[..|log| - 1], func) + if last.Called? && last.func == func then [last.now] else []
  }

  /** What one frame does to a task nobody touches, and whether it is called. */
  function Tick(life: Life, c: Clock): (Life, seq<real>) {
    if life.Gone? || !Due(life.task, c) then (life, [])
    else
      var t := life.task;
      (if Finished(t.timing) then Gone
       else Alive(t.(timing := Charged(t.timing).(next := t.timing.next + t.timing.base))),
       if Exhausted(t) then [] else [c.now])
  }

  function LifeRun(life: Life, clocks: seq<Clock>): (Life, seq<real>)
    decreases |clocks|
  {
    if clocks == [] then (life, [])
    else
      var (l, a) := Tick(life, clocks[0]);
      var (l', b) := LifeRun(l, clocks[1..]);
      (l', a + b)
  }

  function Clocks(steps: seq<Step>): seq<Clock> {
    if steps == [] then []
    else (match steps[0] case AtFrame(f) => [f.clock] case Native(_, _) => []) + Clocks(steps[1..])
  }

  /** Slot i is this one, nobody else has its forward, and these calls have been made. */
  ghost predicate Shown(m: Mgr, i: nat, life: Life, func: int, calls: seq<real>) {
    && CallTimes(m.log, func) == calls
    && (life.Alive? ==> i < |m.tasks| && m.tasks[i] == life.task && Holds(life.task, func))
    && forall j :: 0 <= j < |m.tasks| && (life.Alive? ==> j != i) ==> !Holds(m.tasks[j], func)
  }

  /** An action that does not take the number of a task's forward and, while the task is there, neither removes nor
      changes it. */
  predicate Spares(a: Action, owner: Owner, there: bool) {
    match a
    case Register(o) => o.owner.func != owner.func
    case Remove(id, plugin) => there ==> !(id == owner.id && (plugin == ANY || plugin == owner.plugin))
    case Change(id, plugin, _) => there ==> !(id == owner.id && (plugin == ANY || plugin == owner.plugin))
  }

  predicate AllSpare(script: seq<Action>, owner: Owner, there: bool) {
    forall k :: 0 <= k < |script| ==> Spares(script[k], owner, there)
  }

  /** The callbacks of these slots spare it. */
  ghost predicate FrameSpares(f: Frame, first: nat, last: nat, owner: Owner, there: bool) {
    forall i: nat :: first <= i < last ==> AllSpare(Does(f, i), owner, there)
  }

  lemma SpareLess(f: Frame, first: nat, last: nat, owner: Owner)
    requires FrameSpares(f, first, last, owner, true)
    ensures FrameSpares(f, first, last, owner, false)
  {
  }

  ghost predicate StepSpares(s: Step, owner: Owner) {
    match s
    case AtFrame(f) => (forall i: nat :: AllSpare(Does(f, i), owner, true))
    case Native(a, _) => Spares(a, owner, true)
  }

  lemma CallsSnoc(log: seq<Event>, e: Event, func: int)
    ensures CallTimes(log + [e], func) == CallTimes(log, func) + if e.Called? && e.func == func then [e.now] else []
  {
  }

  lemma DropCalls(log: seq<Event>, owner: Owner, func: int)
    ensures CallTimes(log + Drop(owner), func) == CallTimes(log, func)
  {
    if owner.func >= 0 { CallsSnoc(log, Unregistered(owner.func), func); } else { assert log + Drop(owner) == log; }
  }

  /** Whoever lives belongs to this owner. */
  predicate Owns(life: Life, owner: Owner) { life.Alive? ==> life.task.owner == owner }

  lemma ClearKeeps(m: Mgr, k: nat, i: nat, life: Life, func: int, calls: seq<real>)
    requires Shown(m, i, life, func, calls) && k < |m.tasks| && (life.Alive? ==> k != i)
    ensures Shown(Clear(m, k), i, life, func, calls)
  {
    DropCalls(m.log, m.tasks[k].owner, func);
  }

  lemma SetKeeps(m: Mgr, k: nat, o: Order, now: real, i: nat, life: Life, func: int, calls: seq<real>)
    requires Shown(m, i, life, func, calls) && k < |m.tasks| && (life.Alive? ==> k != i) && o.owner.func != func
    ensures Shown(Set(m, k, o, now), i, life, func, calls)
  {
    DropCalls(m.log, m.tasks[k].owner, func);
    CallsSnoc(m.log + Drop(m.tasks[k].owner), Registered(o.owner.func), func);
  }

  lemma {:induction false} RemoveKeeps(m: Mgr, id: int, plugin: int, k: nat, i: nat, life: Life, func: int,
                                       calls: seq<real>)
    requires Shown(m, i, life, func, calls) && k <= |m.tasks|
    requires life.Alive? ==> !Matches(life.task, id, plugin)
    ensures Shown(RemoveFrom(m, id, plugin, k), i, life, func, calls)
    decreases |m.tasks| - k
  {
    hide Clear, CallTimes;
    if k < |m.tasks| {
      var m' := if Matches(m.tasks[k], id, plugin) then Clear(m, k) else m;
      if Matches(m.tasks[k], id, plugin) { ClearKeeps(m, k, i, life, func, calls); }
      RemoveKeeps(m', id, plugin, k + 1, i, life, func, calls);
    }
  }

  lemma ApplyKeeps(m: Mgr, a: Action, now: real, i: nat, life: Life, owner: Owner, calls: seq<real>)
    requires Shown(m, i, life, owner.func, calls) && Owns(life, owner) && Spares(a, owner, life.Alive?)
    ensures Shown(Apply(m, a, now), i, life, owner.func, calls)
  {
    hide Clear, CallTimes, RemoveFrom, Set, FreeSlot;
    match a {
      case Register(o) =>
        var k := FreeSlot(m.tasks, 0);
        SetKeeps(if k < |m.tasks| then m else m.(tasks := m.tasks + [NEW]), k, o, now, i, life, owner.func, calls);
      case Remove(id, plugin) => RemoveKeeps(m, id, plugin, 0, i, life, owner.func, calls);
      case Change(id, plugin, base) =>
    }
  }

  lemma {:induction false} ApplyAllKeeps(m: Mgr, script: seq<Action>, now: real, i: nat, life: Life, owner: Owner,
                                         calls: seq<real>)
    requires Shown(m, i, life, owner.func, calls) && Owns(life, owner) && AllSpare(script, owner, life.Alive?)
    ensures Shown(ApplyAll(m, script, now), i, life, owner.func, calls)
    decreases |script|
  {
    hide Shown, Apply, Spares;
    if script != [] {
      ApplyKeeps(m, script[0], now, i, life, owner, calls);
      ApplyAllKeeps(Apply(m, script[0], now), script[1..], now, i, life, owner, calls);
    }
  }

  lemma MarkKeeps(m: Mgr, k: nat, on: bool, i: nat, life: Life, func: int, calls: seq<real>)
    requires Shown(m, i, life, func, calls) && k < |m.tasks| && (life.Alive? ==> k != i)
    ensures Shown(Mark(m, k, on), i, life, func, calls)
  {
  }

  lemma SettleKeeps(m: Mgr, k: nat, i: nat, life: Life, func: int, calls: seq<real>)
    requires Shown(m, i, life, func, calls) && k < |m.tasks| && (life.Alive? ==> k != i)
    ensures Shown(Settle(m, k), i, life, func, calls)
  {
    hide Clear, CallTimes;
    if !m.tasks[k].free && Finished(m.tasks[k].timing) { ClearKeeps(m, k, i, life, func, calls); }
  }

  lemma CallKeeps(m: Mgr, k: nat, f: Frame, i: nat, life: Life, owner: Owner, calls: seq<real>)
    requires Shown(m, i, life, owner.func, calls) && Owns(life, owner) && AllSpare(Does(f, k), owner, life.Alive?)
    requires k < |m.tasks| && (life.Alive? ==> k != i) && !m.tasks[k].free
    ensures Shown(Call(m, k, f), i, life, owner.func, calls)
  {
    var called := m.(log := m.log + [Called(m.tasks[k].owner.func, f.clock.now)]);
    CallsSnoc(m.log, Called(m.tasks[k].owner.func, f.clock.now), owner.func);
    assert !Holds(m.tasks[k], owner.func);
    assert Shown(called, i, life, owner.func, calls);
    hide Shown, ApplyAll, AllSpare;
    MarkKeeps(called, k, true, i, life, owner.func, calls);
    var entered := Mark(called, k, true);
    ApplyAllKeeps(entered, Does(f, k), f.clock.now, i, life, owner, calls);
    MarkKeeps(ApplyAll(entered, Does(f, k), f.clock.now), k, false, i, life, owner.func, calls);
  }

  /** The execution of another slot. */
  lemma OtherKeeps(m: Mgr, k: nat, f: Frame, i: nat, life: Life, owner: Owner, calls: seq<real>)
    requires Shown(m, i, life, owner.func, calls) && Owns(life, owner) && AllSpare(Does(f, k), owner, life.Alive?)
    requires k < |m.tasks| && (life.Alive? ==> k != i) && !m.tasks[k].free
    ensures Shown(Execute(m, k, f), i, life, owner.func, calls)
  {
    hide Shown, Call, AllSpare, Settle, Due;
    if Due(m.tasks[k], f.clock) {
      var m' := if Exhausted(m.tasks[k]) then m else Call(m, k, f);
      if !Exhausted(m.tasks[k]) { CallKeeps(m, k, f, i, life, owner, calls); }
      SettleKeeps(m', k, i, life, owner.func, calls);
    }
  }

  /** While its callback runs, a task keeps its slot whatever the callback registers, removes or changes
      elsewhere. */
  lemma OwnCall(m: Mgr, i: nat, f: Frame, task: Task, owner: Owner, calls: seq<real>)
    requires Shown(m, i, Alive(task), owner.func, calls) && task.owner == owner && !task.inExecute
    requires AllSpare(Does(f, i), owner, true)
    ensures Shown(Call(m, i, f), i, Alive(task), owner.func, calls + [f.clock.now])
  {
    var entered := Mark(m, i, true).(log := m.log + [Called(m.tasks[i].owner.func, f.clock.now)]);
    CallsSnoc(m.log, Called(m.tasks[i].owner.func, f.clock.now), owner.func);
    var busy := Alive(task.(inExecute := true));
    assert Shown(entered, i, busy, owner.func, calls + [f.clock.now]);
    var after := ApplyAll(entered, Does(f, i), f.clock.now);
    ApplyAllKeeps(entered, Does(f, i), f.clock.now, i, busy, owner, calls + [f.clock.now]);
    assert after.tasks[i].(inExecute := false) == task;
    assert Call(m, i, f) == Mark(after, i, false);
  }

  lemma OwnSettle(m: Mgr, i: nat, task: Task, func: int, calls: seq<real>)
    requires Shown(m, i, Alive(task), func, calls)
    ensures Shown(Settle(m, i), i,
      if Finished(task.timing) then Gone
      else Alive(task.(timing := Charged(task.timing).(next := task.timing.next + task.timing.base))),
      func, calls)
  {
    DropCalls(m.log, m.tasks[i].owner, func);
  }

  lemma OwnExecute(m: Mgr, i: nat, f: Frame, task: Task, owner: Owner, calls: seq<real>)
    requires Shown(m, i, Alive(task), owner.func, calls) && task.owner == owner && !task.inExecute
    requires AllSpare(Does(f, i), owner, true)
    ensures var (l, more) := Tick(Alive(task), f.clock); Shown(Execute(m, i, f), i, l, owner.func, calls + more)
  {
    hide Call, AllSpare, Settle, Due, CallTimes;
    assert m.tasks[i] == task;
    var (l, more) := Tick(Alive(task), f.clock);
    if Due(task, f.clock) {
      if !Exhausted(task) {
        OwnCall(m, i, f, task, owner, calls);
        OwnSettle(Call(m, i, f), i, task, owner.func, calls + [f.clock.now]);
      } else {
        OwnSettle(m, i, task, owner.func, calls);
        assert calls + more == calls;
      }
    } else {
      assert calls + more == calls;
    }
  }

  /** A frame treats a task once: as if it were alone. */
  lemma {:induction false} FrameKeeps(m: Mgr, f: Frame, k: nat, last: nat, i: nat, life: Life, owner: Owner,
                                      calls: seq<real>)
    requires Shown(m, i, life, owner.func, calls) && Owns(life, owner) && k <= last <= |m.tasks|
    requires FrameSpares(f, k, last, owner, life.Alive?)
    requires life.Alive? ==> !life.task.inExecute
    ensures var r := FrameFrom(m, f, k, last);
      if life.Alive? && k <= i < last then
        var (l, more) := Tick(life, f.clock);
        Shown(r, i, l, owner.func, calls + more)
      else Shown(r, i, life, owner.func, calls)
    decreases last - k
  {
    hide Shown, Execute, AllSpare, Due, Finished, Exhausted, Charged;
    if k < last {
      assert AllSpare(Does(f, k), owner, life.Alive?);
      ShownFacts(m, i, life, owner.func, calls);
      if life.Alive? && k == i {
        OwnExecute(m, i, f, life.task, owner, calls);
        var (l, more) := Tick(life, f.clock);
        SpareLess(f, k + 1, last, owner);
        FrameKeeps(Execute(m, i, f), f, k + 1, last, i, l, owner, calls + more);
      } else {
        if !m.tasks[k].free { OtherKeeps(m, k, f, i, life, owner, calls); }
        FrameKeeps(if m.tasks[k].free then m else Execute(m, k, f), f, k + 1, last, i, life, owner, calls);
      }
    }
  }

  lemma ShownFacts(m: Mgr, i: nat, life: Life, func: int, calls: seq<real>)
    requires Shown(m, i, life, func, calls)
    ensures life.Alive? ==> i < |m.tasks| && m.tasks[i] == life.task && !life.task.free
  {
  }

  /** Over every run that spares it, a task lives exactly as it would alone: the same calls at the same times,
      and gone or not at the end. */
  lemma {:induction false} RunKeeps(m: Mgr, steps: seq<Step>, i: nat, life: Life, owner: Owner, calls: seq<real>)
    requires Shown(m, i, life, owner.func, calls) && Owns(life, owner)
    requires life.Alive? ==> !life.task.inExecute
    requires forall k :: 0 <= k < |steps| ==> StepSpares(steps[k], owner)
    ensures var (l, more) := LifeRun(life, Clocks(steps)); Shown(Run(m, steps), i, l, owner.func, calls + more)
    decreases |steps|
  {
    hide Shown, FrameFrom, AllSpare, Due, Finished, Exhausted, Charged, Apply, Tick;
    if steps == [] {
      assert calls + [] == calls;
    } else {
      assert StepSpares(steps[0], owner);
      match steps[0] {
        case AtFrame(f) =>
          ShownFacts(m, i, life, owner.func, calls);
          SpareLess(f, 0, |m.tasks|, owner);
          FrameKeeps(m, f, 0, |m.tasks|, i, life, owner, calls);
          TickFacts(life, f.clock, owner);
          var (l, more) := Tick(life, f.clock);
          if life.Gone? { assert calls + more == calls; }
          RunKeeps(FrameFrom(m, f, 0, |m.tasks|), steps[1..], i, l, owner, calls + more);
          var (_, rest) := LifeRun(l, Clocks(steps[1..]));
          assert Clocks(steps) == [f.clock] + Clocks(steps[1..]);
          assert Clocks(steps)[1..] == Clocks(steps[1..]);
          assert (calls + more) + rest == calls + (more + rest);
        case Native(a, now) =>
          assert Spares(a, owner, life.Alive?);
          ApplyKeeps(m, a, now, i, life, owner, calls);
          RunKeeps(Apply(m, a, now), steps[1..], i, life, owner, calls);
          assert Clocks(steps) == Clocks(steps[1..]);
      }
    }
  }

  lemma TickFacts(life: Life, c: Clock, owner: Owner)
    requires Owns(life, owner)
    ensures var (l, more) := Tick(life, c);
      && Owns(l, owner) && (life.Gone? ==> l.Gone? && more == [])
      && (life.Alive? && l.Alive? ==> l.task.inExecute == life.task.inExecute)
  {
  }

  // ---------------------------------------------------------------- how often and when

  /** How many calls a task is good for. */
  datatype Shots = Endless | Shots(n: nat)

  function ShotsOf(t: Timing): Shots {
    if !t.loop then Shots(1)
    else if t.repeat == FOREVER then Endless
    else if t.repeat < 0 then Shots(1)
    else Shots(t.repeat)
  }

  predicate AnyDue(t: Task, clocks: seq<Clock>) { exists k :: 0 <= k < |clocks| && Due(t, clocks[k]) }

  /** Endless tasks stay; tasks with n shots are gone exactly when they have been called n times; with none, they
      are gone at the first frame that would call them. */
  lemma {:induction false} Lifetime(t: Task, clocks: seq<Clock>)
    requires t.mode == Plain
    ensures var (l, times) := LifeRun(Alive(t), clocks);
      match ShotsOf(t.timing)
      case Endless => l.Alive?
      case Shots(n) => |times| <= n && if n == 0 then l.Gone? == AnyDue(t, clocks) else l.Gone? == (|times| == n)
    decreases |clocks|
  {
    if clocks != [] {
      var (l, a) := Tick(Alive(t), clocks[0]);
      if l.Alive? { Lifetime(l.task, clocks[1..]); } else { GoneStays(clocks[1..]); }
      assert clocks == [clocks[0]] + clocks[1..];
      DueLater(t, clocks);
    }
  }

  lemma DueLater(t: Task, clocks: seq<Clock>)
    requires clocks != []
    ensures AnyDue(t, clocks) == (Due(t, clocks[0]) || AnyDue(t, clocks[1..]))
  {
  }

  lemma {:induction false} GoneStays(clocks: seq<Clock>)
    ensures LifeRun(Gone, clocks) == (Gone, [])
    decreases |clocks|
  {
    if clocks != [] {
      GoneStays(clocks[1..]);
      var (_, rest) := LifeRun(Gone, clocks[1..]);
      assert Tick(Gone, clocks[0]).1 + rest == [];
    }
  }

  /** These calls were made at these frames, at most one at each. */
  predicate Within(times: seq<real>, clocks: seq<Clock>)
    decreases |clocks|
  {
    || times == []
    || (clocks != [] && Within(times, clocks[1..]))
    || (clocks != [] && times[0] == clocks[0].now && Within(times[1..], clocks[1..]))
  }

  /** k periods after a start. */
  function Nth(start: real, base: real, k: nat): real { start + (k as real) * base }

  lemma Later(start: real, base: real, k: nat)
    requires k > 0
    ensures Nth(start + base, base, k - 1) == Nth(start, base, k)
  {
  }

  lemma FirstNth(start: real, base: real)
    ensures Nth(start, base, 0) == start && Nth(start, base, 1) == start + base
  {
  }

  /** At most once a frame ... */
  lemma {:induction false} OncePerFrame(life: Life, clocks: seq<Clock>)
    ensures Within(LifeRun(life, clocks).1, clocks)
    decreases |clocks|
  {
    hide Due, Finished, Exhausted, Charged;
    if clocks != [] {
      var (l, a) := Tick(life, clocks[0]);
      var rest := LifeRun(l, clocks[1..]).1;
      OncePerFrame(l, clocks[1..]);
      if a == [] { assert a + rest == rest; } else { assert (a + rest)[1..] == rest; }
    }
  }

  /** ... and never early. */
  lemma {:induction false} NeverEarly(t: Task, clocks: seq<Clock>)
    requires t.mode == Plain
    ensures var times := LifeRun(Alive(t), clocks).1;
      forall k: nat :: k < |times| ==> times[k] >= Nth(t.timing.next, t.timing.base, k)
    decreases |clocks|
  {
    hide Nth, Finished, Exhausted, Charged;
    var times := LifeRun(Alive(t), clocks).1;
    if clocks != [] {
      var (l, a) := Tick(Alive(t), clocks[0]);
      var rest := LifeRun(l, clocks[1..]).1;
      if l.Gone? { GoneStays(clocks[1..]); } else { NeverEarly(l.task, clocks[1..]); }
      TickTiming(t, clocks[0]);
      assert times == a + rest;
      FirstNth(t.timing.next, t.timing.base);
      forall k: nat | k < |times| ensures times[k] >= Nth(t.timing.next, t.timing.base, k) {
        if a == [] {
          assert times == rest;
        } else if k > 0 {
          assert times[k] == rest[k - 1];
          Later(t.timing.next, t.timing.base, k);
        }
      }
    }
  }

  lemma TickTiming(t: Task, c: Clock)
    requires t.mode == Plain
    ensures var (l, a) := Tick(Alive(t), c);
      && (l.Alive? ==> l.task.mode == Plain && l.task.timing.base == t.timing.base)
      && (l.Alive? && a != [] ==> l.task.timing.next == t.timing.next + t.timing.base)
      && (l.Alive? && a == [] ==> l == Alive(t) || Exhausted(t))
      && (a != [] ==> a == [c.now] && c.now >= t.timing.next)
      && (Exhausted(t) ==> l.Gone? || l == Alive(t))
  {
  }

  /** Frames at or after a time. */
  function CountLate(clocks: seq<Clock>, time: real): nat {
    if clocks == [] then 0 else One(clocks[0].now >= time) + CountLate(clocks[1..], time)
  }

  /** Once the last call is due, every frame makes one. */
  lemma {:induction false} Finishes(t: Task, clocks: seq<Clock>)
    requires t.mode == Plain && t.timing.loop && t.timing.repeat >= 1 && t.timing.base >= 0.0
    ensures CountLate(clocks, Nth(t.timing.next, t.timing.base, t.timing.repeat - 1)) >= t.timing.repeat ==>
      LifeRun(Alive(t), clocks).0.Gone?
    decreases |clocks|
  {
    hide Nth;
    var n, next, base := t.timing.repeat, t.timing.next, t.timing.base;
    if clocks != [] {
      NthAfter(next, base, n - 1);
      FirstNth(next, base);
      var (l, a) := Tick(Alive(t), clocks[0]);
      if l.Gone? {
        GoneStays(clocks[1..]);
      } else {
        if a != [] { Later(next, base, n - 1); }
        Finishes(l.task, clocks[1..]);
      }
    }
  }

  lemma NthAfter(start: real, base: real, k: nat)
    requires base >= 0.0
    ensures Nth(start, base, k) >= start
  {
  }

  // ---------------------------------------------------------------- main theorem

  lemma PlacedFacts(o: Order, now: real)
    ensures var t := Placed(o, now); !t.free && !t.inExecute && t.owner == o.owner
  {
  }

  lemma SetShown(m: Mgr, i: nat, o: Order, now: real)
    requires Shown(m, 0, Gone, o.owner.func, []) && i < |m.tasks|
    ensures Shown(Set(m, i, o, now), i, Alive(Placed(o, now)), o.owner.func, [])
  {
    hide Placed, Drop;
    PlacedFacts(o, now);
    DropCalls(m.log, m.tasks[i].owner, o.owner.func);
    CallsSnoc(m.log + Drop(m.tasks[i].owner), Registered(o.owner.func), o.owner.func);
  }

  lemma RegisterShown(m: Mgr, o: Order, now: real)
    requires Shown(m, 0, Gone, o.owner.func, []) && o.owner.func >= 0
    ensures Shown(AddTask(m, o, now), FreeSlot(m.tasks, 0), Alive(Placed(o, now)), o.owner.func, [])
  {
    hide FreeSlot, Placed, Set;
    var i := FreeSlot(m.tasks, 0);
    SetShown(if i < |m.tasks| then m else m.(tasks := m.tasks + [NEW]), i, o, now);
  }

  /** A task registered at t0 with repeat n >= 1, and neither removed nor changed, over any run and any callbacks: at
      most n calls, at most one a frame, the k-th not before t0 + k * base; gone exactly when there were n; and
      there were n once n frames came at or after t0 + n * base. */
  lemma TaskRuns(m: Mgr, o: Order, t0: real, steps: seq<Step>)
    requires Shown(m, 0, Gone, o.owner.func, []) && o.owner.func >= 0
    requires o.flags == Flags(true, false, false, false) && o.repeat >= 1
    requires forall k :: 0 <= k < |steps| ==> StepSpares(steps[k], o.owner)
    ensures var r := Run(AddTask(m, o, t0), steps); var calls := CallTimes(r.log, o.owner.func);
      && |calls| <= o.repeat && Within(calls, Clocks(steps))
      && (forall k: nat :: k < |calls| ==> calls[k] >= Nth(t0, o.base, k + 1))
      && (|calls| == o.repeat <==> forall j :: 0 <= j < |r.tasks| ==> !Holds(r.tasks[j], o.owner.func))
      && (o.base >= 0.0 && CountLate(Clocks(steps), Nth(t0, o.base, o.repeat)) >= o.repeat ==> |calls| == o.repeat)
  {
    hide Run, AddTask, FreeSlot, LifeRun, CallTimes, CountLate, Clocks, Within, Placed, StepSpares, ShotsOf, Nth;
    RegisterShown(m, o, t0);
    PlacedFacts(o, t0);
    var t := Placed(o, t0);
    RunKeeps(AddTask(m, o, t0), steps, FreeSlot(m.tasks, 0), Alive(t), o.owner, []);
    TaskAlone(o, t0, Clocks(steps));
    var (l, times) := LifeRun(Alive(t), Clocks(steps));
    assert [] + times == times;
  }

  lemma TaskAlone(o: Order, t0: real, clocks: seq<Clock>)
    requires o.flags == Flags(true, false, false, false) && o.repeat >= 1
    ensures var (l, calls) := LifeRun(Alive(Placed(o, t0)), clocks);
      && |calls| <= o.repeat && Within(calls, clocks)
      && (forall k: nat :: k < |calls| ==> calls[k] >= Nth(t0, o.base, k + 1))
      && (|calls| == o.repeat <==> l.Gone?)
      && (o.base >= 0.0 && CountLate(clocks, Nth(t0, o.base, o.repeat)) >= o.repeat ==> |calls| == o.repeat)
  {
    hide LifeRun, CountLate, Within, Nth;
    var t := Placed(o, t0);
    var times := LifeRun(Alive(t), clocks).1;
    Lifetime(t, clocks);
    NeverEarly(t, clocks);
    OncePerFrame(Alive(t), clocks);
    if o.base >= 0.0 { Finishes(t, clocks); }
    Later(t0, o.base, o.repeat);
    forall k: nat | k < |times| ensures times[k] >= Nth(t0, o.base, k + 1) { Later(t0, o.base, k + 1); }
  }

  // ---------------------------------------------------------------- a task registered by a callback

  lemma {:induction false} FrameSplit(m: Mgr, f: Frame, k: nat, i: nat, last: nat)
    requires k <= i <= last <= |m.tasks|
    ensures FrameFrom(m, f, k, last) == FrameFrom(FrameFrom(m, f, k, i), f, i, last)
    decreases i - k
  {
    hide Execute;
    if k < i { FrameSplit(if m.tasks[k].free then m else Execute(m, k, f), f, k + 1, i, last); }
  }

  lemma {:induction false} ApplySplit(m: Mgr, a: seq<Action>, b: seq<Action>, now: real)
    ensures ApplyAll(m, a + b, now) == ApplyAll(ApplyAll(m, a, now), b, now)
    decreases |a|
  {
    hide Apply;
    if a == [] {
      assert a + b == b;
    } else {
      assert (a + b)[0] == a[0] && (a + b)[1..] == a[1..] + b;
      ApplySplit(Apply(m, a[0], now), a[1..], b, now);
    }
  }

  /** The slot a callback's registration takes: not the running one. */
  function NewSlot(m: Mgr, i: nat, f: Frame, pre: seq<Action>): nat
    requires i < |m.tasks|
  {
    var entered := Mark(m, i, true).(log := m.log + [Called(m.tasks[i].owner.func, f.clock.now)]);
    FreeSlot(ApplyAll(entered, pre, f.clock.now).tasks, 0)
  }

  lemma BusyNotFree(m: Mgr, i: nat, owner: Owner)
    requires Busy(m, i, owner)
    ensures FreeSlot(m.tasks, 0) != i
  {
  }

  lemma ScriptRegisters(m: Mgr, pre: seq<Action>, o: Order, post: seq<Action>, now: real, i: nat, owner: Owner)
    requires Shown(m, 0, Gone, o.owner.func, []) && o.owner.func >= 0 && Busy(m, i, owner)
    requires AllSpare(pre, o.owner, false) && AllSpare(post, o.owner, true)
    ensures var p := FreeSlot(ApplyAll(m, pre, now).tasks, 0);
      p != i && Shown(ApplyAll(m, pre + [Register(o)] + post, now), p, Alive(Placed(o, now)), o.owner.func, [])
  {
    hide Shown, AllSpare, FreeSlot, Placed, Busy, AddTask;
    var before := ApplyAll(m, pre, now);
    var mid := AddTask(before, o, now);
    assert ApplyAll(before, [Register(o)], now) == mid;
    ApplySplit(m, pre, [Register(o)], now);
    ApplySplit(m, pre + [Register(o)], post, now);
    hide ApplyAll;
    ApplyAllBusy(m, pre, now, i, owner);
    BusyNotFree(before, i, owner);
    ApplyAllKeeps(m, pre, now, 0, Gone, o.owner, []);
    RegisterShown(before, o, now);
    PlacedFacts(o, now);
    ApplyAllKeeps(mid, post, now, FreeSlot(before.tasks, 0), Alive(Placed(o, now)), o.owner, []);
  }

  /** After the callback the task is in its slot, new. */
  lemma CallRegisters(m: Mgr, i: nat, f: Frame, pre: seq<Action>, o: Order, post: seq<Action>)
    requires Shown(m, 0, Gone, o.owner.func, []) && o.owner.func >= 0
    requires i < |m.tasks| && !m.tasks[i].free && Due(m.tasks[i], f.clock) && !Exhausted(m.tasks[i])
    requires Does(f, i) == pre + [Register(o)] + post && AllSpare(pre, o.owner, false) && AllSpare(post, o.owner, true)
    ensures NewSlot(m, i, f, pre) != i
    ensures Shown(Execute(m, i, f), NewSlot(m, i, f, pre), Alive(Placed(o, f.clock.now)), o.owner.func, [])
  {
    var now, p, life := f.clock.now, NewSlot(m, i, f, pre), Alive(Placed(o, f.clock.now));
    var entered := Mark(m, i, true).(log := m.log + [Called(m.tasks[i].owner.func, now)]);
    CallsSnoc(m.log, Called(m.tasks[i].owner.func, now), o.owner.func);
    assert Shown(entered, 0, Gone, o.owner.func, []) && Busy(entered, i, m.tasks[i].owner);
    ScriptRegisters(entered, pre, o, post, now, i, m.tasks[i].owner);
    hide Shown, ApplyAll, AllSpare, Due, Exhausted, Settle, Placed, FreeSlot;
    var after := ApplyAll(entered, Does(f, i), now);
    MarkKeeps(after, i, false, p, life, o.owner.func, []);
    assert Call(m, i, f) == Mark(after, i, false);
    SettleKeeps(Mark(after, i, false), i, p, life, o.owner.func, []);
  }

  /** The clocks the new task is looked at: those of later frames, and that of this one if its slot is still to
      come. */
  function Looks(p: nat, i: nat, last: nat, c: Clock, later: seq<Clock>): seq<Clock> {
    (if i < p < last then [c] else []) + later
  }

  /** A frame whose callback at slot i registers the task leaves it as if it were alone since then. */
  lemma FrameRegisters(m: Mgr, f: Frame, i: nat, pre: seq<Action>, o: Order, post: seq<Action>)
    requires Shown(m, 0, Gone, o.owner.func, []) && o.owner.func >= 0 && i < |m.tasks|
    requires var at := FrameFrom(m, f, 0, i);
      !at.tasks[i].free && Due(at.tasks[i], f.clock) && !Exhausted(at.tasks[i])
    requires Does(f, i) == pre + [Register(o)] + post && AllSpare(pre, o.owner, false) && AllSpare(post, o.owner, true)
    requires FrameSpares(f, 0, i, o.owner, false) && FrameSpares(f, i + 1, |m.tasks|, o.owner, true)
    ensures var last := |m.tasks|; var p := NewSlot(FrameFrom(m, f, 0, i), i, f, pre);
      var (l, more) := LifeRun(Alive(Placed(o, f.clock.now)), Looks(p, i, last, f.clock, []));
      Shown(FrameFrom(m, f, 0, last), p, l, o.owner.func, more) && Owns(l, o.owner) && (l.Alive? ==> !l.task.inExecute)
  {
    hide Shown, Execute, AllSpare, Due, Exhausted, FrameSpares, NewSlot, Tick, Placed;
    var last, at := |m.tasks|, FrameFrom(m, f, 0, i);
    var p, life := NewSlot(at, i, f, pre), Alive(Placed(o, f.clock.now));
    FrameSplit(m, f, 0, i, last);
    FrameKeeps(m, f, 0, i, 0, Gone, o.owner, []);
    CallRegisters(at, i, f, pre, o, post);
    PlacedFacts(o, f.clock.now);
    FrameKeeps(Execute(at, i, f), f, i + 1, last, p, life, o.owner, []);
    TickFacts(life, f.clock, o.owner);
    var (l, more) := Tick(life, f.clock);
    assert [] + more == more && more + [] == more;
    if i < p < last { assert Looks(p, i, last, f.clock, []) == [f.clock]; }
    else { assert Looks(p, i, last, f.clock, []) == []; }
  }

  /** A timer that a callback registers at t0, such as one that registers itself again, has the life `TaskRuns` tells,
      over the rest of the frame and any steps that follow.  It may be looked at once more in that frame, and is not
      called there unless its interval is zero or less. */
  lemma CallbackTaskRuns(m: Mgr, f: Frame, i: nat, pre: seq<Action>, o: Order, post: seq<Action>, steps: seq<Step>)
    requires Shown(m, 0, Gone, o.owner.func, []) && o.owner.func >= 0 && i < |m.tasks|
    requires var at := FrameFrom(m, f, 0, i);
      !at.tasks[i].free && Due(at.tasks[i], f.clock) && !Exhausted(at.tasks[i])
    requires Does(f, i) == pre + [Register(o)] + post && AllSpare(pre, o.owner, false) && AllSpare(post, o.owner, true)
    requires FrameSpares(f, 0, i, o.owner, false) && FrameSpares(f, i + 1, |m.tasks|, o.owner, true)
    requires o.flags == Flags(true, false, false, false) && o.repeat >= 1
    requires forall k :: 0 <= k < |steps| ==> StepSpares(steps[k], o.owner)
    ensures var r := Run(m, [AtFrame(f)] + steps); var calls := CallTimes(r.log, o.owner.func);
      var t0, clocks := f.clock.now, Clocks(steps);
      && |calls| <= o.repeat && Within(calls, if o.base > 0.0 then clocks else [f.clock] + clocks)
      && (forall k: nat :: k < |calls| ==> calls[k] >= Nth(t0, o.base, k + 1))
      && (|calls| == o.repeat <==> forall j :: 0 <= j < |r.tasks| ==> !Holds(r.tasks[j], o.owner.func))
      && (o.base >= 0.0 && CountLate(clocks, Nth(t0, o.base, o.repeat)) >= o.repeat ==> |calls| == o.repeat)
  {
    var last, p := |m.tasks|, NewSlot(FrameFrom(m, f, 0, i), i, f, pre);
    var t0, clocks := f.clock.now, Clocks(steps);
    var looks, life := Looks(p, i, last, f.clock, clocks), Alive(Placed(o, t0));
    LooksAlone(o, f.clock, p, i, last, clocks);
    hide Within, CountLate, Nth, LifeRun, Due, Exhausted, AllSpare, FrameSpares, NewSlot, StepSpares, CallTimes, Clocks,
      Placed, Looks;
    FrameRegisters(m, f, i, pre, o, post);
    var (l, more) := LifeRun(life, Looks(p, i, last, f.clock, []));
    var mid := FrameFrom(m, f, 0, last);
    assert ([AtFrame(f)] + steps)[1..] == steps;
    assert Run(m, [AtFrame(f)] + steps) == Run(mid, steps);
    hide Run, FrameFrom;
    RunKeeps(mid, steps, p, l, o.owner, more);
    LooksSplit(life, p, i, last, f.clock, clocks);
  }

  lemma LooksSplit(life: Life, p: nat, i: nat, last: nat, c: Clock, later: seq<Clock>)
    ensures var (l, a) := LifeRun(life, Looks(p, i, last, c, [])); var (l', b) := LifeRun(l, later);
      LifeRun(life, Looks(p, i, last, c, later)) == (l', a + b)
  {
    hide Tick;
    if i < p < last {
      assert Looks(p, i, last, c, later)[1..] == later && Looks(p, i, last, c, [])[1..] == [];
      var (l, a) := Tick(life, c);
      assert a + [] == a;
    } else {
      assert Looks(p, i, last, c, later) == later && [] + LifeRun(life, later).1 == LifeRun(life, later).1;
    }
  }

  lemma LooksAlone(o: Order, c: Clock, p: nat, i: nat, last: nat, clocks: seq<Clock>)
    requires o.flags == Flags(true, false, false, false) && o.repeat >= 1
    ensures var (l, calls) := LifeRun(Alive(Placed(o, c.now)), Looks(p, i, last, c, clocks));
      && |calls| <= o.repeat && Within(calls, if o.base > 0.0 then clocks else [c] + clocks)
      && (forall k: nat :: k < |calls| ==> calls[k] >= Nth(c.now, o.base, k + 1))
      && (|calls| == o.repeat <==> l.Gone?)
      && (o.base >= 0.0 && CountLate(clocks, Nth(c.now, o.base, o.repeat)) >= o.repeat ==> |calls| == o.repeat)
  {
    var looks, life := Looks(p, i, last, c, clocks), Alive(Placed(o, c.now));
    TaskAlone(o, c.now, looks);
    if i < p < last {
      assert looks[0] == c && looks[1..] == clocks;
      if o.base > 0.0 {
        assert Tick(life, c) == (life, []);
        assert [] + LifeRun(life, clocks).1 == LifeRun(life, clocks).1;
        TaskAlone(o, c.now, clocks);
      }
    } else {
      assert looks == clocks && ([c] + clocks)[1..] == clocks;
    }
  }

  // ---------------------------------------------------------------- the manager object

  class TaskMngr {
    var tasks: seq<Task>
    var log: seq<Event>

    constructor ()
      ensures Value() == Mgr([], []) && Inv(Value())
    {
      tasks, log := [], [];
    }

    function Value(): Mgr
      reads this
    {
      Mgr(tasks, log)
    }

    method ClearTask(i: nat)
      requires i < |tasks|
      modifies this
      ensures Value() == Clear(old(Value()), i)
    {
      var func := tasks[i].owner.func;
      if func >= 0 { log := log + [Unregistered(func)]; }
      tasks := tasks[i := Task(true, tasks[i].inExecute, NOBODY, BLANK, Plain)];
      assert func < 0 ==> log + [] == log;
    }

    method SetTask(i: nat, o: Order, now: real)
      requires i < |tasks|
      modifies this
      ensures Value() == Set(old(Value()), i, o, now)
    {
      ClearTask(i);
      tasks := tasks[i := Placed(o, now)];
      log := log + [Registered(o.owner.func)];
    }

    method RegisterTask(o: Order, now: real)
      modifies this
      ensures Value() == AddTask(old(Value()), o, now)
    {
      var i := 0;
      while i < |tasks|
        invariant 0 <= i <= |tasks| && FreeSlot(tasks, 0) == FreeSlot(tasks, i)
        invariant Value() == old(Value())
      {
        if tasks[i].free && !tasks[i].inExecute {
          SetTask(i, o, now);
          return;
        }
        i := i + 1;
      }
      tasks := tasks + [NEW];
      SetTask(|tasks| - 1, o, now);
    }

    method RemoveTasks(id: int, plugin: int) returns (count: nat)
      modifies this
      ensures Value() == RemoveFrom(old(Value()), id, plugin, 0) && count == CountMatches(old(tasks), id, plugin)
    {
      var i := 0;
      count := 0;
      while i < |tasks|
        invariant 0 <= i <= |tasks|
        invariant RemoveFrom(Value(), id, plugin, i) == RemoveFrom(old(Value()), id, plugin, 0)
        invariant |tasks| == |old(tasks)| && count == CountMatches(old(tasks)[..i], id, plugin)
        invariant forall k :: i <= k < |tasks| ==> tasks[k] == old(tasks)[k]
      {
        assert old(tasks)[..i + 1][..i] == old(tasks)[..i];
        if Matches(tasks[i], id, plugin) {
          ClearTask(i);
          count := count + 1;
        }
        i := i + 1;
      }
      assert old(tasks)[..i] == old(tasks);
    }

    method ChangeTasks(id: int, plugin: int, base: real, now: real) returns (count: nat)
      modifies this
      ensures Value() == Rebase(old(Value()), id, plugin, base, now) && count == CountMatches(old(tasks), id, plugin)
    {
      ghost var target := Rebase(Value(), id, plugin, base, now).tasks;
      var i := 0;
      count := 0;
      while i < |tasks|
        invariant 0 <= i <= |tasks| && |tasks| == |old(tasks)| == |target| && log == old(log)
        invariant forall k :: 0 <= k < i ==> tasks[k] == target[k]
        invariant forall k :: i <= k < |tasks| ==> tasks[k] == old(tasks)[k]
        invariant count == CountMatches(old(tasks)[..i], id, plugin)
      {
        assert old(tasks)[..i + 1][..i] == old(tasks)[..i];
        if Matches(tasks[i], id, plugin) {
          var t := tasks[i].(timing := tasks[i].timing.(base := base));
          if !t.inExecute { t := t.(timing := t.timing.(next := now + base)); }
          tasks := tasks[i := t];
          count := count + 1;
        }
        i := i + 1;
      }
      assert tasks == target && old(tasks)[..i] == old(tasks);
    }

    /** What a callback asks for, in order. */
    method Perform(script: seq<Action>, now: real)
      modifies this
      ensures Value() == ApplyAll(old(Value()), script, now)
    {
      var k := 0;
      while k < |script|
        invariant 0 <= k <= |script| && ApplyAll(Value(), script[k..], now) == ApplyAll(old(Value()), script, now)
      {
        assert script[k..][0] == script[k] && script[k..][1..] == script[k + 1..];
        match script[k] {
          case Register(o) => RegisterTask(o, now);
          case Remove(id, plugin) => var _ := RemoveTasks(id, plugin);
          case Change(id, plugin, base) => var _ := ChangeTasks(id, plugin, base, now);
        }
        k := k + 1;
      }
    }

    method ExecuteIfRequired(i: nat, f: Frame)
      requires i < |tasks|
      modifies this
      ensures Value() == Execute(old(Value()), i, f)
    {
      hide ApplyAll, Due, Does;
      if Due(tasks[i], f.clock) {
        if !(tasks[i].timing.loop && tasks[i].timing.repeat == 0) {
          log := log + [Called(tasks[i].owner.func, f.clock.now)];
          tasks := tasks[i := tasks[i].(inExecute := true)];
          Perform(Does(f, i), f.clock.now);
          tasks := tasks[i := tasks[i].(inExecute := false)];
          assert Value() == Call(old(Value()), i, f);
        }
        label Settled:
        if tasks[i].free { return; }
        var t := tasks[i].timing;
        var done := !t.loop;
        if t.loop && t.repeat != FOREVER {
          t := t.(repeat := t.repeat - 1);
          done := t.repeat <= 0;
          tasks := tasks[i := tasks[i].(timing := t)];
        }
        if done {
          ClearTask(i);
        } else {
          tasks := tasks[i := tasks[i].(timing := t.(next := t.next + t.base))];
        }
        assert Value() == Settle(old@Settled(Value()), i);
      }
    }

    method StartFrame(f: Frame)
      modifies this
      ensures Value() == FrameFrom(old(Value()), f, 0, |old(tasks)|)
    {
      var last := |tasks|;
      var i := 0;
      while i < last
        invariant 0 <= i <= last <= |tasks|
        invariant FrameFrom(Value(), f, i, last) == FrameFrom(old(Value()), f, 0, |old(tasks)|)
      {
        if !tasks[i].free { ExecuteIfRequired(i, f); }
        i := i + 1;
      }
    }
  }
}
