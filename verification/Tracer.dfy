/** The debugger's call-stack tracer: a list of reusable nodes that follows the frame pointer, one list for each
    nested execution. */
module Tracer {
  import opened Wrappers

  datatype Frame = Frame(frm: int, cip: int)

  // ---------------------------------------------------------------- the list as a value

  /** Where stepping would run off the start of the list. */
  predicate RunsOff(fs: seq<Frame>, frm: int) { |fs| == 1 && fs[0].frm < frm }

  /** The used part of the list after a step: a lower frame is pushed, a higher one pops the last, and the last
      left gets the instruction pointer. */
  function Stepped(fs: seq<Frame>, frm: int, cip: int): seq<Frame>
    requires !RunsOff(fs, frm)
  {
    if fs == [] then [Frame(frm, cip)]
    else
      var n := |fs| - 1;
      if fs[n].frm > frm then fs + [Frame(frm, cip)]
      else if fs[n].frm < frm then fs[..n - 1] + [Frame(fs[n - 1].frm, cip)]
      else fs[..n] + [Frame(frm, cip)]
  }

  predicate Descending(fs: seq<Frame>) { forall i, j :: 0 <= i < j < |fs| ==> fs[i].frm > fs[j].frm }

  // ---------------------------------------------------------------- runs

  /** What the debugger is told: an execution begins or ends, the current one is at a frame, or all are given up. */
  datatype Move = Enter | Exit | Forget | Step(frm: int, cip: int)

  /** One list for each execution, the innermost last. */
  predicate Sound(lists: seq<seq<Frame>>, m: Move) {
    match m
    case Enter => true
    case Exit => lists != []
    case Forget => true
    case Step(frm, _) => lists != [] && !RunsOff(lists[|lists| - 1], frm)
  }

  function Moved(lists: seq<seq<Frame>>, m: Move): seq<seq<Frame>>
    requires Sound(lists, m)
  {
    match m
    case Enter => lists + [[]]
    case Exit => lists[..|lists| - 1]
    case Forget => []
    case Step(frm, cip) => lists[|lists| - 1 := Stepped(lists[|lists| - 1], frm, cip)]
  }

  /** No step of the run pops the only node of its list. */
  predicate NeverOff(lists: seq<seq<Frame>>, run: seq<Move>)
    decreases |run|
  {
    run == [] || (Sound(lists, run[0]) && NeverOff(Moved(lists, run[0]), run[1..]))
  }

  function MovedAll(lists: seq<seq<Frame>>, run: seq<Move>): seq<seq<Frame>>
    requires NeverOff(lists, run)
    decreases |run|
  {
    if run == [] then lists else MovedAll(Moved(lists, run[0]), run[1..])
  }

  /** The first frames seen in the executions begun; no frame of an execution lies above its first one. */
  predicate Under(firsts: seq<Option<int>>, m: Move) {
    match m
    case Enter => true
    case Exit => firsts != []
    case Forget => true
    case Step(frm, _) => firsts != [] && (firsts[|firsts| - 1].Some? ==> frm <= firsts[|firsts| - 1].value)
  }

  function Saw(firsts: seq<Option<int>>, m: Move): seq<Option<int>>
    requires Under(firsts, m)
  {
    match m
    case Enter => firsts + [None]
    case Exit => firsts[..|firsts| - 1]
    case Forget => []
    case Step(frm, _) => if firsts[|firsts| - 1].Some? then firsts else firsts[|firsts| - 1 := Some(frm)]
  }

  predicate Bounded(firsts: seq<Option<int>>, run: seq<Move>)
    decreases |run|
  {
    run == [] || (Under(firsts, run[0]) && Bounded(Saw(firsts, run[0]), run[1..]))
  }

  function SawAll(firsts: seq<Option<int>>, run: seq<Move>): seq<Option<int>>
    requires Bounded(firsts, run)
    decreases |run|
  {
    if run == [] then firsts else SawAll(Saw(firsts, run[0]), run[1..])
  }

  function First(fs: seq<Frame>): Option<int> { if fs == [] then None else Some(fs[0].frm) }

  function Firsts(lists: seq<seq<Frame>>): seq<Option<int>> {
    seq(|lists|, k requires 0 <= k < |lists| => First(lists[k]))
  }

  lemma SteppedDescends(fs: seq<Frame>, frm: int, cip: int)
    requires Descending(fs) && (fs != [] ==> frm <= fs[0].frm)
    ensures !RunsOff(fs, frm) && Descending(Stepped(fs, frm, cip))
    ensures First(Stepped(fs, frm, cip)) == if fs == [] then Some(frm) else First(fs)
  {
  }

  lemma MoveDescends(lists: seq<seq<Frame>>, m: Move)
    requires AllDescending(lists) && Under(Firsts(lists), m)
    ensures Sound(lists, m) && AllDescending(Moved(lists, m)) && Firsts(Moved(lists, m)) == Saw(Firsts(lists), m)
  {
    if m.Step? {
      hide Stepped, Descending, RunsOff;
      FirstOf(lists, |lists| - 1);
      SteppedDescends(lists[|lists| - 1], m.frm, m.cip);
    }
  }

  lemma FirstOf(lists: seq<seq<Frame>>, k: nat)
    requires k < |lists|
    ensures Firsts(lists)[k] == First(lists[k])
  {
  }

  /** Whatever the executions do: when no frame lies above the first one seen, popping never runs off the start, the
      frames of every list are strictly decreasing, and each list still begins at the first frame of its execution. */
  lemma {:induction false} BoundedRun(lists: seq<seq<Frame>>, run: seq<Move>)
    requires AllDescending(lists) && Bounded(Firsts(lists), run)
    ensures NeverOff(lists, run) && AllDescending(MovedAll(lists, run))
    ensures Firsts(MovedAll(lists, run)) == SawAll(Firsts(lists), run)
    decreases |run|
  {
    hide Sound, Moved, Under, Saw, Firsts, AllDescending;
    if run != [] {
      MoveDescends(lists, run[0]);
      BoundedRun(Moved(lists, run[0]), run[1..]);
    }
  }

  predicate AllDescending(lists: seq<seq<Frame>>) { forall k :: 0 <= k < |lists| ==> Descending(lists[k]) }

  function StepsOf(frames: seq<Frame>): seq<Move>
    ensures |StepsOf(frames)| == |frames|
  {
    seq(|frames|, k requires 0 <= k < |frames| => Step(frames[k].frm, frames[k].cip))
  }

  lemma {:induction false} StepsBounded(first: Option<int>, frames: seq<Frame>)
    requires forall k :: 0 <= k < |frames| ==> frames[k].frm <= if first.Some? then first.value else frames[0].frm
    ensures Bounded([first], StepsOf(frames))
    decreases |frames|
  {
    if frames != [] {
      var moves, top := StepsOf(frames), if first.Some? then first.value else frames[0].frm;
      assert moves[0] == Step(frames[0].frm, frames[0].cip) && moves[1..] == StepsOf(frames[1..]);
      assert Saw([first], moves[0]) == [Some(top)];
      StepsBounded(Some(top), frames[1..]);
    }
  }

  /** One list, any frames of which none lies above the first. */
  lemma OneList(frames: seq<Frame>)
    requires forall k :: 0 <= k < |frames| ==> frames[k].frm <= frames[0].frm
    ensures NeverOff([[]], StepsOf(frames)) && AllDescending(MovedAll([[]], StepsOf(frames)))
  {
    StepsBounded(None, frames);
    assert Firsts([[]]) == [None];
    BoundedRun([[]], StepsOf(frames));
  }

  // ---------------------------------------------------------------- the real call stacks

  /** What happens in the machine between two steps of the debugger. */
  datatype Action =
    | Begin
    | End
    | Abort
    | Stay(cip: int)
    | Call(frm: int, cip: int)
    | Return(cip: int)

  predicate Runs(a: Action) { a.Stay? || a.Call? || a.Return? }

  /** One stack for each execution, the innermost last. */
  predicate Possible(stacks: seq<seq<Frame>>, a: Action) {
    match a
    case Begin => true
    case End => stacks != []
    case Abort => true
    case Stay(_) => stacks != [] && stacks[|stacks| - 1] != []
    case Call(frm, _) => stacks != [] && (stacks[|stacks| - 1] == [] || frm < Last(stacks[|stacks| - 1]).frm)
    case Return(_) => stacks != [] && |stacks[|stacks| - 1]| >= 2
  }

  function Last(fs: seq<Frame>): Frame
    requires fs != []
  {
    fs[|fs| - 1]
  }

  /** A call pushes its frame, a return drops one, and the frame on top runs at the new instruction. */
  function Act(stacks: seq<seq<Frame>>, a: Action): seq<seq<Frame>>
    requires Possible(stacks, a)
  {
    if a == Begin then stacks + [[]]
    else if a == Abort then []
    else
      var k := |stacks| - 1;
      var fs := stacks[k];
      match a
      case End => stacks[..k]
      case Stay(cip) => stacks[k := fs[..|fs| - 1] + [Last(fs).(cip := cip)]]
      case Call(frm, cip) => stacks[k := fs + [Frame(frm, cip)]]
      case Return(cip) => stacks[k := fs[..|fs| - 2] + [fs[|fs| - 2].(cip := cip)]]
  }

  /** The frame pointer the debugger sees after the action. */
  function Seen(stacks: seq<seq<Frame>>, a: Action): Frame
    requires Possible(stacks, a) && Runs(a)
  {
    var fs := stacks[|stacks| - 1];
    match a
    case Stay(cip) => Last(fs).(cip := cip)
    case Call(frm, cip) => Frame(frm, cip)
    case Return(cip) => fs[|fs| - 2].(cip := cip)
  }

  /** What the debugger is told of the action. */
  function Told(stacks: seq<seq<Frame>>, a: Action): Move
    requires Possible(stacks, a)
  {
    match a
    case Begin => Enter
    case End => Exit
    case Abort => Forget
    case _ => Step(Seen(stacks, a).frm, Seen(stacks, a).cip)
  }

  /** One call or one return at a time: the lists and the real stacks stay the same. */
  lemma SteppedIsReal(stacks: seq<seq<Frame>>, a: Action)
    requires Possible(stacks, a) && AllDescending(stacks)
    ensures Sound(stacks, Told(stacks, a)) && Moved(stacks, Told(stacks, a)) == Act(stacks, a)
    ensures AllDescending(Act(stacks, a))
  {
    match a {
      case Begin =>
      case End =>
      case Abort =>
      case _ =>
        var k := |stacks| - 1;
        TopIsReal(stacks[k], a);
        assert stacks[k] in stacks;
        hide Stepped, Descending, RunsOff;
        var top := After(stacks[k], a);
        assert Act(stacks, a) == stacks[k := top];
    }
  }

  /** The stack of the current execution after the action. */
  function After(fs: seq<Frame>, a: Action): seq<Frame>
    requires Runs(a) && Possible([fs], a)
  {
    Act([fs], a)[0]
  }

  lemma TopIsReal(fs: seq<Frame>, a: Action)
    requires Runs(a) && Possible([fs], a) && Descending(fs)
    ensures var seen := Seen([fs], a);
      !RunsOff(fs, seen.frm) && Stepped(fs, seen.frm, seen.cip) == After(fs, a) && Descending(After(fs, a))
  {
  }

  predicate AllPossible(stacks: seq<seq<Frame>>, run: seq<Action>)
    decreases |run|
  {
    run == [] || (Possible(stacks, run[0]) && AllPossible(Act(stacks, run[0]), run[1..]))
  }

  function ActAll(stacks: seq<seq<Frame>>, run: seq<Action>): seq<seq<Frame>>
    requires AllPossible(stacks, run)
    decreases |run|
  {
    if run == [] then stacks else ActAll(Act(stacks, run[0]), run[1..])
  }

  function ToldAll(stacks: seq<seq<Frame>>, run: seq<Action>): seq<Move>
    requires AllPossible(stacks, run)
    decreases |run|
  {
    if run == [] then [] else [Told(stacks, run[0])] + ToldAll(Act(stacks, run[0]), run[1..])
  }

  /** Over any run of nested executions, calls and returns, told after each of them, the lists are the real stacks. */
  lemma {:induction false} RunIsReal(stacks: seq<seq<Frame>>, run: seq<Action>)
    requires AllDescending(stacks) && AllPossible(stacks, run)
    ensures NeverOff(stacks, ToldAll(stacks, run)) && MovedAll(stacks, ToldAll(stacks, run)) == ActAll(stacks, run)
    decreases |run|
  {
    hide Sound, Moved, Act, Possible, Told, AllDescending;
    if run != [] {
      SteppedIsReal(stacks, run[0]);
      RunIsReal(Act(stacks, run[0]), run[1..]);
      var moves := ToldAll(stacks, run);
      assert moves[0] == Told(stacks, run[0]) && moves[1..] == ToldAll(Act(stacks, run[0]), run[1..]);
    }
  }

  /** A return through two frames at once shows the list too long by one: the exact cost of skipping a step. */
  lemma DoubleReturn(fs: seq<Frame>, cip: int)
    requires Descending(fs) && |fs| >= 3
    ensures var seen := fs[|fs| - 3].frm; var r := Stepped(fs, seen, cip);
      |r| == |fs| - 1 && Last(r).frm == fs[|fs| - 2].frm < seen
        && Stepped(r, seen, cip) == fs[..|fs| - 3] + [Frame(seen, cip)]
  {
  }

  // ---------------------------------------------------------------- the list as nodes

  datatype Info = Info(frame: Frame, used: bool)

  class TraceList {
    var infos: seq<Info>
    var end: int

    constructor ()
      ensures Valid() && Used() == []
    {
      infos, end := [], -1;
    }

    /** Used nodes are exactly those up to the current one. */
    ghost predicate Valid()
      reads this
    {
      -1 <= end < |infos| && forall i :: 0 <= i < |infos| ==> (infos[i].used <==> i <= end)
    }

    function Used(): seq<Frame>
      requires -1 <= end < |infos|
      reads this
    {
      seq(end + 1, i requires 0 <= i <= end < |infos| reads this => infos[i].frame)
    }

    method StepI(frm: int, cip: int)
      requires Valid() && !RunsOff(Used(), frm)
      modifies this
      ensures Valid() && Used() == Stepped(old(Used()), frm, cip)
    {
      if end == -1 {
        if infos == [] { infos := [Info(Frame(0, 0), false)]; }
        end := 0;
        infos := infos[0 := Info(Frame(frm, cip), true)];
      } else {
        if infos[end].frame.frm > frm {
          if end + 1 < |infos| {
            end := end + 1;
            infos := infos[end := infos[end].(used := true)];
          } else {
            infos := infos + [Info(Frame(0, 0), true)];
            end := end + 1;
          }
          infos := infos[end := infos[end].(frame := infos[end].frame.(frm := frm))];
        } else if infos[end].frame.frm < frm {
          assert old(Used())[0] == infos[0].frame;
          infos := infos[end := infos[end].(used := false)];
          end := end - 1;
        }
        infos := infos[end := infos[end].(frame := infos[end].frame.(cip := cip))];
      }
    }

    method Reset()
      requires Valid()
      modifies this
      ensures Valid() && Used() == [] && |infos| == |old(infos)|
    {
      var i := 0;
      while i < |infos| && infos[i].used
        invariant 0 <= i <= end + 1 <= |infos| == |old(infos)| && end == old(end)
        invariant forall k :: 0 <= k < |infos| ==> (infos[k].used <==> i <= k <= end)
      {
        infos := infos[i := infos[i].(used := false)];
        i := i + 1;
      }
      end := -1;
    }
  }

  // ---------------------------------------------------------------- nested executions

  class Debugger {
    var calls: seq<TraceList>
    var top: int

    ghost function Lists(): set<TraceList>
      reads this
    {
      set t | t in calls
    }

    ghost predicate Valid()
      reads this, Lists()
    {
      && -1 <= top < |calls|
      && (forall i, j :: 0 <= i < j < |calls| ==> calls[i] != calls[j])
      && (forall i :: 0 <= i < |calls| ==> calls[i].Valid())
    }

    /** The lists of the running executions. */
    ghost predicate Shows(lists: seq<seq<Frame>>)
      reads this, Lists()
    {
      Valid() && |lists| == top + 1 && forall k :: 0 <= k <= top ==> calls[k].Used() == lists[k]
    }

    constructor ()
      ensures Shows([]) && calls == []
    {
      calls, top := [], -1;
    }

    method BeginExec(ghost lists: seq<seq<Frame>>)
      requires Shows(lists)
      modifies this, Lists()
      ensures Shows(Moved(lists, Enter)) && fresh(Lists() - old(Lists()))
    {
      top := top + 1;
      if top >= |calls| {
        var t := new TraceList();
        calls := calls + [t];
      }
      calls[top].Reset();
      assert calls[top].Used() == [];
    }

    method EndExec(ghost lists: seq<seq<Frame>>)
      requires Shows(lists) && Sound(lists, Exit)
      modifies this, Lists()
      ensures Shows(Moved(lists, Exit)) && calls == old(calls)
    {
      calls[top].Reset();
      top := top - 1;
    }

    /** The hook: sees the current frame pointer and instruction. */
    method StepI(frm: int, cip: int, ghost lists: seq<seq<Frame>>)
      requires Shows(lists) && Sound(lists, Step(frm, cip))
      modifies Lists()
      ensures Shows(Moved(lists, Step(frm, cip))) && calls == old(calls) && top == old(top)
    {
      calls[top].StepI(frm, cip);
    }

    /** Nothing runs any more; the lists are reset when they are used again. */
    method Reset()
      requires Valid()
      modifies `top
      ensures Shows([]) && calls == old(calls)
    {
      top := -1;
    }

    method Follow(m: Move, ghost lists: seq<seq<Frame>>)
      requires Shows(lists) && Sound(lists, m)
      modifies this, Lists()
      ensures Shows(Moved(lists, m)) && fresh(Lists() - old(Lists()))
    {
      match m {
        case Enter => BeginExec(lists);
        case Exit => EndExec(lists);
        case Forget => Reset();
        case Step(frm, cip) => StepI(frm, cip, lists);
      }
    }

    /** Any run of executions and steps in which no pop runs off its list. */
    method Watch(run: seq<Move>, ghost lists: seq<seq<Frame>>)
      requires Shows(lists) && NeverOff(lists, run)
      modifies this, Lists()
      ensures Shows(MovedAll(lists, run)) && fresh(Lists() - old(Lists()))
    {
      hide Shows, Moved, Sound;
      ghost var now := lists;
      var k := 0;
      while k < |run|
        invariant 0 <= k <= |run| && Shows(now) && NeverOff(now, run[k..])
        invariant MovedAll(now, run[k..]) == MovedAll(lists, run) && fresh(Lists() - old(Lists()))
      {
        assert run[k..][0] == run[k] && run[k..][1..] == run[k + 1..];
        Follow(run[k], now);
        now := Moved(now, run[k]);
        k := k + 1;
      }
    }
  }

  /** A debugger that starts with nothing running, under any frames bounded by the first: it never fails, and its
      lists are in order. */
  method WatchBounded(run: seq<Move>) returns (d: Debugger)
    requires Bounded([], run)
    ensures fresh(d) && NeverOff([], run) && d.Shows(MovedAll([], run)) && AllDescending(MovedAll([], run))
    ensures Firsts(MovedAll([], run)) == SawAll([], run)
  {
    assert Firsts([]) == [];
    BoundedRun([], run);
    d := new Debugger();
    d.Watch(run, []);
  }

  /** A debugger told after every call and return shows the real stacks. */
  method WatchReal(ghost run: seq<Action>, moves: seq<Move>) returns (d: Debugger)
    requires AllPossible([], run) && moves == ToldAll([], run)
    ensures fresh(d) && d.Shows(ActAll([], run))
  {
    RunIsReal([], run);
    d := new Debugger();
    d.Watch(moves, []);
  }
}
