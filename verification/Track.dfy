/** Staying on instructions: in a program whose code addresses name instructions, only computed transfers can leave
    them. */
module Track {
  import opened Wrappers
  import opened Words
  import opened Amx
  import opened Loader
  import opened Machine

  predicate Names(code: seq<Cell>, x: Cell) { x % 4 == 0 && IsInstr(code, x / 4) }

  /** Every code address in the program names an instruction. */
  ghost predicate Closed(code: seq<Cell>) {
    forall i: nat, j: nat {:trigger IsInstr(code, i), IsTarget(code[i], j)} ::
      IsInstr(code, i) && j < Len(code, i) && i + j < |code| && IsTarget(code[i], j) ==> Names(code, code[i + j])
  }

  /** The instructions that go where a register, the stack or a relative offset says. */
  predicate Computed(op: Cell, operand: Option<Cell>) {
    op == OP_RET || op == OP_RETN || op == OP_CALL_PRI || op == OP_JUMP_PRI || op == OP_JREL
    || (op == OP_SCTRL && operand == Some(6))
  }

  /** On an instruction, or behind the last. */
  predicate Lands(code: seq<Cell>, cip: Cell) { Names(code, cip) || cip == 4 * |code| }

  // ---------------------------------------------------------------- effects

  lemma BareFalls(env: Env, op: int, next: Cell, r: Regs)
    ensures ExecBare(env, op, next, r).Goto? ==>
      op == OP_RET || op == OP_RETN || op == OP_CALL_PRI || op == OP_JUMP_PRI
  {
    hide Load, Store, LoadChecked, Push, Divide, UDivide, Leave, SwapTop, IncAt, FloatOp, AfterCall, BadAddr,
      Wrap, Shl, Shr, Sshr, And, Or, Xor, S;
    Quiet(env, r);
  }

  /** The helpers never jump. */
  lemma Quiet(env: Env, r: Regs)
    ensures forall v :: !Push(r, v).Goto?
    ensures forall a :: !LoadChecked(env, r, a).Goto?
    ensures forall n, d :: !Divide(r, n, d).Goto? && !UDivide(r, n, d).Goto?
    ensures forall v, p :: !SwapTop(r, v, p).Goto?
    ensures forall a, d :: !IncAt(r, a, d).Goto?
    ensures forall k, f :: !FloatOp(k, f, r).Goto?
    ensures forall c :: !AfterCall(r, c).Goto?
    ensures forall n :: !PushMany(r, n).Goto?
  {
    forall n: nat ensures !PushMany(r, n).Goto? { ManyQuiet(r, n); }
  }

  lemma {:induction false} ManyQuiet(r: Regs, n: nat)
    ensures !PushMany(r, n).Goto?
    decreases n
  {
    if n > 0 {
      var e := Push(r, r.pri);
      if e.Fall? { ManyQuiet(e.r, n - 1); }
    }
  }

  lemma OneFalls(env: Env, op: int, x: Cell, next: Cell, r: Regs)
    ensures ExecOne(env, op, x, next, r).Goto? ==> op == OP_JREL || (op == OP_SCTRL && x == 6)
  {
    hide Load, Store, LoadAt, StoreAt, LoadChecked, Push, PushMany, IncAt, AfterCall, BadAddr, BadBlock, Put, Slice,
      Fill, ReadLE, LE, Wrap, Shl, Shr, Xor, S;
    Quiet(env, r);
  }

  lemma PlainFalls(env: Env, op: Cell, operand: Option<Cell>, rel: Cell, r: Regs)
    ensures Plain(env, op, operand, rel, r).Goto? ==> Computed(op, operand)
  {
    hide ExecBare, ExecOne, ShapeOf, After, AfterCall, S;
    var next := After(op, operand, rel);
    BareFalls(env, op, next, r);
    if operand.Some? { OneFalls(env, op, operand.value, next, r); }
    Quiet(env, r);
  }

  // ---------------------------------------------------------------- one step

  /** The instruction behind, or the end. */
  lemma NextLands(code: seq<Cell>, i: nat)
    requires GoodCode(code) && IsInstr(code, i)
    ensures Fits(code, i) && Lands(code, Wrap(4 * (i + Len(code, i))))
  {
    hide Len, WellFormed, Reaches;
    InstrFits(code, i);
    var next := i + Len(code, i);
    ReachesStep(code, 0, i);
    ReachesSelf(code);
    if next < |code| {
      assert Wrap(4 * next) == 4 * next;
    } else if 4 * next == 0x1_0000_0000 {
      assert Wrap(4 * next) == 0;
    } else {
      assert Wrap(4 * next) == 4 * next;
    }
  }

  lemma ReachesSelf(code: seq<Cell>)
    ensures code != [] ==> IsInstr(code, 0)
  {
  }

  /** What falls through goes to the next instruction. */
  lemma AfterIs(code: seq<Cell>, i: nat)
    requires GoodCode(code) && IsInstr(code, i) && Fits(code, i)
    requires !ShapeOf(code[i]).Cases? && !ShapeOf(code[i]).Target?
    ensures var operand := if i + 1 < |code| then Some(code[i + 1]) else None;
      After(code[i], operand, 4 * i) == Wrap(4 * (i + Len(code, i)))
  {
    hide ShapeOf, WellFormed, Reaches;
  }

  lemma TargetNames(code: seq<Cell>, i: nat, j: nat)
    requires Closed(code) && IsInstr(code, i) && j < Len(code, i) && i + j < |code| && IsTarget(code[i], j)
    ensures Names(code, code[i + j])
  {
  }

  /** The search of a case table ends at one of its targets. */
  lemma {:induction false} ScanNames(code: seq<Cell>, env: Env, k: nat, j: nat, pri: Cell, none: Cell)
    requires Closed(code) && IsInstr(code, k) && code[k] == OP_CASETBL && Fits(code, k) && 4 * |code| <= 0x1_0000_0000
    requires k + 1 < |code| && j <= S(code[k + 1]) && Names(code, none)
    ensures var v := Scan(Original(code, env), 4 * k + 12 + 8 * j, S(code[k + 1]) - j, pri, none);
      v.Some? ==> Names(code, v.value)
    decreases S(code[k + 1]) - j
  {
    hide Closed, Reaches, S, Fetch, Len, ShapeOf;
    if j < S(code[k + 1]) {
      RecordNames(code, env, k, j);
      ScanNames(code, env, k, j + 1, pri, none);
      assert 12 + 8 * j + 8 == 12 + 8 * (j + 1);
    }
  }

  lemma RecordTarget(code: seq<Cell>, k: nat, j: nat)
    requires k + 1 < |code| && code[k] == OP_CASETBL && Fits(code, k) && j < S(code[k + 1])
    ensures var q := 3 + 2 * j + 1; q < Len(code, k) && k + q < |code| && IsTarget(code[k], q)
  {
    hide S;
    var q := 3 + 2 * j + 1;
    assert q % 2 == 0;
  }

  lemma RecordNames(code: seq<Cell>, env: Env, k: nat, j: nat)
    requires Closed(code) && IsInstr(code, k) && code[k] == OP_CASETBL && Fits(code, k) && 4 * |code| <= 0x1_0000_0000
    requires k + 1 < |code| && j < S(code[k + 1])
    ensures var v := Fetch(Original(code, env), 4 * k + 12 + 8 * j + 4); v.Some? && Names(code, v.value)
  {
    hide Closed, Reaches, S, Len, IsTarget, Fits, ShapeOf, Fetch, Names, IsInstr;
    var q := 3 + 2 * j + 1;
    RecordTarget(code, k, j);
    TargetNames(code, k, q);
    assert 4 * (k + q) == 4 * k + 12 + 8 * j + 4;
    FetchAt(Original(code, env), 4 * (k + q), k + q);
  }

  lemma SwitchLands(code: seq<Cell>, env: Env, k: nat, r: Regs)
    requires GoodCode(code) && Closed(code) && IsInstr(code, k) && code[k] == OP_CASETBL && 4 * k < 0x1_0000_0000
    ensures var o := Switch(Original(code, env), 4 * k, r); o.Next? ==> Names(code, o.cip)
  {
    hide Closed, WellFormed, Reaches, S, Scan;
    InstrFits(code, k);
    TableSize(code, k);
    FetchAt(Original(code, env), 4 * k + 4, k + 1);
    FetchAt(Original(code, env), 4 * k + 8, k + 2);
    TargetNames(code, k, 2);
    ScanNames(code, env, k, 0, r.pri, code[k + 2]);
  }

  lemma TableSize(code: seq<Cell>, k: nat)
    requires k < |code| && code[k] == OP_CASETBL && Fits(code, k)
    ensures k + 2 < |code| && Len(code, k) >= 3 && IsTarget(code[k], 2) && S(code[k + 1]) >= 0
  {
  }

  lemma JumpLands(code: seq<Cell>, env: Env, i: nat, r: Regs)
    requires GoodCode(code) && Closed(code) && IsInstr(code, i) && ShapeOf(code[i]).Target? && Fits(code, i)
    ensures i + 1 < |code|
    ensures var o := JumpStep(Original(code, env), code[i], code[i + 1], 4 * i, r); o.Next? ==> Lands(code, o.cip)
  {
    hide Closed, WellFormed, Reaches, Switch, Taken, Push;
    TargetSize(code, i);
    TargetNames(code, i, 1);
    NextLands(code, i);
    if code[i] == OP_SWITCH {
      SwitchOperand(code, i);
      SwitchLands(code, env, code[i + 1] / 4, r);
    }
  }

  lemma TargetSize(code: seq<Cell>, i: nat)
    requires i < |code| && ShapeOf(code[i]).Target? && Fits(code, i)
    ensures i + 1 < |code| && Len(code, i) == 2 && IsTarget(code[i], 1)
  {
  }

  /** From an instruction that does not compute its goal, the program comes to an instruction or behind the last. */
  lemma StepLands(code: seq<Cell>, env: Env, i: nat, r: Regs)
    requires GoodCode(code) && Closed(code) && IsInstr(code, i)
    requires !Computed(code[i], if i + 1 < |code| then Some(code[i + 1]) else None)
    ensures var o := Step(Original(code, env), 4 * i, r); o.Next? ==> Lands(code, o.cip)
  {
    hide Closed, WellFormed, Reaches, JumpStep, Plain, After, ShapeOf, Computed, Lands, Len, Wrap, Dispatch, Fetch;
    InstrFits(code, i);
    NextLands(code, i);
    OwnOpcode(code, env, i);
    var m, op := Original(code, env), code[i];
    var operand := if i + 1 < |code| then Some(code[i + 1]) else None;
    if ShapeOf(op).Target? {
      JumpLands(code, env, i, r);
    } else {
      Unbased(4 * i);
      ExecuteBare(m, op, Fetch(m, 4 * i + 4), operand, 4 * i, r);
      PlainFalls(env, op, operand, 4 * i, r);
      CasesStuck(env, op, operand, 4 * i, r);
      if !ShapeOf(op).Cases? {
        AfterIs(code, i);
        Unbased(After(op, operand, 4 * i));
      }
    }
  }

  lemma Unbased(c: Cell)
    ensures Wrap(c - 0) == c && Wrap(0 + c) == c
  {
  }

  lemma CasesStuck(env: Env, op: Cell, operand: Option<Cell>, rel: Cell, r: Regs)
    ensures ShapeOf(op).Cases? ==> Plain(env, op, operand, rel, r).Undefined?
  {
  }

  lemma OwnOpcode(code: seq<Cell>, env: Env, i: nat)
    requires 4 * |code| <= 0x1_0000_0000 && i < |code| && Fits(code, i)
    ensures var m := Original(code, env);
      && 4 * i < 0x1_0000_0000 && Fetch(m, 4 * i) == Some(code[i])
      && code[i] < NUM_OPCODES == |m.labels| && Dispatch(m.labels, code[i]) == code[i]
      && (i + 1 < |code| ==> Fetch(m, 4 * i + 4) == Some(code[i + 1]))
      && (i + 1 < |code| || ShapeOf(code[i]).Bare?)
  {
    hide ShapeOf, Dispatch, Fetch, S;
    var m := Original(code, env);
    ShapeFacts(code[i]);
    DispatchOf(m.labels, code[i]);
    FetchAt(m, 4 * i, i);
    if i + 1 < |code| { FetchAt(m, 4 * i + 4, i + 1); }
  }

  // ---------------------------------------------------------------- runs

  /** What is left to ask of a run: computed transfers come to instructions, nothing happens that C leaves open, and a
      patched floatround is asked only for the modes the opcode knows. */
  ghost predicate Guarded(code: seq<Cell>, t: Loader.Target, env: Env, o: Outcome, n: nat)
    decreases n
  {
    n == 0 || !o.Next? ||
    var i, next := o.cip / 4, Step(Original(code, env), o.cip, o.r);
    && !next.Stuck? && Guarded(code, t, env, next, n - 1)
    && (i < |code| && PatchOf(code, i, t.natives) == Some(5) ==> RoundModeKnown(o.r))
    && (i < |code| && Computed(code[i], if i + 1 < |code| then Some(code[i + 1]) else None) && next.Next? ==>
          Lands(code, next.cip))
  }

  /** Behind the last instruction there is nothing to run. */
  lemma EndStuck(code: seq<Cell>, env: Env, cip: Cell, r: Regs)
    requires 4 * |code| <= 0x1_0000_0000 && cip == 4 * |code|
    ensures Step(Original(code, env), cip, r).Stuck?
  {
    hide Dispatch, Execute;
  }

  /** A program whose code addresses name instructions stays on instructions as long as its computed transfers do. */
  lemma {:induction false} StaysOnTrack(code: seq<Cell>, t: Loader.Target, env: Env, o: Outcome, n: nat)
    requires GoodCode(code) && Closed(code) && Guarded(code, t, env, o, n) && (o.Next? ==> Lands(code, o.cip))
    ensures OnTrack(code, t, env, o, n)
    decreases n
  {
    hide GoodCode, Closed, Reaches, Step, PatchOf, RoundModeKnown, Computed;
    if n > 0 && o.Next? {
      Small(code);
      if o.cip == 4 * |code| {
        EndStuck(code, env, o.cip, o.r);
        assert false;
      } else {
        var i, next := o.cip / 4, Step(Original(code, env), o.cip, o.r);
        var operand := if i + 1 < |code| then Some(code[i + 1]) else None;
        if !Computed(code[i], operand) { StepLands(code, env, i, o.r); }
        StaysOnTrack(code, t, env, next, n - 1);
      }
    }
  }

  lemma Small(code: seq<Cell>)
    requires GoodCode(code)
    ensures 4 * |code| <= 0x1_0000_0000
  {
  }

  /** So loading preserves every such run that starts on an instruction. */
  lemma ClosedRunMoved(code: seq<Cell>, code': seq<Cell>, t: Loader.Target, env: Env, o: Outcome, n: nat)
    requires Image(code, code', t) && Closed(code) && Bound(env, t.natives)
    requires Guarded(code, t, env, o, n) && (o.Next? ==> Names(code, o.cip))
    ensures Run(Loaded(code', t, env), Moved(o, t.base), Pace(code, t, env, o, n)) ==
            Moved(Run(Original(code, env), o, n), t.base)
  {
    StaysOnTrack(code, t, env, o, n);
    RunMoved(code, code', t, env, o, n);
  }
}
