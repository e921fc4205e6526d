/** The interpreter as a transition system, and the two transformations of its program: relocation and the
    float peephole. Both the original and the loaded image run on the same interpreter; the original sits at
    address 0 with opcodes for labels. */
module Machine {
  import opened Wrappers
  import opened Words
  import opened Amx
  import opened Loader

  datatype Machine = Machine(code: seq<Cell>, base: Cell, labels: seq<Cell>, env: Env)

  /** `cip` is a machine address; a sleeping machine has saved the code-relative one. */
  datatype Outcome =
    | Next(cip: Cell, r: Regs)
    | Aborted(err: int, cip: Cell, pri: Cell, alt: Cell)
    | Returned(err: int)
    | Slept(rel: Cell, r: Regs)
    | Stuck

  /** Which handler a label belongs to. */
  function Dispatch(labels: seq<Cell>, c: Cell): (k: nat)
    ensures k <= |labels| && (k < |labels| ==> labels[k] == c)
  {
    if labels == [] || labels[0] == c then 0 else 1 + Dispatch(labels[1..], c)
  }

  /** The code cell at a machine address. */
  function Fetch(m: Machine, addr: int): Option<Cell> {
    var rel := Wrap(addr - m.base);
    if rel % 4 == 0 && rel / 4 < |m.code| then Some(m.code[rel / 4]) else None
  }

  function Apply(m: Machine, next: Cell, e: Effect): Outcome {
    match e
    case Fall(r) => Next(Wrap(m.base + next), r)
    case Goto(o, r) => Next(Wrap(m.base + o), r)
    case Abort(err, r) => Aborted(err, Wrap(m.base + next), r.pri, r.alt)
    case Return(err) => Returned(err)
    case Sleep(r) => Slept(next, r)
    case Undefined => Stuck
  }

  /** The case table search: `num` records from `at`. */
  function Scan(m: Machine, at: int, num: int, pri: Cell, none: Cell): Option<Cell>
    decreases num
  {
    if num <= 0 then Some(none)
    else
      var v := Fetch(m, at);
      if v.None? then None
      else if v.value == pri then Fetch(m, at + 4)
      else Scan(m, at + 8, num - 1, pri, none)
  }

  function Switch(m: Machine, table: Cell, r: Regs): Outcome {
    var num, none := Fetch(m, table + 4), Fetch(m, table + 8);
    if num.None? || none.None? then Stuck
    else
      var t := Scan(m, table + 12, S(num.value), r.pri, none.value);
      if t.None? then Stuck else Next(t.value, r)
  }

  function JumpStep(m: Machine, op: int, x: Cell, cip: Cell, r: Regs): Outcome {
    if op == OP_SWITCH then Switch(m, x, r)
    else if op == OP_CALL then
      var e := Push(r, Wrap(cip - m.base + 8));
      if e.Fall? then Next(x, e.r) else Stuck
    else Next(if Taken(op, r) then x else Wrap(cip + 8), r)
  }

  /** The code-relative address behind the instruction at `rel`. */
  function After(op: int, operand: Option<Cell>, rel: Cell): Cell {
    match ShapeOf(op)
    case Bytes => Wrap(rel + 8 + if operand.Some? then operand.value else 0)
    case TwoOperands => Wrap(rel + 12)
    case OneOperand => Wrap(rel + 8)
    case Native => Wrap(rel + 8)
    case _ => Wrap(rel + 4)
  }

  /** What an instruction without code addresses does; it knows only its code-relative position. */
  function Plain(env: Env, op: int, operand: Option<Cell>, rel: Cell, r: Regs): Effect {
    var next := After(op, operand, rel);
    if ShapeOf(op).Invalid? then if op == 0 then Abort(ERR_INVINSTR, r) else Undefined
    else if ShapeOf(op).Bare? then ExecBare(env, op, next, r)
    else if ShapeOf(op).Cases? || operand.None? || op == OP_FILE then Undefined
    else if ShapeOf(op).OneOperand? then ExecOne(env, op, operand.value, next, r)
    else if ShapeOf(op).Native? then
      if S(operand.value) < 0 then Undefined else AfterCall(r, env.callback(operand.value, next, r))
    else Fall(r)
  }

  /** One instruction, its opcode and first operand already fetched. */
  function Execute(m: Machine, op: int, operand: Option<Cell>, cip: Cell, r: Regs): Outcome {
    if ShapeOf(op).Target? && operand.Some? then JumpStep(m, op, operand.value, cip, r)
    else
      var rel := Wrap(cip - m.base);
      Apply(m, After(op, operand, rel), Plain(m.env, op, operand, rel, r))
  }

  function Step(m: Machine, cip: Cell, r: Regs): Outcome {
    var c := Fetch(m, cip);
    if c.None? then Stuck
    else
      var op := Dispatch(m.labels, c.value);
      if op >= |m.labels| then Stuck else Execute(m, op, Fetch(m, cip + 4), cip, r)
  }

  /** The outcome after at most n steps. */
  function Run(m: Machine, o: Outcome, n: nat): Outcome
    decreases n
  {
    if n == 0 || !o.Next? then o else Run(m, Step(m, o.cip, o.r), n - 1)
  }

  function Identity(n: nat): (s: seq<Cell>)
    requires n <= NUM_OPCODES
    ensures |s| == n && forall i :: 0 <= i < n ==> s[i] == i
  {
    if n == 0 then [] else Identity(n - 1) + [n - 1]
  }

  /** The program as the compiler wrote it. */
  function Original(code: seq<Cell>, env: Env): Machine { Machine(code, 0, Identity(NUM_OPCODES), env) }

  /** The same outcome, with machine addresses counted from `base`. */
  function Moved(o: Outcome, base: Cell): Outcome {
    match o
    case Next(cip, r) => Next(Wrap(cip + base), r)
    case Aborted(err, cip, pri, alt) => Aborted(err, Wrap(cip + base), pri, alt)
    case _ => o
  }

  /** A code block whose instructions tile it and whose SWITCH operands name case tables. */
  ghost predicate GoodCode(code: seq<Cell>) {
    && 4 * |code| <= 0x1_0000_0000 && WellFormed(code, 0)
    && forall i: nat {:trigger IsInstr(code, i)} :: IsInstr(code, i) && code[i] == OP_SWITCH && i + 1 < |code| ==>
         var t := code[i + 1]; t % 4 == 0 && IsInstr(code, t / 4) && code[t / 4] == OP_CASETBL
  }

  lemma {:induction false} DispatchOf(labels: seq<Cell>, k: nat)
    requires k < |labels| && forall a, b :: 0 <= a < b < |labels| ==> labels[a] != labels[b]
    ensures Dispatch(labels, labels[k]) == k
  {
    if k != 0 {
      assert labels[0] != labels[k];
      DispatchOf(labels[1..], k - 1);
    }
  }

  lemma FetchAt(m: Machine, addr: int, j: nat)
    requires j < |m.code| && Wrap(addr - m.base) == 4 * j
    ensures Fetch(m, addr) == Some(m.code[j])
  {
  }

  lemma WrapShift(i: nat, k: nat, base: Cell)
    requires 4 * (i + k) < 0x1_0000_0000
    ensures Wrap(Wrap(4 * i + base) + 4 * k - base) == 4 * (i + k) == Wrap(4 * i + 4 * k - 0)
  {
  }

  // ---------------------------------------------------------------- one step

  ghost predicate Image(code: seq<Cell>, code': seq<Cell>, t: Loader.Target) {
    GoodTarget(t) && GoodCode(code) && Relocated(code, code', t)
  }

  /** The loaded program. */
  function Loaded(code': seq<Cell>, t: Loader.Target, env: Env): Machine { Machine(code', t.base, t.labels, env) }

  function At(i: nat, base: Cell): Cell { Wrap(4 * i + base) }

  /** The original's cell k of an instruction, and the loaded program's cell at the moved address. */
  lemma CellPair(code: seq<Cell>, code': seq<Cell>, t: Loader.Target, env: Env, i: nat, k: nat)
    requires |code'| == |code| && 4 * (i + k) < 0x1_0000_0000 && i + k < |code|
    ensures Fetch(Original(code, env), 4 * i + 4 * k) == Some(code[i + k])
    ensures Fetch(Loaded(code', t, env), At(i, t.base) + 4 * k) == Some(code'[i + k])
  {
    hide Wrap, Fetch;
    WrapShift(i, k, t.base);
    FetchAt(Original(code, env), 4 * i + 4 * k, i + k);
    FetchAt(Loaded(code', t, env), At(i, t.base) + 4 * k, i + k);
  }

  lemma OpcodePair(t: Loader.Target, op: Cell)
    requires GoodTarget(t) && op < NUM_OPCODES
    ensures Dispatch(Identity(NUM_OPCODES), op) == op == Dispatch(t.labels, t.labels[op])
  {
    DispatchOf(t.labels, op);
    DispatchOf(Identity(NUM_OPCODES), op);
  }

  lemma Operand(code: seq<Cell>, code': seq<Cell>, t: Loader.Target, i: nat, k: nat)
    requires Image(code, code', t) && IsInstr(code, i) && PatchOf(code, i, t.natives).None?
    requires Fits(code, i) && k < Len(code, i)
    ensures |code'| == |code|
    ensures k == 0 ==> !ShapeOf(code[i]).Invalid? && code[i] < NUM_OPCODES && code'[i] == t.labels[code[i]]
    ensures k > 0 ==> code'[i + k] == if IsTarget(code[i], k) then Wrap(code[i + k] + t.base) else code[i + k]
  {
    hide ShapeOf, WellFormed, Reaches;
    ShapeFacts(code[i]);
    assert InstrRelocated(code, code', i, t);
  }

  /** What both machines see at an instruction the optimiser leaves alone. */
  lemma SameInstruction(code: seq<Cell>, code': seq<Cell>, t: Loader.Target, env: Env, i: nat)
    requires Image(code, code', t) && IsInstr(code, i) && PatchOf(code, i, t.natives).None?
    ensures Fits(code, i)
    ensures Fetch(Original(code, env), 4 * i) == Some(code[i]) && code[i] < NUM_OPCODES == |t.labels|
    ensures Fetch(Loaded(code', t, env), At(i, t.base)) == Some(t.labels[code[i]])
    ensures Dispatch(Identity(NUM_OPCODES), code[i]) == code[i] == Dispatch(t.labels, t.labels[code[i]])
    ensures 4 * i < 0x1_0000_0000 && !ShapeOf(code[i]).Invalid?
  {
    hide ShapeOf, WellFormed, Reaches, InstrRelocated, Dispatch, Fetch, At, Wrap, Len;
    InstrFits(code, i);
    Operand(code, code', t, i, 0);
    OpcodePair(t, code[i]);
    CellPair(code, code', t, env, i, 0);
  }

  lemma SameOperand(code: seq<Cell>, code': seq<Cell>, t: Loader.Target, env: Env, i: nat)
    requires Image(code, code', t) && IsInstr(code, i) && PatchOf(code, i, t.natives).None?
    ensures !ShapeOf(code[i]).Bare? ==>
      && i + 1 < |code|
      && Fetch(Original(code, env), 4 * i + 4) == Some(code[i + 1])
      && Fetch(Loaded(code', t, env), At(i, t.base) + 4) ==
         Some(if IsTarget(code[i], 1) then Wrap(code[i + 1] + t.base) else code[i + 1])
  {
    hide ShapeOf, WellFormed, Reaches, InstrRelocated, Dispatch, Fetch, At, Wrap;
    InstrFits(code, i);
    if !ShapeOf(code[i]).Bare? {
      Operand(code, code', t, i, 1);
      CellPair(code, code', t, env, i, 1);
    }
  }

  lemma TableIsPlain(code: seq<Cell>, t: Loader.Target, k: nat)
    requires k < |code| && code[k] == OP_CASETBL && Fits(code, k)
    ensures PatchOf(code, k, t.natives).None? && ShapeOf(code[k]).Cases?
    ensures k + 2 < |code| && Len(code, k) == 3 + 2 * S(code[k + 1]) && k + Len(code, k) <= |code|
  {
  }

  /** Record j of a case table as both machines read it: the value is the same, the target moves. */
  lemma TableRecord(code: seq<Cell>, code': seq<Cell>, t: Loader.Target, env: Env, k: nat, j: nat)
    requires Image(code, code', t) && IsInstr(code, k) && code[k] == OP_CASETBL && Fits(code, k)
    requires k + 1 < |code| && j < S(code[k + 1])
    ensures var v := k + 3 + 2 * j;
      && v + 1 < |code|
      && Fetch(Original(code, env), 4 * k + 12 + 8 * j) == Some(code[v])
      && Fetch(Loaded(code', t, env), At(k, t.base) + 12 + 8 * j) == Some(code[v])
      && Fetch(Original(code, env), 4 * k + 12 + 8 * j + 4) == Some(code[v + 1])
      && Fetch(Loaded(code', t, env), At(k, t.base) + 12 + 8 * j + 4) == Some(Wrap(code[v + 1] + t.base))
  {
    hide Relocated, WellFormed, Reaches, GoodTarget, PatchOf, Fetch, ShapeOf, Wrap, Fits, Len, S;
    TableIsPlain(code, t, k);
    var a, b := 3 + 2 * j, 3 + 2 * j + 1;
    assert a % 2 == 1 && b % 2 == 0;
    Operand(code, code', t, k, a);
    Operand(code, code', t, k, b);
    CellPair(code, code', t, env, k, a);
    CellPair(code, code', t, env, k, b);
    assert 4 * a == 12 + 8 * j && 4 * b == 12 + 8 * j + 4;
  }

  lemma {:induction false} ScanMoved(code: seq<Cell>, code': seq<Cell>, t: Loader.Target, env: Env, k: nat, j: nat,
                                     pri: Cell, none: Cell)
    requires Image(code, code', t) && IsInstr(code, k) && code[k] == OP_CASETBL && Fits(code, k)
    requires k + 1 < |code| && j <= S(code[k + 1])
    ensures var num := S(code[k + 1]) - j;
      var o := Scan(Original(code, env), 4 * k + 12 + 8 * j, num, pri, none);
      o.Some? && Scan(Loaded(code', t, env), At(k, t.base) + 12 + 8 * j, num, pri, Wrap(none + t.base)) ==
                 Some(Wrap(o.value + t.base))
    decreases S(code[k + 1]) - j
  {
    hide Image, IsInstr, Fetch, At, Fits, Wrap, S;
    if j < S(code[k + 1]) {
      TableRecord(code, code', t, env, k, j);
      ScanMoved(code, code', t, env, k, j + 1, pri, none);
      assert 12 + 8 * j + 8 == 12 + 8 * (j + 1);
    }
  }

  /** The head of a case table, as both machines read it. */
  lemma TableHead(code: seq<Cell>, code': seq<Cell>, t: Loader.Target, env: Env, k: nat)
    requires Image(code, code', t) && IsInstr(code, k) && code[k] == OP_CASETBL
    ensures Fits(code, k) && k + 2 < |code| && S(code[k + 1]) >= 0
    ensures Fetch(Original(code, env), 4 * k + 4) == Some(code[k + 1])
    ensures Fetch(Loaded(code', t, env), At(k, t.base) + 4) == Some(code[k + 1])
    ensures Fetch(Original(code, env), 4 * k + 8) == Some(code[k + 2])
    ensures Fetch(Loaded(code', t, env), At(k, t.base) + 8) == Some(Wrap(code[k + 2] + t.base))
  {
    hide WellFormed, Reaches, InstrRelocated, Fetch;
    InstrFits(code, k);
    Operand(code, code', t, k, 1);
    CellPair(code, code', t, env, k, 1);
    Operand(code, code', t, k, 2);
    CellPair(code, code', t, env, k, 2);
  }

  lemma SwitchMoved(code: seq<Cell>, code': seq<Cell>, t: Loader.Target, env: Env, k: nat, r: Regs)
    requires Image(code, code', t) && IsInstr(code, k) && code[k] == OP_CASETBL && 4 * k < 0x1_0000_0000
    ensures Switch(Loaded(code', t, env), At(k, t.base), r) == Moved(Switch(Original(code, env), 4 * k, r), t.base)
  {
    hide Image, IsInstr, Fetch, Scan, Fits, S, Wrap;
    TableHead(code, code', t, env, k);
    ScanMoved(code, code', t, env, k, 0, r.pri, code[k + 2]);
  }

  lemma ApplyMoved(m: Machine, m': Machine, next: Cell, e: Effect)
    requires m.base == 0
    ensures Apply(m', next, e) == Moved(Apply(m, next, e), m'.base)
  {
    assert Wrap(0 + next) == next && m'.base + next == next + m'.base;
    if e.Goto? { assert Wrap(0 + e.offset) == e.offset && m'.base + e.offset == e.offset + m'.base; }
    hide Wrap;
  }

  lemma WrapSum(a: int, b: int, k: int)
    ensures Wrap(Wrap(a + b) + k) == Wrap(Wrap(a + k) + b)
  {
  }

  lemma SwitchOperand(code: seq<Cell>, i: nat)
    requires GoodCode(code) && IsInstr(code, i) && code[i] == OP_SWITCH && i + 1 < |code|
    ensures code[i + 1] % 4 == 0 && IsInstr(code, code[i + 1] / 4) && code[code[i + 1] / 4] == OP_CASETBL
  {
    hide WellFormed, Reaches;
  }

  lemma JumpMoved(m: Machine, m': Machine, op: Cell, x: Cell, rel: Cell, r: Regs)
    requires m.base == 0 && op != OP_SWITCH
    ensures JumpStep(m', op, Wrap(x + m'.base), Wrap(rel + m'.base), r) == Moved(JumpStep(m, op, x, rel, r), m'.base)
  {
    WrapCancel(rel, m'.base, 8);
    WrapSum(rel, m'.base, 8);
    hide Push, Taken, Wrap;
    assert Wrap(Wrap(rel + m'.base) - m'.base + 8) == Wrap(rel - m.base + 8);
  }

  lemma TargetMoved(code: seq<Cell>, code': seq<Cell>, t: Loader.Target, env: Env, i: nat, x: Cell, r: Regs)
    requires Image(code, code', t) && IsInstr(code, i) && i + 1 < |code| && x == code[i + 1] && 4 * i < 0x1_0000_0000
    ensures JumpStep(Loaded(code', t, env), code[i], Wrap(x + t.base), At(i, t.base), r) ==
            Moved(JumpStep(Original(code, env), code[i], x, 4 * i, r), t.base)
  {
    hide Image, IsInstr, JumpStep, Wrap, Moved;
    if code[i] == OP_SWITCH {
      SwitchJump(code, code', t, env, i, r);
    } else {
      JumpMoved(Original(code, env), Loaded(code', t, env), code[i], x, 4 * i, r);
    }
  }

  lemma SwitchJump(code: seq<Cell>, code': seq<Cell>, t: Loader.Target, env: Env, i: nat, r: Regs)
    requires Image(code, code', t) && IsInstr(code, i) && i + 1 < |code| && code[i] == OP_SWITCH
      && 4 * i < 0x1_0000_0000
    ensures JumpStep(Loaded(code', t, env), code[i], Wrap(code[i + 1] + t.base), At(i, t.base), r) ==
            Moved(JumpStep(Original(code, env), code[i], code[i + 1], 4 * i, r), t.base)
  {
    hide WellFormed, Reaches, Switch, Moved, Relocated, Wrap;
    SwitchOperand(code, i);
    SwitchMoved(code, code', t, env, code[i + 1] / 4, r);
  }

  lemma WrapCancel(a: nat, b: Cell, k: int)
    ensures Wrap(Wrap(a + b) - b + k) == Wrap(a + k)
  {
  }

  lemma Aligned(i: nat, base: Cell)
    requires 4 * i < 0x1_0000_0000
    ensures Wrap(At(i, base) - base) == 4 * i
  {
  }

  lemma WrapBack(rel: Cell, base: Cell)
    ensures Wrap(Wrap(rel + base) - base) == rel && Wrap(rel - 0) == rel
  {
  }

  /** Instructions without code addresses do not notice where the program lies. */
  lemma ExecuteMoved(m: Machine, m': Machine, op: Cell, operand: Option<Cell>, rel: Cell, r: Regs)
    requires m.base == 0 && m.env == m'.env && !ShapeOf(op).Target?
    ensures Execute(m', op, operand, Wrap(rel + m'.base), r) == Moved(Execute(m, op, operand, rel, r), m'.base)
  {
    hide Plain, After, Apply, Wrap, Moved, ShapeOf;
    WrapBack(rel, m'.base);
    WrapBack(rel, 0);
    ApplyMoved(m, m', After(op, operand, rel), Plain(m.env, op, operand, rel, r));
  }

  /** Away from patched calls the loaded program does exactly what the original does, one step for one. */
  lemma StepMoved(code: seq<Cell>, code': seq<Cell>, t: Loader.Target, env: Env, i: nat, r: Regs)
    requires Image(code, code', t) && IsInstr(code, i) && PatchOf(code, i, t.natives).None?
    ensures Step(Loaded(code', t, env), At(i, t.base), r) == Moved(Step(Original(code, env), 4 * i, r), t.base)
  {
    hide Image, Execute, Dispatch, Fetch, Reaches, ShapeOf, GoodTarget, JumpStep, PatchOf, Wrap, At;
    SameInstruction(code, code', t, env, i);
    SameOperand(code, code', t, env, i);
    Aligned(i, t.base);
    var op := code[i];
    if ShapeOf(op).Target? {
      var mo, ml := Original(code, env), Loaded(code', t, env);
      ExecuteTarget(mo, op, code[i + 1], 4 * i, r);
      ExecuteTarget(ml, op, Wrap(code[i + 1] + t.base), At(i, t.base), r);
      TargetMoved(code, code', t, env, i, code[i + 1], r);
    } else {
      OtherMoved(code, code', t, env, i, r);
    }
  }

  lemma OtherMoved(code: seq<Cell>, code': seq<Cell>, t: Loader.Target, env: Env, i: nat, r: Regs)
    requires i < |code| && !ShapeOf(code[i]).Target? && 4 * i < 0x1_0000_0000
    requires var mo, ml := Original(code, env), Loaded(code', t, env);
      ShapeOf(code[i]).Bare? || Fetch(mo, 4 * i + 4) == Fetch(ml, At(i, t.base) + 4)
    ensures var mo, ml := Original(code, env), Loaded(code', t, env);
      Execute(ml, code[i], Fetch(ml, At(i, t.base) + 4), At(i, t.base), r) ==
      Moved(Execute(mo, code[i], Fetch(mo, 4 * i + 4), 4 * i, r), t.base)
  {
    hide Execute, Fetch, ShapeOf, Wrap, Moved;
    var mo, ml := Original(code, env), Loaded(code', t, env);
    ExecuteBare(mo, code[i], Fetch(mo, 4 * i + 4), Fetch(ml, At(i, t.base) + 4), 4 * i, r);
    ExecuteMoved(mo, ml, code[i], Fetch(ml, At(i, t.base) + 4), 4 * i, r);
  }

  lemma ExecuteTarget(m: Machine, op: Cell, x: Cell, cip: Cell, r: Regs)
    requires ShapeOf(op).Target?
    ensures Execute(m, op, Some(x), cip, r) == JumpStep(m, op, x, cip, r)
  {
  }

  lemma ExecuteBare(m: Machine, op: Cell, x: Option<Cell>, y: Option<Cell>, cip: Cell, r: Regs)
    requires ShapeOf(op).Bare? || ShapeOf(op).Cases? || x == y
    ensures Execute(m, op, x, cip, r) == Execute(m, op, y, cip, r)
  {
  }

  // ---------------------------------------------------------------- patched calls

  /** The standard float natives, as the host binds them; the arguments follow the byte count on the stack. */
  function NativeFloat(k: int, f: FloatOps, r: Regs): CallResult {
    var x, y := Load(r, r.stk + 4), Load(r, r.stk + 8);
    if x.None? || (k != 4 && y.None?) then CallUndefined
    else if k == 4 then Called(ERR_NONE, f.fromInt(x.value), r.data)
    else
      var a, b := x.value, y.value;
      match k
      case 0 => Called(ERR_NONE, f.mul(a, b), r.data)
      case 1 => Called(ERR_NONE, f.div(a, b), r.data)
      case 2 => Called(ERR_NONE, f.add(a, b), r.data)
      case 3 => Called(ERR_NONE, f.sub(a, b), r.data)
      case 5 => Called(ERR_NONE, NativeRound(f, a, b), r.data)
      case _ => Called(ERR_NONE, Wrap(if f.equal(a, b) then 0 else if f.greater(a, b) then 1 else -1), r.data)
  }

  function NativeRound(f: FloatOps, a: Cell, mode: Cell): Cell {
    match mode
    case 1 => f.floor(a)
    case 2 => f.ceil(a)
    case 3 => if f.nonNegative(a) then f.floor(a) else f.ceil(a)
    case _ => f.nearest(a)
  }

  /** The opcode rounds like the native, whatever the arithmetic, exactly for modes 0, 1 and 2. */
  lemma RoundExactly(mode: Cell)
    ensures (forall f: FloatOps, a: Cell :: OpRound(f, a, mode) == NativeRound(f, a, mode)) <==> mode <= 2
  {
    if mode > 2 {
      var two := (a: Cell, b: Cell) => a;
      var cmp := (a: Cell, b: Cell) => true;
      var f := FloatOps(two, two, two, two, (a: Cell) => a, (a: Cell) => 0, (a: Cell) => 1, (a: Cell) => 2,
                        (a: Cell) => true, cmp, cmp);
      assert OpRound(f, 0, mode) == 2 && NativeRound(f, 0, mode) != 2;
    }
  }

  /** The host binds every imported name the optimiser found to the standard float native. */
  ghost predicate Bound(env: Env, natives: seq<int>) {
    forall k, rel, r {:trigger env.callback(natives[k], rel, r)} ::
      0 <= k < |natives| && 0 <= natives[k] < 0x8000_0000 ==>
        env.callback(natives[k], rel, r) == NativeFloat(k, env.fl, r)
  }

  ghost predicate RoundModeKnown(r: Regs) { Load(r, r.stk + 8).Some? ==> Load(r, r.stk + 8).value <= 2 }

  lemma FloatAgrees(k: nat, f: FloatOps, r: Regs)
    requires k < 7 && (k == 5 ==> RoundModeKnown(r))
    ensures AfterCall(r, NativeFloat(k, f, r)) == FloatOp(k, f, r)
  {
    hide Load;
  }

  lemma {:induction false} FirstMatchIs(natives: seq<int>, x: int)
    ensures var k := FirstMatch(natives, x); k < |natives| ==> natives[k] == x
  {
    if natives != [] && natives[0] != x { FirstMatchIs(natives[1..], x); }
  }

  /** The two cells of a patched call in both programs, and the operations they select. */
  lemma PatchedCells(code: seq<Cell>, code': seq<Cell>, t: Loader.Target, env: Env, i: nat)
    requires Image(code, code', t) && IsInstr(code, i) && PatchOf(code, i, t.natives).Some?
    ensures var k := PatchOf(code, i, t.natives).value;
      && k < 7 == |t.natives| && |t.labels| == NUM_OPCODES
      && i + 1 < |code| && 4 * (i + 1) < 0x1_0000_0000 && t.natives[k] == S(code[i + 1])
      && Fetch(Original(code, env), 4 * i) == Some(OP_SYSREQ_C)
      && Fetch(Original(code, env), 4 * i + 4) == Some(code[i + 1])
      && Dispatch(Identity(NUM_OPCODES), OP_SYSREQ_C) == OP_SYSREQ_C
      && Fetch(Loaded(code', t, env), At(i, t.base)) == Some(t.labels[OP_FLOAT_MUL + k])
      && Fetch(Loaded(code', t, env), At(i + 1, t.base)) == Some(t.labels[OP_NOP])
      && Dispatch(t.labels, t.labels[OP_FLOAT_MUL + k]) == OP_FLOAT_MUL + k
      && Dispatch(t.labels, t.labels[OP_NOP]) == OP_NOP
  {
    hide WellFormed, Reaches, Dispatch, Fetch, ShapeOf;
    var k := PatchOf(code, i, t.natives).value;
    FirstMatchIs(t.natives, S(code[i + 1]));
    InstrFits(code, i);
    assert InstrRelocated(code, code', i, t);
    OpcodePair(t, OP_SYSREQ_C);
    OpcodePair(t, OP_FLOAT_MUL + k);
    OpcodePair(t, OP_NOP);
    CellPair(code, code', t, env, i, 0);
    CellPair(code, code', t, env, i, 1);
    CellPair(code, code', t, env, i + 1, 0);
  }

  /** The original calls the native, which does what the float opcode does. */
  lemma PatchedOriginal(m: Machine, natives: seq<int>, k: nat, x: Cell, rel: Cell, r: Regs)
    requires m.base == 0 && |natives| == 7 && k < 7 && natives[k] == S(x) && Bound(m.env, natives)
    requires k == 5 ==> RoundModeKnown(r)
    requires !Execute(m, OP_SYSREQ_C, Some(x), rel, r).Stuck?
    ensures Execute(m, OP_SYSREQ_C, Some(x), rel, r) == Apply(m, Wrap(rel + 8), FloatOp(k, m.env.fl, r))
  {
    hide AfterCall, FloatOp, NativeFloat, Load, JumpStep;
    FloatAgrees(k, m.env.fl, r);
    assert Wrap(rel - m.base) == rel;
    assert ShapeOf(OP_SYSREQ_C).Native?;
    assert natives[k] == x;
    assert m.env.callback(natives[k], Wrap(rel + 8), r) == NativeFloat(k, m.env.fl, r);
  }

  /** Executing a bare instruction at cell i. */
  lemma BareAt(m: Machine, op: int, x: Option<Cell>, i: nat, r: Regs)
    requires ShapeOf(op).Bare? && 4 * i < 0x1_0000_0000
    ensures Execute(m, op, x, At(i, m.base), r) == Apply(m, Wrap(4 * i + 4), ExecBare(m.env, op, Wrap(4 * i + 4), r))
  {
    hide ExecBare, Wrap, Apply, ShapeOf;
    WrapBack(4 * i, m.base);
  }

  /** A bare instruction that falls through leaves the machine at the next cell. */
  lemma BareFalls(m: Machine, op: int, x: Option<Cell>, i: nat, r: Regs)
    requires ShapeOf(op).Bare? && 4 * i < 0x1_0000_0000
    ensures match ExecBare(m.env, op, Wrap(4 * i + 4), r)
            case Fall(r') => Execute(m, op, x, At(i, m.base), r) == Next(At(i + 1, m.base), r')
            case Undefined => Execute(m, op, x, At(i, m.base), r) == Stuck
            case _ => true
  {
    BareAt(m, op, x, i, r);
    WrapTwice(4 * i + 4, m.base);
    assert 4 * i + 4 + m.base == 4 * (i + 1) + m.base;
    hide ExecBare, Execute, Wrap, ShapeOf;
  }

  lemma WrapTwice(a: int, b: int)
    ensures Wrap(b + Wrap(a)) == Wrap(a + b) == Wrap(Wrap(a) + b)
  {
  }

  /** The loaded program performs the operation in one step and a NOP in the next. */
  lemma PatchedLoaded(m: Machine, k: nat, i: nat, r: Regs)
    requires k < 7 && 4 * (i + 1) < 0x1_0000_0000 && |m.labels| == NUM_OPCODES
    requires Fetch(m, At(i, m.base)).Some? && Dispatch(m.labels, Fetch(m, At(i, m.base)).value) == OP_FLOAT_MUL + k
    requires Fetch(m, At(i + 1, m.base)).Some? && Dispatch(m.labels, Fetch(m, At(i + 1, m.base)).value) == OP_NOP
    ensures var e := FloatOp(k, m.env.fl, r);
      Run(m, Next(At(i, m.base), r), 2) == if e.Fall? then Next(At(i + 2, m.base), e.r) else Stuck
  {
    hide Fetch, Dispatch, Execute, At, Wrap, FloatOp;
    var e := FloatOp(k, m.env.fl, r);
    FloatFalls(k, m.env.fl, r);
    FloatHandler(m.env, k, Wrap(4 * i + 4), r);
    BareFalls(m, OP_FLOAT_MUL + k, Fetch(m, At(i, m.base) + 4), i, r);
    hide ExecBare;
    if e.Fall? {
      NopHandler(m.env, Wrap(4 * (i + 1) + 4), e.r);
      BareFalls(m, OP_NOP, Fetch(m, At(i + 1, m.base) + 4), i + 1, e.r);
      assert Run(m, Next(At(i + 1, m.base), e.r), 1) == Next(At(i + 2, m.base), e.r);
    }
  }

  lemma FloatHandler(env: Env, k: nat, next: Cell, r: Regs)
    requires k < 7
    ensures ShapeOf(OP_FLOAT_MUL + k).Bare? && ExecBare(env, OP_FLOAT_MUL + k, next, r) == FloatOp(k, env.fl, r)
  {
    hide FloatOp;
  }

  lemma NopHandler(env: Env, next: Cell, r: Regs)
    ensures ShapeOf(OP_NOP).Bare? && ExecBare(env, OP_NOP, next, r) == Fall(r)
  {
  }

  lemma PatchedStep(code: seq<Cell>, code': seq<Cell>, t: Loader.Target, env: Env, i: nat, r: Regs)
    requires Image(code, code', t) && IsInstr(code, i) && PatchOf(code, i, t.natives).Some?
    requires Bound(env, t.natives) && (PatchOf(code, i, t.natives).value == 5 ==> RoundModeKnown(r))
    requires !Step(Original(code, env), 4 * i, r).Stuck?
    ensures var k := PatchOf(code, i, t.natives).value;
      Step(Original(code, env), 4 * i, r) == Apply(Original(code, env), Wrap(4 * i + 8), FloatOp(k, env.fl, r))
  {
    hide Image, Reaches, PatchOf, Execute, Fetch, Dispatch, GoodTarget, FloatOp, RoundModeKnown, Wrap, Apply, Bound;
    var k := PatchOf(code, i, t.natives).value;
    PatchedCells(code, code', t, env, i);
    PatchedOriginal(Original(code, env), t.natives, k, code[i + 1], 4 * i, r);
  }

  /** A patched call: one step of the original, the float opcode and a NOP of the loaded program. */
  lemma PatchedMoved(code: seq<Cell>, code': seq<Cell>, t: Loader.Target, env: Env, i: nat, r: Regs)
    requires Image(code, code', t) && IsInstr(code, i) && PatchOf(code, i, t.natives).Some?
    requires Bound(env, t.natives) && (PatchOf(code, i, t.natives).value == 5 ==> RoundModeKnown(r))
    requires !Step(Original(code, env), 4 * i, r).Stuck?
    ensures Run(Loaded(code', t, env), Next(At(i, t.base), r), 2) == Moved(Step(Original(code, env), 4 * i, r), t.base)
  {
    hide Image, Reaches, PatchOf, Step, Fetch, Dispatch, GoodTarget, FloatOp, RoundModeKnown, Run, Wrap, Bound;
    var k := PatchOf(code, i, t.natives).value;
    PatchedCells(code, code', t, env, i);
    PatchedStep(code, code', t, env, i, r);
    WrapTwice(4 * i + 8, 0);
    WrapTwice(4 * i + 8, t.base);
    FloatFalls(k, env.fl, r);
    PatchedLoaded(Loaded(code', t, env), k, i, r);
    assert 4 * (i + 2) == 4 * i + 8;
  }

  lemma FloatFalls(k: nat, f: FloatOps, r: Regs)
    ensures var e := FloatOp(k, f, r); e.Fall? || e.Undefined?
  {
  }

  // ---------------------------------------------------------------- whole runs

  /** The run of the original stays on instructions, never does what C leaves open, and asks a patched
      floatround only for the modes the opcode knows. */
  ghost predicate OnTrack(code: seq<Cell>, t: Loader.Target, env: Env, o: Outcome, n: nat)
    decreases n
  {
    n == 0 || !o.Next? ||
    (&& o.cip % 4 == 0 && IsInstr(code, o.cip / 4)
     && (PatchOf(code, o.cip / 4, t.natives) == Some(5) ==> RoundModeKnown(o.r))
     && !Step(Original(code, env), o.cip, o.r).Stuck?
     && OnTrack(code, t, env, Step(Original(code, env), o.cip, o.r), n - 1))
  }

  /** The loaded program needs two steps for a patched call. */
  function Pause(code: seq<Cell>, t: Loader.Target, cip: Cell): (k: nat)
    ensures 1 <= k <= 2
  {
    if cip % 4 == 0 && cip / 4 < |code| && PatchOf(code, cip / 4, t.natives).Some? then 2 else 1
  }

  /** How many steps the loaded program needs for n steps of the original. */
  function Pace(code: seq<Cell>, t: Loader.Target, env: Env, o: Outcome, n: nat): (k: nat)
    ensures k <= 2 * n
    decreases n
  {
    if n == 0 || !o.Next? then 0
    else Pause(code, t, o.cip) + Pace(code, t, env, Step(Original(code, env), o.cip, o.r), n - 1)
  }

  lemma {:induction false} RunAdd(m: Machine, o: Outcome, a: nat, b: nat)
    ensures Run(m, o, a + b) == Run(m, Run(m, o, a), b)
    decreases a
  {
    hide Step;
    if a != 0 && o.Next? { RunAdd(m, Step(m, o.cip, o.r), a - 1, b); }
  }

  /** Loading preserves every run: whatever the original reaches in n steps, the loaded program reaches in its
      own pace, with the same registers and memory and the corresponding instruction. */
  lemma {:induction false} RunMoved(code: seq<Cell>, code': seq<Cell>, t: Loader.Target, env: Env, o: Outcome, n: nat)
    requires Image(code, code', t) && Bound(env, t.natives) && OnTrack(code, t, env, o, n)
    ensures Run(Loaded(code', t, env), Moved(o, t.base), Pace(code, t, env, o, n)) ==
            Moved(Run(Original(code, env), o, n), t.base)
    decreases n
  {
    hide Image, Reaches, Bound, Step, PatchOf;
    if n != 0 && o.Next? {
      var i, next, ml := o.cip / 4, Step(Original(code, env), o.cip, o.r), Loaded(code', t, env);
      var rest := Pace(code, t, env, next, n - 1);
      RunMoved(code, code', t, env, next, n - 1);
      if PatchOf(code, i, t.natives).Some? {
        PatchedMoved(code, code', t, env, i, o.r);
        RunAdd(ml, Moved(o, t.base), 2, rest);
      } else {
        StepMoved(code, code', t, env, i, o.r);
        RunAdd(ml, Moved(o, t.base), 1, rest);
      }
    }
  }
}
