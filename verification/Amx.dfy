/** The abstract machine: 32-bit cells, a byte-addressed data segment, and the meaning of every opcode.
    Cells are kept unsigned; `S` gives the signed reading. */
module Amx {
  import opened Wrappers
  import opened Words

  function S(c: Cell): int { if c < 0x8000_0000 then c else c - 0x1_0000_0000 }

  // ---------------------------------------------------------------- error codes

  const ERR_NONE := 0
  const ERR_STACKERR := 3
  const ERR_BOUNDS := 4
  const ERR_MEMACCESS := 5
  const ERR_INVINSTR := 6
  const ERR_STACKLOW := 7
  const ERR_HEAPLOW := 8
  const ERR_DIVIDE := 11
  const ERR_SLEEP := 12

  const STKMARGIN := 64

  // ---------------------------------------------------------------- instruction shapes

  const OP_LOAD_PRI := 1
  const OP_LOAD_ALT := 2
  const OP_LOAD_S_PRI := 3
  const OP_LOAD_S_ALT := 4
  const OP_LREF_PRI := 5
  const OP_LREF_ALT := 6
  const OP_LREF_S_PRI := 7
  const OP_LREF_S_ALT := 8
  const OP_LOAD_I := 9
  const OP_LODB_I := 10
  const OP_CONST_PRI := 11
  const OP_CONST_ALT := 12
  const OP_ADDR_PRI := 13
  const OP_ADDR_ALT := 14
  const OP_STOR_PRI := 15
  const OP_STOR_ALT := 16
  const OP_STOR_S_PRI := 17
  const OP_STOR_S_ALT := 18
  const OP_SREF_PRI := 19
  const OP_SREF_ALT := 20
  const OP_SREF_S_PRI := 21
  const OP_SREF_S_ALT := 22
  const OP_STOR_I := 23
  const OP_STRB_I := 24
  const OP_LIDX := 25
  const OP_LIDX_B := 26
  const OP_IDXADDR := 27
  const OP_IDXADDR_B := 28
  const OP_ALIGN_PRI := 29
  const OP_ALIGN_ALT := 30
  const OP_LCTRL := 31
  const OP_SCTRL := 32
  const OP_MOVE_PRI := 33
  const OP_MOVE_ALT := 34
  const OP_XCHG := 35
  const OP_PUSH_PRI := 36
  const OP_PUSH_ALT := 37
  const OP_PUSH_R := 38
  const OP_PUSH_C := 39
  const OP_PUSH := 40
  const OP_PUSH_S := 41
  const OP_POP_PRI := 42
  const OP_POP_ALT := 43
  const OP_STACK := 44
  const OP_HEAP := 45
  const OP_PROC := 46
  const OP_RET := 47
  const OP_RETN := 48
  const OP_CALL := 49
  const OP_CALL_PRI := 50
  const OP_JUMP := 51
  const OP_JREL := 52
  const OP_JZER := 53
  const OP_JNZ := 54
  const OP_JEQ := 55
  const OP_JNEQ := 56
  const OP_JLESS := 57
  const OP_JLEQ := 58
  const OP_JGRTR := 59
  const OP_JGEQ := 60
  const OP_JSLESS := 61
  const OP_JSLEQ := 62
  const OP_JSGRTR := 63
  const OP_JSGEQ := 64
  const OP_SHL := 65
  const OP_SHR := 66
  const OP_SSHR := 67
  const OP_SHL_C_PRI := 68
  const OP_SHL_C_ALT := 69
  const OP_SHR_C_PRI := 70
  const OP_SHR_C_ALT := 71
  const OP_SMUL := 72
  const OP_SDIV := 73
  const OP_SDIV_ALT := 74
  const OP_UMUL := 75
  const OP_UDIV := 76
  const OP_UDIV_ALT := 77
  const OP_ADD := 78
  const OP_SUB := 79
  const OP_SUB_ALT := 80
  const OP_AND := 81
  const OP_OR := 82
  const OP_XOR := 83
  const OP_NOT := 84
  const OP_NEG := 85
  const OP_INVERT := 86
  const OP_ADD_C := 87
  const OP_SMUL_C := 88
  const OP_ZERO_PRI := 89
  const OP_ZERO_ALT := 90
  const OP_ZERO := 91
  const OP_ZERO_S := 92
  const OP_SIGN_PRI := 93
  const OP_SIGN_ALT := 94
  const OP_EQ := 95
  const OP_NEQ := 96
  const OP_LESS := 97
  const OP_LEQ := 98
  const OP_GRTR := 99
  const OP_GEQ := 100
  const OP_SLESS := 101
  const OP_SLEQ := 102
  const OP_SGRTR := 103
  const OP_SGEQ := 104
  const OP_EQ_C_PRI := 105
  const OP_EQ_C_ALT := 106
  const OP_INC_PRI := 107
  const OP_INC_ALT := 108
  const OP_INC := 109
  const OP_INC_S := 110
  const OP_INC_I := 111
  const OP_DEC_PRI := 112
  const OP_DEC_ALT := 113
  const OP_DEC := 114
  const OP_DEC_S := 115
  const OP_DEC_I := 116
  const OP_MOVS := 117
  const OP_CMPS := 118
  const OP_FILL := 119
  const OP_HALT := 120
  const OP_BOUNDS := 121
  const OP_SYSREQ_PRI := 122
  const OP_SYSREQ_C := 123
  const OP_FILE := 124
  const OP_LINE := 125
  const OP_SYMBOL := 126
  const OP_SRANGE := 127
  const OP_JUMP_PRI := 128
  const OP_SWITCH := 129
  const OP_CASETBL := 130
  const OP_SWAP_PRI := 131
  const OP_SWAP_ALT := 132
  const OP_PUSHADDR := 133
  const OP_NOP := 134
  const OP_SYSREQ_D := 135
  const OP_SYMTAG := 136
  const OP_BREAK := 137
  const OP_FLOAT_MUL := 138
  const OP_FLOAT_DIV := 139
  const OP_FLOAT_ADD := 140
  const OP_FLOAT_SUB := 141
  const OP_FLOAT_TO := 142
  const OP_FLOAT_ROUND := 143
  const OP_FLOAT_CMP := 144
  const NUM_OPCODES := 145

  /** How the loader walks an instruction: its operands, and which of them are code addresses. */
  datatype Shape = Invalid | Bare | OneOperand | Native | Target | TwoOperands | Bytes | Cases

  function ShapeOf(op: int): Shape {
    if op <= 0 || op >= NUM_OPCODES then Invalid
    else if op == OP_SYSREQ_C then Native
    else if op == OP_CASETBL then Cases
    else if op == OP_FILE || op == OP_SYMBOL then Bytes
    else if op == OP_LINE || op == OP_SRANGE then TwoOperands
    else if op == OP_CALL || op == OP_JUMP || OP_JZER <= op <= OP_JSGEQ || op == OP_SWITCH then Target
    else if OneCell(op) then OneOperand
    else Bare
  }

  predicate OneCell(op: int) {
    || OP_LOAD_PRI <= op <= OP_LREF_S_ALT
    || OP_LODB_I <= op <= OP_SREF_S_ALT
    || op == OP_STRB_I
    || op == OP_LIDX_B
    || OP_IDXADDR_B <= op <= OP_SCTRL
    || OP_PUSH_R <= op <= OP_PUSH_S
    || OP_STACK <= op <= OP_HEAP
    || op == OP_JREL
    || OP_SHL_C_PRI <= op <= OP_SHR_C_ALT
    || OP_ADD_C <= op <= OP_SMUL_C
    || OP_ZERO <= op <= OP_ZERO_S
    || OP_EQ_C_PRI <= op <= OP_EQ_C_ALT
    || OP_INC <= op <= OP_INC_S
    || OP_DEC <= op <= OP_DEC_S
    || OP_MOVS <= op <= OP_BOUNDS
    || op == OP_PUSHADDR
    || OP_SYSREQ_D <= op <= OP_SYMTAG
  }

  // ---------------------------------------------------------------- registers and memory

  datatype Regs = Regs(pri: Cell, alt: Cell, frm: Cell, stk: Cell, hea: Cell, data: seq<Byte>)

  function ReadLE(d: seq<Byte>, at: nat, n: nat): (v: nat)
    requires at + n <= |d|
    decreases n
  {
    if n == 0 then 0 else d[at] + 0x100 * ReadLE(d, at + 1, n - 1)
  }

  /** A cell of memory, when the four bytes lie inside the data segment. */
  function Load(r: Regs, addr: int): Option<Cell> {
    var a := Wrap(addr);
    if a + 4 > |r.data| then None
    else Some(Wrap(ReadLE(r.data, a, 4)))
  }

  function LoadAt(r: Regs, addr: Option<Cell>): Option<Cell> { if addr.None? then None else Load(r, addr.value) }

  function Put(r: Regs, addr: int, bytes: seq<Byte>): Option<seq<Byte>> {
    var a := Wrap(addr);
    if a + |bytes| > |r.data| then None else Some(r.data[..a] + bytes + r.data[a + |bytes|..])
  }

  function Store(r: Regs, addr: int, v: Cell): Option<seq<Byte>> { Put(r, addr, LE(v)) }

  lemma ReadFour(d: seq<Byte>, at: nat)
    requires at + 4 <= |d|
    ensures ReadLE(d, at, 4) == FromLE(d[at..at + 4])
  {
    assert ReadLE(d, at, 4) == d[at] + 0x100 * ReadLE(d, at + 1, 3);
    assert ReadLE(d, at + 1, 3) == d[at + 1] + 0x100 * ReadLE(d, at + 2, 2);
    assert ReadLE(d, at + 2, 2) == d[at + 2] + 0x100 * ReadLE(d, at + 3, 1);
    assert ReadLE(d, at + 3, 1) == d[at + 3];
  }

  /** A store is seen by a load of the same cell, and by no load of a cell apart from it. */
  lemma StoreLoad(r: Regs, addr: int, v: Cell, other: int)
    requires Store(r, addr, v).Some?
    ensures var r' := r.(data := Store(r, addr, v).value); var a, b := Wrap(addr), Wrap(other);
      Load(r', addr) == Some(v) && (b + 4 <= a || a + 4 <= b ==> Load(r', other) == Load(r, other))
  {
    hide LE, FromLE, ReadLE;
    var d := Store(r, addr, v).value;
    var a, b := Wrap(addr), Wrap(other);
    LEBack(v);
    ReadFour(d, a);
    assert d[a..a + 4] == LE(v);
    if b + 4 <= |d| && (b + 4 <= a || a + 4 <= b) {
      ReadFour(d, b);
      ReadFour(r.data, b);
      assert d[b..b + 4] == r.data[b..b + 4];
    }
  }

  function StoreAt(r: Regs, addr: Option<Cell>, v: Cell): Option<seq<Byte>> {
    if addr.None? then None else Store(r, addr.value, v)
  }

  // ---------------------------------------------------------------- what one instruction does

  /** `Goto` carries a code-relative address; `Undefined` is behaviour that C leaves open (or an assertion). */
  datatype Effect =
    | Fall(r: Regs)
    | Goto(offset: Cell, r: Regs)
    | Abort(err: int, r: Regs)
    | Return(err: int)
    | Sleep(r: Regs)
    | Undefined

  function Pri(r: Regs, v: Option<Cell>): Effect { if v.None? then Undefined else Fall(r.(pri := v.value)) }
  function Alt(r: Regs, v: Option<Cell>): Effect { if v.None? then Undefined else Fall(r.(alt := v.value)) }
  function Mem(r: Regs, d: Option<seq<Byte>>): Effect { if d.None? then Undefined else Fall(r.(data := d.value)) }
  function P(r: Regs, v: int): Effect { Fall(r.(pri := Wrap(v))) }
  function A(r: Regs, v: int): Effect { Fall(r.(alt := Wrap(v))) }
  function If(r: Regs, c: bool): Effect { P(r, if c then 1 else 0) }

  function Push(r: Regs, v: Cell): Effect {
    var s := Wrap(r.stk - 4);
    var d := Store(r, s, v);
    if d.None? then Undefined else Fall(r.(stk := s, data := d.value))
  }

  function PushMany(r: Regs, n: nat): Effect
    decreases n
  {
    if n == 0 then Fall(r)
    else var e := Push(r, r.pri); if e.Fall? then PushMany(e.r, n - 1) else e
  }

  /** The outcome of a native call: the error it raised, its result, and the memory it left. */
  datatype CallResult = Called(err: int, pri: Cell, data: seq<Byte>) | CallUndefined

  /** Floating point, bit patterns in and out. */
  datatype FloatOps = FloatOps(
    mul: (Cell, Cell) -> Cell, div: (Cell, Cell) -> Cell, add: (Cell, Cell) -> Cell, sub: (Cell, Cell) -> Cell,
    fromInt: Cell -> Cell, nearest: Cell -> Cell, floor: Cell -> Cell, ceil: Cell -> Cell,
    nonNegative: Cell -> bool, equal: (Cell, Cell) -> bool, greater: (Cell, Cell) -> bool)

  /** What surrounds the machine: header fields, the native callback, direct natives and the debug hook (each
      given the code-relative instruction pointer the machine saves), memcmp, and floating point. */
  datatype Env = Env(
    cod: Cell, dat: Cell, stp: Cell, hlw: Cell, codesize: Cell,
    callback: (Cell, Cell, Regs) -> CallResult, direct: (Cell, Cell, Regs) -> CallResult,
    debug: (Cell, Regs) -> int, memcmp: (seq<Byte>, seq<Byte>) -> Cell, fl: FloatOps)

  function AfterCall(r: Regs, c: CallResult): Effect {
    match c
    case CallUndefined => Undefined
    case Called(err, pri, data) =>
      var r' := r.(pri := pri, data := data);
      if err == ERR_NONE then Fall(r') else if err == ERR_SLEEP then Sleep(r') else Abort(err, r')
  }

  /** The operation of a patched float instruction: operands above the top of the stack, result in PRI. */
  function FloatOp(k: int, f: FloatOps, r: Regs): Effect {
    var x, y := Load(r, r.stk + 4), Load(r, r.stk + 8);
    if x.None? || (k != 4 && y.None?) then Undefined
    else if k == 4 then P(r, f.fromInt(x.value))
    else
      var a, b := x.value, y.value;
      match k
      case 0 => P(r, f.mul(a, b))
      case 1 => P(r, f.div(a, b))
      case 2 => P(r, f.add(a, b))
      case 3 => P(r, f.sub(a, b))
      case 5 => P(r, OpRound(f, a, b))
      case _ => P(r, if f.equal(a, b) then 0 else if f.greater(a, b) then 1 else -1)
  }

  function OpRound(f: FloatOps, a: Cell, mode: Cell): Cell {
    if mode == 0 then f.nearest(a) else if mode == 1 then f.floor(a) else f.ceil(a)
  }

  function And(x: Cell, y: Cell): Cell { ((x as bv32) & (y as bv32)) as int }
  function Or(x: Cell, y: Cell): Cell { ((x as bv32) | (y as bv32)) as int }
  function Xor(x: Cell, y: Cell): Cell { ((x as bv32) ^ (y as bv32)) as int }

  /** Shifts by a negative count or by 32 and more are undefined in C. */
  function Shl(x: Cell, n: Cell): Option<Cell> { if n >= 32 then None else Some(Wrap(x * Pow2(n))) }
  function Shr(x: Cell, n: Cell): Option<Cell> { if n >= 32 then None else Some(Wrap(x / Pow2(n))) }
  function Sshr(x: Cell, n: Cell): Option<Cell> { if n >= 32 then None else Some(Wrap(S(x) / Pow2(n))) }

  /** C's truncating remainder and quotient. */
  function CRem(a: int, b: int): int
    requires b != 0
  {
    var m := (if a < 0 then -a else a) % (if b < 0 then -b else b);
    if a < 0 then -m else m
  }

  function CDiv(a: int, b: int): int
    requires b != 0
  {
    (a - CRem(a, b)) / b
  }

  predicate InRange(v: int) { -0x8000_0000 <= v < 0x8000_0000 }

  /** Division that rounds down, written with the truncating operators; their sum and difference may overflow. */
  function Divide(r: Regs, n: Cell, d: Cell): Effect {
    if d == 0 then Abort(ERR_DIVIDE, r)
    else if S(n) == -0x8000_0000 && S(d) == -1 then Undefined
    else
      var sum := CRem(S(n), S(d)) + S(d);
      var m := CRem(sum, S(d));
      if !InRange(sum) || !InRange(S(n) - m) then Undefined
      else Fall(r.(pri := Wrap(CDiv(S(n) - m, S(d))), alt := Wrap(m)))
  }

  function UDivide(r: Regs, n: Cell, d: Cell): Effect {
    if d == 0 then Abort(ERR_DIVIDE, r) else Fall(r.(pri := n / d, alt := n % d))
  }

  /** The checks on a computed address: not in the gap between heap and stack, not past the stack top. */
  predicate BadAddr(env: Env, r: Regs, a: Cell) { (S(r.hea) <= S(a) < S(r.stk)) || a >= env.stp }
  predicate BadEnd(env: Env, r: Regs, a: Cell) { (S(r.hea) < S(a) < S(r.stk)) || a > env.stp }

  predicate BadBlock(env: Env, r: Regs, a: Cell, n: Cell) { BadAddr(env, r, a) || BadEnd(env, r, Wrap(a + n)) }

  function LoadChecked(env: Env, r: Regs, a: Cell): Effect {
    if BadAddr(env, r, a) then Abort(ERR_MEMACCESS, r) else Pri(r, Load(r, a))
  }

  function Fill(r: Regs, at: int, n: nat): Option<seq<Byte>>
    decreases n
  {
    if n < 4 then Some(r.data)
    else
      var d := Store(r, at, r.pri);
      if d.None? then None else Fill(r.(data := d.value), at + 4, n - 4)
  }

  function Slice(r: Regs, a: Cell, n: Cell): Option<seq<Byte>> {
    if a + n <= |r.data| then Some(r.data[a..a + n]) else None
  }

  function SwapTop(r: Regs, v: Cell, inPri: bool): Effect {
    var t, d := Load(r, r.stk), Store(r, r.stk, v);
    if t.None? || d.None? then Undefined
    else if inPri then Fall(r.(pri := t.value, data := d.value)) else Fall(r.(alt := t.value, data := d.value))
  }

  /** RET and RETN: the saved frame and the return address, and for RETN the arguments below them. */
  function Leave(env: Env, r: Regs, drop: bool): Effect {
    var f, o := Load(r, r.stk), Load(r, r.stk + 4);
    if f.None? || o.None? then Undefined
    else
      var r' := r.(frm := f.value, stk := Wrap(r.stk + 8));
      if o.value >= env.codesize then Abort(ERR_MEMACCESS, r')
      else if !drop then Goto(o.value, r')
      else
        var n := Load(r', r'.stk);
        if n.None? then Undefined else Goto(o.value, r'.(stk := Wrap(r'.stk + n.value + 4)))
  }

  function IncAt(r: Regs, a: int, delta: int): Effect {
    var v := Load(r, a);
    if v.None? then Undefined else Mem(r, Store(r, a, Wrap(v.value + delta)))
  }

  /** Instructions without operands. `next` is the code-relative address of the following instruction. */
  function ExecBare(env: Env, op: int, next: Cell, r: Regs): Effect {
    match op
    case OP_LOAD_I => LoadChecked(env, r, r.pri)
    case OP_STOR_I => if BadAddr(env, r, r.alt) then Abort(ERR_MEMACCESS, r) else Mem(r, Store(r, r.alt, r.pri))
    case OP_LIDX => LoadChecked(env, r, Wrap(r.pri * 4 + r.alt))
    case OP_IDXADDR => P(r, r.pri * 4 + r.alt)
    case OP_MOVE_PRI => P(r, r.alt)
    case OP_MOVE_ALT => A(r, r.pri)
    case OP_XCHG => Fall(r.(pri := r.alt, alt := r.pri))
    case OP_PUSH_PRI => Push(r, r.pri)
    case OP_PUSH_ALT => Push(r, r.alt)
    case OP_POP_PRI => Pri(r.(stk := Wrap(r.stk + 4)), Load(r, r.stk))
    case OP_POP_ALT => Alt(r.(stk := Wrap(r.stk + 4)), Load(r, r.stk))
    case OP_PROC =>
      var e := Push(r, r.frm);
      if !e.Fall? then e
      else if S(r.hea) + STKMARGIN > S(e.r.stk) then Return(ERR_STACKERR) else Fall(e.r.(frm := e.r.stk))
    case OP_RET => Leave(env, r, false)
    case OP_RETN => Leave(env, r, true)
    case OP_CALL_PRI => var e := Push(r, next); if e.Fall? then Goto(r.pri, e.r) else e
    case OP_SHL => Pri(r, Shl(r.pri, r.alt))
    case OP_SHR => Pri(r, Shr(r.pri, r.alt))
    case OP_SSHR => Pri(r, Sshr(r.pri, r.alt))
    case OP_SMUL => P(r, r.pri * r.alt)
    case OP_SDIV => Divide(r, r.pri, r.alt)
    case OP_SDIV_ALT => Divide(r, r.alt, r.pri)
    case OP_UMUL => P(r, r.pri * r.alt)
    case OP_UDIV => UDivide(r, r.pri, r.alt)
    case OP_UDIV_ALT => UDivide(r, r.alt, r.pri)
    case OP_ADD => P(r, r.pri + r.alt)
    case OP_SUB => P(r, r.pri - r.alt)
    case OP_SUB_ALT => P(r, r.alt - r.pri)
    case OP_AND => P(r, And(r.pri, r.alt))
    case OP_OR => P(r, Or(r.pri, r.alt))
    case OP_XOR => P(r, Xor(r.pri, r.alt))
    case OP_NOT => If(r, r.pri == 0)
    case OP_NEG => P(r, 0 - r.pri)
    case OP_INVERT => P(r, -1 - r.pri)
    case OP_ZERO_PRI => P(r, 0)
    case OP_ZERO_ALT => A(r, 0)
    case OP_SIGN_PRI => P(r, if r.pri % 0x100 >= 0x80 then r.pri % 0x100 - 0x100 else r.pri)
    case OP_SIGN_ALT => A(r, if r.alt % 0x100 >= 0x80 then r.alt % 0x100 - 0x100 else r.alt)
    case OP_EQ => If(r, r.pri == r.alt)
    case OP_NEQ => If(r, r.pri != r.alt)
    case OP_LESS => If(r, r.pri < r.alt)
    case OP_LEQ => If(r, r.pri <= r.alt)
    case OP_GRTR => If(r, r.pri > r.alt)
    case OP_GEQ => If(r, r.pri >= r.alt)
    case OP_SLESS => If(r, S(r.pri) < S(r.alt))
    case OP_SLEQ => If(r, S(r.pri) <= S(r.alt))
    case OP_SGRTR => If(r, S(r.pri) > S(r.alt))
    case OP_SGEQ => If(r, S(r.pri) >= S(r.alt))
    case OP_INC_PRI => P(r, r.pri + 1)
    case OP_INC_ALT => A(r, r.alt + 1)
    case OP_INC_I => IncAt(r, r.pri, 1)
    case OP_DEC_PRI => P(r, r.pri - 1)
    case OP_DEC_ALT => A(r, r.alt - 1)
    case OP_DEC_I => IncAt(r, r.pri, -1)
    case OP_SYSREQ_PRI => if S(r.pri) < 0 then Undefined else AfterCall(r, env.callback(r.pri, next, r))
    case OP_JUMP_PRI => Goto(r.pri, r)
    case OP_SWAP_PRI => SwapTop(r, r.pri, true)
    case OP_SWAP_ALT => SwapTop(r, r.alt, false)
    case OP_NOP => Fall(r)
    case OP_BREAK =>
      var err := env.debug(next, r);
      if err == ERR_NONE then Fall(r) else if err == ERR_SLEEP then Sleep(r) else Abort(err, r)
    case _ => if OP_FLOAT_MUL <= op < NUM_OPCODES then FloatOp(op - OP_FLOAT_MUL, env.fl, r) else Undefined
  }

  /** Instructions with one operand that is not a code address. */
  function ExecOne(env: Env, op: int, x: Cell, next: Cell, r: Regs): Effect {
    match op
    case OP_LOAD_PRI => Pri(r, Load(r, x))
    case OP_LOAD_ALT => Alt(r, Load(r, x))
    case OP_LOAD_S_PRI => Pri(r, Load(r, r.frm + x))
    case OP_LOAD_S_ALT => Alt(r, Load(r, r.frm + x))
    case OP_LREF_PRI => Pri(r, LoadAt(r, Load(r, x)))
    case OP_LREF_ALT => Alt(r, LoadAt(r, Load(r, x)))
    case OP_LREF_S_PRI => Pri(r, LoadAt(r, Load(r, r.frm + x)))
    case OP_LREF_S_ALT => Alt(r, LoadAt(r, Load(r, r.frm + x)))
    case OP_LODB_I =>
      if BadAddr(env, r, r.pri) then Abort(ERR_MEMACCESS, r)
      else if x != 1 && x != 2 && x != 4 then Fall(r)
      else if r.pri + x > |r.data| then Undefined
      else P(r, ReadLE(r.data, r.pri, x))
    case OP_CONST_PRI => P(r, x)
    case OP_CONST_ALT => A(r, x)
    case OP_ADDR_PRI => P(r, x + r.frm)
    case OP_ADDR_ALT => A(r, x + r.frm)
    case OP_STOR_PRI => Mem(r, Store(r, x, r.pri))
    case OP_STOR_ALT => Mem(r, Store(r, x, r.alt))
    case OP_STOR_S_PRI => Mem(r, Store(r, r.frm + x, r.pri))
    case OP_STOR_S_ALT => Mem(r, Store(r, r.frm + x, r.alt))
    case OP_SREF_PRI => Mem(r, StoreAt(r, Load(r, x), r.pri))
    case OP_SREF_ALT => Mem(r, StoreAt(r, Load(r, x), r.alt))
    case OP_SREF_S_PRI => Mem(r, StoreAt(r, Load(r, r.frm + x), r.pri))
    case OP_SREF_S_ALT => Mem(r, StoreAt(r, Load(r, r.frm + x), r.alt))
    case OP_STRB_I =>
      if BadAddr(env, r, r.alt) then Abort(ERR_MEMACCESS, r)
      else if x == 1 || x == 2 || x == 4 then Mem(r, Put(r, r.alt, LE(r.pri)[..x])) else Fall(r)
    case OP_LIDX_B => var o := Shl(r.pri, x); if o.None? then Undefined else LoadChecked(env, r, Wrap(o.value + r.alt))
    case OP_IDXADDR_B => var o := Shl(r.pri, x); if o.None? then Undefined else P(r, o.value + r.alt)
    case OP_ALIGN_PRI => if S(x) < 4 then P(r, Xor(r.pri, Wrap(4 - x))) else Fall(r)
    case OP_ALIGN_ALT => if S(x) < 4 then A(r, Xor(r.alt, Wrap(4 - x))) else Fall(r)
    case OP_LCTRL =>
      (match x
       case 0 => P(r, env.cod)
       case 1 => P(r, env.dat)
       case 2 => P(r, r.hea)
       case 3 => P(r, env.stp)
       case 4 => P(r, r.stk)
       case 5 => P(r, r.frm)
       case 6 => P(r, next)
       case _ => Fall(r))
    case OP_SCTRL =>
      (match x
       case 2 => Fall(r.(hea := r.pri))
       case 4 => Fall(r.(stk := r.pri))
       case 5 => Fall(r.(frm := r.pri))
       case 6 => Goto(r.pri, r)
       case _ => Fall(r))
    case OP_PUSH_R => if S(x) < 0 then Undefined else PushMany(r, x)
    case OP_PUSH_C => Push(r, x)
    case OP_PUSH => var v := Load(r, x); if v.None? then Undefined else Push(r, v.value)
    case OP_PUSH_S => var v := Load(r, r.frm + x); if v.None? then Undefined else Push(r, v.value)
    case OP_STACK =>
      var r' := r.(alt := r.stk, stk := Wrap(r.stk + x));
      if S(r'.hea) + STKMARGIN > S(r'.stk) then Return(ERR_STACKERR)
      else if S(r'.stk) > S(env.stp) then Return(ERR_STACKLOW) else Fall(r')
    case OP_HEAP =>
      var r' := r.(alt := r.hea, hea := Wrap(r.hea + x));
      if S(r'.hea) + STKMARGIN > S(r'.stk) then Return(ERR_STACKERR)
      else if S(r'.hea) < S(env.hlw) then Return(ERR_HEAPLOW) else Fall(r')
    case OP_JREL => Goto(Wrap(next + x), r)
    case OP_SHL_C_PRI => Pri(r, Shl(r.pri, x))
    case OP_SHL_C_ALT => Alt(r, Shl(r.alt, x))
    case OP_SHR_C_PRI => Pri(r, Shr(r.pri, x))
    case OP_SHR_C_ALT => Alt(r, Shr(r.alt, x))
    case OP_ADD_C => P(r, r.pri + x)
    case OP_SMUL_C => P(r, r.pri * x)
    case OP_ZERO => Mem(r, Store(r, x, 0))
    case OP_ZERO_S => Mem(r, Store(r, r.frm + x, 0))
    case OP_EQ_C_PRI => If(r, r.pri == x)
    case OP_EQ_C_ALT => If(r, r.alt == x)
    case OP_INC => IncAt(r, x, 1)
    case OP_INC_S => IncAt(r, r.frm + x, 1)
    case OP_DEC => IncAt(r, x, -1)
    case OP_DEC_S => IncAt(r, r.frm + x, -1)
    case OP_MOVS =>
      if BadBlock(env, r, r.pri, x) || BadBlock(env, r, r.alt, x) then Abort(ERR_MEMACCESS, r)
      else var b := Slice(r, r.pri, x); if b.None? then Undefined else Mem(r, Put(r, r.alt, b.value))
    case OP_CMPS =>
      if BadBlock(env, r, r.pri, x) || BadBlock(env, r, r.alt, x) then Abort(ERR_MEMACCESS, r)
      else
        var a, b := Slice(r, r.alt, x), Slice(r, r.pri, x);
        if a.None? || b.None? then Undefined else P(r, env.memcmp(a.value, b.value))
    case OP_FILL =>
      if BadBlock(env, r, r.alt, x) then Abort(ERR_MEMACCESS, r)
      else Mem(r, Fill(r, r.alt, if S(x) < 0 then 0 else x))
    case OP_HALT => if S(x) == ERR_SLEEP then Sleep(r) else Abort(S(x), r)
    case OP_BOUNDS => if r.pri > x then Abort(ERR_BOUNDS, r) else Fall(r)
    case OP_PUSHADDR => Push(r, Wrap(r.frm + x))
    case OP_SYSREQ_D => AfterCall(r, env.direct(x, next, r))
    case OP_SYMTAG => Fall(r)
    case _ => Undefined
  }

  /** Whether a conditional jump is taken. */
  predicate Taken(op: int, r: Regs) {
    match op
    case OP_JZER => r.pri == 0
    case OP_JNZ => r.pri != 0
    case OP_JEQ => r.pri == r.alt
    case OP_JNEQ => r.pri != r.alt
    case OP_JLESS => r.pri < r.alt
    case OP_JLEQ => r.pri <= r.alt
    case OP_JGRTR => r.pri > r.alt
    case OP_JGEQ => r.pri >= r.alt
    case OP_JSLESS => S(r.pri) < S(r.alt)
    case OP_JSLEQ => S(r.pri) <= S(r.alt)
    case OP_JSGRTR => S(r.pri) > S(r.alt)
    case OP_JSGEQ => S(r.pri) >= S(r.alt)
    case _ => true
  }
}
