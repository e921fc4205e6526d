/** The loader's walk over the code block: opcodes become handler labels, code addresses become absolute, and
    calls of the standard float natives become float opcodes. */
module Loader {
  import opened Wrappers
  import opened Words
  import opened Amx

  /** `labels` maps opcodes to handlers, `base` is the address of the code block, and `natives[k]` is the index
      under which the program imports float native k, or -1. */
  datatype Target = Target(base: Cell, labels: seq<Cell>, natives: seq<int>)

  ghost predicate GoodTarget(t: Target) {
    && |t.labels| == NUM_OPCODES && |t.natives| == 7
    && forall a, b :: 0 <= a < b < NUM_OPCODES ==> t.labels[a] != t.labels[b]
  }

  // ---------------------------------------------------------------- the layout of a code block

  /** The number of cells of the instruction at `i`; 0 when its length field makes no sense. */
  function Len(code: seq<Cell>, i: nat): nat
    requires i < |code|
  {
    match ShapeOf(code[i])
    case Invalid => 0
    case Bare => 1
    case OneOperand => 2
    case Native => 2
    case Target => 2
    case TwoOperands => 3
    case Bytes =>
      if i + 1 >= |code| || S(code[i + 1]) < 0 || S(code[i + 1]) % 4 != 0 then 0 else 2 + S(code[i + 1]) / 4
    case Cases => if i + 1 >= |code| || S(code[i + 1]) < 0 then 0 else 3 + 2 * S(code[i + 1])
  }

  predicate Fits(code: seq<Cell>, i: nat) { i < |code| && Len(code, i) > 0 && i + Len(code, i) <= |code| }

  /** Instructions follow each other from `i` to the end of the block. */
  predicate WellFormed(code: seq<Cell>, i: nat)
    decreases |code| - i
  {
    i == |code| || (Fits(code, i) && WellFormed(code, i + Len(code, i)))
  }

  /** The last instruction, with operands missing that the walk would only step over. */
  predicate Overruns(code: seq<Cell>, i: nat) {
    && i < |code| && Len(code, i) > 0 && i + Len(code, i) > |code|
    && (ShapeOf(code[i]).OneOperand? || ShapeOf(code[i]).TwoOperands? || ShapeOf(code[i]).Bytes?)
  }

  /** What the walk accepts: instructions follow each other to the end of the block, or beyond it. */
  predicate Accepted(code: seq<Cell>, i: nat)
    decreases |code| - i
  {
    i == |code| || Overruns(code, i) || (Fits(code, i) && Accepted(code, i + Len(code, i)))
  }

  /** What the walk needs to stay inside the block: it meets the end or an invalid opcode. */
  predicate Walkable(code: seq<Cell>, i: nat)
    decreases |code| - i
  {
    i == |code| || Overruns(code, i)
    || (i < |code| && ShapeOf(code[i]).Invalid?)
    || (Fits(code, i) && Walkable(code, i + Len(code, i)))
  }

  /** The compiler's blocks are accepted. */
  lemma {:induction false} WellFormedAccepted(code: seq<Cell>, i: nat)
    requires WellFormed(code, i)
    ensures Accepted(code, i) && Walkable(code, i)
    decreases |code| - i
  {
    hide Len;
    if i < |code| { WellFormedAccepted(code, i + Len(code, i)); }
  }

  predicate Reaches(code: seq<Cell>, i: nat, j: nat)
    decreases |code| - i
  {
    i == j || (Fits(code, i) && Reaches(code, i + Len(code, i), j))
  }

  predicate IsInstr(code: seq<Cell>, i: nat) { i < |code| && Reaches(code, 0, i) }

  /** Cell `j` of an instruction with this opcode is a code address. */
  predicate IsTarget(op: Cell, j: nat) {
    (ShapeOf(op).Target? && j == 1) || (ShapeOf(op).Cases? && j >= 2 && j % 2 == 0)
  }

  function FirstMatch(natives: seq<int>, x: int): (k: nat)
    ensures k <= |natives|
  {
    if natives == [] || natives[0] == x then 0 else 1 + FirstMatch(natives[1..], x)
  }

  /** Which float native the instruction at `i` calls, as far as the optimiser was told. */
  function PatchOf(code: seq<Cell>, i: nat, natives: seq<int>): Option<nat>
    requires i < |code|
  {
    if code[i] != OP_SYSREQ_C || i + 1 >= |code| then None
    else
      var k := FirstMatch(natives, S(code[i + 1]));
      if k < |natives| then Some(k) else None
  }

  /** The relocated form of one instruction, cell by cell. */
  ghost predicate InstrRelocated(code: seq<Cell>, code': seq<Cell>, i: nat, t: Target)
    requires GoodTarget(t) && Fits(code, i) && |code'| == |code|
  {
    var k := PatchOf(code, i, t.natives);
    if k.Some? then
      code'[i] == t.labels[OP_FLOAT_MUL + k.value] && code'[i + 1] == t.labels[OP_NOP]
    else
      && code'[i] == t.labels[code[i]]
      && forall q :: i < q < i + Len(code, i) ==>
           code'[q] == if IsTarget(code[i], q - i) then Wrap(code[q] + t.base) else code[q]
  }

  ghost predicate Relocated(code: seq<Cell>, code': seq<Cell>, t: Target)
    requires GoodTarget(t)
  {
    && |code'| == |code|
    && forall i: nat :: IsInstr(code, i) && Fits(code, i) ==> InstrRelocated(code, code', i, t)
  }

  /** An overrunning instruction at the end: only its opcode is replaced. */
  ghost predicate LastRelocated(code: seq<Cell>, code': seq<Cell>, t: Target)
    requires GoodTarget(t)
  {
    && |code'| == |code|
    && forall i: nat :: IsInstr(code, i) && Overruns(code, i) ==>
         code'[i] == t.labels[code[i]] && forall q :: i < q < |code| ==> code'[q] == code[q]
  }

  lemma {:induction false} ReachesStep(code: seq<Cell>, i: nat, j: nat)
    requires Reaches(code, i, j) && Fits(code, j)
    ensures Reaches(code, i, j + Len(code, j))
    decreases |code| - i
  {
    if i != j { ReachesStep(code, i + Len(code, i), j); }
  }

  /** Instructions do not overlap. */
  lemma {:induction false} Disjoint(code: seq<Cell>, i: nat, j: nat, k: nat)
    requires Reaches(code, i, j) && Reaches(code, i, k) && j < k
    ensures Fits(code, j) && j + Len(code, j) <= k && Reaches(code, j + Len(code, j), k)
    decreases |code| - i
  {
    ReachesUp(code, i, j);
    if i != j {
      ReachesUp(code, i + Len(code, i), j);
      Disjoint(code, i + Len(code, i), j, k);
    } else {
      ReachesUp(code, i + Len(code, i), k);
    }
  }

  lemma {:induction false} ReachesUp(code: seq<Cell>, i: nat, j: nat)
    requires Reaches(code, i, j)
    ensures i <= j
    decreases |code| - i
  {
    if i != j { ReachesUp(code, i + Len(code, i), j); }
  }

  lemma {:induction false} WellFormedAt(code: seq<Cell>, i: nat, j: nat)
    requires WellFormed(code, i) && Reaches(code, i, j)
    ensures WellFormed(code, j)
    decreases |code| - i
  {
    if i != j { WellFormedAt(code, i + Len(code, i), j); }
  }

  lemma InstrFits(code: seq<Cell>, i: nat)
    requires WellFormed(code, 0) && IsInstr(code, i)
    ensures Fits(code, i) && WellFormed(code, i + Len(code, i))
  {
    WellFormedAt(code, 0, i);
  }

  // ---------------------------------------------------------------- the walk

  datatype Error = Ok | InvInstr

  /** The browse hook: `at` is the operand of a SYSREQ.C; a call of a known float native is patched over. */
  method OnBrowseRelocate(code: array<Cell>, at: nat, t: Target) returns (next: nat)
    requires GoodTarget(t) && 1 <= at < code.Length
    modifies code
    ensures next == at + 1
    ensures forall i :: 0 <= i < code.Length && i != at && i != at - 1 ==> code[i] == old(code[i])
    ensures var k := FirstMatch(t.natives, S(old(code[at])));
            if k < |t.natives| then code[at - 1] == t.labels[OP_FLOAT_MUL + k] && code[at] == t.labels[OP_NOP]
            else code[at - 1] == old(code[at - 1]) && code[at] == old(code[at])
  {
    var offs := S(code[at]);
    var i, native := 0, -1;
    while i < 7
      invariant 0 <= i <= 7 && native == -1
      invariant FirstMatch(t.natives, offs) == i + FirstMatch(t.natives[i..], offs)
    {
      assert t.natives[i..][1..] == t.natives[i + 1..];
      if t.natives[i] == offs {
        native := i;
        break;
      }
      i := i + 1;
    }
    if native != -1 {
      code[at - 1] := t.labels[OP_FLOAT_MUL + native];
      code[at] := t.labels[OP_NOP];
    }
    next := at + 1;
  }

  /** The walk has dealt with the instructions below `at` and not touched the rest. */
  ghost predicate Progress(s: seq<Cell>, code: seq<Cell>, at: nat, t: Target)
    requires GoodTarget(t)
  {
    && |code| == |s| && at <= |s| && Reaches(s, 0, at) && code[at..] == s[at..]
    && (Accepted(s, 0) <==> Accepted(s, at)) && Walkable(s, at)
    && forall i: nat :: IsInstr(s, i) && i < at && Fits(s, i) ==> InstrRelocated(s, code, i, t)
  }

  lemma ProgressStep(s: seq<Cell>, c: seq<Cell>, c': seq<Cell>, at: nat, t: Target)
    requires GoodTarget(t) && Progress(s, c, at, t) && Fits(s, at) && |c'| == |c|
    requires forall i :: 0 <= i < at || at + Len(s, at) <= i < |c| ==> c'[i] == c[i]
    requires InstrRelocated(s, c', at, t)
    ensures Progress(s, c', at + Len(s, at), t)
  {
    var next := at + Len(s, at);
    ReachesStep(s, 0, at);
    forall i: nat | IsInstr(s, i) && i < next && Fits(s, i) ensures InstrRelocated(s, c', i, t) {
      if i < at {
        Disjoint(s, 0, i, at);
        assert InstrRelocated(s, c, i, t);
      } else if i > at {
        Disjoint(s, 0, at, i);
      }
    }
    assert c'[next..] == s[next..] by {
      assert forall i :: next <= i < |s| ==> c'[i] == c[i] == c[at..][i - at] == s[at..][i - at];
    }
  }

  /** The walk is over: all is relocated. */
  ghost predicate Finished(s: seq<Cell>, code: seq<Cell>, t: Target)
    requires GoodTarget(t)
  {
    Accepted(s, 0) && Relocated(s, code, t) && LastRelocated(s, code, t)
  }

  lemma ProgressEnds(s: seq<Cell>, code: seq<Cell>, t: Target)
    requires GoodTarget(t) && Progress(s, code, |s|, t)
    ensures Finished(s, code, t)
  {
    hide InstrRelocated, Len;
    forall i: nat | IsInstr(s, i) ensures Fits(s, i) { Disjoint(s, 0, i, |s|); }
  }

  lemma BelowKept(s: seq<Cell>, c: seq<Cell>, c': seq<Cell>, i: nat, at: nat, t: Target)
    requires GoodTarget(t) && Fits(s, i) && i + Len(s, i) <= at <= |s| == |c| == |c'| && InstrRelocated(s, c, i, t)
    requires forall q :: 0 <= q < at ==> c'[q] == c[q]
    ensures InstrRelocated(s, c', i, t)
  {
  }

  lemma ProgressOverruns(s: seq<Cell>, c: seq<Cell>, c': seq<Cell>, at: nat, t: Target)
    requires GoodTarget(t) && Progress(s, c, at, t) && Overruns(s, at) && |c'| == |c|
    requires c'[at] == t.labels[s[at]] && forall i :: 0 <= i < |c| && i != at ==> c'[i] == c[i]
    ensures Finished(s, c', t)
  {
    hide Len, InstrRelocated;
    forall i: nat | IsInstr(s, i) && Fits(s, i) ensures InstrRelocated(s, c', i, t) {
      if i < at { Disjoint(s, 0, i, at); BelowKept(s, c, c', i, at, t); } else if i > at { Disjoint(s, 0, at, i); }
    }
    forall i: nat | IsInstr(s, i) && Overruns(s, i) ensures i == at {
      if i < at { Disjoint(s, 0, i, at); } else if i > at { Disjoint(s, 0, at, i); }
    }
    forall q | at < q < |s| ensures c'[q] == s[q] { assert c[q] == c[at..][q - at] == s[at..][q - at]; }
  }

  /** Relocates the code addresses of a case table: the default and the target of every record. */
  method RelocateCases(code: array<Cell>, cip: nat, num: int, base: Cell)
    requires num >= 0 && cip + 2 * num + 1 <= code.Length
    modifies code
    ensures forall i :: 0 <= i < code.Length ==>
      code[i] == if cip <= i < cip + 2 * num + 1 && (i - cip) % 2 == 0 then Wrap(old(code[i]) + base) else old(code[i])
  {
    for i := 0 to num + 1
      invariant forall j :: 0 <= j < code.Length ==>
        code[j] == if cip <= j < cip + 2 * i && (j - cip) % 2 == 0 then Wrap(old(code[j]) + base) else old(code[j])
    {
      code[cip + 2 * i] := Wrap(code[cip + 2 * i] + base);
    }
  }

  lemma ShapeFacts(op: Cell)
    ensures !ShapeOf(op).Invalid? ==> 0 < op < NUM_OPCODES
    ensures ShapeOf(op).Native? <==> op == OP_SYSREQ_C
  {
  }

  /** The operands of any instruction but SYSREQ.C; `first` is the cell after the opcode. */
  method RelocateOperands(code: array<Cell>, op: Cell, first: nat, base: Cell, ghost s: seq<Cell>) returns (cip: nat)
    requires 1 <= first <= code.Length == |s| && s[first - 1] == op && !ShapeOf(op).Native?
    requires Fits(s, first - 1) || Overruns(s, first - 1)
    requires forall q :: first <= q < |s| ==> code[q] == s[q]
    modifies code
    ensures cip == first - 1 + Len(s, first - 1)
    ensures forall q :: 0 <= q < first || cip <= q < |s| ==> code[q] == old(code[q])
    ensures forall q :: first <= q < cip && q < |s| ==>
      code[q] == if IsTarget(op, q - first + 1) then Wrap(s[q] + base) else s[q]
  {
    hide ShapeOf;
    cip := first;
    match ShapeOf(op) {
      case Bare =>
      case OneOperand => cip := cip + 1;
      case TwoOperands => cip := cip + 2;
      case Target =>
        code[cip] := Wrap(code[cip] + base);
        cip := cip + 1;
      case Bytes =>
        var num := S(code[cip]);
        cip := cip + 1 + num / 4;
      case Cases =>
        var num := S(code[cip]);
        cip := cip + 1;
        RelocateCases(code, cip, num, base);
        cip := cip + 2 * num + 1;
    }
  }

  /** One round of the walk. */
  method RelocateOne(code: array<Cell>, at: nat, t: Target) returns (cip: nat)
    requires GoodTarget(t) && (Fits(code[..], at) || Overruns(code[..], at))
    modifies code
    ensures cip == at + Len(old(code[..]), at)
    ensures forall i :: 0 <= i < at || cip <= i < code.Length ==> code[i] == old(code[i])
    ensures Fits(old(code[..]), at) ==> InstrRelocated(old(code[..]), code[..], at, t)
    ensures Overruns(old(code[..]), at) ==>
      code[at] == t.labels[old(code[at])] && forall i :: at < i < code.Length ==> code[i] == old(code[i])
  {
    hide ShapeOf;
    ghost var s := code[..];
    var op := code[at];
    ShapeFacts(op);
    code[at] := t.labels[op];
    if op == OP_SYSREQ_C {
      cip := OnBrowseRelocate(code, at + 1, t);
    } else {
      cip := RelocateOperands(code, op, at + 1, t.base, s);
    }
  }

  method BrowseRelocate(code: array<Cell>, t: Target) returns (err: Error)
    requires GoodTarget(t) && Walkable(code[..], 0)
    modifies code
    ensures err == Ok <==> Accepted(old(code[..]), 0)
    ensures err == Ok ==> Relocated(old(code[..]), code[..], t) && LastRelocated(old(code[..]), code[..], t)
  {
    hide InstrRelocated, ShapeOf, Len, LastRelocated, Relocated;
    ghost var s := code[..];
    var cip := 0;
    while cip < code.Length
      invariant 0 <= cip && |s| == code.Length
      invariant if cip <= |s| then Progress(s, code[..], cip, t) else Finished(s, code[..], t)
    {
      ghost var before := code[..];
      assert forall j :: cip <= j < |s| ==> before[j] == before[cip..][j - cip] == s[cip..][j - cip] == s[j];
      if ShapeOf(code[cip]).Invalid? {
        InvalidStops(s, cip);
        return InvInstr;
      }
      SameInstr(s, before, cip, t);
      ghost var at := cip;
      cip := RelocateOne(code, cip, t);
      if Overruns(s, at) {
        ProgressOverruns(s, before, code[..], at, t);
      } else {
        SameRelocated(s, before, code[..], at, t);
        ProgressStep(s, before, code[..], at, t);
      }
    }
    if cip == code.Length { ProgressEnds(s, code[..], t); }
    err := Ok;
  }

  lemma InvalidStops(s: seq<Cell>, at: nat)
    requires at < |s| && ShapeOf(s[at]).Invalid?
    ensures !Accepted(s, at)
  {
  }

  lemma SameInstr(s: seq<Cell>, c: seq<Cell>, at: nat, t: Target)
    requires |s| == |c| && at < |s| && forall j :: at <= j < |s| ==> s[j] == c[j]
    ensures Fits(s, at) == Fits(c, at) && Overruns(s, at) == Overruns(c, at) && Len(s, at) == Len(c, at)
  {
  }

  lemma SameRelocated(s: seq<Cell>, c: seq<Cell>, c': seq<Cell>, at: nat, t: Target)
    requires GoodTarget(t) && |s| == |c| == |c'| && forall j :: at <= j < |s| ==> s[j] == c[j]
    requires Fits(c, at) && Fits(s, at) && Len(s, at) == Len(c, at) && InstrRelocated(c, c', at, t)
    ensures InstrRelocated(s, c', at, t)
  {
  }

  // ---------------------------------------------------------------- choosing what to optimise

  /** The names the optimiser looks up, in the order of its opcodes. */
  function FloatName(k: nat): string {
    match k
    case 0 => "floatmul"
    case 1 => "floatdiv"
    case 2 => "floatadd"
    case 3 => "floatsub"
    case 4 => "float"
    case 5 => "floatround"
    case _ => "floatcmp"
  }

  /** The level bit that enables the optimisation of float native k. */
  function LevelBit(k: nat): nat { if k < 4 then 1 else if k < 6 then 4 else 2 }

  predicate Enabled(level: nat, capable: bool, k: nat) { level / LevelBit(k) % 2 == 1 && (k == 6 ==> capable) }

  function Import(imports: map<string, nat>, k: nat): int {
    if FloatName(k) in imports then imports[FloatName(k)] else -1
  }

  /** Native indices for the enabled names; a name the program does not import keeps -1. Comparing needs a
      capable processor, and without one its bit is cleared. */
  method SetupStage2(level: nat, imports: map<string, nat>, capable: bool) returns (natives: seq<int>, newLevel: nat)
    ensures |natives| == 7
    ensures forall k :: 0 <= k < 7 ==> natives[k] == if Enabled(level, capable, k) then Import(imports, k) else -1
    ensures newLevel == if level / 2 % 2 == 1 && !capable then level - 2 else level
  {
    hide FloatName, Import;
    natives, newLevel := [-1, -1, -1, -1, -1, -1, -1], level;
    if level % 2 == 1 {
      natives := Find(natives, imports, 0);
      natives := Find(natives, imports, 1);
      natives := Find(natives, imports, 2);
      natives := Find(natives, imports, 3);
    }
    if level / 4 % 2 == 1 {
      natives := Find(natives, imports, 4);
      natives := Find(natives, imports, 5);
    }
    if level / 2 % 2 == 1 {
      if capable {
        natives := Find(natives, imports, 6);
      } else {
        newLevel := level - 2;
      }
    }
  }

  method Find(natives: seq<int>, imports: map<string, nat>, k: nat) returns (r: seq<int>)
    requires k < |natives| == 7 && natives[k] == -1
    ensures r == natives[k := Import(imports, k)]
  {
    r := if FloatName(k) in imports then natives[k := imports[FloatName(k)]] else natives;
  }
}
