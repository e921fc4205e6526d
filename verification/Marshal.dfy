/** Calling plugin functions: parameters copied into the heap of an abstract machine and pushed on its stack, the
    call, and the way back, nested to any depth.  Addresses count cells; a cell is four bytes. */
module Marshal {
  import opened Wrappers

  const STKMARGIN := 16
  const STRINGEX_MAXLENGTH := 128
  const FORWARD_MAX_PARAMS := 32

  /** Heap top and stack pointer. */
  datatype Regs = Regs(hea: int, stk: int)

  /** A machine outside its interpreter; `hlw` is the bottom of the heap, and the last cell of the data is the top
      of the stack. */
  datatype Amx = Amx(regs: Regs, paramcount: int, data: seq<int>, hlw: int)

  /** An array prepared to be passed: characters or cells, how many, and the object of the host they lie in. */
  datatype Entry = Entry(chars: bool, n: nat, copyBack: bool, buf: nat)

  /** The one table of prepared arrays that all forwards share. */
  type Table = t: seq<Entry> | |t| == FORWARD_MAX_PARAMS
    witness seq(FORWARD_MAX_PARAMS, _ => Entry(false, 0, false, 0))

  /** All machines, the objects of the host that parameters refer to, and the prepared arrays: the next is prepared at
      `count`. */
  datatype World = World(amxs: seq<Amx>, host: seq<seq<int>>, table: Table, count: nat)

  // ---------------------------------------------------------------- heap and stack

  /** The test of amx_Allot, which subtracts in unsigned 32-bit bytes. */
  predicate Accepts(a: Amx, cells: int) { (4 * (a.regs.stk - a.regs.hea - cells)) % 0x1_0000_0000 >= 4 * STKMARGIN }

  /** The test does what it should exactly for requests that are not larger than the gap itself: a larger one is
      accepted. */
  lemma AllotExactly(a: Amx, cells: int)
    requires 0 <= a.regs.stk - a.regs.hea < 0x1000_0000 && 0 <= cells < 0x1000_0000
    ensures (Accepts(a, cells) <==> a.regs.hea + cells + STKMARGIN <= a.regs.stk) <==> a.regs.hea + cells <= a.regs.stk
  {
  }

  function Stored(data: seq<int>, at: int, cells: seq<int>): (r: Option<seq<int>>)
    ensures r.Some? ==> |r.value| == |data|
  {
    if 0 <= at && at + |cells| <= |data| then Some(data[..at] + cells + data[at + |cells|..]) else None
  }

  /** amx_Push; callers ignore the error. */
  function Push(a: Amx, v: int): Amx {
    if a.regs.hea + STKMARGIN > a.regs.stk || !(0 < a.regs.stk <= |a.data|) then a
    else a.(regs := a.regs.(stk := a.regs.stk - 1), paramcount := a.paramcount + 1, data := a.data[a.regs.stk - 1 := v])
  }

  function Release(a: Amx, at: int): Amx { if a.regs.hea > at then a.(regs := a.regs.(hea := at)) else a }

  // ---------------------------------------------------------------- parameters

  /** Strings in and in-out, and blocks of cells or characters; a cell or float by reference is a block of one. */
  datatype Kind = Str | StrEx | Cells(n: nat, copyBack: bool) | Chars(n: nat, copyBack: bool)

  /** A plain value, or an object of the host; a number beyond the objects stands for a null pointer. */
  datatype Param = Value(v: int) | Ref(kind: Kind, buf: nat)

  /** What is passed to a forward: a parameter as it is, or the number of a prepared array, which is looked up anew
      whenever it is needed. */
  datatype Arg = Direct(param: Param) | Prepared(index: int)

  /** Other numbers lie outside the table. */
  predicate Known(args: seq<Arg>) {
    forall i :: 0 <= i < |args| && args[i].Prepared? ==> 0 <= args[i].index < FORWARD_MAX_PARAMS
  }

  function EntryParam(e: Entry): Param {
    Ref(if e.chars then Chars(e.n, e.copyBack) else Cells(e.n, e.copyBack), e.buf)
  }

  function Look(table: Table, args: seq<Arg>): (params: seq<Param>)
    requires Known(args)
    ensures |params| == |args|
  {
    seq(|args|, i requires 0 <= i < |args| =>
      if args[i].Direct? then args[i].param else EntryParam(table[args[i].index]))
  }

  /** prepareArray: the number of the entry, or -1 when all are taken. */
  function PrepareArray(w: World, e: Entry): (World, int) {
    if w.count >= FORWARD_MAX_PARAMS then (w.(count := 0), -1)
    else (w.(table := w.table[w.count := e], count := w.count + 1), w.count as int)
  }

  function Object(host: seq<seq<int>>, buf: nat): seq<int> { if buf < |host| then host[buf] else [] }

  function CStr(b: seq<int>): seq<int> { if b == [] || b[0] == 0 then [] else [b[0] % 256] + CStr(b[1..]) }

  function Low(b: seq<int>): (r: seq<int>)
    ensures |r| == |b|
  {
    seq(|b|, i requires 0 <= i < |b| => b[i] % 256)
  }

  function Size(kind: Kind, b: seq<int>): nat {
    match kind case Str => |CStr(b)| + 1 case StrEx => STRINGEX_MAXLENGTH case Cells(n, _) => n case Chars(n, _) => n
  }

  /** What is stored at the block; a string longer than its block runs over. */
  function CopyIn(kind: Kind, b: seq<int>): Option<seq<int>> {
    match kind
    case Str => Some(CStr(b) + [0])
    case StrEx => Some(CStr(b) + [0])
    case Cells(n, _) => if n <= |b| then Some(b[..n]) else None
    case Chars(n, _) => if n <= |b| then Some(Low(b[..n])) else None
  }

  /** What amx_GetStringOld writes for an unpacked string: the characters and a zero; nothing defined without a
      terminator in memory. */
  function Unpacked(data: seq<int>, at: nat): (r: Option<seq<int>>)
    ensures r.Some? ==> 0 in r.value
    decreases |data| - at
  {
    if at >= |data| then None
    else if data[at] == 0 then Some([0])
    else var rest := Unpacked(data, at + 1); if rest.None? then None else Some([data[at] % 256] + rest.value)
  }

  function Bytes(c: int): seq<int> { [c / 0x100_0000 % 256, c / 0x1_0000 % 256, c / 0x100 % 256, c % 256] }

  /** For a packed one: the characters with their own zero, and another behind it. */
  function Packed(data: seq<int>, at: nat): (r: Option<seq<int>>)
    ensures r.Some? ==> 0 in r.value
    decreases |data| - at
  {
    if at >= |data| then None
    else if 0 in Bytes(data[at]) then Some(CStr(Bytes(data[at])) + [0, 0])
    else var rest := Packed(data, at + 1); if rest.None? then None else Some(Bytes(data[at]) + rest.value)
  }

  function GetString(data: seq<int>, at: nat): (r: Option<seq<int>>)
    ensures r.Some? ==> 0 in r.value
  {
    if at < |data| && data[at] % 0x1_0000_0000 > 0x00ff_ffff then Packed(data, at) else Unpacked(data, at)
  }

  /** The object after the call. */
  function CopyOut(kind: Kind, b: seq<int>, data: seq<int>, at: int): Option<seq<int>> {
    if kind == Str || (!kind.StrEx? && !kind.copyBack) then Some(b)
    else if at < 0 then None
    else if kind == StrEx then
      var text := GetString(data, at);
      if text.None? || |text.value| > |b| then None else Some(text.value + b[|text.value|..])
    else if at + kind.n > |data| || kind.n > |b| then None
    else Some((if kind.Cells? then data[at..at + kind.n] else Low(data[at..at + kind.n])) + b[kind.n..])
  }

  // ---------------------------------------------------------------- before the call

  /** The machine with all objects copied in, and where each lies; undefined once an allotment fails, since its
      address is then used unset. */
  function Prepare(a: Amx, host: seq<seq<int>>, params: seq<Param>): Option<(Amx, seq<int>)>
    decreases |params|
  {
    if params == [] then Some((a, []))
    else if params[0].Value? then
      var r := Prepare(a, host, params[1..]);
      if r.None? then None else Some((r.value.0, [0] + r.value.1))
    else
      var b := Object(host, params[0].buf);
      var size := Size(params[0].kind, b);
      var cells := CopyIn(params[0].kind, b);
      if cells.None? || !Accepts(a, size) then None
      else
        var data := Stored(a.data, a.regs.hea, cells.value);
        if data.None? then None
        else
          var r := Prepare(a.(data := data.value, regs := a.regs.(hea := a.regs.hea + size)), host, params[1..]);
          if r.None? then None else Some((r.value.0, [a.regs.hea] + r.value.1))
  }

  lemma PrepareNone(a: Amx, host: seq<seq<int>>)
    ensures Prepare(a, host, []) == Some((a, []))
  {
  }

  /** One round of the copying. */
  lemma PrepareStep(a: Amx, host: seq<seq<int>>, params: seq<Param>)
    requires params != [] && Prepare(a, host, params).Some?
    ensures var (r, ats) := Prepare(a, host, params).value; var p, h := params[0], a.regs.hea;
      && ats != []
      && if p.Value? then ats[0] == 0 && Prepare(a, host, params[1..]) == Some((r, ats[1..]))
         else
           var size, cells := Size(p.kind, Object(host, p.buf)), CopyIn(p.kind, Object(host, p.buf));
           && ats[0] == h && Accepts(a, size) && cells.Some? && 0 <= h && h + |cells.value| <= |a.data|
           && Prepare(a.(data := a.data[..h] + cells.value + a.data[h + |cells.value|..],
                         regs := Regs(h + size, a.regs.stk)), host, params[1..]) == Some((r, ats[1..]))
  {
    hide CopyIn, Size, Object, Accepts;
  }

  /** What is pushed: the value, or the address in bytes. */
  function Real(p: Param, at: int): int { if p.Value? then p.v else 4 * at }

  /** From the last parameter to the first. */
  function PushAll(a: Amx, params: seq<Param>, ats: seq<int>): Amx
    requires |params| <= |ats|
  {
    if params == [] then a else Push(PushAll(a, params[1..], ats[1..]), Real(params[0], ats[0]))
  }

  // ---------------------------------------------------------------- after the call

  function CleanUp(w: World, k: nat, params: seq<Param>, ats: seq<int>): (r: Option<World>)
    requires k < |w.amxs| && |params| <= |ats|
    ensures r.Some? ==> |r.value.amxs| == |w.amxs| && |r.value.host| == |w.host|
    ensures r.Some? ==> r.value.table == w.table && r.value.count == w.count
    decreases |params|
  {
    if params == [] then Some(w)
    else if params[0].Value? then CleanUp(w, k, params[1..], ats[1..])
    else
      var buf := params[0].buf;
      var out := CopyOut(params[0].kind, Object(w.host, buf), w.amxs[k].data, ats[0]);
      if out.None? then None
      else
        var host := if buf < |w.host| then w.host[buf := out.value] else w.host;
        CleanUp(w.(amxs := w.amxs[k := Release(w.amxs[k], ats[0])], host := host), k, params[1..], ats[1..])
  }

  // ---------------------------------------------------------------- execution

  datatype ExecType = Ignore | Stop | Stop2 | Continue | Single

  /** A function run, as what it does to the outside: cells written, heap and stack moved, objects of the host
      changed, arrays prepared, and forwards executed by natives. */
  datatype Op =
    | Poke(at: int, v: int)
    | Move(regs: Regs)
    | Touch(buf: nat, b: seq<int>)
    | Array(e: Entry)
    | Native(fwd: Forward)

  /** By HALT or an error that restores the registers, or by a bare return that does not: an error return, without a
      result, or a HALT that sleeps, which has stored its result. */
  datatype End = Halt(ret: int) | Abort | Bare(ret: int)
  datatype Callee = Callee(ops: seq<Op>, end: End)
  datatype Target = Target(amx: nat, executable: bool, callee: Callee)

  /** `Single` is a forward of one plugin. */
  datatype Forward = Forward(et: ExecType, args: seq<Arg>, targets: seq<Target>)

  function SetRegs(w: World, k: nat, regs: Regs): World
    requires k < |w.amxs|
  {
    w.(amxs := w.amxs[k := w.amxs[k].(regs := regs)])
  }

  /** The interpreter keeps its own registers and saves them before a native. */
  function RunOps(w: World, k: nat, regs: Regs, ops: seq<Op>): (r: Option<World>)
    requires k < |w.amxs|
    ensures r.Some? ==> |r.value.amxs| == |w.amxs| && |r.value.host| == |w.host|
    decreases ops, 0
  {
    if ops == [] then Some(w)
    else
      match ops[0]
      case Poke(at, v) =>
        if 0 <= at < |w.amxs[k].data|
        then RunOps(w.(amxs := w.amxs[k := w.amxs[k].(data := w.amxs[k].data[at := v])]), k, regs, ops[1..]) else None
      case Move(regs') => RunOps(w, k, regs', ops[1..])
      case Touch(buf, b) => if buf < |w.host| then RunOps(w.(host := w.host[buf := b]), k, regs, ops[1..]) else None
      case Array(e) => RunOps(PrepareArray(w, e).0, k, regs, ops[1..])
      case Native(fwd) =>
        assert ops[0].fwd < ops[0] && ops[0] in ops;
        var r := Execute(SetRegs(w, k, regs), fwd);
        if r.None? then None else RunOps(r.value.0, k, regs, ops[1..])
  }

  /** The data after the byte count and the return address went on the stack. */
  function Entered(a: Amx): Amx
    requires 2 <= a.regs.stk <= |a.data|
  {
    a.(paramcount := 0, data := a.data[a.regs.stk - 1 := 4 * a.paramcount][a.regs.stk - 2 := 0])
  }

  predicate BadRegs(a: Amx) { a.regs.stk >= |a.data| || a.regs.hea < a.hlw }

  /** amx_Exec: bad registers and a missing margin return at once, the latter with the count already gone. */
  function Exec(w: World, k: nat, callee: Callee): (r: Option<(World, int)>)
    requires k < |w.amxs|
    ensures r.Some? ==> |r.value.0.amxs| == |w.amxs| && |r.value.0.host| == |w.host|
    decreases callee, 1
  {
    var a := w.amxs[k];
    if BadRegs(a) then Some((w, 0))
    else if a.regs.stk < 2 then None
    else
      var w1 := w.(amxs := w.amxs[k := Entered(a)]);
      if a.regs.hea + STKMARGIN > a.regs.stk - 2 then Some((w1, 0))
      else
        var r := RunOps(w1, k, Regs(a.regs.hea, a.regs.stk - 2), callee.ops);
        if r.None? then None
        else if callee.end.Bare? then Some((r.value, callee.end.ret))
        else Some((SetRegs(r.value, k, Regs(a.regs.hea, a.regs.stk + a.paramcount)),
          if callee.end.Halt? then callee.end.ret else 0))
  }

  /** One plugin's turn, up to the return of its function. */
  function Called(w: World, t: Target, args: seq<Arg>): (r: Option<(World, int, seq<int>)>)
    ensures r.Some? ==> |r.value.0.amxs| == |w.amxs| && |r.value.0.host| == |w.host| && |r.value.2| == |args|
    ensures r.Some? ==> t.amx < |w.amxs| && Known(args)
    decreases t, 2
  {
    if t.amx >= |w.amxs| || !Known(args) then None
    else
      var params := Look(w.table, args);
      var p := Prepare(w.amxs[t.amx], w.host, params);
      if p.None? || |p.value.1| != |args| then None
      else
        var r := Exec(w.(amxs := w.amxs[t.amx := PushAll(p.value.0, params, p.value.1)]), t.amx, t.callee);
        if r.None? then None else Some((r.value.0, r.value.1, p.value.1))
  }

  /** One plugin's turn.  The prepared arrays are looked up again before they are copied back. */
  function CallTarget(w: World, t: Target, args: seq<Arg>): (r: Option<(World, int)>)
    ensures r.Some? ==> |r.value.0.amxs| == |w.amxs| && |r.value.0.host| == |w.host|
    ensures r.Some? ==> t.amx < |w.amxs| && Known(args)
    decreases t, 3
  {
    var r := Called(w, t, args);
    if r.None? then None
    else
      var (w', ret, ats) := r.value;
      var c := CleanUp(w', t.amx, Look(w'.table, args), ats);
      if c.None? then None else Some((c.value, ret))
  }

  /** Whether to stop after a result, and the result so far.  For Stop the case falls through to Stop2. */
  function Decide(et: ExecType, glob: int, ret: int): (bool, int)
    decreases et == Stop
  {
    match et
    case Ignore => (false, glob)
    case Stop => if ret > 0 then (true, ret) else Decide(Stop2, glob, ret)
    case Stop2 => if ret == 1 then (true, 1) else (false, if ret > glob then ret else glob)
    case Continue => (false, if ret > glob then ret else glob)
    case Single => (true, ret)
  }

  function RunTargets(w: World, et: ExecType, args: seq<Arg>, targets: seq<Target>,
                      glob: int): (r: Option<(World, int)>)
    ensures r.Some? ==> |r.value.0.amxs| == |w.amxs| && |r.value.0.host| == |w.host|
    decreases targets, 4
  {
    if targets == [] then Some((w, glob))
    else if !targets[0].executable then RunTargets(w, et, args, targets[1..], glob)
    else
      var r := CallTarget(w, targets[0], args);
      if r.None? then None
      else
        var (stop, value) := Decide(et, glob, r.value.1);
        if stop then Some((r.value.0, value)) else RunTargets(r.value.0, et, args, targets[1..], value)
  }

  /** Whatever happened, preparing starts again at the first entry. */
  function Execute(w: World, fwd: Forward): (r: Option<(World, int)>)
    ensures r.Some? ==> |r.value.0.amxs| == |w.amxs| && |r.value.0.host| == |w.host|
    decreases fwd, 5
  {
    var r := RunTargets(w, fwd.et, fwd.args, fwd.targets, 0);
    if r.None? then None else Some((r.value.0.(count := 0), r.value.1))
  }

  // ---------------------------------------------------------------- what a call needs

  function Total(params: seq<Param>, host: seq<seq<int>>): nat {
    if params == [] then 0
    else (if params[0].Ref? then Size(params[0].kind, Object(host, params[0].buf)) else 0) + Total(params[1..], host)
  }

  /** Every object is there and fits its block. */
  predicate Fits(p: Param, host: seq<seq<int>>) {
    p.Ref? ==> var b := Object(host, p.buf); CopyIn(p.kind, b).Some? && |CopyIn(p.kind, b).value| <= Size(p.kind, b)
  }

  predicate AllFit(params: seq<Param>, host: seq<seq<int>>) { forall i :: 0 <= i < |params| ==> Fits(params[i], host) }

  /** Room for the blocks, the parameters, the byte count and the return address, and still the margin. */
  predicate Room(a: Amx, params: seq<Param>, host: seq<seq<int>>) {
    && 0 <= a.hlw <= a.regs.hea && a.regs.stk < |a.data| < 0x1000_0000 && a.paramcount == 0 && AllFit(params, host)
    && a.regs.hea + Total(params, host) + |params| + 2 + STKMARGIN <= a.regs.stk
  }

  /** Where the blocks lie and what they hold, from `at` up. */
  predicate Blocks(params: seq<Param>, ats: seq<int>, host: seq<seq<int>>, data: seq<int>, at: int)
    requires |ats| == |params|
    decreases |params|
  {
    if params == [] then true
    else if params[0].Value? then Blocks(params[1..], ats[1..], host, data, at)
    else
      var b := Object(host, params[0].buf);
      && ats[0] == at && Lies(CopyIn(params[0].kind, b), data, at)
      && Blocks(params[1..], ats[1..], host, data, at + Size(params[0].kind, b))
  }

  predicate Lies(cells: Option<seq<int>>, data: seq<int>, at: int) {
    cells.Some? && 0 <= at && at + |cells.value| <= |data| && data[at..at + |cells.value|] == cells.value
  }

  /** The same below and above a gap. */
  predicate SameOutside(a: seq<int>, b: seq<int>, lo: int, hi: int) {
    |a| == |b| && forall i :: 0 <= i < |a| && !(lo <= i < hi) ==> a[i] == b[i]
  }

  lemma AcceptsRoom(a: Amx, cells: int)
    requires 0 <= a.regs.hea && 0 <= cells && a.regs.hea + cells + STKMARGIN <= a.regs.stk < 0x1000_0000
    ensures Accepts(a, cells)
  {
  }

  lemma StoredFacts(data: seq<int>, at: int, cells: seq<int>)
    requires 0 <= at && at + |cells| <= |data|
    ensures Stored(data, at, cells).Some?
    ensures var r := Stored(data, at, cells).value;
      SameOutside(data, r, at, at + |cells|) && r[at..at + |cells|] == cells
  {
  }

  lemma {:induction false} BlocksKept(params: seq<Param>, ats: seq<int>, host: seq<seq<int>>, a: seq<int>, b: seq<int>,
                                      at: int)
    requires |ats| == |params| && AllFit(params, host) && Blocks(params, ats, host, a, at)
    requires |a| == |b| && forall i :: at <= i < at + Total(params, host) && 0 <= i < |a| ==> a[i] == b[i]
    ensures Blocks(params, ats, host, b, at)
    decreases |params|
  {
    hide CopyIn, Size, Object;
    if params != [] {
      assert Fits(params[0], host);
      if params[0].Ref? {
        var cells := CopyIn(params[0].kind, Object(host, params[0].buf));
        assert b[at..at + |cells.value|] == a[at..at + |cells.value|];
        BlocksKept(params[1..], ats[1..], host, a, b, at + Size(params[0].kind, Object(host, params[0].buf)));
      } else {
        BlocksKept(params[1..], ats[1..], host, a, b, at);
      }
    }
  }

  lemma SameTrans(a: seq<int>, b: seq<int>, c: seq<int>, lo: int, mid: int, hi: int)
    requires lo <= mid <= hi && SameOutside(a, b, lo, mid) && SameOutside(b, c, mid, hi)
    ensures SameOutside(a, c, lo, hi) && forall i :: lo <= i < mid && 0 <= i < |b| ==> b[i] == c[i]
  {
  }

  lemma SameWider(a: seq<int>, b: seq<int>, lo: int, mid: int, hi: int)
    requires lo <= mid <= hi && SameOutside(a, b, lo, mid)
    ensures SameOutside(a, b, lo, hi)
  {
  }

  /** All allotments succeed, one behind the other, and only their blocks are written. */
  lemma {:induction false} PrepareFits(a: Amx, host: seq<seq<int>>, params: seq<Param>)
    requires 0 <= a.regs.hea && a.regs.stk < |a.data| < 0x1000_0000 && AllFit(params, host)
    requires a.regs.hea + Total(params, host) + STKMARGIN <= a.regs.stk
    ensures Prepare(a, host, params).Some?
    ensures var (r, ats) := Prepare(a, host, params).value;
      && r == a.(regs := Regs(a.regs.hea + Total(params, host), a.regs.stk), data := r.data) && |ats| == |params|
      && SameOutside(a.data, r.data, a.regs.hea, a.regs.hea + Total(params, host))
      && Blocks(params, ats, host, r.data, a.regs.hea)
    decreases |params|
  {
    hide CopyIn, Size, Object, Accepts, SameOutside, Stored, Lies;
    if params == [] {
      SameSelf(a.data, a.regs.hea);
    } else if params[0].Value? {
      PrepareFits(a, host, params[1..]);
    } else {
      assert Fits(params[0], host);
      var b := Object(host, params[0].buf);
      var size := Size(params[0].kind, b);
      var cells := CopyIn(params[0].kind, b).value;
      var h := a.regs.hea;
      AcceptsRoom(a, size);
      StoredFacts(a.data, h, cells);
      var data := Stored(a.data, h, cells).value;
      var next := a.(data := data, regs := a.regs.(hea := h + size));
      PrepareFits(next, host, params[1..]);
      var (r, ats) := Prepare(next, host, params[1..]).value;
      var end := h + Total(params, host);
      SameWider(a.data, data, h, h + |cells|, h + size);
      SameTrans(a.data, data, r.data, h, h + size, end);
      LiesKept(cells, data, r.data, h, h + size);
    }
  }

  lemma SameSelf(a: seq<int>, at: int)
    ensures SameOutside(a, a, at, at)
  {
  }

  lemma LiesKept(cells: seq<int>, a: seq<int>, b: seq<int>, at: int, end: int)
    requires 0 <= at && at + |cells| <= end && at + |cells| <= |a| == |b| && a[at..at + |cells|] == cells
    requires forall i :: at <= i < end && 0 <= i < |a| ==> a[i] == b[i]
    ensures Lies(Some(cells), b, at)
  {
  }

  /** The parameters lie on the stack in order, first one lowest. */
  predicate Pushed(params: seq<Param>, ats: seq<int>, data: seq<int>, at: int) {
    && |ats| == |params| && 0 <= at && at + |params| <= |data|
    && forall i :: 0 <= i < |params| ==> data[at + i] == Real(params[i], ats[i])
  }

  lemma {:induction false} PushFits(a: Amx, params: seq<Param>, ats: seq<int>)
    requires |ats| == |params| && 0 <= a.regs.hea && a.regs.hea + STKMARGIN + |params| <= a.regs.stk < |a.data|
    ensures var r := PushAll(a, params, ats); var sp := a.regs.stk - |params|;
      && r == a.(regs := Regs(a.regs.hea, sp), paramcount := a.paramcount + |params|, data := r.data)
      && SameOutside(a.data, r.data, sp, a.regs.stk) && Pushed(params, ats, r.data, sp)
    decreases |params|
  {
    if params != [] {
      PushFits(a, params[1..], ats[1..]);
      var q := PushAll(a, params[1..], ats[1..]);
      var r := PushAll(a, params, ats);
      forall i | 0 <= i < |params| ensures r.data[a.regs.stk - |params| + i] == Real(params[i], ats[i]) {
        if i > 0 { assert q.data[a.regs.stk - |params| + 1 + (i - 1)] == Real(params[1..][i - 1], ats[1..][i - 1]); }
      }
    }
  }

  /** The machine as the function starts: its stack pointer at the return address. */
  function AtEntry(a: Amx, host: seq<seq<int>>, params: seq<Param>): Amx
    requires Prepare(a, host, params).Some? && |Prepare(a, host, params).value.1| == |params|
    requires var p := PushAll(Prepare(a, host, params).value.0, params, Prepare(a, host, params).value.1);
      2 <= p.regs.stk <= |p.data|
  {
    Entered(PushAll(Prepare(a, host, params).value.0, params, Prepare(a, host, params).value.1))
  }

  lemma Reaches(a: Amx, host: seq<seq<int>>, params: seq<Param>)
    requires Room(a, params, host)
    ensures Prepare(a, host, params).Some? && |Prepare(a, host, params).value.1| == |params|
    ensures var (r, ats) := Prepare(a, host, params).value; var p := PushAll(r, params, ats);
      && 2 <= p.regs.stk <= |p.data| && !BadRegs(p) && p.regs.hea + STKMARGIN <= p.regs.stk - 2
      && p == a.(regs := Regs(a.regs.hea + Total(params, host), a.regs.stk - |params|), paramcount := |params|,
                data := p.data)
      && |p.data| == |a.data|
  {
    hide Prepare, PushAll, Blocks, Pushed, SameOutside, AllFit;
    PrepareFits(a, host, params);
    var (r, ats) := Prepare(a, host, params).value;
    SameLength(a.data, r.data, a.regs.hea, a.regs.hea + Total(params, host));
    PushFits(r, params, ats);
    SameLength(r.data, PushAll(r, params, ats).data, a.regs.stk - |params|, a.regs.stk);
  }

  lemma SameLength(a: seq<int>, b: seq<int>, lo: int, hi: int)
    requires SameOutside(a, b, lo, hi)
    ensures |a| == |b|
  {
  }

  /** What the called function finds: a zero return address, the byte count, the parameters in order, and every
      object at the address passed for it; all other cells are as they were. */
  lemma CalleeSees(a: Amx, host: seq<seq<int>>, params: seq<Param>)
    requires Room(a, params, host)
    ensures Prepare(a, host, params).Some? && |Prepare(a, host, params).value.1| == |params|
    ensures var ats := Prepare(a, host, params).value.1;
      var p := PushAll(Prepare(a, host, params).value.0, params, ats);
      && 2 <= p.regs.stk <= |p.data|
      && var e := AtEntry(a, host, params); var sp := a.regs.stk - |params| - 2;
      && 0 <= sp && |e.data| == |a.data| && e.data[sp] == 0 && e.data[sp + 1] == 4 * |params|
        && Pushed(params, ats, e.data, sp + 2)
      && Blocks(params, ats, host, e.data, a.regs.hea)
      && forall i ::
           0 <= i < |a.data| && !(a.regs.hea <= i < a.regs.hea + Total(params, host)) && !(sp <= i < a.regs.stk) ==>
           e.data[i] == a.data[i]
  {
    hide Prepare, PushAll, AllFit, Blocks;
    Reaches(a, host, params);
    PrepareFits(a, host, params);
    var (r, ats) := Prepare(a, host, params).value;
    PushFits(r, params, ats);
    var p := PushAll(r, params, ats);
    var e := AtEntry(a, host, params);
    BlocksKept(params, ats, host, r.data, e.data, a.regs.hea);
  }

  // ---------------------------------------------------------------- what a call restores

  /** The run makes only calls that have room and end by restoring. */
  predicate RoomyOps(w: World, k: nat, regs: Regs, ops: seq<Op>)
    requires k < |w.amxs|
    decreases ops, 0
  {
    ops == [] ||
    match ops[0]
    case Poke(at, v) =>
      0 <= at < |w.amxs[k].data| &&
      RoomyOps(w.(amxs := w.amxs[k := w.amxs[k].(data := w.amxs[k].data[at := v])]), k, regs, ops[1..])
    case Move(regs') => RoomyOps(w, k, regs', ops[1..])
    case Touch(buf, b) => buf < |w.host| && RoomyOps(w.(host := w.host[buf := b]), k, regs, ops[1..])
    case Array(e) => RoomyOps(PrepareArray(w, e).0, k, regs, ops[1..])
    case Native(fwd) =>
      assert ops[0].fwd < ops[0] && ops[0] in ops;
      var r := Execute(SetRegs(w, k, regs), fwd);
      Roomy(SetRegs(w, k, regs), fwd) && r.Some? && RoomyOps(r.value.0, k, regs, ops[1..])
  }

  /** There is room for what is looked up at this turn. */
  predicate RoomyTarget(w: World, t: Target, args: seq<Arg>)
    decreases t, 3
  {
    && t.amx < |w.amxs| && Known(args) && Room(w.amxs[t.amx], Look(w.table, args), w.host) && !t.callee.end.Bare?
    && (Reaches(w.amxs[t.amx], w.host, Look(w.table, args));
        var e := AtEntry(w.amxs[t.amx], w.host, Look(w.table, args));
        RoomyOps(w.(amxs := w.amxs[t.amx := e]), t.amx, Regs(e.regs.hea, e.regs.stk - 2), t.callee.ops))
  }

  predicate RoomyTargets(w: World, et: ExecType, args: seq<Arg>, targets: seq<Target>, glob: int)
    decreases targets, 4
  {
    targets == [] ||
    if !targets[0].executable then RoomyTargets(w, et, args, targets[1..], glob)
    else
      var r := CallTarget(w, targets[0], args);
      && RoomyTarget(w, targets[0], args) && r.Some?
      && var (stop, value) := Decide(et, glob, r.value.1);
        stop || RoomyTargets(r.value.0, et, args, targets[1..], value)
  }

  predicate Roomy(w: World, fwd: Forward)
    decreases fwd, 5
  {
    RoomyTargets(w, fwd.et, fwd.args, fwd.targets, 0)
  }

  predicate SameShape(a: Amx, b: Amx) { a.paramcount == b.paramcount && a.hlw == b.hlw && |a.data| == |b.data| }

  /** Heap tops, stack pointers and parameter counts are as before. */
  predicate Kept(w: World, w': World) {
    |w'.amxs| == |w.amxs| && forall k :: 0 <= k < |w.amxs| ==>
      SameShape(w.amxs[k], w'.amxs[k]) && w'.amxs[k].regs == w.amxs[k].regs
  }

  /** Except perhaps the saved registers of the machine whose function runs. */
  predicate KeptBut(w: World, w': World, k: nat) {
    && |w'.amxs| == |w.amxs|
    && forall j :: 0 <= j < |w.amxs| ==>
         SameShape(w.amxs[j], w'.amxs[j]) && (j != k ==> w'.amxs[j].regs == w.amxs[j].regs)
  }

  lemma KeptButTrans(a: World, b: World, c: World, k: nat)
    requires KeptBut(a, b, k) && KeptBut(b, c, k)
    ensures KeptBut(a, c, k)
  {
  }

  lemma KeptTrans(a: World, b: World, c: World)
    requires Kept(a, b) && Kept(b, c)
    ensures Kept(a, c)
  {
  }

  lemma KeptSelf(w: World, k: nat)
    ensures KeptBut(w, w, k) && Kept(w, w)
  {
  }

  lemma SavedKept(w: World, k: nat, regs: Regs, w': World)
    requires k < |w.amxs| && Kept(SetRegs(w, k, regs), w')
    ensures KeptBut(w, w', k)
  {
  }

  lemma PokeKept(w: World, k: nat, at: nat, v: int)
    requires k < |w.amxs| && at < |w.amxs[k].data|
    ensures KeptBut(w, w.(amxs := w.amxs[k := w.amxs[k].(data := w.amxs[k].data[at := v])]), k)
  {
  }

  lemma TouchKept(w: World, k: nat, host: seq<seq<int>>, table: Table, count: nat)
    ensures KeptBut(w, w.(host := host, table := table, count := count), k)
  {
  }

  lemma {:induction false} OpsKeep(w: World, k: nat, regs: Regs, ops: seq<Op>)
    requires k < |w.amxs| && RoomyOps(w, k, regs, ops)
    ensures RunOps(w, k, regs, ops).Some? && KeptBut(w, RunOps(w, k, regs, ops).value, k)
    decreases ops, 0
  {
    hide Kept, KeptBut, Execute, Roomy, SetRegs;
    if ops == [] {
      KeptSelf(w, k);
    } else {
      match ops[0] {
        case Poke(at, v) =>
          var next := w.(amxs := w.amxs[k := w.amxs[k].(data := w.amxs[k].data[at := v])]);
          PokeKept(w, k, at, v);
          OpsKeep(next, k, regs, ops[1..]);
          KeptButTrans(w, next, RunOps(w, k, regs, ops).value, k);
        case Move(regs') => OpsKeep(w, k, regs', ops[1..]);
        case Touch(buf, b) =>
          var next := w.(host := w.host[buf := b]);
          TouchKept(w, k, next.host, w.table, w.count);
          OpsKeep(next, k, regs, ops[1..]);
          KeptButTrans(w, next, RunOps(w, k, regs, ops).value, k);
        case Array(e) =>
          var next := PrepareArray(w, e).0;
          TouchKept(w, k, w.host, next.table, next.count);
          OpsKeep(next, k, regs, ops[1..]);
          KeptButTrans(w, next, RunOps(w, k, regs, ops).value, k);
        case Native(fwd) =>
          assert ops[0].fwd < ops[0] && ops[0] in ops;
          Restores(SetRegs(w, k, regs), fwd);
          var next := Execute(SetRegs(w, k, regs), fwd).value.0;
          SavedKept(w, k, regs, next);
          OpsKeep(next, k, regs, ops[1..]);
          KeptButTrans(w, next, RunOps(w, k, regs, ops).value, k);
      }
    }
  }

  /** Every block lies at or above `at`, and the first one there. */
  predicate Above(params: seq<Param>, ats: seq<int>, at: int)
    requires |ats| == |params|
  {
    forall i :: 0 <= i < |params| && params[i].Ref? ==> ats[i] >= at
  }

  lemma {:induction false} BlocksAbove(params: seq<Param>, ats: seq<int>, host: seq<seq<int>>, data: seq<int>, at: int)
    requires |ats| == |params| && Blocks(params, ats, host, data, at)
    ensures Above(params, ats, at)
    decreases |params|
  {
    hide CopyIn, Size, Object, Lies;
    if params != [] {
      var next := if params[0].Value? then at else at + Size(params[0].kind, Object(host, params[0].buf));
      BlocksAbove(params[1..], ats[1..], host, data, next);
      forall i | 0 <= i < |params| && params[i].Ref? ensures ats[i] >= at {
        if i > 0 { assert params[1..][i - 1] == params[i] && ats[1..][i - 1] == ats[i]; }
      }
    }
  }

  /** Releasing blocks that lie at or above the heap top changes no register. */
  lemma {:induction false} CleanLow(w: World, k: nat, params: seq<Param>, ats: seq<int>)
    requires k < |w.amxs| && |ats| == |params| && Above(params, ats, w.amxs[k].regs.hea)
      && CleanUp(w, k, params, ats).Some?
    ensures CleanUp(w, k, params, ats).value.amxs == w.amxs
    decreases |params|
  {
    hide CopyOut, Object;
    if params != [] {
      assert Above(params[1..], ats[1..], w.amxs[k].regs.hea) by {
        forall i | 0 <= i < |params[1..]| && params[1..][i].Ref?
          ensures ats[1..][i] >= w.amxs[k].regs.hea { assert params[i + 1].Ref?; }
      }
      if params[0].Value? {
        CleanLow(w, k, params[1..], ats[1..]);
      } else {
        var out := CopyOut(params[0].kind, Object(w.host, params[0].buf), w.amxs[k].data, ats[0]);
        var host := if params[0].buf < |w.host| then w.host[params[0].buf := out.value] else w.host;
        var next := w.(amxs := w.amxs[k := Release(w.amxs[k], ats[0])], host := host);
        assert next.amxs == w.amxs;
        CleanLow(next, k, params[1..], ats[1..]);
      }
    }
  }

  /** The same parameters are objects. */
  predicate SameForm(a: seq<Param>, b: seq<Param>) {
    |a| == |b| && forall i :: 0 <= i < |a| ==> (a[i].Value? <==> b[i].Value?)
  }

  lemma LookForm(a: Table, b: Table, args: seq<Arg>)
    requires Known(args)
    ensures SameForm(Look(a, args), Look(b, args))
  {
  }

  /** Releasing the blocks, the first of them first, takes the heap top back to where they begin, whatever objects they
      are copied back to. */
  lemma {:induction false} CleanRestores(w: World, k: nat, params: seq<Param>, outs: seq<Param>, ats: seq<int>,
                                         host: seq<seq<int>>, data: seq<int>, at: int)
    requires k < |w.amxs| && |ats| == |params| && Blocks(params, ats, host, data, at) && SameForm(params, outs)
    requires w.amxs[k].regs.hea == at + Total(params, host) && CleanUp(w, k, outs, ats).Some?
    ensures CleanUp(w, k, outs, ats).value.amxs == w.amxs[k := w.amxs[k].(regs := w.amxs[k].regs.(hea := at))]
    decreases |params|
  {
    hide CopyIn, Size, CopyOut, Object, Lies;
    if params == [] {
      assert w.amxs[k].(regs := w.amxs[k].regs.(hea := at)) == w.amxs[k];
    } else if params[0].Value? {
      CleanRestores(w, k, params[1..], outs[1..], ats[1..], host, data, at);
    } else {
      var out := CopyOut(outs[0].kind, Object(w.host, outs[0].buf), w.amxs[k].data, ats[0]);
      var objects := if outs[0].buf < |w.host| then w.host[outs[0].buf := out.value] else w.host;
      var next := w.(amxs := w.amxs[k := Release(w.amxs[k], ats[0])], host := objects);
      BlocksAbove(params[1..], ats[1..], host, data, at + Size(params[0].kind, Object(host, params[0].buf)));
      assert next.amxs[k].regs.hea == at;
      forall i | 0 <= i < |outs[1..]| && outs[1..][i].Ref? ensures ats[1..][i] >= at {
        assert params[1..][i].Ref?;
      }
      CleanLow(next, k, outs[1..], ats[1..]);
    }
  }

  /** A call with room keeps every register, at any nesting depth. */
  lemma {:induction false} TargetRestores(w: World, t: Target, args: seq<Arg>)
    requires RoomyTarget(w, t, args) && CallTarget(w, t, args).Some?
    ensures Kept(w, CallTarget(w, t, args).value.0)
    decreases t, 3
  {
    hide RunOps, RoomyOps, CleanUp, Prepare, PushAll, Blocks, KeptBut, Total, AllFit, Look;
    var k := t.amx;
    var a, params := w.amxs[k], Look(w.table, args);
    Reaches(a, w.host, params);
    RoomBounds(a, params, w.host);
    PrepareFits(a, w.host, params);
    var (r, ats) := Prepare(a, w.host, params).value;
    var p := PushAll(r, params, ats);
    var wp := w.(amxs := w.amxs[k := p]);
    var e := AtEntry(a, w.host, params);
    var we := w.(amxs := w.amxs[k := e]);
    assert wp.amxs[k := Entered(p)] == we.amxs;
    var regs := Regs(e.regs.hea, e.regs.stk - 2);
    OpsKeep(we, k, regs, t.callee.ops);
    var wr := RunOps(we, k, regs, t.callee.ops).value;
    var wx := Exec(wp, k, t.callee).value.0;
    assert wx == SetRegs(wr, k, Regs(p.regs.hea, p.regs.stk + p.paramcount));
    KeptButAt(we, wr, k);
    LookForm(w.table, wx.table, args);
    CleanRestores(wx, k, params, Look(wx.table, args), ats, w.host, r.data, a.regs.hea);
    var wc := CleanUp(wx, k, Look(wx.table, args), ats).value;
    assert CallTarget(w, t, args).value.0 == wc;
    forall j | 0 <= j < |w.amxs| ensures SameShape(w.amxs[j], wc.amxs[j]) && wc.amxs[j].regs == w.amxs[j].regs {
      KeptButOther(we, wr, k, j);
    }
  }

  lemma RoomBounds(a: Amx, params: seq<Param>, host: seq<seq<int>>)
    requires Room(a, params, host)
    ensures 0 <= a.regs.hea && a.regs.stk < |a.data| < 0x1000_0000 && AllFit(params, host) && a.paramcount == 0
    ensures a.regs.hea + Total(params, host) + STKMARGIN <= a.regs.stk
  {
  }

  lemma KeptButAt(w: World, w': World, k: nat)
    requires KeptBut(w, w', k) && k < |w.amxs|
    ensures |w'.amxs| == |w.amxs| && SameShape(w.amxs[k], w'.amxs[k])
  {
  }

  lemma KeptButOther(w: World, w': World, k: nat, j: nat)
    requires KeptBut(w, w', k) && j < |w.amxs|
    ensures |w'.amxs| == |w.amxs| && SameShape(w.amxs[j], w'.amxs[j]) && (j != k ==> w'.amxs[j].regs == w.amxs[j].regs)
  {
  }

  lemma {:induction false} TargetsRestore(w: World, et: ExecType, args: seq<Arg>, targets: seq<Target>, glob: int)
    requires RoomyTargets(w, et, args, targets, glob)
    ensures RunTargets(w, et, args, targets, glob).Some? && Kept(w, RunTargets(w, et, args, targets, glob).value.0)
    decreases targets, 4
  {
    hide Kept, CallTarget, RoomyTarget, Decide;
    if targets == [] {
      KeptSelf(w, 0);
    } else if !targets[0].executable {
      TargetsRestore(w, et, args, targets[1..], glob);
    } else {
      TargetRestores(w, targets[0], args);
      var r := CallTarget(w, targets[0], args).value;
      var (stop, value) := Decide(et, glob, r.1);
      if !stop {
        TargetsRestore(r.0, et, args, targets[1..], value);
        KeptTrans(w, r.0, RunTargets(r.0, et, args, targets[1..], value).value.0);
      }
    }
  }

  /** Executing a forward whose calls, and the calls nested in them, all have room and end by restoring, leaves every
      heap top, stack pointer and parameter count as it was.  Room is for the arrays as they are prepared when a call's
      turn comes. */
  lemma {:induction false} Restores(w: World, fwd: Forward)
    requires Roomy(w, fwd)
    ensures Execute(w, fwd).Some? && Kept(w, Execute(w, fwd).value.0)
    decreases fwd, 5
  {
    TargetsRestore(w, fwd.et, fwd.args, fwd.targets, 0);
  }

  // ---------------------------------------------------------------- without room

  /** Pushing goes on while there is a margin. */
  lemma {:induction false} PushBounds(a: Amx, params: seq<Param>, ats: seq<int>)
    requires |ats| == |params| && 0 <= a.regs.hea && a.regs.hea + STKMARGIN <= a.regs.stk < |a.data|
    ensures var r := PushAll(a, params, ats);
      && r.regs.hea == a.regs.hea && r.hlw == a.hlw && |r.data| == |a.data|
      && a.regs.stk - |params| <= r.regs.stk <= a.regs.stk && r.regs.stk >= a.regs.hea + STKMARGIN - 1
      && (params != [] ==> r.regs.stk < a.regs.stk)
      && (r.regs.stk == a.regs.stk - |params| || r.regs.hea + STKMARGIN > r.regs.stk)
    decreases |params|
  {
    hide Real;
    if params != [] { PushBounds(a, params[1..], ats[1..]); }
  }

  lemma {:induction false} CleanKeepsStack(w: World, k: nat, params: seq<Param>, ats: seq<int>)
    requires k < |w.amxs| && |ats| == |params| && CleanUp(w, k, params, ats).Some?
    ensures var r := CleanUp(w, k, params, ats).value;
      r.amxs[k].regs.stk == w.amxs[k].regs.stk && r.amxs[k].data == w.amxs[k].data
    decreases |params|
  {
    hide CopyOut, Object;
    if params != [] {
      if params[0].Value? {
        CleanKeepsStack(w, k, params[1..], ats[1..]);
      } else {
        var out := CopyOut(params[0].kind, Object(w.host, params[0].buf), w.amxs[k].data, ats[0]);
        var host := if params[0].buf < |w.host| then w.host[params[0].buf := out.value] else w.host;
        CleanKeepsStack(w.(amxs := w.amxs[k := Release(w.amxs[k], ats[0])], host := host), k, params[1..], ats[1..]);
      }
    }
  }

  /** When the allotments succeed, a call without parameters always leaves the stack pointer where it was; one with
      parameters does exactly when there is room for all of them, the byte count, the return address and the
      margin.  Otherwise the function never runs and what was pushed stays. */
  lemma StackExactly(w: World, t: Target, args: seq<Arg>)
    requires t.amx < |w.amxs| && Known(args) && !t.callee.end.Bare? && CallTarget(w, t, args).Some?
    requires var a, params := w.amxs[t.amx], Look(w.table, args);
      && 0 <= a.hlw <= a.regs.hea && a.regs.stk < |a.data| < 0x1000_0000 && a.paramcount == 0 && AllFit(params, w.host)
      && a.regs.hea + Total(params, w.host) + STKMARGIN <= a.regs.stk
      && (Room(a, params, w.host) ==> RoomyTarget(w, t, args))
    ensures CallTarget(w, t, args).value.0.amxs[t.amx].regs.stk == w.amxs[t.amx].regs.stk <==>
      args == [] || Room(w.amxs[t.amx], Look(w.table, args), w.host)
    ensures !Room(w.amxs[t.amx], Look(w.table, args), w.host) ==> CallTarget(w, t, args).value.1 == 0
  {
    hide RunOps, RoomyOps, CleanUp, Prepare, PushAll, Blocks, Total, AllFit, RoomyTarget, SameOutside, Look;
    var k := t.amx;
    var a, params := w.amxs[k], Look(w.table, args);
    if Room(a, params, w.host) {
      TargetRestores(w, t, args);
    } else {
      PrepareFits(a, w.host, params);
      var (r, ats) := Prepare(a, w.host, params).value;
      SameLength(a.data, r.data, a.regs.hea, a.regs.hea + Total(params, w.host));
      PushBounds(r, params, ats);
      var p := PushAll(r, params, ats);
      if params == [] { assert p == r by { PushNone(r, ats); } }
      var wp := w.(amxs := w.amxs[k := p]);
      assert Exec(wp, k, t.callee) == Some((wp.(amxs := wp.amxs[k := Entered(p)]), 0));
      CleanKeepsStack(Exec(wp, k, t.callee).value.0, k, params, ats);
    }
  }

  lemma PushNone(a: Amx, ats: seq<int>)
    ensures PushAll(a, [], ats) == a
  {
  }

  // ---------------------------------------------------------------- from one plugin to the next

  /** The kinds that come back. */
  predicate ComesBack(kind: Kind) { kind.StrEx? || (!kind.Str? && kind.copyBack) }

  /** What the function left in the block, as the next one will find it. */
  function Left(kind: Kind, data: seq<int>, at: int): Option<seq<int>> {
    if at < 0 then None
    else match kind
      case Str => None
      case StrEx => var text := GetString(data, at); if text.None? then None else Some(CStr(text.value) + [0])
      case Cells(n, _) => if at + n <= |data| then Some(data[at..at + n]) else None
      case Chars(n, _) => if at + n <= |data| then Some(Low(data[at..at + n])) else None
  }

  lemma {:induction false} CStrStops(a: seq<int>, b: seq<int>)
    requires 0 in a
    ensures CStr(a + b) == CStr(a)
    decreases |a|
  {
    if a[0] != 0 {
      CStrStops(a[1..], b);
      assert (a + b)[1..] == a[1..] + b;
    }
  }

  lemma LowTwice(a: seq<int>)
    ensures Low(Low(a)) == Low(a)
  {
  }

  /** Copying out and in again. */
  lemma OutAndIn(kind: Kind, b: seq<int>, data: seq<int>, at: int)
    requires ComesBack(kind) && CopyOut(kind, b, data, at).Some?
    ensures CopyIn(kind, CopyOut(kind, b, data, at).value) == Left(kind, data, at)
  {
    hide GetString, CStr, Low;
    var out := CopyOut(kind, b, data, at).value;
    match kind {
      case StrEx =>
        var text := GetString(data, at).value;
        CStrStops(text, b[|text|..]);
      case Cells(n, _) => assert out[..n] == data[at..at + n];
      case Chars(n, _) =>
        assert out[..n] == Low(data[at..at + n]);
        LowTwice(data[at..at + n]);
    }
  }

  /** No other parameter refers to the same object. */
  predicate Alone(params: seq<Param>, j: nat) {
    j < |params| && params[j].Ref? && forall i :: 0 <= i < |params| && i != j && params[i].Ref? ==>
      params[i].buf != params[j].buf
  }

  lemma {:induction false} CleanLeaves(w: World, k: nat, params: seq<Param>, ats: seq<int>, buf: nat)
    requires k < |w.amxs| && |ats| == |params| && CleanUp(w, k, params, ats).Some?
    requires forall i :: 0 <= i < |params| && params[i].Ref? ==> params[i].buf != buf
    ensures Object(CleanUp(w, k, params, ats).value.host, buf) == Object(w.host, buf)
    decreases |params|
  {
    hide CopyOut;
    if params != [] {
      forall i | 0 <= i < |params[1..]| && params[1..][i].Ref?
        ensures params[1..][i].buf != buf { assert params[i + 1].buf != buf; }
      if params[0].Value? {
        CleanLeaves(w, k, params[1..], ats[1..], buf);
      } else {
        var out := CopyOut(params[0].kind, Object(w.host, params[0].buf), w.amxs[k].data, ats[0]);
        var host := if params[0].buf < |w.host| then w.host[params[0].buf := out.value] else w.host;
        CleanLeaves(w.(amxs := w.amxs[k := Release(w.amxs[k], ats[0])], host := host), k, params[1..], ats[1..], buf);
      }
    }
  }

  lemma {:induction false} CleanGives(w: World, k: nat, params: seq<Param>, ats: seq<int>, j: nat)
    requires k < |w.amxs| && |ats| == |params| && CleanUp(w, k, params, ats).Some? && Alone(params, j)
      && params[j].buf < |w.host|
    ensures CopyOut(params[j].kind, Object(w.host, params[j].buf), w.amxs[k].data, ats[j]) ==
      Some(Object(CleanUp(w, k, params, ats).value.host, params[j].buf))
    decreases |params|
  {
    hide CopyOut;
    if params[0].Ref? {
      var out := CopyOut(params[0].kind, Object(w.host, params[0].buf), w.amxs[k].data, ats[0]);
      var host := if params[0].buf < |w.host| then w.host[params[0].buf := out.value] else w.host;
      var next := w.(amxs := w.amxs[k := Release(w.amxs[k], ats[0])], host := host);
      if j == 0 {
        forall i | 0 <= i < |params[1..]| && params[1..][i].Ref?
          ensures params[1..][i].buf != params[0].buf { assert params[i + 1].Ref?; }
        CleanLeaves(next, k, params[1..], ats[1..], params[0].buf);
      } else {
        AloneRest(params, j);
        CleanGives(next, k, params[1..], ats[1..], j - 1);
      }
    } else {
      AloneRest(params, j);
      CleanGives(w, k, params[1..], ats[1..], j - 1);
    }
  }

  lemma AloneRest(params: seq<Param>, j: nat)
    requires Alone(params, j) && j > 0
    ensures Alone(params[1..], j - 1)
  {
  }

  lemma {:induction false} BlockAt(params: seq<Param>, ats: seq<int>, host: seq<seq<int>>, data: seq<int>, at: int,
                                   j: nat)
    requires |ats| == |params| && Blocks(params, ats, host, data, at) && j < |params| && params[j].Ref?
    ensures Lies(CopyIn(params[j].kind, Object(host, params[j].buf)), data, ats[j])
    decreases |params|
  {
    hide CopyIn, Size, Object, Lies;
    if j > 0 {
      var next := if params[0].Value? then at else at + Size(params[0].kind, Object(host, params[0].buf));
      BlockAt(params[1..], ats[1..], host, data, next, j - 1);
    }
  }

  /** Where the j-th parameter's object is copied to. */
  function BlockOf(a: Amx, host: seq<seq<int>>, params: seq<Param>, j: nat): int
    requires Prepare(a, host, params).Some? && j < |Prepare(a, host, params).value.1|
  {
    Prepare(a, host, params).value.1[j]
  }

  /** The called function finds these cells in the block of the j-th parameter. */
  predicate Finds(a: Amx, host: seq<seq<int>>, params: seq<Param>, j: nat, cells: Option<seq<int>>)
    requires Room(a, params, host) && j < |params|
  {
    Reaches(a, host, params);
    Lies(cells, AtEntry(a, host, params).data, BlockOf(a, host, params, j))
  }

  lemma ObjectThere(a: Amx, host: seq<seq<int>>, params: seq<Param>, j: nat)
    requires Room(a, params, host) && j < |params| && params[j].Ref?
    ensures Finds(a, host, params, j, CopyIn(params[j].kind, Object(host, params[j].buf)))
  {
    hide CopyIn, Lies, Blocks, Room, PushAll;
    Reaches(a, host, params);
    CalleeSees(a, host, params);
    BlockAt(params, Prepare(a, host, params).value.1, host, AtEntry(a, host, params).data, a.regs.hea, j);
  }

  /** After a plugin's turn in which no array in use is prepared again, what would be copied in of the object is what
      the plugin left in its block. */
  lemma LeftBehind(w: World, t: Target, args: seq<Arg>, j: nat)
    requires CallTarget(w, t, args).Some? && Room(w.amxs[t.amx], Look(w.table, args), w.host)
    requires Look(CallTarget(w, t, args).value.0.table, args) == Look(w.table, args)
    requires var params := Look(w.table, args);
      Alone(params, j) && params[j].buf < |w.host| && ComesBack(params[j].kind)
    ensures var params := Look(w.table, args); var w' := CallTarget(w, t, args).value.0;
      && Prepare(w.amxs[t.amx], w.host, params).Some? && |Prepare(w.amxs[t.amx], w.host, params).value.1| == |params|
      && CopyIn(params[j].kind, Object(w'.host, params[j].buf)) ==
         Left(params[j].kind, w'.amxs[t.amx].data, BlockOf(w.amxs[t.amx], w.host, params, j))
  {
    hide Prepare, PushAll, Exec, CleanUp, CopyOut, CopyIn, Lies, Blocks, Left, Room, Pushed, Alone, ComesBack, Look;
    var k, params := t.amx, Look(w.table, args);
    Reaches(w.amxs[k], w.host, params);
    var (wx, ret, ats) := Called(w, t, args).value;
    AloneBuf(params, j);
    CleanGives(wx, k, params, ats, j);
    CleanKeepsStack(wx, k, params, ats);
    OutAndIn(params[j].kind, Object(wx.host, params[j].buf), wx.amxs[k].data, ats[j]);
  }

  /** Each plugin called has room when its turn comes. */
  predicate RoomEach(w: World, et: ExecType, args: seq<Arg>, targets: seq<Target>, glob: int)
    requires RunTargets(w, et, args, targets, glob).Some?
    decreases |targets|
  {
    if targets == [] then true
    else if !targets[0].executable then RoomEach(w, et, args, targets[1..], glob)
    else
      var r := CallTarget(w, targets[0], args).value;
      var (stop, value) := Decide(et, glob, r.1);
      && Room(w.amxs[targets[0].amx], Look(w.table, args), w.host)
      && (stop || RoomEach(r.0, et, args, targets[1..], value))
  }

  /** No array in use is prepared again, or only as the same: every turn ends with what it began with. */
  predicate Steady(w: World, et: ExecType, args: seq<Arg>, targets: seq<Target>, glob: int)
    requires RunTargets(w, et, args, targets, glob).Some?
    decreases |targets|
  {
    if targets == [] then true
    else if !targets[0].executable then Steady(w, et, args, targets[1..], glob)
    else
      var r := CallTarget(w, targets[0], args).value;
      var (stop, value) := Decide(et, glob, r.1);
      Look(r.0.table, args) == Look(w.table, args) && (stop || Steady(r.0, et, args, targets[1..], value))
  }

  /** Each plugin called finds in its block of the j-th parameter, passed as `p`, what the one called before it left in
      its own, and the first one `left`; in the end the object of the host is what the last one left. */
  predicate EachFinds(w: World, et: ExecType, args: seq<Arg>, targets: seq<Target>, glob: int, j: nat, p: Param,
                      left: Option<seq<int>>)
    requires RunTargets(w, et, args, targets, glob).Some? && RoomEach(w, et, args, targets, glob)
    requires j < |args| && p.Ref?
    decreases |targets|
  {
    if targets == [] then CopyIn(p.kind, Object(w.host, p.buf)) == left
    else if !targets[0].executable then EachFinds(w, et, args, targets[1..], glob, j, p, left)
    else
      var k, params := targets[0].amx, Look(w.table, args);
      var r := CallTarget(w, targets[0], args).value;
      var (stop, value) := Decide(et, glob, r.1);
      Reaches(w.amxs[k], w.host, params);
      var left' := Left(p.kind, r.0.amxs[k].data, BlockOf(w.amxs[k], w.host, params, j));
      && Finds(w.amxs[k], w.host, params, j, left)
      && if stop then CopyIn(p.kind, Object(r.0.host, p.buf)) == left'
         else EachFinds(r.0, et, args, targets[1..], value, j, p, left')
  }

  /** Along the list of plugins, while no array in use is prepared again, each one called finds in an object passed to
      be copied back what the one before it left there, the first one the host's object, and the host in the end what
      the last one left. */
  lemma {:induction false} HandedOn(w: World, et: ExecType, args: seq<Arg>, targets: seq<Target>, glob: int, j: nat)
    requires RunTargets(w, et, args, targets, glob).Some? && RoomEach(w, et, args, targets, glob)
    requires Steady(w, et, args, targets, glob) && Known(args)
    requires var params := Look(w.table, args);
      Alone(params, j) && params[j].buf < |w.host| && ComesBack(params[j].kind)
    ensures var p := Look(w.table, args)[j];
      EachFinds(w, et, args, targets, glob, j, p, CopyIn(p.kind, Object(w.host, p.buf)))
    decreases |targets|
  {
    hide CallTarget, Decide, Room, Alone, ComesBack, Finds, Left, CopyIn, Object, Prepare, Look;
    var params := Look(w.table, args);
    AloneBuf(params, j);
    if targets != [] {
      if !targets[0].executable {
        HandedOn(w, et, args, targets[1..], glob, j);
      } else {
        ObjectThere(w.amxs[targets[0].amx], w.host, params, j);
        LeftBehind(w, targets[0], args, j);
        var r := CallTarget(w, targets[0], args).value;
        var (stop, value) := Decide(et, glob, r.1);
        if !stop { HandedOn(r.0, et, args, targets[1..], value, j); }
      }
    }
  }

  lemma AloneBuf(params: seq<Param>, j: nat)
    requires Alone(params, j)
    ensures j < |params| && params[j].Ref?
  {
  }

  // ---------------------------------------------------------------- arrays prepared again

  /** The table and where preparing goes on. */
  datatype Tab = Tab(table: Table, count: nat)

  function TabOf(w: World): Tab { Tab(w.table, w.count) }

  function Result(e: End): int { match e case Halt(ret) => ret case Abort => 0 case Bare(ret) => ret }

  /** What a script does to the table, whatever machines it runs on. */
  function OpsTab(tab: Tab, ops: seq<Op>): Tab
    decreases ops, 0
  {
    if ops == [] then tab
    else
      match ops[0]
      case Array(e) =>
        OpsTab(if tab.count >= FORWARD_MAX_PARAMS then tab.(count := 0)
               else Tab(tab.table[tab.count := e], tab.count + 1), ops[1..])
      case Native(fwd) =>
        assert ops[0].fwd < ops[0] && ops[0] in ops;
        OpsTab(ForwardTab(tab, fwd), ops[1..])
      case _ => OpsTab(tab, ops[1..])
  }

  function ForwardTab(tab: Tab, fwd: Forward): Tab
    decreases fwd, 5
  {
    TargetsTab(tab, fwd.et, fwd.targets, 0).(count := 0)
  }

  function TurnTab(tab: Tab, t: Target): Tab
    decreases t, 3
  {
    OpsTab(tab, t.callee.ops)
  }

  function TargetsTab(tab: Tab, et: ExecType, targets: seq<Target>, glob: int): Tab
    decreases targets, 4
  {
    if targets == [] then tab
    else if !targets[0].executable then TargetsTab(tab, et, targets[1..], glob)
    else
      var next := TurnTab(tab, targets[0]);
      var (stop, value) := Decide(et, glob, Result(targets[0].callee.end));
      if stop then next else TargetsTab(next, et, targets[1..], value)
  }

  /** The scripts leave every array in use as it was passed. */
  predicate Untouched(tab: Tab, et: ExecType, args: seq<Arg>, targets: seq<Target>, glob: int)
    requires Known(args)
    decreases |targets|
  {
    if targets == [] then true
    else if !targets[0].executable then Untouched(tab, et, args, targets[1..], glob)
    else
      var next := TurnTab(tab, targets[0]);
      var (stop, value) := Decide(et, glob, Result(targets[0].callee.end));
      Look(next.table, args) == Look(tab.table, args) && (stop || Untouched(next, et, args, targets[1..], value))
  }

  lemma {:induction false} OpsTabs(w: World, k: nat, regs: Regs, ops: seq<Op>)
    requires k < |w.amxs| && RoomyOps(w, k, regs, ops)
    ensures RunOps(w, k, regs, ops).Some? && TabOf(RunOps(w, k, regs, ops).value) == OpsTab(TabOf(w), ops)
    decreases ops, 0
  {
    hide Execute, Roomy;
    if ops != [] {
      match ops[0] {
        case Poke(at, v) =>
          OpsTabs(w.(amxs := w.amxs[k := w.amxs[k].(data := w.amxs[k].data[at := v])]), k, regs, ops[1..]);
        case Move(regs') => OpsTabs(w, k, regs', ops[1..]);
        case Touch(buf, b) => OpsTabs(w.(host := w.host[buf := b]), k, regs, ops[1..]);
        case Array(e) => OpsTabs(PrepareArray(w, e).0, k, regs, ops[1..]);
        case Native(fwd) =>
          assert ops[0].fwd < ops[0] && ops[0] in ops;
          ExecuteTab(w, k, regs, fwd);
          OpsTabs(Execute(SetRegs(w, k, regs), fwd).value.0, k, regs, ops[1..]);
      }
    }
  }

  lemma {:induction false} ExecuteTab(w: World, k: nat, regs: Regs, fwd: Forward)
    requires k < |w.amxs| && Roomy(SetRegs(w, k, regs), fwd) && Execute(SetRegs(w, k, regs), fwd).Some?
    ensures TabOf(Execute(SetRegs(w, k, regs), fwd).value.0) == ForwardTab(TabOf(w), fwd)
    decreases fwd, 5
  {
    hide RunTargets, RoomyTargets, TargetsTab;
    TargetsTabs(SetRegs(w, k, regs), fwd.et, fwd.args, fwd.targets, 0);
  }

  /** A turn with room runs its script to its result. */
  lemma {:induction false} TargetTab(w: World, t: Target, args: seq<Arg>)
    requires RoomyTarget(w, t, args) && CallTarget(w, t, args).Some?
    ensures var (w', ret) := CallTarget(w, t, args).value;
      TabOf(w') == TurnTab(TabOf(w), t) && ret == Result(t.callee.end)
    decreases t, 3
  {
    hide RunOps, RoomyOps, CleanUp, Prepare, PushAll, Blocks, Total, AllFit, Look, OpsTab;
    var k, params := t.amx, Look(w.table, args);
    Reaches(w.amxs[k], w.host, params);
    var e := AtEntry(w.amxs[k], w.host, params);
    var p := PushAll(Prepare(w.amxs[k], w.host, params).value.0, params, Prepare(w.amxs[k], w.host, params).value.1);
    var we, wp := w.(amxs := w.amxs[k := e]), w.(amxs := w.amxs[k := p]);
    assert wp.amxs[k := Entered(p)] == we.amxs;
    var regs := Regs(e.regs.hea, e.regs.stk - 2);
    OpsTabs(we, k, regs, t.callee.ops);
    var wr := RunOps(we, k, regs, t.callee.ops).value;
    assert Exec(wp, k, t.callee) ==
      Some((SetRegs(wr, k, Regs(p.regs.hea, p.regs.stk + p.paramcount)), Result(t.callee.end)));
  }

  lemma {:induction false} TargetsTabs(w: World, et: ExecType, args: seq<Arg>, targets: seq<Target>, glob: int)
    requires RoomyTargets(w, et, args, targets, glob) && RunTargets(w, et, args, targets, glob).Some?
    ensures TabOf(RunTargets(w, et, args, targets, glob).value.0) == TargetsTab(TabOf(w), et, targets, glob)
    decreases targets, 4
  {
    hide CallTarget, RoomyTarget, Decide, TurnTab;
    if targets != [] {
      if !targets[0].executable {
        TargetsTabs(w, et, args, targets[1..], glob);
      } else {
        TargetTab(w, targets[0], args);
        var r := CallTarget(w, targets[0], args).value;
        var (stop, value) := Decide(et, glob, r.1);
        if !stop { TargetsTabs(r.0, et, args, targets[1..], value); }
      }
    }
  }

  /** With room, whether the arrays in use stay as they were passed depends on the scripts alone: on which entries the
      functions and what they execute prepare again. */
  lemma {:induction false} SteadyExactly(w: World, et: ExecType, args: seq<Arg>, targets: seq<Target>, glob: int)
    requires Known(args) && RoomyTargets(w, et, args, targets, glob) && RunTargets(w, et, args, targets, glob).Some?
    ensures Steady(w, et, args, targets, glob) <==> Untouched(TabOf(w), et, args, targets, glob)
    decreases |targets|
  {
    hide CallTarget, RoomyTarget, Decide, TurnTab, Look;
    if targets != [] {
      if !targets[0].executable {
        SteadyExactly(w, et, args, targets[1..], glob);
      } else {
        TargetTab(w, targets[0], args);
        var r := CallTarget(w, targets[0], args).value;
        var (stop, value) := Decide(et, glob, r.1);
        if !stop { SteadyExactly(r.0, et, args, targets[1..], value); }
      }
    }
  }

  /** The number of cells of an array parameter, and a cell of it as it is copied in. */
  function Count(p: Param): nat { if p.Ref? && (p.kind.Cells? || p.kind.Chars?) then p.kind.n else 0 }

  function CellIn(p: Param, c: int): int { if p.Ref? && p.kind.Chars? then c % 256 else c }

  /** How much of the object `before` is copied back to through the entry as it is after the call. */
  function Covered(before: Param, after: Param): nat
    requires before.Ref? && after.Ref?
  {
    if after.buf == before.buf && ComesBack(after.kind) then Count(after) else 0
  }

  /** Whatever was prepared meanwhile: the object passed holds what the function left in its block if and only if the
      part of it that the entry no longer covers held that already. */
  lemma HandedBackExactly(w: World, t: Target, args: seq<Arg>, j: nat)
    requires CallTarget(w, t, args).Some? && j < |args| && args[j].Prepared?
    requires var before := Look(w.table, args)[j]; var (wx, ret, ats) := Called(w, t, args).value;
      var after := Look(wx.table, args);
      && 0 <= ats[j] && ats[j] + Count(before) <= |wx.amxs[t.amx].data|
      && before.buf < |w.host| && Count(before) <= |wx.host[before.buf]|
      && (after[j].buf == before.buf ==> after[j].kind.Chars? == before.kind.Chars?)
      && forall i :: 0 <= i < |args| && i != j && after[i].Ref? ==> after[i].buf != before.buf
    ensures var before := Look(w.table, args)[j]; var (wx, ret, ats) := Called(w, t, args).value;
      var data, held := wx.amxs[t.amx].data, wx.host[before.buf];
      var w' := CallTarget(w, t, args).value.0;
      CopyIn(before.kind, Object(w'.host, before.buf)) == Left(before.kind, data, ats[j]) <==>
      forall q :: Covered(before, Look(wx.table, args)[j]) <= q < Count(before) ==>
        CellIn(before, held[q]) == CellIn(before, data[ats[j] + q])
  {
    hide Called, CleanUp, Exec, Prepare, GetString;
    var k, before := t.amx, Look(w.table, args)[j];
    var (wx, ret, ats) := Called(w, t, args).value;
    var outs, held, data := Look(wx.table, args), wx.host[before.buf], wx.amxs[k].data;
    var final := Object(CallTarget(w, t, args).value.0.host, before.buf);
    if outs[j].buf == before.buf {
      CleanGives(wx, k, outs, ats, j);
      assert CopyOut(outs[j].kind, held, data, ats[j]) == Some(final);
    } else {
      CleanLeaves(wx, k, outs, ats, before.buf);
      assert final == held;
    }
    BackExactly(before, outs[j], held, final, data, ats[j]);
  }

  lemma BackExactly(before: Param, after: Param, held: seq<int>, final: seq<int>, data: seq<int>, at: int)
    requires before.Ref? && (before.kind.Cells? || before.kind.Chars?) && 0 <= at && at + Count(before) <= |data|
    requires after.Ref? && (after.kind.Cells? || after.kind.Chars?) && Count(before) <= |held|
    requires after.buf == before.buf ==> after.kind.Chars? == before.kind.Chars?
    requires if after.buf == before.buf then CopyOut(after.kind, held, data, at) == Some(final) else final == held
    ensures CopyIn(before.kind, final) == Left(before.kind, data, at) <==>
      forall q :: Covered(before, after) <= q < Count(before) ==>
        CellIn(before, held[q]) == CellIn(before, data[at + q])
  {
    hide GetString;
    var n, c := Count(before), Covered(before, after);
    assert |final| == |held|;
    forall q | 0 <= q < n
      ensures CellIn(before, final[q]) == CellIn(before, if q < c then data[at + q] else held[q])
    {
    }
    var x, y := CopyIn(before.kind, final).value, Left(before.kind, data, at).value;
    assert |x| == n == |y|;
    assert forall q :: 0 <= q < n ==> x[q] == CellIn(before, final[q]) && y[q] == CellIn(before, data[at + q]);
    if x == y {
      forall q | c <= q < n ensures CellIn(before, held[q]) == CellIn(before, data[at + q]) {
        assert x[q] == y[q];
      }
    }
  }

  const EMPTY := Forward(Ignore, [], [])
  const FIRST := [Prepared(0)]

  /** A function that writes v to the block at `hea`, executes a forward nobody listens to, which starts preparing anew,
      and perhaps prepares an array. */
  function Writer(k: nat, hea: int, v: int, again: Option<Entry>): Target {
    Target(k, true, Callee([Poke(hea, v), Native(EMPTY)] + (if again.Some? then [Array(again.value)] else []), Halt(0)))
  }

  /** One array of one cell is passed, prepared as the first. */
  ghost predicate PassesCell(w: World, k: nat) {
    && k < |w.amxs| && w.table[0] == Entry(false, 1, true, 0) && w.host != [] && w.host[0] != []
    && Room(w.amxs[k], Look(w.table, FIRST), w.host)
  }

  /** What one can copy a cell back to. */
  predicate TakesCell(w: World, e: Entry) { !e.chars && e.n == 1 && e.buf < |w.host| && w.host[e.buf] != [] }

  function WrittenBack(w: World, e: Entry, v: int): seq<seq<int>> {
    if e.copyBack && TakesCell(w, e) then w.host[e.buf := [v] + w.host[e.buf][1..]] else w.host
  }

  lemma CellBlock(w: World, k: nat)
    requires PassesCell(w, k)
    ensures var a, params := w.amxs[k], Look(w.table, FIRST);
      && Prepare(a, w.host, params).Some? && Prepare(a, w.host, params).value.1 == [a.regs.hea]
      && Total(params, w.host) == 1 && 0 <= a.regs.hea < |a.data|
  {
    var a, params := w.amxs[k], Look(w.table, FIRST);
    PrepareFits(a, w.host, params);
  }

  lemma WriterRuns(w: World, k: nat, regs: Regs, v: int, again: Option<Entry>, at: nat)
    requires k < |w.amxs| && at < |w.amxs[k].data|
    ensures var ops := Writer(k, at, v, again).callee.ops;
      var a := w.amxs[k].(data := w.amxs[k].data[at := v], regs := regs);
      && RoomyOps(w, k, regs, ops) && RunOps(w, k, regs, ops).Some?
      && RunOps(w, k, regs, ops).value == w.(amxs := w.amxs[k := a], count := if again.Some? then 1 else 0,
           table := if again.Some? then w.table[0 := again.value] else w.table)
  {
    var w1 := w.(amxs := w.amxs[k := w.amxs[k].(data := w.amxs[k].data[at := v])]);
    var w2 := SetRegs(w1, k, regs).(count := 0);
    var more := if again.Some? then [Array(again.value)] else [];
    assert Execute(SetRegs(w1, k, regs), EMPTY) == Some((w2, 0)) && Roomy(SetRegs(w1, k, regs), EMPTY);
    WriterPrepares(w2, k, regs, again);
    var two := [Native(EMPTY)] + more;
    assert two[0] == Native(EMPTY) && two[1..] == more;
    assert RunOps(w1, k, regs, two) == RunOps(w2, k, regs, more) && RoomyOps(w1, k, regs, two);
    var ops := [Poke(at, v)] + two;
    assert ops == Writer(k, at, v, again).callee.ops && ops[0] == Poke(at, v) && ops[1..] == two;
  }

  lemma WriterPrepares(w: World, k: nat, regs: Regs, again: Option<Entry>)
    requires k < |w.amxs| && w.count == 0
    ensures var more := if again.Some? then [Array(again.value)] else [];
      && RoomyOps(w, k, regs, more)
      && RunOps(w, k, regs, more) == Some(if again.Some? then w.(table := w.table[0 := again.value], count := 1) else w)
  {
    if again.Some? { assert [Array(again.value)][1..] == []; }
  }

  /** The world when such a function has returned. */
  lemma WriterCalled(w: World, k: nat, v: int, again: Option<Entry>)
    requires PassesCell(w, k)
    ensures var at, t := w.amxs[k].regs.hea, Writer(k, w.amxs[k].regs.hea, v, again);
      && RoomyTarget(w, t, FIRST) && Called(w, t, FIRST).Some?
      && var (wx, ret, ats) := Called(w, t, FIRST).value;
         && ret == 0 && ats == [at] && wx.host == w.host && wx.amxs == w.amxs[k := wx.amxs[k]]
         && wx.table == (if again.Some? then w.table[0 := again.value] else w.table)
         && |wx.amxs[k].data| == |w.amxs[k].data| && wx.amxs[k].data[at] == v
  {
    hide RunOps, RoomyOps, Prepare, PushAll, Room, Total, Writer, Look, CleanUp, Exec, BadRegs;
    var a, params := w.amxs[k], Look(w.table, FIRST);
    var at := a.regs.hea;
    var t := Writer(k, at, v, again);
    WriterShape(k, at, v, again);
    CellBlock(w, k);
    Reaches(a, w.host, params);
    var p := PushAll(Prepare(a, w.host, params).value.0, params, [at]);
    var e := AtEntry(a, w.host, params);
    var we, wp := w.(amxs := w.amxs[k := e]), w.(amxs := w.amxs[k := p]);
    var regs := Regs(e.regs.hea, e.regs.stk - 2);
    WriterRuns(we, k, regs, v, again, at);
    var wr := RunOps(we, k, regs, t.callee.ops).value;
    ExecRuns(wp, k, t.callee);
    assert wp.(amxs := wp.amxs[k := Entered(p)]) == we;
    assert Called(w, t, FIRST).value.0 == SetRegs(wr, k, Regs(p.regs.hea, p.regs.stk + p.paramcount));
  }

  /** With the margin free the function runs, and HALT restores. */
  lemma ExecRuns(w: World, k: nat, callee: Callee)
    requires k < |w.amxs| && !BadRegs(w.amxs[k]) && w.amxs[k].regs.hea + STKMARGIN <= w.amxs[k].regs.stk - 2
    requires 2 <= w.amxs[k].regs.stk && callee.end.Halt?
    ensures var a := w.amxs[k];
      var r := RunOps(w.(amxs := w.amxs[k := Entered(a)]), k, Regs(a.regs.hea, a.regs.stk - 2), callee.ops);
      Exec(w, k, callee) == if r.None? then None
        else Some((SetRegs(r.value, k, Regs(a.regs.hea, a.regs.stk + a.paramcount)), callee.end.ret))
  {
    hide RunOps;
  }

  /** The turn of such a function: the cell goes where the entry says after the call. */
  lemma WriterTurn(w: World, k: nat, v: int, again: Option<Entry>)
    requires PassesCell(w, k)
    requires again.Some? ==> again.value.copyBack ==> TakesCell(w, again.value)
    ensures var t, e := Writer(k, w.amxs[k].regs.hea, v, again), if again.Some? then again.value else w.table[0];
      && RoomyTarget(w, t, FIRST) && CallTarget(w, t, FIRST).Some?
      && var (w', ret) := CallTarget(w, t, FIRST).value;
         && w'.table == w.table[0 := e] && w'.host == WrittenBack(w, e, v)
         && w'.amxs == w.amxs[k := w'.amxs[k]] && |w'.amxs[k].data| == |w.amxs[k].data|
         && w'.amxs[k].data[w.amxs[k].regs.hea] == v
  {
    hide Called, RoomyTarget, CleanUp, Room, Writer, Look;
    CellBlock(w, k);
    WriterCalled(w, k, v, again);
    WriterShape(k, w.amxs[k].regs.hea, v, again);
    var t, entry := Writer(k, w.amxs[k].regs.hea, v, again), if again.Some? then again.value else w.table[0];
    var (wx, ret, ats) := Called(w, t, FIRST).value;
    assert wx.table == w.table[0 := entry];
    CellBack(wx, k, ats[0], v, entry);
  }

  lemma WriterShape(k: nat, at: int, v: int, again: Option<Entry>)
    ensures var t := Writer(k, at, v, again); t.amx == k && t.executable && t.callee.end == Halt(0)
  {
  }

  lemma CellBack(w: World, k: nat, at: nat, v: int, e: Entry)
    requires k < |w.amxs| && w.table[0] == e && at < |w.amxs[k].data| && w.amxs[k].data[at] == v
    requires e.copyBack ==> TakesCell(w, e)
    ensures CleanUp(w, k, Look(w.table, FIRST), [at]).Some?
    ensures var r := CleanUp(w, k, Look(w.table, FIRST), [at]).value;
      r.host == WrittenBack(w, e, v) && r.amxs == w.amxs[k := r.amxs[k]] && r.amxs[k].data == w.amxs[k].data
  {
    var params := Look(w.table, FIRST);
    assert params == [EntryParam(e)] && params[1..] == [];
    if e.copyBack { assert w.amxs[k].data[at..at + 1] == [v]; }
  }

  /** An array prepared inside the call takes the place of the one passed: the object passed keeps what it held, the
      other one is written, and the next plugin is given the other one. */
  lemma PreparedAgainFails(w: World, k: nat, v: int)
    requires PassesCell(w, k) && |w.host| >= 2 && w.host[1] != [] && w.host[0][0] != v
    ensures var t := Writer(k, w.amxs[k].regs.hea, v, Some(Entry(false, 1, true, 1)));
      && RoomyTarget(w, t, FIRST) && CallTarget(w, t, FIRST).Some?
      && var w' := CallTarget(w, t, FIRST).value.0;
         && Left(Cells(1, true), w'.amxs[k].data, w.amxs[k].regs.hea) == Some([v])
         && w'.host == w.host[1 := [v] + w.host[1][1..]] && w'.host[0][0] != v
         && Look(w'.table, FIRST) == [Ref(Cells(1, true), 1)]
  {
    hide CallTarget, RoomyTarget, Writer, Room;
    CellBlock(w, k);
    WriterTurn(w, k, v, Some(Entry(false, 1, true, 1)));
    var t := Writer(k, w.amxs[k].regs.hea, v, Some(Entry(false, 1, true, 1)));
    var at, data := w.amxs[k].regs.hea, CallTarget(w, t, FIRST).value.0.amxs[k].data;
    assert data[at..at + 1] == [v];
  }

  /** So nothing is handed on, though there is room. */
  lemma HandedOnFails(w: World, k: nat, v: int)
    requires PassesCell(w, k) && |w.host| >= 2 && w.host[1] != [] && w.host[0][0] != v
    ensures var ts, p := [Writer(k, w.amxs[k].regs.hea, v, Some(Entry(false, 1, true, 1)))], Ref(Cells(1, true), 0);
      && RunTargets(w, Continue, FIRST, ts, 0).Some? && RoomEach(w, Continue, FIRST, ts, 0)
      && Look(w.table, FIRST) == [p] && Alone(Look(w.table, FIRST), 0)
      && !Steady(w, Continue, FIRST, ts, 0)
      && !EachFinds(w, Continue, FIRST, ts, 0, 0, p, CopyIn(p.kind, Object(w.host, p.buf)))
  {
    hide CallTarget, RoomyTarget, Writer, Room;
    var at, ts := w.amxs[k].regs.hea, [Writer(k, w.amxs[k].regs.hea, v, Some(Entry(false, 1, true, 1)))];
    WriterShape(k, at, v, Some(Entry(false, 1, true, 1)));
    PreparedAgainFails(w, k, v);
    CellBlock(w, k);
    var (w', ret) := CallTarget(w, ts[0], FIRST).value;
    var value := Decide(Continue, 0, ret).1;
    assert ts[1..] == [] && RunTargets(w', Continue, FIRST, [], value) == Some((w', value));
    assert RoomEach(w', Continue, FIRST, [], value);
    assert w'.host[0][..1] == [w'.host[0][0]];
    assert CopyIn(Cells(1, true), Object(w'.host, 0)) != Some([v]);
  }

  /** Room for what is passed is not enough: when the first plugin prepares a large array inside the call, the second
      one's allotment goes by the large size, and what happens is undefined. */
  lemma PreparedLargeFails(w: World, k: nat, m: nat, v: int, n: nat)
    requires PassesCell(w, k) && PassesCell(w, m) && k != m && |w.host| >= 2 && |w.host[1]| >= n > |w.amxs[m].data|
    ensures var at, last := w.amxs[k].regs.hea, Writer(m, w.amxs[m].regs.hea, v, None);
      && Roomy(w, Forward(Continue, FIRST, [Writer(k, at, v, None), last]))
      && Execute(w, Forward(Continue, FIRST, [Writer(k, at, v, Some(Entry(false, n, false, 1))), last])) == None
  {
    hide CallTarget, RoomyTarget, Writer, Room;
    var again, at, last := Entry(false, n, false, 1), w.amxs[k].regs.hea, Writer(m, w.amxs[m].regs.hea, v, None);
    var good, bad := Writer(k, at, v, None), Writer(k, at, v, Some(again));
    WriterShape(k, at, v, None);
    WriterShape(k, at, v, Some(again));
    WriterShape(m, w.amxs[m].regs.hea, v, None);
    WriterTurn(w, k, v, None);
    var (w1, r1) := CallTarget(w, good, FIRST).value;
    StillRoom(w, w1, m);
    WriterTurn(w1, m, v, None);
    var glob1 := Decide(Continue, 0, r1).1;
    assert [good, last][1..] == [last] && [last][1..] == [];
    var w2 := CallTarget(w1, last, FIRST).value.0;
    assert RoomyTargets(w2, Continue, FIRST, [], Decide(Continue, glob1, CallTarget(w1, last, FIRST).value.1).1);
    assert RoomyTargets(w1, Continue, FIRST, [last], glob1);
    WriterTurn(w, k, v, Some(again));
    var (w3, r3) := CallTarget(w, bad, FIRST).value;
    TooLarge(w3, last, n);
    assert [bad, last][1..] == [last];
    assert RunTargets(w3, Continue, FIRST, [last], Decide(Continue, 0, r3).1) == None;
  }

  lemma StillRoom(w: World, w': World, m: nat)
    requires PassesCell(w, m) && m < |w'.amxs| && w'.amxs[m] == w.amxs[m] && w'.table[0] == w.table[0]
    requires w'.host != [] && w'.host[0] != []
    ensures PassesCell(w', m)
  {
    assert Look(w'.table, FIRST) == Look(w.table, FIRST) == [Ref(Cells(1, true), 0)];
    assert AllFit(Look(w.table, FIRST), w.host) && Fits(Ref(Cells(1, true), 0), w'.host);
    assert Total([Ref(Cells(1, true), 0)], w.host) == Total([Ref(Cells(1, true), 0)], w'.host);
  }

  lemma TooLarge(w: World, t: Target, n: nat)
    requires t.amx < |w.amxs| && w.table[0] == Entry(false, n, false, 1) && n > |w.amxs[t.amx].data|
    ensures CallTarget(w, t, FIRST) == None
  {
    hide Exec, CleanUp, Accepts;
    assert Look(w.table, FIRST) == [Ref(Cells(n, false), 1)];
  }

  // ---------------------------------------------------------------- the result of a forward

  /** The results of the calls made. */
  function Returned(w: World, et: ExecType, args: seq<Arg>, targets: seq<Target>, glob: int): seq<int>
    requires RunTargets(w, et, args, targets, glob).Some?
    decreases |targets|
  {
    if targets == [] then []
    else if !targets[0].executable then Returned(w, et, args, targets[1..], glob)
    else
      var r := CallTarget(w, targets[0], args).value;
      var (stop, value) := Decide(et, glob, r.1);
      [r.1] + if stop then [] else Returned(r.0, et, args, targets[1..], value)
  }

  function Max(glob: int, rs: seq<int>): int
    decreases |rs|
  {
    if rs == [] then glob else Max(if rs[0] > glob then rs[0] else glob, rs[1..])
  }

  /** A stopping result is the last. */
  predicate OnlyLast(rs: seq<int>, stops: int -> bool) { forall i :: 0 <= i < |rs| - 1 ==> !stops(rs[i]) }

  /** Ignored results give zero; Stop gives the first positive result and calls nobody after it; Stop2 gives 1 and
      calls nobody after it, or else the greatest result; Continue always gives the greatest.  None is below zero. */
  lemma {:induction false} ForwardResult(w: World, et: ExecType, args: seq<Arg>, targets: seq<Target>, glob: int)
    requires RunTargets(w, et, args, targets, glob).Some? && glob >= 0
    ensures var rs := Returned(w, et, args, targets, glob); var r := RunTargets(w, et, args, targets, glob).value.1;
      match et
      case Ignore => r == glob
      case Continue => r == Max(glob, rs)
      case Stop => OnlyLast(rs, x => x > 0) && r == if rs != [] && rs[|rs| - 1] > 0 then rs[|rs| - 1] else glob
      case Stop2 => OnlyLast(rs, x => x == 1) && r == if rs != [] && rs[|rs| - 1] == 1 then 1 else Max(glob, rs)
      case Single => |rs| <= 1 && r == if rs == [] then glob else rs[0]
    decreases |targets|
  {
    hide CallTarget;
    if targets != [] {
      if !targets[0].executable {
        ForwardResult(w, et, args, targets[1..], glob);
      } else {
        var r := CallTarget(w, targets[0], args).value;
        var (stop, value) := Decide(et, glob, r.1);
        if !stop {
          ForwardResult(r.0, et, args, targets[1..], value);
          var rest := Returned(r.0, et, args, targets[1..], value);
          assert ([r.1] + rest)[1..] == rest;
        }
      }
    }
  }

  // ---------------------------------------------------------------- the machines as objects

  class Runtime {
    var amxs: seq<Amx>
    var host: seq<seq<int>>
    var tmpArrays: Table
    var tmpArraysNum: nat

    function Value(): World
      reads this
    {
      World(amxs, host, tmpArrays, tmpArraysNum)
    }

    /** The next entry of the table, which then holds this array and no other entry changes; without a free one
        preparing starts again and nothing is prepared. */
    method PrepareTmpArray(e: Entry) returns (index: int)
      modifies `tmpArrays, `tmpArraysNum
      ensures PrepareArray(old(Value()), e) == (Value(), index)
    {
      if tmpArraysNum >= FORWARD_MAX_PARAMS {
        tmpArraysNum := 0;
        return -1;
      }
      tmpArrays := tmpArrays[tmpArraysNum := e];
      index := tmpArraysNum;
      tmpArraysNum := tmpArraysNum + 1;
    }

    /** A request not larger than the gap is granted exactly when the margin stays free, and then lies at the old
        heap top. */
    method AmxAllot(k: nat, cells: nat) returns (ok: bool, at: int)
      requires k < |amxs|
      modifies this`amxs
      ensures var r := old(amxs[k]).regs;
        0 <= r.stk - r.hea < 0x1000_0000 && r.hea + cells <= r.stk ==> (ok <==> r.hea + cells + STKMARGIN <= r.stk)
      ensures |amxs| == |old(amxs)| && amxs[k].regs.hea == old(amxs[k]).regs.hea + if ok then cells else 0
      ensures ok == Accepts(old(amxs[k]), cells) && at == old(amxs[k]).regs.hea
      ensures amxs == if ok then old(amxs)[k := old(amxs[k]).(regs := Regs(at + cells, old(amxs[k]).regs.stk))]
        else old(amxs)
    {
      var a := amxs[k];
      at := a.regs.hea;
      if (4 * (a.regs.stk - a.regs.hea - cells)) % 0x1_0000_0000 < 4 * STKMARGIN { return false, at; }
      amxs := amxs[k := a.(regs := Regs(a.regs.hea + cells, a.regs.stk))];
      return true, at;
    }

    method AmxPush(k: nat, v: int)
      requires k < |amxs|
      modifies this`amxs
      ensures amxs == old(amxs)[k := Push(old(amxs[k]), v)]
    {
      var a := amxs[k];
      if a.regs.hea + STKMARGIN > a.regs.stk || !(0 < a.regs.stk <= |a.data|) { return; }
      var stk := a.regs.stk - 1;
      amxs := amxs[k := Amx(Regs(a.regs.hea, stk), a.paramcount + 1, a.data[stk := v], a.hlw)];
    }

    /** The heap top only falls, and nothing else changes. */
    method AmxRelease(k: nat, at: int)
      requires k < |amxs|
      modifies this`amxs
      ensures |amxs| == |old(amxs)| && amxs[k].regs.hea <= at && amxs[k].regs.hea <= old(amxs[k]).regs.hea
      ensures amxs[k].regs.hea in {at, old(amxs[k]).regs.hea}
      ensures amxs == old(amxs)[k := old(amxs[k]).(regs := Regs(amxs[k].regs.hea, old(amxs[k]).regs.stk))]
      ensures amxs == old(amxs)[k := Release(old(amxs[k]), at)]
    {
      if amxs[k].regs.hea > at { amxs := amxs[k := amxs[k].(regs := Regs(at, amxs[k].regs.stk))]; }
    }

    /** The loop that copies objects in. */
    method CopyParamsIn(k: nat, params: seq<Param>) returns (ats: seq<int>)
      requires k < |amxs| && Prepare(amxs[k], host, params).Some?
      modifies this`amxs
      ensures var r := Prepare(old(amxs[k]), host, params).value; amxs == old(amxs)[k := r.0] && ats == r.1
    {
      hide Prepare, CopyIn, Size, Object, Accepts, Stored;
      ghost var goal := Prepare(amxs[k], host, params).value;
      ats := [];
      var i := 0;
      assert params[0..] == params && ats + goal.1 == goal.1;
      while i < |params|
        invariant 0 <= i <= |params| && k < |amxs| && amxs == old(amxs)[k := amxs[k]]
        invariant Prepare(amxs[k], host, params[i..]).Some?
        invariant var r := Prepare(amxs[k], host, params[i..]).value; r.0 == goal.0 && ats + r.1 == goal.1
      {
        var p := params[i];
        assert params[i..][0] == p && params[i..][1..] == params[i + 1..];
        PrepareStep(amxs[k], host, params[i..]);
        ghost var left := Prepare(amxs[k], host, params[i..]).value.1;
        if p.Value? {
          assert ats + left == (ats + [0]) + left[1..];
          ats := ats + [0];
        } else {
          var b := Object(host, p.buf);
          var ok, at := AmxAllot(k, Size(p.kind, b));
          var cells := CopyIn(p.kind, b).value;
          var a := amxs[k];
          amxs := amxs[k := a.(data := a.data[..at] + cells + a.data[at + |cells|..])];
          assert ats + left == (ats + [at]) + left[1..];
          ats := ats + [at];
        }
        i := i + 1;
      }
      PrepareNone(amxs[k], host);
      assert params[i..] == [] && ats + [] == ats;
    }

    /** The loop that pushes, backwards. */
    method PushParams(k: nat, params: seq<Param>, ats: seq<int>)
      requires k < |amxs| && |ats| == |params|
      modifies this`amxs
      ensures amxs == old(amxs)[k := PushAll(old(amxs[k]), params, ats)]
    {
      var i := |params|;
      assert params[i..] == [] && ats[i..] == [];
      while i > 0
        invariant 0 <= i <= |params| && k < |amxs|
        invariant amxs == old(amxs)[k := PushAll(old(amxs[k]), params[i..], ats[i..])]
      {
        i := i - 1;
        assert params[i..][1..] == params[i + 1..] && ats[i..][1..] == ats[i + 1..];
        AmxPush(k, Real(params[i], ats[i]));
      }
      assert params[0..] == params && ats[0..] == ats;
    }

    /** The loop that copies back and releases. */
    method CopyParamsOut(k: nat, params: seq<Param>, ats: seq<int>)
      requires k < |amxs| && |ats| == |params| && CleanUp(Value(), k, params, ats).Some?
      modifies this
      ensures Value() == CleanUp(old(Value()), k, params, ats).value
    {
      hide CopyOut, Object;
      var i := 0;
      assert params[0..] == params && ats[0..] == ats;
      while i < |params|
        invariant 0 <= i <= |params| && k < |amxs|
        invariant CleanUp(Value(), k, params[i..], ats[i..]) == CleanUp(old(Value()), k, params, ats)
      {
        assert params[i..][0] == params[i] && params[i..][1..] == params[i + 1..] && ats[i..][1..] == ats[i + 1..];
        if params[i].Ref? {
          var buf := params[i].buf;
          var out := CopyOut(params[i].kind, Object(host, buf), amxs[k].data, ats[i]).value;
          if buf < |host| { host := host[buf := out]; }
          AmxRelease(k, ats[i]);
        }
        i := i + 1;
      }
    }

    method RunFunction(k: nat, regs: Regs, ops: seq<Op>)
      requires k < |amxs| && RunOps(Value(), k, regs, ops).Some?
      modifies this
      ensures Value() == RunOps(old(Value()), k, regs, ops).value
      decreases ops, 0
    {
      if ops != [] {
        match ops[0] {
          case Poke(at, v) =>
            amxs := amxs[k := amxs[k].(data := amxs[k].data[at := v])];
            RunFunction(k, regs, ops[1..]);
          case Move(regs') => RunFunction(k, regs', ops[1..]);
          case Touch(buf, b) =>
            host := host[buf := b];
            RunFunction(k, regs, ops[1..]);
          case Array(e) =>
            var _ := PrepareTmpArray(e);
            RunFunction(k, regs, ops[1..]);
          case Native(fwd) =>
            assert ops[0].fwd < ops[0] && ops[0] in ops;
            amxs := amxs[k := amxs[k].(regs := regs)];
            var _ := ExecuteForward(fwd);
            RunFunction(k, regs, ops[1..]);
        }
      }
    }

    method AmxExec(k: nat, callee: Callee) returns (ret: int)
      requires k < |amxs| && Exec(Value(), k, callee).Some?
      modifies this
      ensures Exec(old(Value()), k, callee) == Some((Value(), ret))
      decreases callee, 1
    {
      var a := amxs[k];
      if a.regs.stk >= |a.data| || a.regs.hea < a.hlw { return 0; }
      var resetStk := a.regs.stk + a.paramcount;
      var stk := a.regs.stk - 1;
      var data := a.data[stk := 4 * a.paramcount];
      stk := stk - 1;
      data := data[stk := 0];
      amxs := amxs[k := Amx(a.regs, 0, data, a.hlw)];
      assert amxs[k] == Entered(a);
      if a.regs.hea + STKMARGIN > stk { return 0; }
      RunFunction(k, Regs(a.regs.hea, stk), callee.ops);
      if callee.end.Bare? { return callee.end.ret; }
      amxs := amxs[k := amxs[k].(regs := Regs(a.regs.hea, resetStk))];
      ret := if callee.end.Halt? then callee.end.ret else 0;
    }

    method Dispatch(t: Target, args: seq<Arg>) returns (ret: int)
      requires CallTarget(Value(), t, args).Some?
      modifies this
      ensures CallTarget(old(Value()), t, args) == Some((Value(), ret))
      decreases t, 3
    {
      hide Prepare, PushAll, Exec, CleanUp, Look;
      ghost var w := Value();
      var params := Look(tmpArrays, args);
      var ats := CopyParamsIn(t.amx, params);
      PushParams(t.amx, params, ats);
      ghost var a := PushAll(Prepare(w.amxs[t.amx], w.host, params).value.0, params, ats);
      assert amxs == w.amxs[t.amx := a] && Value() == w.(amxs := w.amxs[t.amx := a]);
      ret := AmxExec(t.amx, t.callee);
      CopyParamsOut(t.amx, Look(tmpArrays, args), ats);
    }

    /** The loop over the plugins. */
    method RunPlugins(et: ExecType, args: seq<Arg>, targets: seq<Target>, start: int) returns (ret: int)
      requires RunTargets(Value(), et, args, targets, start).Some?
      modifies this
      ensures RunTargets(old(Value()), et, args, targets, start) == Some((Value(), ret))
      decreases targets, 4
    {
      hide CallTarget;
      ret := start;
      if targets != [] {
        if !targets[0].executable {
          ret := RunPlugins(et, args, targets[1..], start);
        } else {
          var r := Dispatch(targets[0], args);
          match et {
            case Ignore =>
            case Stop =>
              if r > 0 { return r; }
              if r == 1 { return 1; } else if r > ret { ret := r; }
            case Stop2 => if r == 1 { return 1; } else if r > ret { ret := r; }
            case Continue => if r > ret { ret := r; }
            case Single => return r;
          }
          ret := RunPlugins(et, args, targets[1..], ret);
        }
      }
    }

    method ExecuteForward(fwd: Forward) returns (ret: int)
      requires Execute(Value(), fwd).Some?
      modifies this
      ensures Execute(old(Value()), fwd) == Some((Value(), ret))
      decreases fwd, 5
    {
      ret := RunPlugins(fwd.et, fwd.args, fwd.targets, 0);
      tmpArraysNum := 0;
    }
  }
}
