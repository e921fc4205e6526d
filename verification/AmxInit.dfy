/** Initialisation as a whole: a compressed program is expanded in place and its code block relocated, so what the
    compiler wrote is what runs. */
module AmxInit {
  import Expand
  import opened Words
  import opened Amx
  import opened Loader
  import Machine

  /** The cell at a byte address. */
  function CellAt(mem: seq<Byte>, at: nat): Cell
    requires at + 4 <= |mem|
  {
    FromLE(mem[at..at + 4])
  }

  lemma CellBehind(mem: seq<Byte>, d: nat, at: nat)
    requires d + at + 4 <= |mem|
    ensures CellAt(mem[d..], at) == CellAt(mem, d + at)
  {
    assert mem[d..][at..at + 4] == mem[d + at..d + at + 4];
  }

  /** The image of some cells holds each of them at its address. */
  lemma {:induction false} ImageHolds(cells: seq<Cell>, k: nat)
    requires k < |cells|
    ensures CellAt(Expand.Image(cells), 4 * k) == cells[k]
    decreases k
  {
    hide LE;
    var mem := Expand.Image(cells);
    if k == 0 {
      LEBack(cells[0]);
      assert mem[0..0 + 4] == LE(cells[0]);
    } else {
      ImageHolds(cells[1..], k - 1);
      assert mem[4..] == Expand.Image(cells[1..]);
      CellBehind(mem, 4, 4 * (k - 1));
    }
  }

  lemma Assoc(x: seq<Byte>, y: seq<Byte>, z: seq<Byte>)
    ensures x + (y + z) == (x + y) + z
  {
  }

  lemma ImageCons(cells: seq<Cell>)
    requires cells != []
    ensures Expand.Image(cells) == LE(cells[0]) + Expand.Image(cells[1..])
  {
  }

  lemma {:induction false} ImageConcat(a: seq<Cell>, b: seq<Cell>)
    ensures Expand.Image(a + b) == Expand.Image(a) + Expand.Image(b)
    decreases a
  {
    if a == [] {
      assert a + b == b && Expand.Image(a) == [];
    } else {
      hide *;
      ImageConcat(a[1..], b);
      ImageCons(a);
      ImageCons(a + b);
      assert (a + b)[1..] == a[1..] + b;
      Assoc(LE(a[0]), Expand.Image(a[1..]), Expand.Image(b));
    }
  }

  lemma CellBefore(mem: seq<Byte>, n: nat, at: nat)
    requires at + 4 <= n <= |mem|
    ensures CellAt(mem[..n], at) == CellAt(mem, at)
  {
    assert mem[..n][at..at + 4] == mem[at..at + 4];
  }

  lemma CellInBlock(mem: seq<Byte>, cells: seq<Cell>, k: nat)
    requires k < |cells| && 4 * |cells| <= |mem| && mem[..4 * |cells|] == Expand.Image(cells)
    ensures CellAt(mem, 4 * k) == cells[k]
  {
    hide CellAt, Expand.Image;
    ImageHolds(cells, k);
    CellBefore(mem, 4 * |cells|, 4 * k);
  }

  /** The code block of expanded memory, as cells. */
  method CodeBlock(block: array<Byte>, n: nat, ghost cells: seq<Cell>) returns (code: array<Cell>)
    requires n <= |cells| && 4 * |cells| <= block.Length && block[..4 * |cells|] == Expand.Image(cells)
    ensures fresh(code) && code[..] == cells[..n]
  {
    hide Expand.Image, CellAt;
    code := new Cell[n];
    ghost var mem := block[..];
    assert mem[..4 * |cells|] == block[..4 * |cells|];
    var k := 0;
    while k < n
      invariant 0 <= k <= n && block[..] == mem
      invariant forall i :: 0 <= i < k ==> code[i] == cells[i]
    {
      CellInBlock(mem, cells, k);
      code[k] := CellAt(block[..], 4 * k);
      k := k + 1;
    }
  }

  /** Expansion, then relocation of the first n cells: the code is the relocated form of what the stream encodes,
      and the data behind it is what the stream encodes. */
  method Init(block: array<Byte>, size: nat, memory: nat, n: nat, t: Target) returns (err: Error, code: array<Cell>)
    requires size <= block.Length && 4 * n <= memory <= block.Length && GoodTarget(t)
    requires Expand.Expands(block[..size], memory) && Walkable(Expand.Decode(block[..size]).value[..n], 0)
    modifies block
    ensures var cells := Expand.Decode(old(block[..size])).value;
      && (err == Ok <==> Accepted(cells[..n], 0))
      && (err == Ok ==> Relocated(cells[..n], code[..], t) && LastRelocated(cells[..n], code[..], t))
      && block[4 * n..memory] == Expand.Image(cells[n..])
  {
    hide Expand.Decode, Expand.Image, Expand.Starts, Expand.RingSuffices, Relocated, LastRelocated, Accepted, Walkable;
    ghost var cells := Expand.Decode(block[..size]).value;
    ghost var rest := block[memory..];
    var ok := Expand.Expand(block, size, memory);
    assert block[..memory] == Expand.Image(cells);
    ImageConcat(cells[..n], cells[n..]);
    assert cells == cells[..n] + cells[n..];
    assert block[4 * n..memory] == block[..memory][4 * n..];
    code := CodeBlock(block, n, cells);
    err := BrowseRelocate(code, t);
  }

  /** From the compiler's cells to the loaded program: unless the compiler gives up on compression, what was written is
      accepted, and every run of the program as compiled is a run of the program as loaded. */
  method CompileAndLoad(program: seq<Cell>, n: nat, t: Target) returns (ok: bool, code: seq<Cell>)
    requires n <= |program| && GoodTarget(t) && Machine.GoodCode(program[..n])
    ensures ok <==> Expand.NeverLeads(program)
    ensures ok ==> forall env, o, steps: nat ::
      Machine.Bound(env, t.natives) && Machine.OnTrack(program[..n], t, env, o, steps) ==>
        Machine.Run(Machine.Loaded(code, t, env), Machine.Moved(o, t.base),
          Machine.Pace(program[..n], t, env, o, steps))
          == Machine.Moved(Machine.Run(Machine.Original(program[..n], env), o, steps), t.base)
  {
    hide Expand.Decode, Expand.Image, Expand.Starts, Expand.RingSuffices, Relocated, LastRelocated, Accepted, Walkable,
      Expand.NeverLeads;
    code := [];
    var out: seq<Byte>;
    ok, out := Expand.WriteCells(program);
    if !ok { return; }
    var memory := 4 * |program|;
    var block := new Byte[if |out| > memory then |out| else memory](i => if 0 <= i < |out| then out[i] else 0);
    assert block[..|out|] == out;
    WellFormedAccepted(program[..n], 0);
    var err, loaded := Init(block, |out|, memory, n, t);
    assert err == Ok;
    code := loaded[..];
    forall env, o, steps: nat | Machine.Bound(env, t.natives) && Machine.OnTrack(program[..n], t, env, o, steps)
      ensures Machine.Run(Machine.Loaded(code, t, env), Machine.Moved(o, t.base),
        Machine.Pace(program[..n], t, env, o, steps))
        == Machine.Moved(Machine.Run(Machine.Original(program[..n], env), o, steps), t.base)
    {
      Machine.RunMoved(program[..n], code, t, env, o, steps);
    }
  }
}
