/** Compact encoding: the compiler writes each 32-bit cell as one to five groups of seven bits, and the
    loader expands the stream in place, from the end backwards, parking early outputs in a ring buffer. */
module Expand {
  import opened Wrappers
  import opened Words

  const COMPACT_MARGIN := 64

  /** Bit 7: another group of the same cell follows. */
  predicate Continues(b: Byte) { b >= 0x80 }

  /** Bits 0 to 6: the payload of a group; bit 6 of the first group is the sign. */
  function Low7(b: Byte): nat { b % 0x80 }

  predicate Negative(b: Byte) { Low7(b) >= 0x40 }

  // ---------------------------------------------------------------- the simple, out-of-place decoder

  function Fold(acc: int, g: seq<Byte>): int
    decreases |g|
  {
    if g == [] then acc else Fold(acc * 0x80 + Low7(g[0]), g[1..])
  }

  /** A cell is its groups, most significant first, sign-extended from bit 6 of the first one. */
  function DecodeCell(g: seq<Byte>): Cell
    requires g != []
  {
    Wrap(Fold(if Negative(g[0]) then -1 else 0, g))
  }

  /** The number of bytes of the first cell of `s`; |s| + 1 when no byte of `s` ends a cell. */
  function FirstSize(s: seq<Byte>): (n: nat)
    ensures 1 <= n <= |s| + 1
  {
    if s == [] || !Continues(s[0]) then 1 else 1 + FirstSize(s[1..])
  }

  function Decode(s: seq<Byte>): Option<seq<Cell>> {
    if s == [] then Some([])
    else
      var n := FirstSize(s);
      if n > |s| || n > 5 then None
      else
        var rest := Decode(s[n..]);
        if rest.None? then None else Some([DecodeCell(s[..n])] + rest.value)
  }

  /** Where each cell of a stream starts, when the stream itself starts at `at`. */
  function Starts(s: seq<Byte>, at: nat): seq<nat> {
    var n := FirstSize(s);
    if n > |s| then [] else [at] + Starts(s[n..], at + n)
  }

  function Min(a: int, b: int): int { if a < b then a else b }

  /** Cell 0 of `starts` goes to address `base`, cell k to base + 4k.  When the reader stands at the start of
      a cell, the later outputs whose slots lie at or below that point must all fit in the ring. */
  predicate RingSuffices(starts: seq<nat>, base: int) {
    starts == []
    || (Min(|starts| - 1, (starts[0] - base) / 4) < COMPACT_MARGIN && RingSuffices(starts[1..], base + 4))
  }

  /** What the loader accepts: exactly the streams whose cells fill the memory block. */
  predicate Expands(s: seq<Byte>, memsize: int) {
    var d := Decode(s);
    d.Some? && memsize == 4 * |d.value| && RingSuffices(Starts(s, 0), 0)
  }

  function Image(cells: seq<Cell>): (r: seq<Byte>)
    ensures |r| == 4 * |cells|
  {
    if cells == [] then [] else LE(cells[0]) + Image(cells[1..])
  }

  lemma {:induction false} ImageAt(cells: seq<Cell>, mem: seq<Byte>)
    requires |mem| == 4 * |cells|
    requires forall j :: 0 <= j < |cells| ==> mem[4 * j..4 * j + 4] == LE(cells[j])
    ensures mem == Image(cells)
  {
    if cells != [] {
      assert mem[..4] == mem[4 * 0..4 * 0 + 4];
      forall j | 0 <= j < |cells[1..]| ensures mem[4..][4 * j..4 * j + 4] == LE(cells[1..][j]) {
        assert mem[4..][4 * j..4 * j + 4] == mem[4 * (j + 1)..4 * (j + 1) + 4];
      }
      ImageAt(cells[1..], mem[4..]);
      assert mem == mem[..4] + mem[4..];
    }
  }

  // ---------------------------------------------------------------- cell boundaries

  predicate Boundary(s: seq<Byte>, p: nat) { p <= |s| && (p == 0 || !Continues(s[p - 1])) }

  /** Decoding is compositional at a boundary. */
  lemma {:induction false} DecodeConcat(a: seq<Byte>, b: seq<Byte>)
    requires Boundary(a, |a|)
    ensures Decode(a + b) ==
            (if Decode(a).Some? && Decode(b).Some? then Some(Decode(a).value + Decode(b).value) else None)
    decreases |a|
  {
    if a == [] {
      assert a + b == b;
      if Decode(b).Some? { assert [] + Decode(b).value == Decode(b).value; }
    } else {
      FirstSizeConcat(a, b);
      var n := FirstSize(a);
      assert (a + b)[n..] == a[n..] + b;
      assert (a + b)[..n] == a[..n];
      DecodeConcat(a[n..], b);
      if n <= 5 && Decode(a[n..]).Some? && Decode(b).Some? {
        var c := [DecodeCell(a[..n])];
        assert c + (Decode(a[n..]).value + Decode(b).value) == c + Decode(a[n..]).value + Decode(b).value;
      }
    }
  }

  lemma {:induction false} StartsConcat(a: seq<Byte>, b: seq<Byte>, at: nat)
    requires Boundary(a, |a|)
    ensures Starts(a + b, at) == Starts(a, at) + Starts(b, at + |a|)
    decreases |a|
  {
    hide FirstSize, Decode;
    if a == [] {
      assert a + b == b && Starts(a, at) == [];
    } else {
      FirstSizeConcat(a, b);
      var n := FirstSize(a);
      var t, ab := a[n..], a + b;
      assert ab[n..] == t + b;
      assert Boundary(t, |t|);
      StartsConcat(t, b, at + n);
      StartsCons(ab, at);
      StartsCons(a, at);
      hide Starts;
      var x, y := Starts(t, at + n), Starts(b, at + |a|);
      assert Starts(t + b, at + n) == x + y && Starts(ab, at) == [at] + (x + y) && Starts(a, at) == [at] + x;
      assert [at] + (x + y) == ([at] + x) + y;
    }
  }

  lemma StartsCons(s: seq<Byte>, at: nat)
    requires FirstSize(s) <= |s|
    ensures Starts(s, at) == [at] + Starts(s[FirstSize(s)..], at + FirstSize(s))
  {
  }

  lemma {:induction false} FirstSizeConcat(a: seq<Byte>, b: seq<Byte>)
    requires a != [] && Boundary(a, |a|)
    ensures FirstSize(a) <= |a| && FirstSize(a + b) == FirstSize(a)
  {
    if Continues(a[0]) {
      assert (a + b)[1..] == a[1..] + b;
      FirstSizeConcat(a[1..], b);
    }
  }

  /** The bytes p..e of `s` are one cell in front of the rest. */
  lemma {:induction false} DecodeCons(s: seq<Byte>, p: nat, e: nat)
    requires p < e <= |s| && Boundary(s, e)
    requires forall i :: p <= i < e - 1 ==> Continues(s[i])
    ensures FirstSize(s[p..]) == e - p
    ensures s[p..][e - p..] == s[e..] && s[p..][..e - p] == s[p..e]
    decreases e - p
  {
    if p < e - 1 {
      DecodeCons(s, p + 1, e);
      assert s[p..][1..] == s[p + 1..];
    }
  }

  // ---------------------------------------------------------------- reading one cell backwards

  function Pow128(n: nat): nat { if n == 0 then 1 else 0x80 * Pow128(n - 1) }

  /** The groups read from the last one back, each shifted past the ones before it. */
  function Backward(g: seq<Byte>): nat {
    if g == [] then 0 else Backward(g[1..]) + Low7(g[0]) * Pow128(|g| - 1)
  }

  lemma {:induction false} FoldIsBackward(acc: int, g: seq<Byte>)
    ensures Fold(acc, g) == acc * Pow128(|g|) + Backward(g)
    decreases |g|
  {
    if g != [] {
      var p, b := Pow128(|g| - 1), Low7(g[0]);
      FoldIsBackward(acc * 0x80 + b, g[1..]);
      assert (acc * 0x80 + b) * p == acc * (0x80 * p) + b * p;
    }
  }

  /** C's `(ucell)x << shift` on 32 bits. */
  function Shl(x: nat, shift: nat): Cell { Wrap(x * Pow2(shift)) }

  lemma {:induction false} Pow2Add(a: nat, b: nat)
    ensures Pow2(a + b) == Pow2(a) * Pow2(b)
    decreases b
  {
    if b != 0 {
      Pow2Add(a, b - 1);
      assert 2 * (Pow2(a) * Pow2(b - 1)) == Pow2(a) * (2 * Pow2(b - 1));
    }
  }

  lemma Pow2Values()
    ensures Pow2(7) == 0x80 && Pow2(8) == 0x100 && Pow2(32) == 0x1_0000_0000
  {
    assert Pow2(4) == 16;
    assert Pow2(7) == 8 * Pow2(4);
    Pow2Add(8, 8);
    Pow2Add(16, 16);
  }

  lemma {:induction false} Pow128Is(n: nat)
    ensures Pow128(n) == Pow2(7 * n)
  {
    if n != 0 {
      Pow128Is(n - 1);
      Pow2Values();
      Pow2Add(7 * (n - 1), 7);
    }
  }

  function Cap(x: nat): nat { if x < 0x1_0000_0000 then x else 0x1_0000_0000 }

  /** One round of sign expansion sets the next eight bits. */
  lemma FillStep(shift: nat)
    requires shift < 32
    ensures Cap(Pow2(shift)) + Shl(0xff, shift) == Cap(Pow2(shift + 8))
  {
    Pow2Values();
    Pow2Add(shift, 8);
    Pow2Add(shift, 32 - shift);
    Pow2Grows(Pow2(shift), Pow2(32 - shift));
    if shift <= 24 {
      Pow2Add(shift + 8, 24 - shift);
      Pow2Grows(Pow2(shift + 8), Pow2(24 - shift));
      FillLow(Pow2(shift));
    } else {
      Pow2Add(32, shift - 24);
      FillHigh(Pow2(shift), Pow2(shift - 24));
    }
  }

  lemma Pow2Grows(p: nat, q: nat)
    requires q >= 1
    ensures p <= p * q
  {
  }

  lemma FillLow(p: nat)
    requires 0x100 * p <= 0x1_0000_0000
    ensures Cap(p) + Wrap(0xff * p) == Cap(0x100 * p)
  {
  }

  lemma FillHigh(p: nat, q: nat)
    requires 0 < p <= 0x1_0000_0000 && q >= 1 && 0x100 * p == 0x1_0000_0000 * q
    ensures Cap(p) + Wrap(0xff * p) == Cap(0x100 * p)
  {
  }

  lemma WrapOf(k: int, r: int)
    requires 0 <= r < 0x1_0000_0000
    ensures Wrap(0x1_0000_0000 * k + r) == r
  {
  }

  /** Where the cell that ends at `e` starts. */
  function GroupStart(s: seq<Byte>, e: nat): (p: nat)
    requires 0 < e <= |s|
    ensures p < e && Boundary(s, p)
    ensures forall i :: p <= i < e - 1 ==> Continues(s[i])
  {
    if e == 1 || !Continues(s[e - 2]) then e - 1 else GroupStart(s, e - 1)
  }

  lemma BackwardIsForward(g: seq<Byte>, c: int)
    requires 1 <= |g| <= 5 && c == Wrap(Backward(g))
    ensures !Negative(g[0]) ==> c == DecodeCell(g)
    ensures Negative(g[0]) && |g| == 5 ==> c == DecodeCell(g)
    ensures Negative(g[0]) && |g| < 5 ==> c < Pow2(7 * |g|) && c + 0x1_0000_0000 - Pow2(7 * |g|) == DecodeCell(g)
  {
    hide Backward, Fold;
    FoldIsBackward(if Negative(g[0]) then -1 else 0, g);
    Pow128Is(|g|);
    BackwardBound(g);
    Pow2Values();
    if |g| == 5 { Pow2Add(32, 3); assert Pow2(3) == 8; WrapAgain(Backward(g), -8); }
    else {
      Pow2Add(7 * |g|, 32 - 7 * |g|);
      Pow2Grows(Pow2(7 * |g|), Pow2(32 - 7 * |g|));
      if Negative(g[0]) { WrapOf(-1, Backward(g) + 0x1_0000_0000 - Pow2(7 * |g|)); }
    }
  }

  lemma WrapAgain(x: int, k: int)
    ensures Wrap(x + 0x1_0000_0000 * k) == Wrap(x)
  {
  }

  lemma DigitBound(d: nat, p: nat)
    requires d < 0x80
    ensures d * p <= 0x7f * p
  {
  }

  lemma {:induction false} BackwardBound(g: seq<Byte>)
    ensures Backward(g) < Pow2(7 * |g|)
  {
    if g != [] {
      BackwardBound(g[1..]);
      Pow128Is(|g| - 1);
      Pow128Is(|g|);
      DigitBound(Low7(g[0]), Pow128(|g| - 1));
    }
  }

  /** The sign expansion loop: all bits from `shift` up are set. */
  method SignExpand(c0: Cell, len: nat) returns (c: Cell)
    requires 7 <= len <= 28 && c0 < Pow2(len)
    ensures c == c0 + 0x1_0000_0000 - Pow2(len)
  {
    Pow2Values();
    Pow2Add(len, 32 - len);
    Pow2Grows(Pow2(len), Pow2(32 - len));
    var shift := len;
    c := c0;
    while shift < 32
      invariant len <= shift <= 39
      invariant c == c0 + Cap(Pow2(shift)) - Pow2(len)
    {
      FillStep(shift);
      c := c + Shl(0xff, shift);
      shift := shift + 8;
    }
    Pow2Add(32, shift - 32);
    Pow2Grows(Pow2(32), Pow2(shift - 32));
  }

  /** The inner loops: the cell that ends just below `end`, or the assertion that rejects it. */
  method ReadCell(code: array<Byte>, end: nat) returns (ok: bool, c: Cell, codesize: nat)
    requires 0 < end <= code.Length
    ensures ok <==> Boundary(code[..], end) && end - GroupStart(code[..], end) <= 5
    ensures ok ==> codesize == GroupStart(code[..], end) && c == DecodeCell(code[codesize..end])
  {
    hide Backward, Shl, Low7;
    ghost var s := code[..];
    ghost var start := GroupStart(s, end);
    BackwardNone(s[end..end]);
    var shift := 0;
    codesize, c, ok := end, 0, true;
    while true
      invariant start < end && start <= codesize <= end && shift == 7 * (end - codesize) && shift <= 35
      invariant codesize < end ==> Boundary(s, end)
      invariant codesize == end || start < codesize
      invariant c == Wrap(Backward(s[codesize..end]))
      decreases codesize
    {
      codesize := codesize - 1;
      if !(shift < 32) { return false, 0, codesize; }
      if !(shift > 0 || code[codesize] < 0x80) { return false, 0, codesize; }
      BackwardCons(s, codesize, end);
      c := Wrap(c + Shl(Low7(code[codesize]), shift));
      shift := shift + 7;
      if !(codesize > 0 && code[codesize - 1] >= 0x80) { break; }
    }
    ghost var g := s[codesize..end];
    BackwardIsForward(g, c);
    if Negative(code[codesize]) && shift < 32 {
      c := SignExpand(c, shift);
    }
  }

  lemma BackwardNone(g: seq<Byte>)
    requires g == []
    ensures Wrap(Backward(g)) == 0
  {
  }

  lemma BackwardCons(s: seq<Byte>, p: nat, e: nat)
    requires p < e <= |s|
    ensures Wrap(Backward(s[p..e])) ==
            Wrap(Wrap(Backward(s[p + 1..e])) + Shl(Low7(s[p]), 7 * (e - p - 1)))
  {
    assert s[p..e][1..] == s[p + 1..e];
    Pow128Is(e - p - 1);
    WrapSum(Backward(s[p + 1..e]), Low7(s[p]) * Pow2(7 * (e - p - 1)));
  }

  lemma WrapSum(x: int, y: int)
    ensures Wrap(x + y) == Wrap(Wrap(x) + Wrap(y))
  {
  }

  // ---------------------------------------------------------------- what a rejected stream lacks

  lemma {:induction false} StartsCount(s: seq<Byte>, at: nat)
    requires Decode(s).Some?
    ensures |Starts(s, at)| == |Decode(s).value|
    decreases |s|
  {
    if s != [] { StartsCount(s[FirstSize(s)..], at + FirstSize(s)); }
  }

  lemma {:induction false} DecodableEnds(s: seq<Byte>)
    requires Decode(s).Some?
    ensures Boundary(s, |s|)
    decreases |s|
  {
    if s != [] {
      var n := FirstSize(s);
      DecodableEnds(s[n..]);
      if n == |s| { LastOfFirst(s); }
    }
  }

  lemma {:induction false} LastOfFirst(s: seq<Byte>)
    requires FirstSize(s) <= |s|
    ensures !Continues(s[FirstSize(s) - 1])
  {
    if Continues(s[0]) { LastOfFirst(s[1..]); }
  }

  lemma {:induction false} RingSuffix(a: seq<nat>, b: seq<nat>, base: int)
    requires RingSuffices(a + b, base)
    ensures RingSuffices(b, base + 4 * |a|)
    decreases |a|
  {
    if a == [] {
      assert a + b == b;
    } else {
      assert (a + b)[1..] == a[1..] + b;
      RingSuffix(a[1..], b, base + 4);
    }
  }

  lemma LongCellRejected(s: seq<Byte>, p: nat)
    requires 0 < p <= |s| && (Boundary(s, p) || p == |s|)
    requires !Boundary(s, p) || p - GroupStart(s, p) > 5
    ensures Decode(s).None?
  {
    if !Boundary(s, p) {
      if Decode(s).Some? { DecodableEnds(s); }
    } else {
      var q := GroupStart(s, p);
      DecodeCons(s, q, p);
      assert s == s[..q] + s[q..];
      DecodeConcat(s[..q], s[q..]);
    }
  }

  lemma SuffixRoomOf(a: seq<Byte>, b: seq<Byte>, memsize: int)
    requires Boundary(a, |a|) && Decode(b).Some? && Expands(a + b, memsize)
    ensures memsize >= 4 * |Decode(b).value|
    ensures RingSuffices(Starts(b, |a|), memsize - 4 * |Decode(b).value|)
  {
    hide Decode, Starts, FirstSize, RingSuffices;
    DecodeConcat(a, b);
    StartsConcat(a, b, 0);
    StartsCount(a, 0);
    RingSuffix(Starts(a, 0), Starts(b, |a|), 0);
  }

  /** Whatever suffix has been decoded, an accepted stream leaves it room in memory and in the ring. */
  lemma SuffixRoom(s: seq<Byte>, p: nat, memsize: int)
    requires Boundary(s, p) && Decode(s[p..]).Some? && Expands(s, memsize)
    ensures memsize >= 4 * |Decode(s[p..]).value|
    ensures RingSuffices(Starts(s[p..], p), memsize - 4 * |Decode(s[p..]).value|)
  {
    hide Decode, Starts, FirstSize, RingSuffices;
    assert s == s[..p] + s[p..];
    SuffixRoomOf(s[..p], s[p..], memsize);
  }

  // ---------------------------------------------------------------- the in-place expansion

  datatype Spare = Spare(memloc: int, c: Cell)

  method StoreCell(code: array<Byte>, loc: nat, c: Cell)
    requires loc + 4 <= code.Length
    modifies code
    ensures code[loc..loc + 4] == LE(c)
    ensures forall i :: 0 <= i < code.Length && !(loc <= i < loc + 4) ==> code[i] == old(code[i])
  {
    code[loc], code[loc + 1] := c % 0x100, c / 0x100 % 0x100;
    code[loc + 2], code[loc + 3] := c / 0x1_0000 % 0x100, c / 0x100_0000;
  }

  /** The ring holds the outputs whose slots lie at or below the read position: those of the first `sc`
      decoded cells, the highest address at its head. */
  ghost predicate Parked(ring: seq<Spare>, sh: nat, st: nat, sc: nat, memsize: int, cells: seq<Cell>) {
    && |ring| == COMPACT_MARGIN && sh < COMPACT_MARGIN && sc <= COMPACT_MARGIN && sc <= |cells|
    && st == (sh + sc) % COMPACT_MARGIN
    && forall j :: 0 <= j < sc ==>
         ring[(sh + (sc - 1 - j)) % COMPACT_MARGIN] == Spare(memsize + 4 * j, cells[j])
  }

  /** ... and exactly those: every later slot lies above it, and nothing is parked once all input is read. */
  ghost predicate Ring(ring: seq<Spare>, sh: nat, st: nat, sc: nat, memsize: int, cells: seq<Cell>, codesize: nat) {
    && Parked(ring, sh, st, sc, memsize, cells)
    && (sc >= |cells| || memsize + 4 * sc > codesize || codesize == 0)
    && (sc == 0 || (memsize + 4 * (sc - 1) <= codesize && codesize > 0))
  }

  ghost predicate Written(mem: seq<Byte>, memsize: int, from: nat, cells: seq<Cell>) {
    && 0 <= memsize && memsize + 4 * |cells| <= |mem|
    && forall j :: from <= j < |cells| ==> mem[memsize + 4 * j..memsize + 4 * j + 4] == LE(cells[j])
  }

  lemma ParkedHead(ring: seq<Spare>, sh: nat, st: nat, sc: nat, memsize: int, cells: seq<Cell>)
    requires Parked(ring, sh, st, sc, memsize, cells) && sc > 0
    ensures ring[sh] == Spare(memsize + 4 * (sc - 1), cells[sc - 1])
    ensures Parked(ring, (sh + 1) % COMPACT_MARGIN, st, sc - 1, memsize, cells)
  {
  }

  lemma ParkedPush(ring: seq<Spare>, sh: nat, st: nat, sc: nat, memsize: int, cells: seq<Cell>, c: Cell)
    requires Parked(ring, sh, st, sc, memsize, cells) && sc < COMPACT_MARGIN
    ensures Parked(ring[st := Spare(memsize - 4, c)], sh, (st + 1) % COMPACT_MARGIN, sc + 1, memsize - 4, [c] + cells)
  {
  }

  lemma WrittenStep(mem: seq<Byte>, mem': seq<Byte>, memsize: int, sc: nat, cells: seq<Cell>)
    requires Written(mem, memsize, sc, cells) && 0 < sc <= |cells| && |mem'| == |mem|
    requires mem'[memsize + 4 * (sc - 1)..memsize + 4 * sc] == LE(cells[sc - 1])
    requires forall i :: memsize + 4 * sc <= i < |mem| ==> mem'[i] == mem[i]
    ensures Written(mem', memsize, sc - 1, cells)
  {
  }

  lemma WrittenShift(mem: seq<Byte>, memsize: int, sc: nat, cells: seq<Cell>, c: Cell)
    requires Written(mem, memsize, sc, cells) && memsize >= 4
    ensures Written(mem, memsize - 4, sc + 1, [c] + cells)
  {
  }

  lemma ParkedSize(ring: seq<Spare>, sh: nat, st: nat, sc: nat, memsize: int, cells: seq<Cell>)
    requires Parked(ring, sh, st, sc, memsize, cells)
    ensures sh < |ring| == COMPACT_MARGIN && sc <= |cells|
  {
  }

  /** The last cell not yet written. */
  method StoreNext(code: array<Byte>, loc: int, c: Cell, ghost memsize: int, ghost sc: nat, ghost cells: seq<Cell>)
    requires Written(code[..], memsize, sc, cells) && 0 < sc <= |cells|
    requires loc == memsize + 4 * (sc - 1) && c == cells[sc - 1]
    modifies code
    ensures Written(code[..], memsize, sc - 1, cells)
    ensures forall i :: 0 <= i < code.Length && !(loc <= i < loc + 4) ==> code[i] == old(code[i])
  {
    ghost var before := code[..];
    assert 0 <= loc && loc + 4 <= code.Length;
    StoreCell(code, loc, c);
    assert code[..][loc..loc + 4] == code[loc..loc + 4];
    hide Written;
    WrittenStep(before, code[..], memsize, sc, cells);
  }

  /** Stores every parked output that now lies above the read position. */
  method Flush(code: array<Byte>, ring: array<Spare>, sh0: nat, st: nat, sc0: nat, codesize: nat,
               ghost memsize: int, ghost cells: seq<Cell>)
    returns (sh: nat, sc: nat)
    requires codesize <= code.Length
    requires Parked(ring[..], sh0, st, sc0, memsize, cells)
    requires sc0 >= |cells| || memsize + 4 * sc0 > codesize
    requires Written(code[..], memsize, sc0, cells)
    modifies code
    ensures Parked(ring[..], sh, st, sc, memsize, cells)
    ensures sc >= |cells| || memsize + 4 * sc > codesize
    ensures sc == 0 || memsize + 4 * (sc - 1) <= codesize
    ensures Written(code[..], memsize, sc, cells)
    ensures forall i :: 0 <= i < code.Length && (i < codesize || i >= memsize + 4 * |cells|) ==> code[i] == old(code[i])
  {
    hide Written, Parked;
    sh, sc := sh0, sc0;
    ParkedSize(ring[..], sh, st, sc, memsize, cells);
    if sc > 0 { ParkedHead(ring[..], sh, st, sc, memsize, cells); }
    while sc > 0 && ring[sh].memloc > codesize
      invariant Parked(ring[..], sh, st, sc, memsize, cells) && sh < ring.Length && sc <= |cells|
      invariant sc > 0 ==> ring[sh] == Spare(memsize + 4 * (sc - 1), cells[sc - 1])
      invariant sc >= |cells| || memsize + 4 * sc > codesize
      invariant Written(code[..], memsize, sc, cells)
      invariant forall i :: 0 <= i < code.Length && (i < codesize || i >= memsize + 4 * |cells|) ==>
        code[i] == old(code[i])
    {
      ParkedHead(ring[..], sh, st, sc, memsize, cells);
      StoreNext(code, ring[sh].memloc, ring[sh].c, memsize, sc, cells);
      sh := (sh + 1) % COMPACT_MARGIN;
      sc := sc - 1;
      if sc > 0 { ParkedHead(ring[..], sh, st, sc, memsize, cells); }
    }
  }

  /** In memory and in the ring, one more decoded cell in front. */
  lemma DecodedCons(s: seq<Byte>, p: nat, e: nat, cells: seq<Cell>)
    requires p < e <= |s| && Boundary(s, e) && e - p <= 5
    requires forall i :: p <= i < e - 1 ==> Continues(s[i])
    requires Decode(s[e..]) == Some(cells)
    ensures Decode(s[p..]) == Some([DecodeCell(s[p..e])] + cells)
    ensures Starts(s[p..], p) == [p] + Starts(s[e..], e)
  {
    hide FirstSize, DecodeCell;
    DecodeCons(s, p, e);
  }

  lemma SameGroup(a: seq<Byte>, b: seq<Byte>, e: nat)
    requires 0 < e <= |a| && e <= |b| && a[..e] == b[..e]
    ensures GroupStart(a, e) == GroupStart(b, e) && Boundary(a, e) == Boundary(b, e)
  {
    assert forall i :: 0 <= i < e ==> a[..e][i] == a[i] && b[..e][i] == b[i];
    if e > 1 && Continues(a[e - 2]) {
      assert a[..e - 1] == b[..e - 1];
      SameGroup(a, b, e - 1);
    }
  }

  lemma WrittenKept(mem: seq<Byte>, mem': seq<Byte>, memsize: int, from: nat, cells: seq<Cell>)
    requires Written(mem, memsize, from, cells) && |mem'| == |mem|
    requires forall i :: memsize + 4 * from <= i < |mem| ==> mem'[i] == mem[i]
    ensures Written(mem', memsize, from, cells)
  {
  }

  /** An accepted stream leaves the cell just decoded a slot and a place in the ring. */
  lemma RoomForCons(s: seq<Byte>, p: nat, memory: nat, memsize: int, c: Cell, cells: seq<Cell>, starts: seq<nat>)
    requires Boundary(s, p) && Decode(s[p..]) == Some([c] + cells) && Starts(s[p..], p) == [p] + starts
    requires memsize + 4 * (|cells| + 1) == memory
    ensures |starts| == |cells|
    ensures RingSuffices([p] + starts, memsize) <==>
            Min(|cells|, (p - memsize) / 4) < COMPACT_MARGIN && RingSuffices(starts, memsize + 4)
    ensures Expands(s, memory) ==> memsize >= 0 && RingSuffices([p] + starts, memsize)
  {
    StartsCount(s[p..], p);
    assert ([p] + starts)[1..] == starts;
    if Expands(s, memory) { SuffixRoom(s, p, memory); }
  }

  /** Stores the cell just decoded when its slot is free. */
  method StoreNow(code: array<Byte>, memsize: nat, c: Cell, ghost cells: seq<Cell>)
    requires Written(code[..], memsize + 4, 0, cells)
    modifies code
    ensures Written(code[..], memsize, 0, [c] + cells)
    ensures forall i :: 0 <= i < code.Length && !(memsize <= i < memsize + 4) ==> code[i] == old(code[i])
  {
    ghost var before := code[..];
    StoreCell(code, memsize, c);
    WrittenShift(before, memsize + 4, 0, cells, c);
    WrittenKept(before, code[..], memsize, 1, [c] + cells);
    WrittenHead(code[..], memsize, [c] + cells);
  }

  /** Stores the cell just decoded, or parks it when its slot is not yet free; a full ring rejects the stream. */
  method Place(code: array<Byte>, ring: array<Spare>, sh: nat, st0: nat, sc0: nat, codesize: nat, memsize: nat, c: Cell,
               ghost cells: seq<Cell>)
    returns (ok: bool, st: nat, sc: nat)
    requires codesize <= code.Length
    requires Ring(ring[..], sh, st0, sc0, memsize + 4, cells, codesize)
    requires codesize == 0 ==> sc0 == 0
    requires Written(code[..], memsize + 4, sc0, cells)
    modifies code, ring
    ensures ok <==> Min(|cells|, (codesize - memsize) / 4) < COMPACT_MARGIN
    ensures ok ==> Ring(ring[..], sh, st, sc, memsize, [c] + cells, codesize)
    ensures ok ==> Written(code[..], memsize, sc, [c] + cells)
    ensures forall i :: 0 <= i < code.Length && (i < codesize || i >= memsize + 4) ==> code[i] == old(code[i])
  {
    st, sc := st0, sc0;
    if memsize > codesize || (memsize == codesize && memsize == 0) {
      StoreNow(code, memsize, c, cells);
      ParkedNone(ring[..], sh, st, memsize, [c] + cells);
    } else {
      if !(sc < COMPACT_MARGIN) { return false, st, sc; }
      WrittenShift(code[..], memsize + 4, sc, cells, c);
      ParkedPush(ring[..], sh, st, sc, memsize + 4, cells, c);
      ring[st] := Spare(memsize, c);
      st := (st + 1) % COMPACT_MARGIN;
      sc := sc + 1;
    }
    ok := true;
  }

  lemma WrittenHead(mem: seq<Byte>, memsize: int, cells: seq<Cell>)
    requires Written(mem, memsize, 1, cells) && cells != []
    requires mem[memsize..memsize + 4] == LE(cells[0])
    ensures Written(mem, memsize, 0, cells)
  {
  }

  lemma ParkedNone(ring: seq<Spare>, sh: nat, st: nat, memsize: int, cells: seq<Cell>)
    requires |ring| == COMPACT_MARGIN && sh < COMPACT_MARGIN && st == sh
    ensures Parked(ring, sh, st, 0, memsize, cells)
  {
  }

  /** The loop's progress: `cells` are what the simple decoder finds from the read position on, and they
      fill memory from `memsize` up. */
  ghost predicate Decoded(s: seq<Byte>, codesize: nat, memsize: int, memory: nat, cells: seq<Cell>) {
    && codesize <= |s| && (codesize == |s| || Boundary(s, codesize))
    && Decode(s[codesize..]) == Some(cells)
    && memsize + 4 * |cells| == memory
    && RingSuffices(Starts(s[codesize..], codesize), memsize)
  }

  lemma DecodedStep(s: seq<Byte>, p: nat, e: nat, memory: nat, memsize: int, cells: seq<Cell>)
    requires p < e <= |s| && Decoded(s, e, memsize + 4, memory, cells)
    requires Boundary(s, e) && e - p <= 5 && p == GroupStart(s, e)
    ensures Expands(s, memory) ==> memsize >= 0 && Min(|cells|, (p - memsize) / 4) < COMPACT_MARGIN
    ensures Min(|cells|, (p - memsize) / 4) < COMPACT_MARGIN ==>
            Decoded(s, p, memsize, memory, [DecodeCell(s[p..e])] + cells)
  {
    DecodedCons(s, p, e, cells);
    RoomForCons(s, p, memory, memsize, DecodeCell(s[p..e]), cells, Starts(s[e..], e));
  }

  lemma DecodedAll(s: seq<Byte>, memsize: int, memory: nat, cells: seq<Cell>)
    requires Decoded(s, 0, memsize, memory, cells)
    ensures Decode(s) == Some(cells) && (Expands(s, memory) <==> memsize == 0)
  {
  }

  /** Reads one more cell of the unread part, on which the buffer still agrees with the stream. */
  method ReadNext(code: array<Byte>, end: nat, ghost s: seq<Byte>, ghost memsize: int, ghost memory: nat,
                  ghost cells: seq<Cell>)
    returns (ok: bool, c: Cell, codesize: nat)
    requires 0 < end <= code.Length && Decoded(s, end, memsize, memory, cells)
    requires forall i :: 0 <= i < end ==> code[i] == s[i]
    ensures !ok ==> !Expands(s, memory)
    ensures ok ==> codesize < end
    ensures ok && Expands(s, memory) ==> memsize >= 4 && Min(|cells|, (codesize - (memsize - 4)) / 4) < COMPACT_MARGIN
    ensures ok && Min(|cells|, (codesize - (memsize - 4)) / 4) < COMPACT_MARGIN ==>
            Decoded(s, codesize, memsize - 4, memory, [c] + cells)
  {
    assert code[..end] == s[..end];
    SameGroup(code[..], s, end);
    ok, c, codesize := ReadCell(code, end);
    if ok {
      assert code[codesize..end] == s[codesize..end];
      DecodedStep(s, codesize, end, memory, memsize - 4, cells);
    } else {
      LongCellRejected(s, end);
    }
  }

  lemma DecodedNone(s: seq<Byte>, memory: nat)
    ensures Decoded(s, |s|, memory, memory, [])
  {
  }

  /** One round of the loop: the next cell is read, freed slots are filled, and the cell is placed. */
  method Round(code: array<Byte>, ring: array<Spare>, sh0: nat, st0: nat, sc0: nat, end: nat, memsize0: int,
               ghost s: seq<Byte>, ghost memory: nat, ghost cells: seq<Cell>)
    returns (ok: bool, sh: nat, st: nat, sc: nat, codesize: nat, memsize: int, ghost cells': seq<Cell>)
    requires 0 < end <= code.Length && Decoded(s, end, memsize0, memory, cells)
    requires forall i :: 0 <= i < end ==> code[i] == s[i]
    requires Ring(ring[..], sh0, st0, sc0, memsize0, cells, end)
    requires Written(code[..], memsize0, sc0, cells)
    modifies code, ring
    ensures !ok ==> !Expands(s, memory)
    ensures ok ==> codesize < end && Decoded(s, codesize, memsize, memory, cells')
    ensures ok ==> Ring(ring[..], sh, st, sc, memsize, cells', codesize)
    ensures ok ==> Written(code[..], memsize, sc, cells')
    ensures ok ==> forall i :: 0 <= i < code.Length && (i < codesize || i >= memory) ==> code[i] == old(code[i])
  {
    hide Decode, Starts, RingSuffices, Boundary, Expands, DecodeCell, LE;
    sh, st, sc, cells', memsize := sh0, st0, sc0, cells, memsize0;
    var c;
    ok, c, codesize := ReadNext(code, end, s, memsize, memory, cells);
    if !ok { return; }
    sh, sc := Flush(code, ring, sh, st, sc, codesize, memsize, cells);
    memsize := memsize - 4;
    if !(memsize >= 0) { return false, sh, st, sc, codesize, memsize, cells; }
    ok, st, sc := Place(code, ring, sh, st, sc, codesize, memsize, c, cells);
    cells' := [c] + cells;
  }

  /** The in-place expansion: it succeeds on exactly the accepted streams, and then memory holds what the
      simple decoder produces, nothing outside the block having changed. */
  method Expand(code: array<Byte>, size: nat, memory: nat) returns (ok: bool)
    requires size <= code.Length && memory <= code.Length
    modifies code
    ensures ok <==> Expands(old(code[..size]), memory)
    ensures ok ==> code[..] == Image(Decode(old(code[..size])).value) + old(code[memory..])
  {
    hide Decode, Starts, FirstSize, RingSuffices, LE, Parked;
    ghost var s := code[..size];
    ghost var start := code[..];
    var ring := new Spare[COMPACT_MARGIN](_ => Spare(0, 0));
    var sh: nat, st: nat, sc: nat := 0, 0, 0;
    var codesize, memsize: int := size, memory;
    if !(memsize % 4 == 0) { return false; }
    ghost var cells: seq<Cell> := [];
    DecodedNone(s, memory);
    ParkedNone(ring[..], sh, st, memsize, cells);
    while codesize > 0
      invariant codesize >= 0 && Decoded(s, codesize, memsize, memory, cells)
      invariant forall i :: 0 <= i < codesize || memory <= i < code.Length ==> code[i] == start[i]
      invariant Ring(ring[..], sh, st, sc, memsize, cells, codesize)
      invariant Written(code[..], memsize, sc, cells)
    {
      ok, sh, st, sc, codesize, memsize, cells := Round(code, ring, sh, st, sc, codesize, memsize, s, memory, cells);
      if !ok { return; }
    }
    DecodedAll(s, memsize, memory, cells);
    if !(memsize == 0) { return false; }
    ImageAt(cells, code[..memory]);
    assert code[memory..] == start[memory..];
    assert code[..] == code[..memory] + code[memory..];
    ok := true;
  }

  // ---------------------------------------------------------------- which streams fit, and the compiler's output

  /** The ring suffices exactly when no cell k is preceded by 4k + 256 bytes or more while 64 later slots
      are waiting below it. */
  lemma {:induction false} RingExactly(starts: seq<nat>, base: int)
    ensures RingSuffices(starts, base) <==>
            forall k :: 0 <= k < |starts| ==> Min(|starts| - 1 - k, (starts[k] - base - 4 * k) / 4) < COMPACT_MARGIN
    decreases |starts|
  {
    if starts != [] {
      var rest := starts[1..];
      RingExactly(rest, base + 4);
      assert forall k :: 0 <= k < |rest| ==> rest[k] == starts[k + 1];
      if RingSuffices(starts, base) {
        forall k | 0 <= k < |starts|
          ensures Min(|starts| - 1 - k, (starts[k] - base - 4 * k) / 4) < COMPACT_MARGIN
        {
          if k > 0 { assert rest[k - 1] == starts[k]; }
        }
      } else if Min(|starts| - 1, (starts[0] - base) / 4) < COMPACT_MARGIN {
        var k :| 0 <= k < |rest| && !(Min(|rest| - 1 - k, (rest[k] - (base + 4) - 4 * k) / 4) < COMPACT_MARGIN);
        assert rest[k] == starts[k + 1];
      }
    }
  }

  /** A margin of 64 cells over the size of the decoded prefix is always enough. */
  lemma MarginSuffices(starts: seq<nat>)
    requires forall k :: 0 <= k < |starts| ==> starts[k] < 4 * k + 4 * COMPACT_MARGIN
    ensures RingSuffices(starts, 0)
  {
    RingExactly(starts, 0);
  }

  /** The signed number held by the lowest `k` groups of `t`. */
  function Digits(t: seq<Byte>, k: nat): nat
    requires k <= |t|
  {
    if k == 0 then 0 else Digits(t, k - 1) + Low7(t[k - 1]) * Pow128(k - 1)
  }

  function Emit(t: seq<Byte>, k: nat): (r: seq<Byte>)
    requires k <= |t| && forall i :: 0 <= i < |t| ==> t[i] < 0x80
    ensures |r| == k
  {
    if k == 0 then [] else [if k == 1 then t[0] else t[k - 1] + 0x80] + Emit(t, k - 1)
  }

  lemma {:induction false} EmitIs(t: seq<Byte>, k: nat)
    requires k <= |t| && forall i :: 0 <= i < |t| ==> t[i] < 0x80
    ensures Backward(Emit(t, k)) == Digits(t, k)
    ensures k > 0 ==> FirstSize(Emit(t, k)) == k && Low7(Emit(t, k)[0]) == t[k - 1]
  {
    hide Decode, Fold;
    if k != 0 {
      EmitIs(t, k - 1);
      assert Emit(t, k)[1..] == Emit(t, k - 1);
      assert Low7(Emit(t, k)[0]) == t[k - 1];
    }
  }

  /** The first loop: a cell cut into five groups, least significant first. */
  method SevenBits(c: Cell) returns (t: seq<Byte>)
    ensures |t| == 5 && t[4] < 0x10 && Digits(t, 5) == c && forall i :: 0 <= i < 5 ==> t[i] < 0x80
  {
    var p, i := c, 0;
    t := [];
    while i < 5
      invariant 0 <= i <= 5 && |t| == i && forall j :: 0 <= j < i ==> t[j] < 0x80
      invariant Peeled(c, t, p)
    {
      PeelOne(c, t, p);
      t := t + [p % 0x80];
      p := p / 0x80;
      i := i + 1;
    }
    PowersOf128();
    FirstDigits(t);
  }

  ghost predicate Peeled(c: int, t: seq<Byte>, p: nat) { c == Digits(t, |t|) + p * Pow128(|t|) }

  lemma PeelOne(c: int, t: seq<Byte>, p: nat)
    requires Peeled(c, t, p)
    ensures Peeled(c, t + [p % 0x80], p / 0x80)
  {
    var n, t' := |t|, t + [p % 0x80];
    DigitsPrefix(t, t', n);
    assert Digits(t', n + 1) == Digits(t, n) + (p % 0x80) * Pow128(n);
    SplitDigit(p, Pow128(n));
  }

  lemma SplitDigit(p: nat, q: nat)
    ensures p * q == (p % 0x80) * q + p / 0x80 * (0x80 * q)
  {
  }

  lemma {:induction false} DigitsPrefix(a: seq<Byte>, b: seq<Byte>, k: nat)
    requires k <= |a| <= |b| && forall i :: 0 <= i < k ==> a[i] == b[i]
    ensures Digits(a, k) == Digits(b, k)
  {
    if k != 0 { DigitsPrefix(a, b, k - 1); }
  }

  /** The lowest `k` groups of `t`, sign-extended from bit 6 of the highest, stand for `c`. */
  ghost predicate StandsFor(t: seq<Byte>, k: nat, c: Cell) {
    && 1 <= k <= |t|
    && (t[k - 1] < 0x40 ==> Digits(t, k) == c)
    && (t[k - 1] >= 0x40 ==> Digits(t, k) - Pow128(k) == c - 0x1_0000_0000)
  }

  lemma DropGroup(t: seq<Byte>, k: nat, c: Cell)
    requires 2 <= k <= |t| <= 5 && StandsFor(t, k, c)
    requires (t[k - 1] == 0 && t[k - 2] < 0x40) || (t[k - 1] == 0x7f && t[k - 2] >= 0x40)
    ensures StandsFor(t, k - 1, c)
  {
  }

  lemma DropTop(t: seq<Byte>, c: Cell)
    requires |t| == 5 && StandsFor(t, 5, c) && t[4] == 0x0f && t[3] >= 0x40
    ensures StandsFor(t, 4, c)
  {
  }

  /** The highest of `k` groups only repeats the sign of the next one. */
  predicate Redundant(t: seq<Byte>, k: nat)
    requires |t| == 5 && k <= 5
  {
    k > 1 && if t[k - 2] < 0x40 then t[k - 1] == 0 else t[k - 1] == 0x7f || (k == 5 && t[4] == 0x0f)
  }

  /** Drops the leading groups that sign extension restores, and all of them. */
  method StripSign(t: seq<Byte>, ghost c: Cell) returns (index: nat)
    requires |t| == 5 && t[4] < 0x10 && StandsFor(t, 5, c)
    ensures 1 <= index <= 5 && StandsFor(t, index, c) && !Redundant(t, index)
  {
    hide Digits, Pow128;
    index := 5;
    while index > 1 && t[index - 1] == 0 && t[index - 2] < 0x40
      invariant StandsFor(t, index, c)
    {
      DropGroup(t, index, c);
      index := index - 1;
    }
    if index == 5 && t[index - 1] == 0x0f && t[index - 2] >= 0x40 {
      DropTop(t, c);
      index := index - 1;
    }
    while index > 1 && t[index - 1] == 0x7f && t[index - 2] >= 0x40
      invariant StandsFor(t, index, c) && (Redundant(t, index) ==> t[index - 1] == 0x7f)
    {
      DropGroup(t, index, c);
      index := index - 1;
    }
  }

  function Signed(c: Cell): int { if c < 0x8000_0000 then c else c - 0x1_0000_0000 }

  /** The fewest groups of seven bits that hold the signed number. */
  function EncodedSize(c: Cell): (n: nat)
    ensures 1 <= n <= 5
  {
    var v := Signed(c);
    if -0x40 <= v < 0x40 then 1
    else if -0x2000 <= v < 0x2000 then 2
    else if -0x10_0000 <= v < 0x10_0000 then 3
    else if -0x800_0000 <= v < 0x800_0000 then 4
    else 5
  }

  lemma SizeIs(t: seq<Byte>, k: nat, c: Cell)
    requires |t| == 5 && t[4] < 0x10 && (forall i :: 0 <= i < 5 ==> t[i] < 0x80)
    requires k <= 5 && StandsFor(t, k, c) && !Redundant(t, k)
    ensures k == EncodedSize(c)
  {
    PowersOf128();
    FirstDigits(t);
    hide Digits, Pow128;
    if k == 5 {
    } else if k == 4 {
    } else if k == 3 {
    } else if k == 2 {
    }
  }

  lemma PowersOf128()
    ensures Pow128(1) == 0x80 && Pow128(2) == 0x4000 && Pow128(3) == 0x20_0000 && Pow128(4) == 0x1000_0000
    ensures Pow128(5) == 0x8_0000_0000
  {
    assert Pow128(2) == 0x4000;
    assert Pow128(3) == 0x80 * Pow128(2) && Pow128(4) == 0x80 * Pow128(3) && Pow128(5) == 0x80 * Pow128(4);
  }

  lemma FirstDigits(t: seq<Byte>)
    requires |t| == 5 && forall i :: 0 <= i < 5 ==> t[i] < 0x80
    ensures Digits(t, 1) == t[0] && Digits(t, 2) == Digits(t, 1) + 0x80 * (t[1] as int)
    ensures Digits(t, 3) == Digits(t, 2) + 0x4000 * (t[2] as int)
    ensures Digits(t, 4) == Digits(t, 3) + 0x20_0000 * (t[3] as int)
    ensures Digits(t, 5) == Digits(t, 4) + 0x1000_0000 * (t[4] as int)
  {
    PowersOf128();
    assert Digits(t, 2) == Digits(t, 1) + Low7(t[1]) * Pow128(1);
    assert Digits(t, 3) == Digits(t, 2) + Low7(t[2]) * Pow128(2);
    assert Digits(t, 4) == Digits(t, 3) + Low7(t[3]) * Pow128(3);
    assert Digits(t, 5) == Digits(t, 4) + Low7(t[4]) * Pow128(4);
  }

  lemma AllStand(t: seq<Byte>, c: Cell)
    requires |t| == 5 && t[4] < 0x10 && Digits(t, 5) == c
    ensures StandsFor(t, 5, c)
  {
  }

  lemma EmitStandsFor(t: seq<Byte>, index: nat, c: Cell)
    requires |t| == 5 && StandsFor(t, index, c) && forall i :: 0 <= i < 5 ==> t[i] < 0x80
    ensures FirstSize(Emit(t, index)) == index && DecodeCell(Emit(t, index)) == c
  {
    EmitIs(t, index);
    var seed := if t[index - 1] >= 0x40 then -1 else 0;
    FoldIsBackward(seed, Emit(t, index));
    WrapOf(seed, c);
  }

  /** The compiler's writer: five groups, least significant first, stripped of leading sign groups. */
  method WriteEncoded(c: Cell) returns (code: seq<Byte>)
    ensures |code| == EncodedSize(c)
    ensures FirstSize(code) == |code| && DecodeCell(code) == c
  {
    hide DecodeCell, FirstSize, Digits, EncodedSize, Redundant, StandsFor, Fold, Low7;
    var t := SevenBits(c);
    AllStand(t, c);
    var index := StripSign(t, c);
    SizeIs(t, index, c);
    EmitStandsFor(t, index, c);
    code := [];
    ghost var all := Emit(t, index);
    while index > 0
      invariant 0 <= index <= 5 && all == code + Emit(t, index)
    {
      index := index - 1;
      code := code + [if index == 0 then t[0] else t[index] + 0x80];
    }
    assert code == all;
  }

  lemma OneCell(code: seq<Byte>, at: nat)
    requires 1 <= |code| <= 5 && FirstSize(code) == |code|
    ensures Boundary(code, |code|)
    ensures Decode(code) == Some([DecodeCell(code)])
    ensures Starts(code, at) == [at]
  {
    var n := |code|;
    assert code[n..] == [] && code[..n] == code;
    assert Decode(code[n..]) == Some([]);
    assert [DecodeCell(code)] + [] == [DecodeCell(code)];
    LastOfFirst(code);
  }

  lemma AppendCell(out: seq<Byte>, code: seq<Byte>, cells: seq<Cell>)
    requires Boundary(out, |out|) && Decode(out) == Some(cells)
    requires 1 <= |code| <= 5 && FirstSize(code) == |code|
    ensures Boundary(out + code, |out + code|)
    ensures Decode(out + code) == Some(cells + [DecodeCell(code)])
    ensures Starts(out + code, 0) == Starts(out, 0) + [|out|]
  {
    hide Decode, Starts, FirstSize, DecodeCell;
    OneCell(code, |out|);
    DecodeConcat(out, code);
    StartsConcat(out, code, 0);
  }

  function EncodedLength(cells: seq<Cell>): nat {
    if cells == [] then 0 else EncodedLength(cells[..|cells| - 1]) + EncodedSize(cells[|cells| - 1])
  }

  lemma LengthStep(cells: seq<Cell>, k: nat)
    requires k < |cells|
    ensures EncodedLength(cells[..k + 1]) == EncodedLength(cells[..k]) + EncodedSize(cells[k])
  {
    hide EncodedSize;
    assert cells[..k + 1][..k] == cells[..k];
  }

  lemma NothingWritten(cells: seq<Cell>)
    ensures EncodedLength(cells[..0]) == 0 && Boundary([], 0) && Decode([]) == Some(cells[..0]) && Starts([], 0) == []
  {
    assert cells[..0] == [];
  }

  /** After no cell does the output lead the input by 62 bytes. */
  predicate NeverLeads(cells: seq<Cell>) {
    forall k: nat :: k <= |cells| ==> EncodedLength(cells[..k]) < 4 * k + COMPACT_MARGIN - 2
  }

  /** The compiler's loop over the cells of a file.  It gives up as soon as the output leads the input by 62 bytes, and
      otherwise writes what the loader accepts. */
  method WriteCells(cells: seq<Cell>) returns (ok: bool, out: seq<Byte>)
    ensures ok <==> NeverLeads(cells)
    ensures ok ==> Expands(out, 4 * |cells|) && Decode(out) == Some(cells) && |out| == EncodedLength(cells)
  {
    hide DecodeCell, FirstSize, RingSuffices, EncodedSize, EncodedLength, Decode, Starts;
    NothingWritten(cells);
    out := [];
    ghost var starts: seq<nat> := [];
    for k := 0 to |cells|
      invariant Boundary(out, |out|) && Decode(out) == Some(cells[..k]) && Starts(out, 0) == starts && |starts| == k
      invariant forall j :: 0 <= j < k ==> starts[j] < 4 * j + 4 * COMPACT_MARGIN
      invariant |out| == EncodedLength(cells[..k])
      invariant forall j: nat :: j <= k ==> EncodedLength(cells[..j]) < 4 * j + COMPACT_MARGIN - 2
    {
      LengthStep(cells, k);
      var code := WriteEncoded(cells[k]);
      AppendCell(out, code, cells[..k]);
      starts := starts + [|out|];
      assert cells[..k + 1] == cells[..k] + [cells[k]];
      out := out + code;
      if |out| - 4 * (k + 1) >= COMPACT_MARGIN - 2 { return false, out; }
    }
    ok := true;
    assert cells[..|cells|] == cells;
    MarginSuffices(starts);
  }
}
