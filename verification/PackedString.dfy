/** Strings in abstract-machine memory on a little-endian host: packed, four characters to a cell with the first
    in the top byte, and unpacked, one character to a cell. */
module PackedString {
  import Words

  type Byte = Words.Byte

  const UNLIMITED := 0x7fff_ffff
  const UNPACKEDMAX := 0x00ff_ffff

  /** A cell as its bytes in address order. */
  datatype Cell = Cell(b0: Byte, b1: Byte, b2: Byte, b3: Byte)

  const ZERO := Cell(0, 0, 0, 0)

  function Value(c: Cell): int { c.b0 + 0x100 * (c.b1 as int) + 0x1_0000 * (c.b2 as int) + 0x100_0000 * (c.b3 as int) }

  /** Packed strings are those with something in the top byte. */
  lemma ValueFacts(c: Cell)
    ensures Value(c) > UNPACKEDMAX <==> c.b3 != 0
    ensures Value(c) == 0 <==> c == ZERO
  {
  }

  function Get(c: Cell, i: nat): Byte {
    if i == 0 then c.b0 else if i == 1 then c.b1 else if i == 2 then c.b2 else c.b3
  }

  function Put(c: Cell, i: nat, b: Byte): Cell {
    if i == 0 then c.(b0 := b) else if i == 1 then c.(b1 := b) else if i == 2 then c.(b2 := b) else c.(b3 := b)
  }

  function Swapped(c: Cell): Cell { Cell(c.b3, c.b2, c.b1, c.b0) }

  predicate IsPacked(mem: seq<Cell>)
    requires mem != []
  {
    Value(mem[0]) > UNPACKEDMAX
  }

  // ---------------------------------------------------------------- what a string in memory means

  /** The characters of a cell from byte i down, as far as the first zero. */
  function Chars(c: Cell, i: nat): seq<Byte>
    ensures |Chars(c, i)| <= i + 1
  {
    if Get(c, i) == 0 then [] else [Get(c, i)] + (if i == 0 then [] else Chars(c, i - 1))
  }

  /** The packed characters from byte i of the first cell down, and on through the cells. */
  function PackedFrom(mem: seq<Cell>, i: nat): seq<Byte>
    decreases |mem|
  {
    if mem == [] then []
    else if |Chars(mem[0], i)| <= i then Chars(mem[0], i)
    else Chars(mem[0], i) + PackedFrom(mem[1..], 3)
  }

  function UnpackedText(mem: seq<Cell>): seq<Byte> {
    if mem == [] || Value(mem[0]) == 0 then [] else [mem[0].b0] + UnpackedText(mem[1..])
  }

  function Text(mem: seq<Cell>): seq<Byte>
    requires mem != []
  {
    if IsPacked(mem) then PackedFrom(mem, 3) else UnpackedText(mem)
  }

  predicate HasNul(c: Cell) { c.b0 == 0 || c.b1 == 0 || c.b2 == 0 || c.b3 == 0 }

  /** The terminator lies inside the memory. */
  predicate Terminated(mem: seq<Cell>) {
    mem != [] &&
    if IsPacked(mem) then exists k :: 0 <= k < |mem| && HasNul(mem[k])
    else exists k :: 0 <= k < |mem| && Value(mem[k]) == 0
  }

  // ---------------------------------------------------------------- storing

  /** How many characters survive a limit of `size` cells. */
  function Kept(length: nat, size: nat): int {
    if size < UNLIMITED / 4 && length >= 4 * size then 4 * size - 1 else length
  }

  /** A string laid out for packing: full cells, then one with what is left and zeros. */
  function Pack(text: seq<Byte>): (mem: seq<Cell>)
    ensures mem != [] && 4 * |mem| <= |text| + 4
  {
    if |text| < 4 then [Rest(text)] else [Cell(text[3], text[2], text[1], text[0])] + Pack(text[4..])
  }

  function Rest(text: seq<Byte>): Cell
    requires |text| < 4
  {
    Cell(0, if |text| > 2 then text[2] else 0, if |text| > 1 then text[1] else 0, if |text| > 0 then text[0] else 0)
  }

  lemma RestMeans(text: seq<Byte>)
    requires |text| < 4 && forall i :: 0 <= i < |text| ==> text[i] != 0
    ensures Chars(Rest(text), 3) == text
  {
    var c := Rest(text);
    assert Chars(c, 0) == [];
    assert Chars(c, 1) == if |text| > 2 then [text[2]] else [];
    assert Chars(c, 2) == if |text| > 1 then [text[1]] + Chars(c, 1) else [];
    assert Chars(c, 3) == if |text| > 0 then [text[0]] + Chars(c, 2) else [];
  }

  lemma FullMeans(c: Cell)
    ensures !HasNul(c) ==> Chars(c, 3) == [c.b3, c.b2, c.b1, c.b0]
    ensures HasNul(c) ==> |Chars(c, 3)| <= 3
  {
    assert Chars(c, 0) == if c.b0 == 0 then [] else [c.b0];
    assert Chars(c, 1) == if c.b1 == 0 then [] else [c.b1] + Chars(c, 0);
    assert Chars(c, 2) == if c.b2 == 0 then [] else [c.b2] + Chars(c, 1);
    assert Chars(c, 3) == if c.b3 == 0 then [] else [c.b3] + Chars(c, 2);
  }

  /** Unpacking undoes packing, whatever follows in memory. */
  lemma {:induction false} PackMeans(text: seq<Byte>, beyond: seq<Cell>)
    requires forall i :: 0 <= i < |text| ==> text[i] != 0
    ensures PackedFrom(Pack(text) + beyond, 3) == text
    ensures exists k :: 0 <= k < |Pack(text)| && HasNul(Pack(text)[k])
  {
    hide Chars, Rest;
    var mem := Pack(text) + beyond;
    if |text| < 4 {
      RestMeans(text);
      FullMeans(mem[0]);
      assert mem[0] == Rest(text);
      assert HasNul(Pack(text)[0]) by { RestHasNul(text); }
    } else {
      PackMeans(text[4..], beyond);
      FullMeans(mem[0]);
      assert mem[1..] == Pack(text[4..]) + beyond;
      assert text == text[..4] + text[4..];
      var k :| 0 <= k < |Pack(text[4..])| && HasNul(Pack(text[4..])[k]);
      assert Pack(text)[k + 1] == Pack(text[4..])[k];
    }
  }

  lemma RestHasNul(text: seq<Byte>)
    requires |text| < 4
    ensures HasNul(Rest(text))
  {
  }

  lemma PackedReads(text: seq<Byte>, beyond: seq<Cell>)
    requires forall i :: 0 <= i < |text| ==> text[i] != 0
    ensures var mem := Pack(text) + beyond; Terminated(mem) && Text(mem) == text
  {
    hide Chars, Value;
    var mem := Pack(text) + beyond;
    PackMeans(text, beyond);
    ValueFacts(mem[0]);
    var k :| 0 <= k < |Pack(text)| && HasNul(Pack(text)[k]);
    assert HasNul(mem[k]);
    if text == [] {
      assert mem[0] == ZERO && mem[..1] == [ZERO] && UnpackedText(mem) == [];
    } else {
      assert mem[0].b3 == text[0] != 0;
    }
  }

  /** What the copy leaves before the swap: characters in address order, zeros behind them. */
  predicate Laid(mem: seq<Cell>, text: seq<Byte>, n: nat) {
    forall k: nat, i: nat :: k < |mem| && i < 4 && 4 * k + i < n ==>
      Get(mem[k], i) == if 4 * k + i < |text| then text[4 * k + i] else 0
  }

  /** Swapping the laid cells is packing. */
  lemma {:induction false} LaidPacks(mem: seq<Cell>, text: seq<Byte>)
    requires 4 * |mem| <= |text| + 4 < 4 * |mem| + 4 && Laid(mem, text, 4 * |mem|)
    ensures |Pack(text)| == |mem| && forall k :: 0 <= k < |mem| ==> Pack(text)[k] == Swapped(mem[k])
    decreases |mem|
  {
    var c := mem[0];
    assert Get(c, 0) == c.b0 && Get(c, 1) == c.b1 && Get(c, 2) == c.b2 && Get(c, 3) == c.b3;
    assert 4 * 0 + 0 == 0 && 4 * 0 + 1 == 1 && 4 * 0 + 2 == 2 && 4 * 0 + 3 == 3;
    if |text| >= 4 {
      var m, t := mem[1..], text[4..];
      forall k: nat, i: nat | k < |m| && i < 4 && 4 * k + i < 4 * |m|
        ensures Get(m[k], i) == if 4 * k + i < |t| then t[4 * k + i] else 0
      {
        assert Get(mem[k + 1], i) == if 4 * (k + 1) + i < |text| then text[4 * (k + 1) + i] else 0;
      }
      LaidPacks(m, t);
      forall k | 0 <= k < |mem| ensures Pack(text)[k] == Swapped(mem[k]) {
        if k > 0 { assert Pack(text)[k] == Pack(t)[k - 1] && mem[k] == m[k - 1]; }
      }
    }
  }

  /** memcpy of a string over cells, the last of which was cleared. */
  method CopyBytes(dest: array<Cell>, source: seq<Byte>)
    requires |source| / 4 < dest.Length && dest[|source| / 4] == ZERO
    modifies dest
    ensures Laid(dest[..|source| / 4 + 1], source, 4 * (|source| / 4 + 1))
    ensures forall k :: |source| / 4 < k < dest.Length ==> dest[k] == old(dest[k])
  {
    var last := |source| / 4;
    var k, i := 0, 0;
    while 4 * k + i < |source|
      invariant 0 <= i < 4 && 0 <= k <= last && 4 * k + i <= |source|
      invariant forall a: nat, b: nat :: a <= last && b < 4 && (a < k || (a == k && b < i)) ==>
        Get(dest[a], b) == source[4 * a + b]
      invariant forall b: nat :: b < 4 && (k < last || i <= b) ==> Get(dest[last], b) == 0
      invariant forall j :: last < j < dest.Length ==> dest[j] == old(dest[j])
      decreases |source| - 4 * k - i
    {
      ghost var was := dest[k];
      dest[k] := Put(dest[k], i, source[4 * k + i]);
      forall b: nat | b < 4 ensures Get(dest[k], b) == if b == i then source[4 * k + i] else Get(was, b) {}
      if i == 3 { k, i := k + 1, 0; } else { i := i + 1; }
    }
  }

  /** amx_SetString with `pack` and room for at least one cell: the memory then means the longest prefix that fits
      with its terminator. */
  method SetPacked(dest: array<Cell>, source: seq<Byte>, size: nat)
    requires size >= 1 && forall i :: 0 <= i < |source| ==> source[i] != 0
    requires Kept(|source|, size) / 4 < dest.Length
    modifies dest
    ensures Terminated(dest[..]) && Text(dest[..]) == source[..Kept(|source|, size)]
    ensures forall k :: Kept(|source|, size) / 4 < k < dest.Length ==> dest[k] == old(dest[k])
  {
    hide Text, Terminated, Pack, Laid, Swapped;
    var len := |source|;
    if size < UNLIMITED / 4 && len >= size * 4 { len := size * 4 - 1; }
    var last := len / 4;
    dest[last] := ZERO;
    CopyBytes(dest, source[..len]);
    ghost var laid := dest[..];
    var k := last;
    while k >= 0
      invariant -1 <= k <= last
      invariant forall j :: 0 <= j <= k ==> dest[j] == laid[j]
      invariant forall j :: k < j <= last ==> dest[j] == Swapped(laid[j])
      invariant forall j :: last < j < dest.Length ==> dest[j] == laid[j]
    {
      dest[k] := Swapped(dest[k]);
      k := k - 1;
    }
    LaidPacks(laid[..last + 1], source[..len]);
    assert dest[..] == Pack(source[..len]) + dest[last + 1..];
    PackedReads(source[..len], dest[last + 1..]);
  }

  /** A character as the host's signed char, in a cell. */
  function SignExtended(c: Byte): Cell { if c < 128 then Cell(c, 0, 0, 0) else Cell(c, 255, 255, 255) }

  /** What amx_SetString without `pack` leaves: each character sign-extended, then a zero cell. */
  predicate Unpacked(mem: seq<Cell>, text: seq<Byte>) {
    |text| < |mem| && mem[|text|] == ZERO && forall i :: 0 <= i < |text| ==> mem[i] == SignExtended(text[i])
  }

  method SetUnpacked(dest: array<Cell>, source: seq<Byte>, size: nat)
    requires size >= 1
    requires (if size < UNLIMITED && |source| >= size then size - 1 else |source|) < dest.Length
    modifies dest
    ensures var len := if size < UNLIMITED && |source| >= size then size - 1 else |source|;
      Unpacked(dest[..], source[..len]) && forall k :: len < k < dest.Length ==> dest[k] == old(dest[k])
  {
    var len := |source|;
    if size < UNLIMITED && len >= size { len := size - 1; }
    var i := 0;
    while i < len
      invariant 0 <= i <= len
      invariant forall j :: 0 <= j < i ==> dest[j] == SignExtended(source[j])
      invariant forall j :: len < j < dest.Length ==> dest[j] == old(dest[j])
    {
      dest[i] := SignExtended(source[i]);
      i := i + 1;
    }
    dest[len] := ZERO;
  }

  lemma {:induction false} UnpackedMeans(mem: seq<Cell>, text: seq<Byte>)
    requires Unpacked(mem, text) && forall i :: 0 <= i < |text| ==> text[i] != 0
    ensures UnpackedText(mem) == text
  {
    hide Value;
    ValueFacts(mem[0]);
    if text != [] {
      assert mem[0] == SignExtended(text[0]);
      UnpackedMeans(mem[1..], text[1..]);
    }
  }

  /** Storing unpacked loses nothing exactly when the string does not begin with a character above 127: that one
      turns negative and makes the whole string read as packed. */
  lemma UnpackedExactly(mem: seq<Cell>, text: seq<Byte>)
    requires Unpacked(mem, text) && forall i :: 0 <= i < |text| ==> text[i] != 0
    ensures Terminated(mem) && Text(mem) == text <==> text == [] || text[0] < 128
  {
    hide Value, PackedFrom;
    UnpackedMeans(mem, text);
    ValueFacts(mem[0]);
    ValueFacts(mem[|text|]);
    if text != [] && text[0] >= 128 {
      assert mem[0] == SignExtended(text[0]);
      AllHigh(mem, text);
    }
  }

  /** Read as packed, a cell of a character above 127 gives four, and any other cell ends the text: the packed
      reading is four times as long as the leading characters above 127, and consists of such characters. */
  lemma {:induction false} AllHigh(mem: seq<Cell>, text: seq<Byte>)
    requires Unpacked(mem, text)
    ensures text != [] && text[0] >= 128 ==> PackedFrom(mem, 3) != text
    ensures forall i :: 0 <= i < |PackedFrom(mem, 3)| ==> PackedFrom(mem, 3)[i] >= 128
    ensures exists n: nat :: n <= |text| && |PackedFrom(mem, 3)| == 4 * n && (n < |text| ==> text[n] < 128)
  {
    hide Chars;
    FullMeans(mem[0]);
    if text != [] && text[0] >= 128 {
      assert mem[0] == SignExtended(text[0]);
      var rest := PackedFrom(mem[1..], 3);
      AllHigh(mem[1..], text[1..]);
      assert PackedFrom(mem, 3) == [255, 255, 255, text[0]] + rest;
      var n :| 0 <= n <= |text[1..]| && |rest| == 4 * n && (n < |text[1..]| ==> text[1..][n] < 128);
      assert n + 1 < |text| ==> text[n + 1] < 128;
      assert |PackedFrom(mem, 3)| == 4 * (n + 1);
    } else {
      NoChars(mem[0]);
      assert |PackedFrom(mem, 3)| == 4 * 0;
    }
  }

  lemma NoChars(c: Cell)
    ensures c.b3 == 0 ==> Chars(c, 3) == []
  {
  }

  // ---------------------------------------------------------------- reading

  /** (char)(c >> 8 * i) */
  function Shifted(c: int, i: nat): Byte {
    (if i == 0 then c else if i == 1 then c / 0x100 else if i == 2 then c / 0x1_0000 else c / 0x100_0000) % 256
  }

  lemma ShiftedIsByte(c: Cell, i: nat)
    requires i < 4
    ensures Shifted(Value(c), i) == Get(c, i)
  {
    ShiftedValue(c.b0, c.b1, c.b2, c.b3);
  }

  lemma ShiftedValue(b0: Byte, b1: Byte, b2: Byte, b3: Byte)
    ensures var v := b0 + 0x100 * (b1 as int) + 0x1_0000 * (b2 as int) + 0x100_0000 * (b3 as int);
      v % 256 == b0 && v / 0x100 % 256 == b1 && v / 0x1_0000 % 256 == b2 && v / 0x100_0000 % 256 == b3
  {
    var v2 := b2 + 0x100 * (b3 as int);
    var v1 := b1 + 0x100 * v2;
    var v := b0 + 0x100 * v1;
    assert v / 0x100 == v1 && v1 / 0x100 == v2 && v2 / 0x100 == b3;
    assert v / 0x1_0000 == v2 && v / 0x100_0000 == b3;
  }

  lemma PackedStep(mem: seq<Cell>, at: nat, i: nat)
    requires i < 4 && at < |mem|
    ensures PackedFrom(mem[at..], i) ==
      if Get(mem[at], i) == 0 then []
      else [Get(mem[at], i)] + if i == 0 then PackedFrom(mem[at + 1..], 3) else PackedFrom(mem[at..], i - 1)
  {
  }

  lemma UnpackedStep(mem: seq<Cell>, at: nat)
    requires at < |mem|
    ensures UnpackedText(mem[at..]) == if Value(mem[at]) == 0 then [] else [mem[at].b0] + UnpackedText(mem[at + 1..])
  {
  }

  /** amx_GetString: the longest prefix of the text that leaves room for the terminator, terminated; a packed text
      that ends early is terminated twice; nothing else is written. */
  method GetString(dest: array<Byte>, source: seq<Cell>, size: nat)
    requires Terminated(source)
    requires size <= dest.Length || |Text(source)| + 2 <= dest.Length
    modifies dest
    ensures var text := Text(source); var kept := if |text| < size then |text| else size - 1;
      size > 0 ==> dest[..kept] == text[..kept] && dest[kept] == 0
    ensures forall i ::
      0 <= i < dest.Length
      && (i >= size || i > |Text(source)| + 1 || (i == |Text(source)| + 1 && !IsPacked(source))) ==>
      dest[i] == old(dest[i])
  {
    hide PackedFrom, UnpackedText, Shifted, Get, Value;
    ghost var text := Text(source);
    var len := 0;
    if Value(source[0]) > UNPACKEDMAX {
      len := GetPacked(dest, source, size);
    } else {
      len := GetUnpacked(dest, source, size);
    }
    if len >= size { len := size - 1; }
    if len >= 0 { dest[len] := 0; }
  }

  /** Between two characters: byte i of the last cell fetched is next, or a new cell is due. */
  ghost predicate Reading(mem: seq<Cell>, text: seq<Byte>, len: nat, c: int, i: nat, at: nat, nul: nat) {
    && nul < |mem| && HasNul(mem[nul]) && i < 4 && len <= |text|
    && (i == 3 ==> at <= nul && text[len..] == PackedFrom(mem[at..], 3))
    && (i < 3 ==> 0 < at <= nul + 1 && c == Value(mem[at - 1]) && text[len..] == PackedFrom(mem[at - 1..], i))
    && (i < 3 && at - 1 == nul ==> NulBelow(mem[nul], i))
  }

  function Below(i: int): (r: int)
    ensures 0 <= i < 4 ==> r == if i == 0 then 3 else i - 1
  {
    (i + 3) % 4
  }

  lemma ReadingStep(mem: seq<Cell>, text: seq<Byte>, len: nat, c: int, i: nat, at: nat, nul: nat)
    requires Reading(mem, text, len, c, i, at, nul)
    ensures i == 3 ==> at < |mem|
    ensures var c' := if i == 3 then Value(mem[at]) else c; var at' := if i == 3 then at + 1 else at;
      if Shifted(c', i) == 0 then len == |text|
      else len < |text| && text[len] == Shifted(c', i) && Reading(mem, text, len + 1, c', Below(i), at', nul)
  {
    hide PackedFrom, Shifted, Get, Value, Chars, NulBelow, HasNul;
    var k := if i == 3 then at else at - 1;
    NulStart(mem[k]);
    PackedStep(mem, k, i);
    ShiftedIsByte(mem[k], i);
    NulStep(mem[k], i);
    if len < |text| { assert text[len..] == [text[len]] + text[len + 1..]; }
  }

  method GetPacked(dest: array<Byte>, source: seq<Cell>, size: nat) returns (len: nat)
    requires exists k :: 0 <= k < |source| && HasNul(source[k])
    requires size <= dest.Length || |PackedFrom(source, 3)| + 2 <= dest.Length
    modifies dest
    ensures var text := PackedFrom(source, 3); len == if |text| < size then |text| + 1 else size
    ensures var text := PackedFrom(source, 3); forall j :: 0 <= j < len ==> dest[j] == if j < |text| then text[j] else 0
    ensures forall j :: len <= j < dest.Length ==> dest[j] == old(dest[j])
  {
    hide *;
    ghost var text := PackedFrom(source, 3);
    ghost var nul :| 0 <= nul < |source| && HasNul(source[nul]);
    len := 0;
    var c, i, at := 0, 3, 0;
    ReadingStart(source, nul);
    while len < size
      invariant 0 <= len <= size && len <= |text| && 0 <= i < 4 && 0 <= at
      invariant Reading(source, text, len, c, i, at, nul)
      invariant forall j :: 0 <= j < len ==> dest[j] == text[j]
      invariant forall j :: len <= j < dest.Length ==> dest[j] == old(dest[j])
      decreases size - len
    {
      ReadingStep(source, text, len, c, i, at, nul);
      if i == 3 {
        c := Value(source[at]);
        at := at + 1;
      }
      dest[len] := Shifted(c, i);
      len := len + 1;
      if dest[len - 1] == 0 { break; }
      i := Below(i);
    }
  }

  lemma ReadingStart(source: seq<Cell>, nul: nat)
    requires nul < |source| && HasNul(source[nul])
    ensures Reading(source, PackedFrom(source, 3), 0, 0, 3, 0, nul)
  {
    hide PackedFrom;
    var text := PackedFrom(source, 3);
    assert source[0..] == source && text[0..] == text;
  }

  predicate NulBelow(c: Cell, i: nat) { exists j: nat :: j <= i && Get(c, j) == 0 }

  lemma NulStart(c: Cell)
    ensures HasNul(c) ==> NulBelow(c, 3)
  {
    assert Get(c, 0) == c.b0 && Get(c, 1) == c.b1 && Get(c, 2) == c.b2 && Get(c, 3) == c.b3;
  }

  lemma NulStep(c: Cell, i: nat)
    requires i < 4
    ensures NulBelow(c, i) && Get(c, i) != 0 ==> i > 0 && NulBelow(c, i - 1)
  {
  }

  ghost predicate UnpackedReading(mem: seq<Cell>, text: seq<Byte>, len: nat, nul: nat) {
    nul < |mem| && Value(mem[nul]) == 0 && len <= nul && len <= |text| && text[len..] == UnpackedText(mem[len..])
  }

  lemma UnpackedReadingStep(mem: seq<Cell>, text: seq<Byte>, len: nat, nul: nat)
    requires UnpackedReading(mem, text, len, nul)
    ensures len < |mem| && if Value(mem[len]) == 0 then len == |text|
      else len < |text| && text[len] == Shifted(Value(mem[len]), 0) && UnpackedReading(mem, text, len + 1, nul)
  {
    hide UnpackedText, Shifted, Get, Value;
    UnpackedStep(mem, len);
    ShiftedIsByte(mem[len], 0);
    GetZero(mem[len]);
    if len < |text| { assert text[len..] == [text[len]] + text[len + 1..]; }
  }

  method GetUnpacked(dest: array<Byte>, source: seq<Cell>, size: nat) returns (len: nat)
    requires exists k :: 0 <= k < |source| && Value(source[k]) == 0
    requires size <= dest.Length || |UnpackedText(source)| + 2 <= dest.Length
    modifies dest
    ensures var text := UnpackedText(source); len == if |text| < size then |text| else size
    ensures var text := UnpackedText(source); forall j :: 0 <= j < len ==> dest[j] == text[j]
    ensures forall j :: len <= j < dest.Length ==> dest[j] == old(dest[j])
  {
    ghost var text := UnpackedText(source);
    ghost var nul :| 0 <= nul < |source| && Value(source[nul]) == 0;
    assert source[0..] == source && text[0..] == text;
    len := 0;
    assert UnpackedReading(source, text, len, nul);
    hide *;
    UnpackedReadingStep(source, text, len, nul);
    while Value(source[len]) != 0 && len < size
      invariant 0 <= len <= size && len <= |text| && len < |source| && UnpackedReading(source, text, len, nul)
      invariant forall j :: 0 <= j < len ==> dest[j] == text[j]
      invariant forall j :: len <= j < dest.Length ==> dest[j] == old(dest[j])
      decreases size - len
    {
      UnpackedReadingStep(source, text, len, nul);
      dest[len] := Shifted(Value(source[len]), 0);
      len := len + 1;
      UnpackedReadingStep(source, text, len, nul);
    }
    UnpackedReadingStep(source, text, len, nul);
  }

  lemma GetZero(c: Cell)
    ensures Get(c, 0) == c.b0
  {
  }

  // ---------------------------------------------------------------- measuring

  /** c <<= 8, i times over */
  function Raised(c: Cell, i: nat): Cell {
    if i == 0 then c else if i == 1 then Cell(0, c.b0, c.b1, c.b2)
    else if i == 2 then Cell(0, 0, c.b0, c.b1) else if i == 3 then Cell(0, 0, 0, c.b0) else ZERO
  }

  lemma RaisedStep(c: Cell, i: nat)
    requires i < 4
    ensures Value(Raised(c, i)) * 0x100 % 0x1_0000_0000 == Value(Raised(c, i + 1))
    ensures Value(Raised(c, i)) >= 0x100_0000 <==> Get(c, 3 - i) != 0
  {
    hide Value;
    var r, n := Raised(c, i), Raised(c, i + 1);
    assert n == Cell(0, r.b0, r.b1, r.b2);
    ShiftValue(r);
    ValueFacts(r);
  }

  lemma ShiftValue(r: Cell)
    ensures Value(r) * 0x100 % 0x1_0000_0000 == Value(Cell(0, r.b0, r.b1, r.b2))
  {
    var v := Value(Cell(0, r.b0, r.b1, r.b2));
    assert Value(r) * 0x100 == (r.b3 as int) * 0x1_0000_0000 + v;
    assert 0 <= v < 0x1_0000_0000;
  }

  /** As long as no cell holds a zero byte, four characters come from each. */
  lemma {:induction false} FullCells(mem: seq<Cell>, k: nat)
    requires k < |mem| && HasNul(mem[k]) && forall j :: 0 <= j < k ==> !HasNul(mem[j])
    ensures |PackedFrom(mem, 3)| == 4 * k + |Chars(mem[k], 3)| && |Chars(mem[k], 3)| <= 3
    decreases k
  {
    hide Chars;
    FullMeans(mem[0]);
    FullMeans(mem[k]);
    if k > 0 { FullCells(mem[1..], k - 1); }
  }

  /** Before the first zero byte in address order all cells are free of zeros. */
  predicate NoNulBefore(mem: seq<Cell>, k: nat) { forall j :: 0 <= j < k && j < |mem| ==> !HasNul(mem[j]) }

  /** amx_StrLen finds the first zero byte in address order, which need not be the terminator but lies in the same
      cell: so for every string, packed or not, the result is the length of the text. */
  method StrLen(cstr: seq<Cell>) returns (length: nat)
    requires Terminated(cstr)
    ensures length == |Text(cstr)|
  {
    hide PackedFrom, UnpackedText, Value, Get, Chars;
    if Value(cstr[0]) > UNPACKEDMAX {
      length := StrLenPacked(cstr);
    } else {
      ghost var nul :| 0 <= nul < |cstr| && Value(cstr[nul]) == 0;
      assert cstr[0..] == cstr;
      length := 0;
      while Value(cstr[length]) != 0
        invariant length <= nul && |UnpackedText(cstr)| == length + |UnpackedText(cstr[length..])|
        decreases nul - length
      {
        UnpackedStep(cstr, length);
        length := length + 1;
      }
      UnpackedStep(cstr, length);
    }
  }

  method FirstZeroByte(cstr: seq<Cell>) returns (len: nat)
    requires exists k :: 0 <= k < |cstr| && HasNul(cstr[k])
    ensures len / 4 < |cstr| && HasNul(cstr[len / 4]) && NoNulBefore(cstr, len / 4)
  {
    ghost var nul :| 0 <= nul < |cstr| && HasNul(cstr[nul]);
    var k, i := 0, 0;
    while Get(cstr[k], i) != 0
      invariant 0 <= k <= nul && 0 <= i < 4 && NoNulBefore(cstr, k)
      invariant forall j: nat :: j < i ==> Get(cstr[k], j) != 0
      decreases nul - k, 4 - i
    {
      if i == 3 {
        assert Get(cstr[k], 0) != 0 && Get(cstr[k], 1) != 0 && Get(cstr[k], 2) != 0;
        k, i := k + 1, 0;
      } else {
        i := i + 1;
      }
    }
    len := 4 * k + i;
  }

  method StrLenPacked(cstr: seq<Cell>) returns (len: nat)
    requires exists k :: 0 <= k < |cstr| && HasNul(cstr[k])
    ensures len == |PackedFrom(cstr, 3)|
  {
    hide PackedFrom, Value, Get, Chars, HasNul, Raised;
    len := FirstZeroByte(cstr);
    var cell := cstr[len / 4];
    FullCells(cstr, len / 4);
    var c := Value(cell);
    ghost var k := len / 4;
    len := len - len % 4;
    ghost var i := 0;
    assert Raised(cell, 0) == cell by { RaisedZero(cell); }
    while c >= 0x100_0000
      invariant 0 <= i <= |Chars(cell, 3)| <= 3 && len == 4 * k + i && c == Value(Raised(cell, i))
      invariant i + |Chars(cell, 3 - i)| == |Chars(cell, 3)|
      decreases 4 - i
    {
      RaisedStep(cell, i);
      CharsStep(cell, 3 - i);
      c := c * 0x100 % 0x1_0000_0000;
      len := len + 1;
      i := i + 1;
    }
    RaisedStep(cell, i);
    CharsStep(cell, 3 - i);
  }

  lemma RaisedZero(c: Cell)
    ensures Raised(c, 0) == c
  {
  }

  lemma CharsStep(c: Cell, i: nat)
    ensures |Chars(c, i)| == if Get(c, i) == 0 then 0 else 1 + if i == 0 then 0 else |Chars(c, i - 1)|
  {
  }
}
