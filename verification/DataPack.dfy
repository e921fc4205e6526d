/** The tagged serialiser: a growing byte buffer, a cursor and a count of the bytes packed.  Cells, floats and
    size_t take four bytes, little end first; a float is its bit pattern. */
module DataPack {
  import opened Words

  type Word = Words.Cell

  const INITIAL_SIZE := 64
  const CELL: Byte := 1
  const FLOAT: Byte := 2
  const STRING: Byte := 3

  // ---------------------------------------------------------------- bytes

  /** strlen from p; a string that runs out of the buffer counts as ending there. */
  function StrLen(mem: seq<Byte>, p: nat): nat
    decreases |mem| - p
  {
    if p >= |mem| || mem[p] == 0 then 0 else 1 + StrLen(mem, p + 1)
  }

  lemma {:induction false} StrLenIs(mem: seq<Byte>, p: nat, n: nat)
    requires p + n < |mem| && mem[p + n] == 0 && forall i :: p <= i < p + n ==> mem[i] != 0
    ensures StrLen(mem, p) == n
    decreases n
  {
    if n > 0 { StrLenIs(mem, p + 1, n - 1); }
  }

  // ---------------------------------------------------------------- what a pack holds

  datatype Item = Cell(value: Word) | Float(bits: Word) | Str(text: seq<Byte>)

  /** Strings end at their first zero byte, and their length fits size_t. */
  predicate Packable(i: Item) {
    i.Str? ==> (forall k :: 0 <= k < |i.text| ==> i.text[k] != 0) && |i.text| < 0x1_0000_0000
  }

  function Encode(i: Item): seq<Byte>
    requires Packable(i)
  {
    match i
    case Cell(v) => [CELL] + LE(4) + LE(v)
    case Float(b) => [FLOAT] + LE(4) + LE(b)
    case Str(t) => [STRING] + LE(|t|) + t + [0]
  }

  predicate AllPackable(items: seq<Item>) { forall i :: 0 <= i < |items| ==> Packable(items[i]) }

  function EncodeAll(items: seq<Item>): seq<Byte>
    requires AllPackable(items)
  {
    if items == [] then [] else EncodeAll(items[..|items| - 1]) + Encode(items[|items| - 1])
  }

  // ---------------------------------------------------------------- what reading sees

  predicate IsReadable(size: nat, cur: nat, bytes: nat) { bytes + cur <= size }

  /** CanReadCell and CanReadFloat. */
  predicate CanReadWord(mem: seq<Byte>, size: nat, cur: nat, tag: Byte)
    requires size <= |mem|
  {
    IsReadable(size, cur, 9) && mem[cur] == tag && FromLE(mem[cur + 1..cur + 5]) == 4
  }

  predicate CanReadString(mem: seq<Byte>, size: nat, cur: nat)
    requires size <= |mem|
  {
    && IsReadable(size, cur, 5) && mem[cur] == STRING
    && StrLen(mem, cur + 5) == FromLE(mem[cur + 1..cur + 5]) && IsReadable(size, cur, 6 + FromLE(mem[cur + 1..cur + 5]))
  }

  /** `i` lies at p. */
  predicate Lies(mem: seq<Byte>, p: nat, i: Item) {
    Packable(i) && p + |Encode(i)| <= |mem| && mem[p..p + |Encode(i)|] == Encode(i)
  }

  /** Where an item lies, reading with its own type sees it and with another sees nothing. */
  lemma WordSeen(mem: seq<Byte>, size: nat, cur: nat, i: Item, tag: Byte)
    requires size <= |mem| && Lies(mem, cur, i) && cur + |Encode(i)| <= size && (tag == CELL || tag == FLOAT)
    ensures CanReadWord(mem, size, cur, tag) <==> (i.Cell? && tag == CELL) || (i.Float? && tag == FLOAT)
    ensures CanReadWord(mem, size, cur, tag) ==> FromLE(mem[cur + 5..cur + 9]) == if i.Cell? then i.value else i.bits
  {
    hide LE, FromLE, Encode;
    var e := Encode(i);
    WordBytes(i);
    SliceSeen(mem, cur, e, 0, 0);
    if !i.Str? {
      var v := if i.Cell? then i.value else i.bits;
      LEBack(4);
      LEBack(v);
      SliceSeen(mem, cur, e, 1, 5);
      SliceSeen(mem, cur, e, 5, 9);
    }
  }

  lemma WordBytes(i: Item)
    requires Packable(i)
    ensures |Encode(i)| > 0 && Encode(i)[0] == if i.Cell? then CELL else if i.Float? then FLOAT else STRING
    ensures !i.Str? ==> var e := Encode(i);
      |e| == 9 && e[1..5] == LE(4) && e[5..9] == LE(if i.Cell? then i.value else i.bits)
  {
    hide LE;
  }

  lemma TextSeen(mem: seq<Byte>, p: nat, text: seq<Byte>)
    requires p + |text| < |mem| && mem[p..p + |text|] == text && mem[p + |text|] == 0
    requires forall k :: 0 <= k < |text| ==> text[k] != 0
    ensures StrLen(mem, p) == |text|
  {
    forall k | p <= k < p + |text| ensures mem[k] != 0 { assert mem[k] == mem[p..p + |text|][k - p] == text[k - p]; }
    StrLenIs(mem, p, |text|);
  }

  lemma SliceSeen(mem: seq<Byte>, p: nat, e: seq<Byte>, a: nat, b: nat)
    requires p + |e| <= |mem| && mem[p..p + |e|] == e && a <= b <= |e|
    ensures mem[p + a..p + b] == e[a..b] && (a < |e| ==> mem[p + a] == e[a])
  {
    forall k | 0 <= k < |e| ensures mem[p + k] == e[k] { assert mem[p..p + |e|][k] == e[k]; }
    forall k | 0 <= k < b - a ensures mem[p + a..p + b][k] == e[a..b][k] { assert mem[p + (a + k)] == e[a + k]; }
  }

  lemma StringBytes(t: seq<Byte>)
    requires Packable(Str(t))
    ensures var e := Encode(Str(t)); var n := |t|;
      |e| == n + 6 && e[0] == STRING && e[1..5] == LE(n) && e[5..5 + n] == t && e[5 + n] == 0
  {
  }

  lemma StringReads(mem: seq<Byte>, size: nat, cur: nat, n: nat)
    requires cur + 6 + n <= size <= |mem| && mem[cur] == STRING
    requires FromLE(mem[cur + 1..cur + 5]) == n && StrLen(mem, cur + 5) == n
    ensures CanReadString(mem, size, cur)
  {
  }

  lemma OtherReads(mem: seq<Byte>, size: nat, cur: nat)
    requires cur < size <= |mem|
    ensures mem[cur] != STRING ==> !CanReadString(mem, size, cur)
  {
  }

  lemma FirstByte(i: Item)
    requires Packable(i)
    ensures |Encode(i)| > 0 && (Encode(i)[0] == STRING <==> i.Str?)
  {
  }

  lemma StringSeen(mem: seq<Byte>, size: nat, cur: nat, i: Item)
    requires size <= |mem| && Lies(mem, cur, i) && cur + |Encode(i)| <= size
    ensures CanReadString(mem, size, cur) <==> i.Str?
    ensures i.Str? ==> FromLE(mem[cur + 1..cur + 5]) == |i.text| && mem[cur + 5..cur + 5 + |i.text|] == i.text
  {
    hide LE, FromLE, StrLen, CanReadString, Encode;
    var e := Encode(i);
    FirstByte(i);
    SliceSeen(mem, cur, e, 0, 0);
    OtherReads(mem, size, cur);
    if i.Str? {
      var n := |i.text|;
      LEBack(n);
      StringBytes(i.text);
      SliceSeen(mem, cur, e, 1, 5);
      SliceSeen(mem, cur, e, 5, 5 + n);
      SliceSeen(mem, cur, e, 5 + n, 5 + n);
      TextSeen(mem, cur + 5, i.text);
      StringReads(mem, size, cur, n);
    }
  }

  // ---------------------------------------------------------------- sequences of items

  /** The position of the k-th item. */
  function Boundary(items: seq<Item>, k: nat): nat
    requires AllPackable(items) && k <= |items|
  {
    |EncodeAll(items[..k])|
  }

  lemma {:induction false} EncodeAllPrefix(items: seq<Item>, k: nat)
    requires AllPackable(items) && k <= |items|
    ensures EncodeAll(items[..k]) <= EncodeAll(items)
    decreases |items|
  {
    if k < |items| {
      var rest := items[..|items| - 1];
      EncodeAllPrefix(rest, k);
      assert rest[..k] == items[..k];
    } else {
      assert items[..k] == items;
    }
  }

  lemma LiesBehind(a: seq<Byte>, i: Item, mem: seq<Byte>)
    requires Packable(i) && a + Encode(i) <= mem
    ensures Lies(mem, |a|, i)
  {
    hide Encode;
  }

  /** Items lie one behind the other. */
  lemma ItemLies(items: seq<Item>, k: nat)
    requires AllPackable(items) && k < |items|
    ensures Lies(EncodeAll(items), Boundary(items, k), items[k])
    ensures Boundary(items, k + 1) == Boundary(items, k) + |Encode(items[k])| <= |EncodeAll(items)|
  {
    hide Encode;
    var upTo := items[..k + 1];
    assert upTo[..k] == items[..k];
    assert EncodeAll(upTo) == EncodeAll(items[..k]) + Encode(items[k]);
    EncodeAllPrefix(items, k + 1);
    LiesBehind(EncodeAll(items[..k]), items[k], EncodeAll(items));
  }

  lemma LiesOn(a: seq<Byte>, mem: seq<Byte>, p: nat, i: Item)
    requires Lies(a, p, i) && a <= mem
    ensures Lies(mem, p, i)
  {
  }

  // ---------------------------------------------------------------- the object

  function Doubled(capacity: nat, need: nat): (c: nat)
    requires capacity > 0
    ensures capacity <= c && need <= c
    decreases need - capacity
  {
    if need <= capacity then capacity else Doubled(2 * capacity, need)
  }

  class CDataPack {
    var base: array<Byte>
    var cur: nat
    var size: nat

    constructor ()
      ensures fresh(base) && Holds([]) && cur == 0 && base.Length == INITIAL_SIZE
    {
      base := new Byte[INITIAL_SIZE];
      cur, size := 0, 0;
    }

    /** The bytes counted are there, and are these items. */
    ghost predicate Holds(items: seq<Item>)
      reads this, base
    {
      && base.Length > 0 && AllPackable(items)
      && size == |EncodeAll(items)| <= base.Length && base[..size] == EncodeAll(items)
    }

    /** Growth keeps every byte. */
    method CheckSize(typesize: nat)
      requires base.Length > 0
      modifies this`base
      ensures base.Length == Doubled(old(base.Length), cur + typesize) && base[..old(base.Length)] == old(base[..])
      ensures base == old(base) || fresh(base)
    {
      assert base[..base.Length] == base[..];
      if cur + typesize <= base.Length { return; }
      var capacity := base.Length * 2;
      while cur + typesize > capacity
        invariant base == old(base) && capacity > 0
          && Doubled(capacity, cur + typesize) == Doubled(old(base.Length), cur + typesize)
        decreases cur + typesize - capacity
      {
        capacity := capacity * 2;
      }
      var larger := new Byte[capacity];
      var i := 0;
      while i < base.Length
        invariant base == old(base) && 0 <= i <= base.Length <= larger.Length && larger[..i] == base[..i]
          && fresh(larger)
      {
        larger[i] := base[i];
        i := i + 1;
      }
      assert larger[..i] == base[..];
      base := larger;
    }

    /** Stores bytes at the cursor and moves it behind them. */
    method Store(bytes: seq<Byte>)
      requires cur + |bytes| <= base.Length
      modifies base, this`cur
      ensures cur == old(cur) + |bytes| && base[old(cur)..cur] == bytes
      ensures forall k :: 0 <= k < base.Length && !(old(cur) <= k < cur) ==> base[k] == old(base[k])
    {
      var i := 0;
      while i < |bytes|
        invariant 0 <= i <= |bytes| && cur == old(cur)
        invariant forall k :: 0 <= k < base.Length ==>
          base[k] == if cur <= k < cur + i then bytes[k - cur] else old(base[k])
      {
        base[cur + i] := bytes[i];
        i := i + 1;
      }
      cur := cur + |bytes|;
    }

    /** PackCell, PackFloat and PackString: wherever the cursor is, the item replaces what lay there, every other
        byte stays, and the count grows by the item's size. */
    method Pack(item: Item)
      requires base.Length > 0 && cur <= base.Length && Packable(item)
      modifies this, base
      ensures base == old(base) || fresh(base)
      ensures cur == old(cur) + |Encode(item)| <= base.Length && size == old(size) + |Encode(item)|
      ensures base[old(cur)..cur] == Encode(item) && base.Length >= old(base.Length)
      ensures base[..old(cur)] == old(base[..cur])
      ensures forall k :: cur <= k < old(base.Length) ==> base[k] == old(base[k])
    {
      CheckSize(|Encode(item)|);
      ghost var start := cur;
      match item {
        case Cell(v) => StoreWord(CELL, v);
        case Float(b) => StoreWord(FLOAT, b);
        case Str(t) => StoreText(t);
      }
      size := size + |Encode(item)|;
    }

    method StoreWord(tag: Byte, v: Word)
      requires cur + 9 <= base.Length
      modifies base, this`cur
      ensures cur == old(cur) + 9 && base[old(cur)..cur] == [tag] + LE(4) + LE(v)
      ensures forall k :: 0 <= k < base.Length && !(old(cur) <= k < cur) ==> base[k] == old(base[k])
    {
      hide LE;
      ghost var start := cur;
      Store([tag]);
      Store(LE(4));
      assert base[start..cur] == [tag] + LE(4);
      Store(LE(v));
      assert base[start..start + 5] == [tag] + LE(4);
      assert base[start..cur] == base[start..start + 5] + base[start + 5..cur];
    }

    method StoreText(t: seq<Byte>)
      requires |t| < 0x1_0000_0000 && cur + 6 + |t| <= base.Length
      modifies base, this`cur
      ensures cur == old(cur) + 6 + |t| && base[old(cur)..cur] == [STRING] + LE(|t|) + t + [0]
      ensures forall k :: 0 <= k < base.Length && !(old(cur) <= k < cur) ==> base[k] == old(base[k])
    {
      hide LE;
      ghost var start := cur;
      Store([STRING]);
      Store(LE(|t|));
      assert base[start..cur] == [STRING] + LE(|t|);
      Store(t + [0]);
      assert base[start..start + 5] == [STRING] + LE(|t|);
      assert base[start..cur] == base[start..start + 5] + base[start + 5..cur];
      assert [STRING] + LE(|t|) + t + [0] == [STRING] + LE(|t|) + (t + [0]);
    }

    /** Reset, and Reset with ResetSize: the position is the start of what the pack holds; with its size reset too,
        any pack holds nothing, as a fresh one does. */
    method Reset(clear: bool)
      modifies this`cur, this`size
      ensures cur == 0 && (!clear ==> size == old(size))
      ensures clear && base.Length > 0 ==> Holds([])
    {
      cur := 0;
      if clear { size := 0; }
    }

    /** The bound is taken modulo the size of size_t, so an empty pack refuses no position. */
    method SetPosition(pos: Word) returns (ok: bool)
      requires size < 0x1_0000_0000
      modifies this`cur
      ensures ok <==> size == 0 || pos < size
      ensures cur == if ok then pos else old(cur)
    {
      if pos > (size - 1) % 0x1_0000_0000 { return false; }
      cur := pos;
      return true;
    }

    method ReadWord(tag: Byte) returns (value: Word)
      requires size <= base.Length
      modifies this`cur
      ensures var can := CanReadWord(base[..], size, old(cur), tag);
        && cur == (if can then old(cur) + 9 else old(cur))
        && value == if can then FromLE(base[old(cur) + 5..old(cur) + 9]) else 0
    {
      if !CanReadWord(base[..], size, cur, tag) { return 0; }
      cur := cur + 5;
      value := FromLE(base[cur..cur + 4]);
      cur := cur + 4;
    }

    method ReadString() returns (ok: bool, text: seq<Byte>)
      requires size <= base.Length
      modifies this`cur
      ensures ok == CanReadString(base[..], size, old(cur))
      ensures ok ==> var n := FromLE(base[old(cur) + 1..old(cur) + 5]);
        text == base[old(cur) + 5..old(cur) + 5 + n] && cur == old(cur) + 6 + n
      ensures !ok ==> cur == old(cur) && text == []
    {
      if !CanReadString(base[..], size, cur) { return false, []; }
      var n := FromLE(base[cur + 1..cur + 5]);
      cur := cur + 5;
      text := base[cur..cur + n];
      cur := cur + n + 1;
      ok := true;
    }

    /** ReadCell at the k-th item, or at the end: the value of a cell and the next boundary, and for anything else
        zero and no move. */
    method ReadCell(ghost items: seq<Item>, ghost k: nat) returns (value: Word)
      requires Holds(items) && k <= |items| && cur == Boundary(items, k)
      modifies this`cur
      ensures if k < |items| && items[k].Cell? then value == items[k].value && cur == Boundary(items, k + 1)
              else value == 0 && cur == old(cur)
    {
      hide EncodeAll, CanReadWord;
      AtBoundary(base[..], items, k, size, CELL);
      value := ReadWord(CELL);
    }

    method ReadFloat(ghost items: seq<Item>, ghost k: nat) returns (value: Word)
      requires Holds(items) && k <= |items| && cur == Boundary(items, k)
      modifies this`cur
      ensures if k < |items| && items[k].Float? then value == items[k].bits && cur == Boundary(items, k + 1)
              else value == 0 && cur == old(cur)
    {
      hide EncodeAll, CanReadWord;
      AtBoundary(base[..], items, k, size, FLOAT);
      value := ReadWord(FLOAT);
    }

    method ReadText(ghost items: seq<Item>, ghost k: nat) returns (ok: bool, text: seq<Byte>)
      requires Holds(items) && k <= |items| && cur == Boundary(items, k)
      modifies this`cur
      ensures ok <==> k < |items| && items[k].Str?
      ensures if ok then text == items[k].text && cur == Boundary(items, k + 1) else cur == old(cur)
    {
      hide EncodeAll, CanReadString, FromLE, Encode;
      AtBoundary(base[..], items, k, size, STRING);
      if k < |items| { ItemSize(items[k]); }
      ok, text := ReadString();
    }
  }

  /** What the readers see at a boundary. */
  lemma AtBoundary(mem: seq<Byte>, items: seq<Item>, k: nat, size: nat, tag: Byte)
    requires AllPackable(items) && k <= |items| && size <= |mem| && EncodeAll(items) == mem[..size]
    ensures var cur := Boundary(items, k);
      && cur <= size
      && (tag == CELL ==> (CanReadWord(mem, size, cur, tag) <==> k < |items| && items[k].Cell?))
      && (tag == FLOAT ==> (CanReadWord(mem, size, cur, tag) <==> k < |items| && items[k].Float?))
      && (tag == CELL && k < |items| && items[k].Cell? ==> FromLE(mem[cur + 5..cur + 9]) == items[k].value)
      && (tag == FLOAT && k < |items| && items[k].Float? ==> FromLE(mem[cur + 5..cur + 9]) == items[k].bits)
      && (CanReadString(mem, size, cur) <==> k < |items| && items[k].Str?)
      && (k < |items| && items[k].Str? ==>
            var n := |items[k].text|; FromLE(mem[cur + 1..cur + 5]) == n && mem[cur + 5..cur + 5 + n] == items[k].text)
      && (k < |items| ==> Boundary(items, k + 1) == cur + |Encode(items[k])|)
  {
    hide EncodeAll, Encode, FromLE, StrLen, LE, Lies, CanReadWord, CanReadString, Boundary;
    if k < |items| {
      ItemLies(items, k);
      LiesOn(EncodeAll(items), mem, Boundary(items, k), items[k]);
      if tag == CELL || tag == FLOAT { WordSeen(mem, size, Boundary(items, k), items[k], tag); }
      StringSeen(mem, size, Boundary(items, k), items[k]);
      ItemSize(items[k]);
    } else {
      BoundaryEnd(items);
      NothingRead(mem, size, size, tag);
    }
  }

  lemma ItemSize(i: Item)
    requires Packable(i)
    ensures |Encode(i)| == if i.Str? then |i.text| + 6 else 9
  {
  }

  lemma BoundaryEnd(items: seq<Item>)
    requires AllPackable(items)
    ensures Boundary(items, |items|) == |EncodeAll(items)|
  {
    hide EncodeAll;
    assert items[..|items|] == items;
  }

  lemma NothingRead(mem: seq<Byte>, size: nat, cur: nat, tag: Byte)
    requires cur == size <= |mem|
    ensures !CanReadWord(mem, size, cur, tag) && !CanReadString(mem, size, cur)
  {
    hide FromLE, StrLen;
  }

  /** Packing at the end of what is counted appends an item; anywhere else the count reaches beyond everything
      written. */
  lemma AppendExactly(before: seq<Byte>, after: seq<Byte>, cur: nat, size: nat, items: seq<Item>, item: Item)
    requires AllPackable(items) && Packable(item) && size <= |before| && before[..size] == EncodeAll(items)
      && cur <= size
    requires |before| <= |after| && cur + |Encode(item)| <= |after|
    requires after[..cur] == before[..cur] && after[cur..cur + |Encode(item)|] == Encode(item)
    ensures cur == size ==> AllPackable(items + [item]) && after[..size + |Encode(item)|] == EncodeAll(items + [item])
    ensures cur == size <==> size + |Encode(item)| == if cur + |Encode(item)| > size then cur + |Encode(item)| else size
  {
    ItemSize(item);
    hide Encode;
    if cur == size {
      assert (items + [item])[..|items|] == items;
      assert after[..size + |Encode(item)|] == after[..cur] + after[cur..cur + |Encode(item)|];
    }
  }

  lemma {:induction false} EncodeUpdate(items: seq<Item>, k: nat, item: Item)
    requires AllPackable(items) && Packable(item) && k < |items| && |Encode(item)| == |Encode(items[k])|
    ensures AllPackable(items[k := item]) && |EncodeAll(items[k := item])| == |EncodeAll(items)|
    ensures var at, e := Boundary(items, k), Encode(item); var a, b := EncodeAll(items), EncodeAll(items[k := item]);
      at + |e| <= |a| && b[..at] == a[..at] && b[at..at + |e|] == e && b[at + |e|..] == a[at + |e|..]
    decreases |items|
  {
    hide Encode;
    var n := |items| - 1;
    ItemLies(items, k);
    var rest, rest' := items[..n], items[k := item][..n];
    if k < n {
      EncodeUpdate(rest, k, item);
      assert rest' == rest[k := item] && rest[..k] == items[..k];
    } else {
      assert rest' == rest && items[..k] == rest;
    }
  }

  /** Packing at the k-th of the items counted: a reader there meets the new item.  If it is as long as the old one it
      meets all the others as before; else, what the old bytes from behind it on happen to be.  And the count now lets
      readers on behind the last item. */
  lemma OverwriteMeets(before: seq<Byte>, after: seq<Byte>, items: seq<Item>, k: nat, item: Item)
    requires AllPackable(items) && Packable(item) && k < |items|
    requires |EncodeAll(items)| <= |before| <= |after| && before[..|EncodeAll(items)|] == EncodeAll(items)
    requires var cur := Boundary(items, k); var end := cur + |Encode(item)|;
      && cur <= |before| && end <= |after| && after[..cur] == before[..cur] && after[cur..end] == Encode(item)
      && forall q :: end <= q < |before| ==> after[q] == before[q]
    ensures Lies(after, Boundary(items, k), item)
    ensures |Encode(item)| == |Encode(items[k])| ==>
      AllPackable(items[k := item]) && after[..|EncodeAll(items)|] == EncodeAll(items[k := item])
    ensures var end := Boundary(items, k) + |Encode(item)|;
      forall size, p, tag :: end <= p <= size <= |before| ==>
        (CanReadWord(after, size, p, tag) <==> CanReadWord(before, size, p, tag))
    ensures var size := |EncodeAll(items)|; IsReadable(size + |Encode(item)|, size, 6)
  {
    hide Encode, EncodeAll, FromLE, Boundary;
    var cur, size := Boundary(items, k), |EncodeAll(items)|;
    var end := cur + |Encode(item)|;
    ItemSize(item);
    if |Encode(item)| == |Encode(items[k])| {
      EncodeUpdate(items, k, item);
      UpdateSeen(before, after, EncodeAll(items), EncodeAll(items[k := item]), cur, Encode(item));
    }
    forall size: nat, p: nat, tag | end <= p <= size <= |before|
      ensures CanReadWord(after, size, p, tag) <==> CanReadWord(before, size, p, tag)
    {
      if p + 9 <= size { assert after[p + 1..p + 5] == before[p + 1..p + 5]; }
    }
  }

  lemma UpdateSeen(before: seq<Byte>, after: seq<Byte>, a: seq<Byte>, b: seq<Byte>, at: nat, e: seq<Byte>)
    requires |a| == |b| <= |before| <= |after| && before[..|a|] == a && at + |e| <= |a|
    requires b[..at] == a[..at] && b[at..at + |e|] == e && b[at + |e|..] == a[at + |e|..]
    requires after[..at] == before[..at] && after[at..at + |e|] == e
    requires forall q :: at + |e| <= q < |before| ==> after[q] == before[q]
    ensures after[..|a|] == b
  {
    forall q | 0 <= q < |a| ensures after[q] == b[q] {
      if q < at {
        assert after[q] == after[..at][q] == before[..at][q] == before[..|a|][q] == a[..at][q] == b[..at][q];
      } else if q < at + |e| {
        assert after[q] == after[at..at + |e|][q - at] == b[at..at + |e|][q - at];
      } else {
        var d := at + |e|;
        assert b[q] == b[d..][q - d] == a[d..][q - d] == before[..|a|][q];
      }
    }
  }

  /** Pack any items into a pack that holds none, rewind, and read with matching types: the same items come back,
      and the cursor ends at the end. */
  method PackAndRead(p: CDataPack, items: seq<Item>) returns (out: seq<Item>, atEnd: bool)
    requires p.Holds([]) && p.cur == 0 && AllPackable(items)
    modifies p, p.base
    ensures out == items && atEnd && p.Holds(items) && (p.base == old(p.base) || fresh(p.base))
  {
    hide Encode, EncodeAll, Boundary;
    PackAll(p, items);
    p.Reset(false);
    var k := 0;
    out := [];
    BoundaryZero(items);
    while k < |items|
      invariant 0 <= k <= |items| && p.Holds(items) && p.cur == Boundary(items, k) && out == items[..k]
      invariant p.base == old(p.base) || fresh(p.base)
    {
      match items[k] {
        case Cell(_) =>
          var v := p.ReadCell(items, k);
          out := out + [Cell(v)];
        case Float(_) =>
          var v := p.ReadFloat(items, k);
          out := out + [Float(v)];
        case Str(_) =>
          var ok, t := p.ReadText(items, k);
          out := out + [Str(t)];
      }
      k := k + 1;
    }
    atEnd := p.cur == p.size;
  }

  method PackAll(p: CDataPack, items: seq<Item>)
    requires p.Holds([]) && p.cur == 0 && AllPackable(items)
    modifies p, p.base
    ensures p.Holds(items) && (p.base == old(p.base) || fresh(p.base))
  {
    hide Encode, EncodeAll;
    var k := 0;
    assert items[..0] == [];
    EncodeNone();
    while k < |items|
      invariant 0 <= k <= |items| && p.Holds(items[..k]) && p.cur == p.size
      invariant p.base == old(p.base) || fresh(p.base)
    {
      ghost var before := p.base[..];
      assert items[..k + 1] == items[..k] + [items[k]];
      p.Pack(items[k]);
      AppendExactly(before, p.base[..], |EncodeAll(items[..k])|, |EncodeAll(items[..k])|, items[..k], items[k]);
      k := k + 1;
    }
    assert items[..k] == items;
  }

  method FreshPackAndRead(items: seq<Item>) returns (out: seq<Item>, atEnd: bool)
    requires AllPackable(items)
    ensures out == items && atEnd
  {
    var p := new CDataPack();
    out, atEnd := PackAndRead(p, items);
  }

  /** Whatever was in the pack, and wherever it was read. */
  method ResetPackAndRead(p: CDataPack, items: seq<Item>) returns (out: seq<Item>, atEnd: bool)
    requires p.base.Length > 0 && AllPackable(items)
    modifies p, p.base
    ensures out == items && atEnd
  {
    p.Reset(true);
    out, atEnd := PackAndRead(p, items);
  }

  lemma EncodeNone()
    ensures EncodeAll([]) == []
  {
  }

  lemma BoundaryZero(items: seq<Item>)
    requires AllPackable(items)
    ensures Boundary(items, 0) == 0 && Boundary(items, |items|) == |EncodeAll(items)|
  {
    assert items[..|items|] == items;
  }
}
