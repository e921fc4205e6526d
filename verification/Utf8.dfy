/** The UTF-8 codec of RFC 2279 section 2, with sequences of up to six bytes. */
module Utf8 {
  import opened Wrappers

  type Byte = b: bv32 | b < 0x100

  /** A decoded character, and how many bytes it took. */
  datatype Decoded = Decoded(value: bv32, length: nat)

  // ---------------------------------------------------------------- amx_UTF8Get

  /** Strings end in a zero byte that is not part of them. */
  function At(s: seq<Byte>, i: nat): Byte { if i < |s| then s[i] else 0 }

  /** The table utf8_count, indexed by four bits of the first byte. */
  function FollowUp(c: Byte): (n: nat)
    ensures n <= 4
  {
    var i := (c >> 2) & 0x0f;
    if i < 8 then 0 else if i < 12 then 1 else if i < 14 then 2 else if i < 15 then 3 else 4
  }

  function Mask(n: nat): bv32 {
    if n == 0 then 0x1f else if n == 1 then 0x0f else if n == 2 then 0x07 else if n == 3 then 0x03 else 0x01
  }

  function LowMark(n: nat): bv32 {
    if n == 0 then 0x80 else if n == 1 then 0x800 else if n == 2 then 0x1_0000 else if n == 3 then 0x20_0000
      else 0x400_0000
  }

  predicate IsFollower(c: Byte) { c & 0xc0 == 0x80 }

  function Append(result: bv32, c: Byte): bv32 { (result << 6) | (c & 0x3f) }

  predicate IsAscii(c: bv32) { c < 0x80 }

  predicate IsHead(c: Byte) { 0xc0 <= c && c < 0xfe }

  function HeadValue(c: Byte): bv32 { c & Mask(FollowUp(c)) }

  /** Too small for the length: not the shortest encoding. */
  predicate TooLow(v: bv32, n: nat) { v < LowMark(n) }

  /** The drop-through switch: n more bytes from position i. */
  function Collect(s: seq<Byte>, i: nat, n: nat, result: bv32): Option<bv32>
    decreases n
  {
    if n == 0 then Some(result)
    else if !IsFollower(At(s, i)) then None
    else Collect(s, i + 1, n - 1, Append(result, At(s, i)))
  }

  predicate Reserved(v: bv32) { (0xd800 <= v && v <= 0xdfff) || v == 0xfffe || v == 0xffff }

  function Get(s: seq<Byte>): Option<Decoded> {
    var c := At(s, 0);
    if IsAscii(c) then Some(Decoded(c, 1))
    else if !IsHead(c) then None
    else
      var n := FollowUp(c);
      var r := Collect(s, 1, n + 1, HeadValue(c));
      if r.None? || TooLow(r.value, n) || Reserved(r.value) then None else Some(Decoded(r.value, n + 2))
  }

  // ---------------------------------------------------------------- amx_UTF8Put

  function Tail(v: bv32): Byte { (v & 0x3f) | 0x80 }

  /** The comparisons are signed, so a negative value counts as a single byte. */
  function Size(v: bv32): (n: nat)
    ensures 1 <= n <= 6
  {
    if v >= 0x8000_0000 || v < 0x80 then 1 else if v < 0x800 then 2 else if v < 0x1_0000 then 3
    else if v < 0x20_0000 then 4 else if v < 0x400_0000 then 5 else 6
  }

  function Bytes(v: bv32): (s: seq<Byte>)
    ensures |s| == Size(v)
  {
    var n := Size(v);
    if n == 1 then [v & 0xff]
    else if n == 2 then [((v >> 6) & 0x1f) | 0xc0, Tail(v)]
    else if n == 3 then [((v >> 12) & 0x0f) | 0xe0, Tail(v >> 6), Tail(v)]
    else if n == 4 then [((v >> 18) & 0x07) | 0xf0, Tail(v >> 12), Tail(v >> 6), Tail(v)]
    else if n == 5 then [((v >> 24) & 0x03) | 0xf8, Tail(v >> 18), Tail(v >> 12), Tail(v >> 6), Tail(v)]
    else [((v >> 30) & 0x01) | 0xfc, Tail(v >> 24), Tail(v >> 18), Tail(v >> 12), Tail(v >> 6), Tail(v)]
  }

  /** The bytes stored, or an error with nothing stored. */
  function Put(maxchars: int, v: bv32): Option<seq<Byte>> {
    if maxchars < Size(v) || (Size(v) == 3 && Reserved(v)) then None else Some(Bytes(v))
  }

  // ---------------------------------------------------------------- bits

  predicate NonNegative(v: bv32) { v < 0x8000_0000 }

  predicate Encodable(v: bv32) { NonNegative(v) && !Reserved(v) }

  function Up(v: bv32): bv32 { v >> 6 }

  /** The value without its last n groups of six bits. */
  function Before(v: bv32, n: nat): bv32 { if n == 0 then v else Up(Before(v, n - 1)) }

  /** Values that still have room for n groups. */
  predicate HasRoom(v: bv32, n: nat) {
    v < if n == 0 then 0x8000_0000 else if n == 1 then 0x200_0000 else if n == 2 then 0x8_0000
        else if n == 3 then 0x2000 else if n == 4 then 0x80 else 0x2
  }

  lemma BeforeIs(v: bv32)
    ensures Before(v, 0) == v && Before(v, 1) == v >> 6 && Before(v, 2) == v >> 12
    ensures Before(v, 3) == v >> 18 && Before(v, 4) == v >> 24 && Before(v, 5) == v >> 30
  {
  }

  /** The first byte of an encoding announces its length ... */
  lemma HeadLength(v: bv32)
    requires 0x80 <= v && v < 0x8000_0000
    ensures var b := Bytes(v)[0]; IsHead(b) && !IsAscii(b) && FollowUp(b) == Size(v) - 2 && !TooLow(v, Size(v) - 2)
  {
    hide Tail;
  }

  /** ... and holds the top bits. */
  lemma HeadBits(v: bv32)
    requires 0x80 <= v && v < 0x8000_0000
    ensures HeadValue(Bytes(v)[0]) == TopBits(v)
  {
    hide Tail;
  }

  function TopBits(v: bv32): bv32 {
    var n := Size(v);
    if n <= 2 then v >> 6 else if n == 3 then v >> 12 else if n == 4 then v >> 18 else if n == 5 then v >> 24
      else v >> 30
  }

  lemma TopBefore(v: bv32)
    ensures Size(v) > 1 ==> TopBits(v) == Before(v, Size(v) - 1)
  {
    hide Size, Before;
    BeforeIs(v);
  }

  lemma SizeBack(c: Byte, v: bv32)
    requires IsHead(c) && NonNegative(v) && !TooLow(v, FollowUp(c))
    requires HeadValue(c) == Before(v, FollowUp(c) + 1)
    ensures Size(v) == FollowUp(c) + 2 && !IsAscii(v)
  {
    hide Tail, Before;
    BeforeIs(v);
  }

  /** The first byte is determined by the length and the value. */
  lemma HeadBack(c: Byte, v: bv32)
    requires IsHead(c) && Size(v) == FollowUp(c) + 2 && HeadValue(c) == TopBits(v)
    ensures Bytes(v)[0] == c
  {
    hide Tail;
  }

  lemma HeadRoom(c: Byte)
    ensures HasRoom(HeadValue(c), FollowUp(c) + 1)
  {
  }

  lemma RoomNone(v: bv32)
    ensures Before(v, 0) == v && HasRoom(v, 0) == NonNegative(v)
  {
  }

  /** A follower puts its group back ... */
  lemma Glue(w: bv32)
    ensures IsFollower(Tail(w)) && Append(Up(w), Tail(w)) == w
  {
  }

  /** ... and loses nothing: the value before and the follower can be read off again. */
  lemma AppendBack(r: bv32, c: Byte, n: nat)
    requires IsFollower(c) && n < 5 && HasRoom(r, n + 1)
    ensures Up(Append(r, c)) == r && Tail(Append(r, c)) == c && HasRoom(Append(r, c), n)
  {
  }

  lemma SmallByte(v: bv32)
    requires IsAscii(v)
    ensures Size(v) == 1 && Bytes(v) == [v] && Encodable(v)
  {
  }

  lemma LargeSize(v: bv32)
    ensures NonNegative(v) && !IsAscii(v) ==> Size(v) > 1 && 0x80 <= v && v < 0x8000_0000
    ensures Reserved(v) ==> Size(v) == 3
  {
  }

  lemma ZeroFacts(c: Byte)
    ensures IsFollower(c) ==> c != 0
    ensures Bytes(0)[0] == 0
  {
  }

  // ---------------------------------------------------------------- round trips

  /** The j-th of n followers from position i, for the value v. */
  predicate Follows(s: seq<Byte>, i: nat, n: nat, v: bv32, j: nat) {
    j < n && At(s, i + j) == Tail(Before(v, n - 1 - j))
  }

  /** The followers of an encoding. */
  lemma TailsAre(v: bv32, j: nat)
    requires 0 < j < Size(v)
    ensures Bytes(v)[j] == Tail(Before(v, Size(v) - 1 - j))
  {
    hide Tail, Before;
    BeforeIs(v);
  }

  /** Followers restore a value from its top bits ... */
  lemma {:induction false} CollectForth(s: seq<Byte>, i: nat, n: nat, v: bv32)
    requires n <= 5 && forall j: nat :: j < n ==> Follows(s, i, n, v, j)
    ensures Collect(s, i, n, Before(v, n)) == Some(v)
    decreases n
  {
    hide Append, Tail, Up, IsFollower, HasRoom;
    if n == 0 {
      RoomNone(v);
    } else {
      assert Follows(s, i, n, v, 0);
      Glue(Before(v, n - 1));
      var next, left := i + 1, n - 1;
      forall j: nat | j < left ensures Follows(s, next, left, v, j) {
        assert Follows(s, i, n, v, j + 1);
        assert i + (j + 1) == next + j;
      }
      CollectForth(s, next, left, v);
    }
  }

  /** ... and what was collected gives back the followers and the start. */
  lemma {:induction false} CollectBack(s: seq<Byte>, i: nat, n: nat, r: bv32)
    requires n <= 5 && Collect(s, i, n, r).Some? && HasRoom(r, n)
    ensures var v := Collect(s, i, n, r).value;
      NonNegative(v) && r == Before(v, n) && (forall j: nat :: j < n ==> Follows(s, i, n, v, j))
    ensures n > 0 ==> i + n <= |s|
    decreases n
  {
    hide Append, Tail, Up, IsFollower, HasRoom, NonNegative;
    if n == 0 {
      RoomNone(r);
    } else {
      var c := At(s, i);
      var v := Collect(s, i, n, r).value;
      AppendBack(r, c, n - 1);
      CollectBack(s, i + 1, n - 1, Append(r, c));
      ZeroFacts(c);
      forall j: nat | j < n ensures Follows(s, i, n, v, j) {
        if j > 0 {
          assert Follows(s, i + 1, n - 1, v, j - 1);
          assert i + 1 + (j - 1) == i + j;
        }
      }
    }
  }

  /** Every value but the reserved ones is stored whenever there is room ... */
  lemma PutExactly(v: bv32, maxchars: int)
    requires NonNegative(v)
    ensures Put(maxchars, v) == (if Encodable(v) && Size(v) <= maxchars then Some(Bytes(v)) else None)
  {
    hide Bytes;
  }

  /** ... and decoding what was stored returns it and consumes exactly its bytes, whatever follows. */
  lemma PutGet(v: bv32, rest: seq<Byte>)
    requires Encodable(v)
    ensures Get(Bytes(v) + rest) == Some(Decoded(v, Size(v)))
  {
    hide Bytes, Size, Collect, Tail, FollowUp, Before, Reserved, IsAscii, IsHead, HeadValue, TooLow, TopBits,
      NonNegative;
    var s := Bytes(v) + rest;
    assert At(s, 0) == Bytes(v)[0];
    LargeSize(v);
    if IsAscii(v) {
      SmallByte(v);
    } else {
      HeadLength(v);
      HeadBits(v);
      TopBefore(v);
      var left := Size(v) - 1;
      forall j: nat | j < left ensures Follows(s, 1, left, v, j) { TailsAre(v, j + 1); }
      CollectForth(s, 1, left, v);
    }
  }

  /** Whatever decodes is the only encoding of its value: encoding gives the same bytes back. */
  lemma GetPut(s: seq<Byte>)
    requires s != [] && Get(s).Some?
    ensures var d := Get(s).value;
      Encodable(d.value) && d.length == Size(d.value) <= |s| && Bytes(d.value) == s[..d.length]
  {
    hide Bytes, Size, Collect, Tail, FollowUp, Before, Reserved, IsAscii, IsHead, HeadValue, TooLow, TopBits,
      NonNegative, HasRoom;
    var c := s[0];
    var d := Get(s).value;
    if IsAscii(c) {
      SmallByte(c);
      assert s[..1] == [c];
    } else {
      var n := FollowUp(c);
      HeadRoom(c);
      CollectBack(s, 1, n + 1, HeadValue(c));
      SizeBack(c, d.value);
      TopBefore(d.value);
      HeadBack(c, d.value);
      forall j: nat | 0 < j < n + 2 ensures s[j] == Bytes(d.value)[j] {
        assert Follows(s, 1, n + 1, d.value, j - 1);
        TailsAre(d.value, j);
      }
      assert s[..n + 2] == Bytes(d.value);
    }
  }

  /** So over all cells, negative ones included, the round trip holds for the encodable values and no others. */
  lemma RoundTripExactly(v: bv32, rest: seq<Byte>)
    ensures Get(Bytes(v) + rest) == Some(Decoded(v, Size(v))) <==> Encodable(v)
  {
    hide Bytes, Size, Get, Reserved, NonNegative;
    if Encodable(v) { PutGet(v, rest); }
    if Get(Bytes(v) + rest) == Some(Decoded(v, Size(v))) { GetPut(Bytes(v) + rest); }
  }

  // ---------------------------------------------------------------- amx_UTF8Check

  /** The encoding of a text, which contains no zero byte. */
  function Encode(text: seq<bv32>): seq<Byte> { if text == [] then [] else Bytes(text[0]) + Encode(text[1..]) }

  predicate Plain(text: seq<bv32>) { forall i :: 0 <= i < |text| ==> Encodable(text[i]) && text[i] != 0 }

  lemma {:induction false} EncodeSnoc(text: seq<bv32>, v: bv32)
    ensures Encode(text + [v]) == Encode(text) + Bytes(v)
  {
    hide Bytes, Size;
    if text == [] {
      assert text + [v] == [v] && [v][1..] == [];
    } else {
      EncodeSnoc(text[1..], v);
      assert (text + [v])[0] == text[0] && (text + [v])[1..] == text[1..] + [v];
      assert Encode(text + [v]) == Bytes(text[0]) + (Encode(text[1..]) + Bytes(v));
    }
  }

  /** No two texts share an encoding. */
  lemma {:induction false} EncodeInjective(a: seq<bv32>, b: seq<bv32>)
    requires Plain(a) && Plain(b) && Encode(a) == Encode(b)
    ensures a == b
  {
    hide Bytes, Get, Size, Encodable;
    if a != [] && b != [] {
      PutGet(a[0], Encode(a[1..]));
      PutGet(b[0], Encode(b[1..]));
      assert Encode(a)[Size(a[0])..] == Encode(a[1..]) && Encode(b)[Size(b[0])..] == Encode(b[1..]);
      EncodeInjective(a[1..], b[1..]);
    }
  }

  /** amx_UTF8Check accepts a string without zero bytes exactly when it is the encoding of some text, and then
      counts the characters of that text. */
  method Check(string_: seq<Byte>) returns (ok: bool, len: nat, ghost text: seq<bv32>)
    requires 0 !in string_
    ensures ok ==> Plain(text) && Encode(text) == string_ && len == |text|
    ensures (exists t :: Plain(t) && Encode(t) == string_) ==> ok
  {
    hide Bytes, Get, Size, Encodable;
    ok, len, text := true, 0, [];
    var at := 0;
    while ok && at < |string_|
      invariant 0 <= at <= |string_|
      invariant ok ==> Plain(text) && Encode(text) == string_[..at] && len == |text|
      invariant !ok ==> !(exists t :: Plain(t) && Encode(t) == string_)
      decreases |string_| - at, ok
    {
      var rest := string_[at..];
      var got := Get(rest);
      if got.Some? {
        GetPut(rest);
        EncodeSnoc(text, got.value.value);
        ZeroFacts(rest[0]);
        assert rest[0] == string_[at];
        assert string_[..at + got.value.length] == string_[..at] + rest[..got.value.length];
        text := text + [got.value.value];
        at := at + got.value.length;
      } else {
        ok := false;
        forall t | Plain(t) && Encode(t) == string_ ensures false { NotEncoded(string_, text, at, t); }
      }
      len := len + 1;
    }
  }

  lemma Halves(a: seq<Byte>, b: seq<Byte>, s: seq<Byte>, at: nat)
    requires at < |s| && a + b == s[..at]
    ensures s == a + (b + s[at..]) && s[|a|..][..at - |a|] == b && s[|a|..][at - |a|..] == s[at..]
  {
  }

  /** A string that goes wrong behind a good prefix encodes nothing. */
  lemma {:induction false} NotEncoded(s: seq<Byte>, text: seq<bv32>, at: nat, t: seq<bv32>)
    requires Plain(text) && at < |s| && Encode(text) == s[..at] && Get(s[at..]).None?
    requires Plain(t) && Encode(t) == s
    ensures false
    decreases |text|
  {
    hide Bytes, Get, Size, Encodable;
    PutGet(t[0], Encode(t[1..]));
    assert s[0..] == s;
    if text != [] {
      PutGet(text[0], Encode(text[1..]) + s[at..]);
      var k := Size(text[0]);
      Halves(Bytes(text[0]), Encode(text[1..]), s, at);
      assert s[k..] == Encode(t[1..]);
      NotEncoded(s[k..], text[1..], at - k, t[1..]);
    }
  }
}
