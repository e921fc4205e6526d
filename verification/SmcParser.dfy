/** The parser as the program runs it: one loop over the characters that updates the level, the flags and the
    three staged strings, and the in-place unescaping of delivered strings. */
module SmcParser {
  import opened Wrappers
  import opened Smc

  datatype Move = Go(next: nat) | Stop(err: SMCError) | Wait

  /** The move and the state after it are those of a step. */
  predicate Did(mv: Move, after: State, r: Stepped) {
    match r
    case More(next, st) => mv == Go(next) && after == st
    case Failed(err, st) => mv == Stop(err) && after == st
    case Starved(st) => mv == Wait && after == st
    case AssertionFails => false
  }

  class Parser {
    var curlevel: nat
    var inQuote: bool
    var ignoring: bool
    var mlComment: bool
    var s0: StringInfo
    var s1: StringInfo
    var s2: StringInfo
    var lineBegin: nat
    var events: seq<Event>
    const stream: string
    const listener: Listener

    constructor (stream: string, listener: Listener)
      ensures this.stream == stream && this.listener == listener && Value() == START
    {
      this.stream, this.listener := stream, listener;
      curlevel, inQuote, ignoring, mlComment := 0, false, false, false;
      s0, s1, s2, lineBegin := NoString, NoString, NoString, 0;
      events := [ParseStart];
    }

    function Value(): State
      reads this
    {
      State(curlevel, inQuote, ignoring, mlComment, s0, s1, s2, lineBegin, events)
    }

    /** Moves the strings up; false when the oldest place is taken. */
    method Rotate() returns (free: bool)
      modifies `s0, `s1, `s2
      ensures free <==> old(s2).NoString?
      ensures Value() == Rotated(old(Value()))
    {
      if s2.Staged? { return false; }
      if s0.Staged? { s2, s1, s0 := s1, s0, NoString; }
      free := true;
    }

    method Scrap()
      modifies `s0, `s1, `s2
      ensures Value() == Scrapped(old(Value()))
    {
      s0, s1, s2 := NoString, NoString, NoString;
    }

    method Tell(e: Event) returns (stop: bool, err: SMCError)
      modifies `events
      ensures Value() == Told(old(Value()), e)
      ensures stop <==> listener(events) != Continue
      ensures err == if listener(events) == HaltFail then Custom else Okay
    {
      events := events + [e];
      var answer := listener(events);
      stop, err := answer != Continue, if answer == HaltFail then Custom else Okay;
    }

    method EndString(i: nat) returns (mv: Move)
      modifies `s0, `s1, `s2
      ensures Did(mv, Value(), Restage(old(Value()), i))
    {
      if s0.Staged? {
        s0 := s0.(end := Some(i));
        var free := Rotate();
        if !free { return Stop(InvalidTokens); }
      }
      mv := Go(i + 1);
    }

    method TellProperty(next: nat) returns (mv: Move)
      modifies `s0, `s1, `s2, `events
      ensures Did(mv, Value(), Property(stream, old(Value()), listener, next))
    {
      if curlevel == 0 { return Stop(InvalidProperty1); }
      var stop, err := Tell(KeyValue(Fixup(stream, s2), ValueText(stream, s2, s1)));
      if stop { return Stop(err); }
      Scrap();
      mv := Go(next);
    }

    method OnNewline(i: nat) returns (mv: Move)
      modifies this
      ensures Did(mv, Value(), Newline(stream, i, old(Value()), listener))
    {
      mv := EndString(i);
      if mv.Stop? { return; }
      inQuote := false;
      if ignoring && !mlComment { ignoring := false; }
      var stop, err := Tell(RawLine(lineBegin, i));
      if stop { return Stop(err); }
      if s2.Staged? {
        mv := TellProperty(i + 1);
        if mv.Stop? { return; }
      }
      lineBegin := i + 1;
      mv := Go(i + 1);
    }

    method OnQuoted(i: nat) returns (mv: Move)
      requires i < |stream| && s0.Staged?
      modifies this
      ensures Did(mv, Value(), Quoted(stream, i, old(Value())))
    {
      if i > 0 && stream[i] == '"' && stream[i - 1] != '\\' {
        inQuote, ignoring := false, false;
        s0 := s0.(quoted := true);
        mv := EndString(i);
        return;
      }
      if stream[i] == '\\' {
        s0 := s0.(special := true);
        if i == |stream| - 1 { return Wait; }
      }
      mv := Go(i + 1);
    }

    method OnComment(i: nat) returns (mv: Move)
      requires i < |stream| && s0.NoString?
      modifies `mlComment, `ignoring
      ensures Did(mv, Value(), Comment(stream, i, old(Value())))
    {
      if stream[i] == '*' {
        if i == |stream| - 1 { return Wait; }
        if stream[i + 1] == '/' {
          mlComment, ignoring := false, false;
          assert s0.NoString?;
          return Go(i + 2);
        }
      }
      mv := Go(i + 1);
    }

    method OnSlash(i: nat) returns (mv: Move)
      requires i < |stream|
      modifies this
      ensures Did(mv, Value(), Slash(stream, i, old(Value())))
    {
      var restage := false;
      if stream[i] == ';' {
        ignoring, restage := true, true;
      } else {
        if i == |stream| - 1 { return Wait; }
        if stream[i + 1] == '/' {
          ignoring, restage := true, true;
        } else if stream[i + 1] == '*' {
          ignoring, mlComment, restage := true, true, true;
        }
      }
      mv := Go(i + 1);
      if restage { mv := EndString(i); }
    }

    method OnOpen(i: nat) returns (mv: Move)
      modifies this
      ensures Did(mv, Value(), Open(stream, i, old(Value()), listener))
    {
      if s0.Staged? {
        var free := Rotate();
        if !free { return Stop(InvalidSection1); }
      }
      if s2.Staged? { return Stop(InvalidSection1); }
      if s1.NoString? { return Stop(InvalidSection2); }
      var stop, err := Tell(NewSection(Fixup(stream, s1)));
      if stop { return Stop(err); }
      s1 := NoString;
      curlevel := curlevel + 1;
      mv := Go(i + 1);
    }

    method OnClose(i: nat) returns (mv: Move)
      modifies this
      ensures Did(mv, Value(), Close(stream, i, old(Value()), listener))
    {
      var free := Rotate();
      if !free { return Stop(InvalidSection3); }
      if s2.Staged? {
        mv := TellProperty(i);
        if mv.Stop? { return; }
      } else if s1.Staged? {
        return Stop(InvalidSection3);
      } else if curlevel == 0 {
        return Stop(InvalidSection4);
      }
      Scrap();
      var stop, err := Tell(LeavingSection);
      if stop { return Stop(err); }
      curlevel := curlevel - 1;
      mv := Go(i + 1);
    }

    method OnQuote(i: nat) returns (mv: Move)
      modifies this
      ensures Did(mv, Value(), Quote(i, old(Value())))
    {
      mv := EndString(i);
      if mv.Stop? { return; }
      s0 := Begin(i);
      inQuote, ignoring := true, true;
    }

    method OnBlank(i: nat) returns (mv: Move)
      modifies `s0, `s1, `s2
      ensures Did(mv, Value(), Blank(i, old(Value())))
    {
      if s0.Staged? {
        if s1.NoString? {
          s0 := s0.(end := Some(i));
          var _ := Rotate();
        } else if !s1.quoted {
          return Stop(InvalidTokens);
        }
      }
      mv := Go(i + 1);
    }

    /** One character. */
    method StepAt(i: nat) returns (mv: Move)
      requires i < |stream| && Inv(Value(), listener)
      modifies this
      ensures Did(mv, Value(), Step(stream, i, old(Value()), listener))
      ensures Inv(Value(), listener) || mv.Stop?
    {
      hide Bracketed, Heard, Depth, Newline, Quoted, Comment, Slash, Open, Close, Quote, Blank;
      StepInv(stream, i, Value(), listener);
      var c := stream[i];
      if c == '\n' { mv := OnNewline(i); }
      else if ignoring {
        if inQuote { mv := OnQuoted(i); } else if mlComment { mv := OnComment(i); } else { mv := Go(i + 1); }
      }
      else if White(c) { mv := OnBlank(i); }
      else if c == ';' || c == '/' { mv := OnSlash(i); }
      else if c == '{' { mv := OnOpen(i); }
      else if c == '}' { mv := OnClose(i); }
      else if c == '"' { mv := OnQuote(i); }
      else {
        if s0.NoString? { s0 := Begin(i); }
        mv := Go(i + 1);
      }
    }

    method Finish(e: SMCError, halted: bool) returns (err: SMCError)
      modifies `events
      ensures Result(err, events) == Ended(e, halted, old(Value()))
    {
      events := events + [ParseEnd(halted, e == Custom)];
      err := e;
    }

    /** The whole stream; the listener hears exactly the events of `Parse`. */
    method ParseStream() returns (err: SMCError)
      requires Value() == START
      modifies this
      ensures Result(err, events) == Parse(stream, listener)
    {
      hide Bracketed, Heard, Depth, Step, Ended;
      StartInv(listener);
      var i := 0;
      while i < |stream|
        invariant Inv(Value(), listener) && Run(stream, i, Value(), listener) == Parse(stream, listener)
      {
        StepInv(stream, i, Value(), listener);
        var mv := StepAt(i);
        match mv {
          case Go(next) => i := next;
          case Stop(e) => err := Finish(e, true); return;
          case Wait => break;
        }
      }
      if curlevel > 0 { err := Finish(InvalidSection5, true); }
      else if s0.Staged? || s1.Staged? { err := Finish(InvalidTokens, true); }
      else { err := Finish(Okay, false); }
    }
  }

  lemma StartInv(listener: Listener)
    ensures Inv(START, listener)
  {
  }

  predicate Pair(t: string, i: nat)
    requires i < |t|
  {
    t[i] == '\\' && i < |t| - 1 && Escapes(t[i + 1])
  }

  /** One character of the result, from one or two characters of the text. */
  lemma UnescapeAt(t: string, i: nat)
    requires i < |t|
    ensures Unescape(t[i..]) == if Pair(t, i) then [Unescaped(t[i + 1])] + Unescape(t[i + 2..])
      else [t[i]] + Unescape(t[i + 1..])
  {
  }

  lemma Appended(done: string, c: char, rest: string, all: string)
    requires done + ([c] + rest) == all
    ensures done + [c] + rest == all
  {
  }

  /** The character resolved at `at` is copied to `out`, behind what is done. */
  method PutTwice(buf: array<char>, ptr: nat, out: nat, at: nat, c: char)
    requires ptr <= out <= at < buf.Length
    modifies buf
    ensures buf[ptr..out + 1] == old(buf[ptr..out]) + [c]
    ensures forall k :: 0 <= k < buf.Length && (k < ptr || k > at) ==> buf[k] == old(buf[k])
  {
    buf[at] := c;
    buf[out] := c;
  }

  /** The loop of FixupString: the unescaped text overwrites the beginning of ptr..end. */
  method UnescapeLoop(buf: array<char>, ptr: nat, end: nat) returns (out: nat)
    requires ptr <= end <= buf.Length
    modifies buf
    ensures ptr <= out <= end && buf[ptr..out] == Unescape(old(buf[ptr..end]))
    ensures forall k :: 0 <= k < buf.Length && (k < ptr || k >= end) ==> buf[k] == old(buf[k])
  {
    hide Unescape, Escapes;
    ghost var t := buf[ptr..end];
    var len := end - ptr;
    var i := 0;
    out := ptr;
    ghost var done := "";
    assert t[0..] == t && "" + Unescape(t) == Unescape(t);
    while i < len
      invariant 0 <= i <= len && ptr <= out <= ptr + i
      invariant forall k :: 0 <= k < buf.Length && (k < ptr || k >= ptr + i) ==> buf[k] == old(buf[k])
      invariant buf[ptr..out] == done && done + Unescape(t[i..]) == Unescape(t)
    {
      assert forall k :: i <= k < len ==> t[k] == buf[ptr + k];
      UnescapeAt(t, i);
      var c := buf[ptr + i];
      var n := 1;
      if c == '\\' && i < len - 1 {
        if Escapes(buf[ptr + i + 1]) {
          c := Unescaped(buf[ptr + i + 1]);
          n := 2;
        }
      }
      Appended(done, c, Unescape(t[i + n..]), Unescape(t));
      PutTwice(buf, ptr, out, ptr + i + n - 1, c);
      out, i, done := out + 1, i + n, done + [c];
    }
    assert t[len..] == [] && done + "" == done;
    UnescapeEmpty();
  }

  /** Reading a C string stops at the terminator. */
  lemma {:induction false} TerminatorEnds(t: string, rest: string)
    ensures UpToNul(t + "\0" + rest) == UpToNul(t)
  {
    var all := t + "\0" + rest;
    if t == [] {
      assert all[0] == '\0';
    } else {
      assert all[0] == t[0] && all[1..] == t[1..] + "\0" + rest;
      TerminatorEnds(t[1..], rest);
    }
  }

  /** FixupString on a string with escapes: it is unescaped in place and terminated, and what is then read at the
      pointer is the text of `Fixup`. */
  method FixupInPlace(buf: array<char>, ptr: nat, end: nat)
    requires ptr <= end < buf.Length
    modifies buf
    ensures var t := old(buf[ptr..end]); var u := if |t| >= 2 then Unescape(t) else t;
      && ptr + |u| <= end && buf[ptr..ptr + |u|] == u && buf[ptr + |u|] == '\0'
    ensures UpToNul(buf[ptr..]) ==
      UpToNul(if end - ptr >= 2 then Unescape(old(buf[ptr..end])) else old(buf[ptr..end]))
    ensures buf[end] == '\0' && forall k :: 0 <= k < buf.Length && (k < ptr || k > end) ==> buf[k] == old(buf[k])
  {
    hide Unescape, UpToNul;
    ghost var t := buf[ptr..end];
    if end - ptr >= 2 {
      var out := UnescapeLoop(buf, ptr, end);
      ghost var u := buf[ptr..out];
      buf[out] := '\0';
      buf[end] := '\0';
      assert buf[ptr..out] == u;
      TerminatorEnds(u, buf[out + 1..]);
      assert buf[ptr..] == u + "\0" + buf[out + 1..];
    } else {
      buf[end] := '\0';
      assert buf[ptr..end] == t;
      TerminatorEnds(t, buf[end + 1..]);
      assert buf[ptr..] == t + "\0" + buf[end + 1..];
    }
  }

  /** What lies behind the first NUL does not matter. */
  lemma {:induction false} SameUpToNul(a: string, b: string, n: nat)
    requires n <= |a| && n <= |b| && a[..n] == b[..n] && '\0' in a[..n]
    ensures UpToNul(a) == UpToNul(b)
    decreases n
  {
    assert a[0] == a[..n][0] == b[..n][0] == b[0];
    if a[0] != '\0' {
      assert a[1..][..n - 1] == a[..n][1..] && b[1..][..n - 1] == b[..n][1..];
      assert a[..n] == [a[0]] + a[..n][1..];
      SameUpToNul(a[1..], b[1..], n - 1);
    }
  }

  lemma SameFrom(a: string, b: string, i: nat, j: nat)
    requires i <= j < |a| == |b| && '\0' in a[i..j + 1] && forall k :: i <= k <= j ==> a[k] == b[k]
    ensures UpToNul(a[i..]) == UpToNul(b[i..])
  {
    hide UpToNul;
    assert a[i..][..j + 1 - i] == a[i..j + 1] == b[i..][..j + 1 - i];
    SameUpToNul(a[i..], b[i..], j + 1 - i);
  }

  lemma NulFirst(t: string, special: bool)
    requires t == [] || t[0] == '\0'
    ensures TextOf(t, special) == ""
  {
  }

  lemma NothingRead(t: string)
    ensures UpToNul(t) == "" <==> t == [] || t[0] == '\0'
  {
  }

  /** FixupString: with escapes it is also unescaped. */
  method FixupString(buf: array<char>, ptr: nat, end: nat, special: bool)
    requires ptr <= end < buf.Length
    modifies buf
    ensures UpToNul(buf[ptr..]) == TextOf(old(buf[ptr..end]), special) && '\0' in buf[ptr..end + 1]
    ensures buf[end] == '\0' && forall k :: 0 <= k < buf.Length && (k < ptr || k > end) ==> buf[k] == old(buf[k])
  {
    hide Unescape, UpToNul;
    if special {
      FixupInPlace(buf, ptr, end);
    } else {
      ghost var t := buf[ptr..end];
      buf[end] := '\0';
      assert buf[ptr..end] == t;
      TerminatorEnds(t, buf[end + 1..]);
      assert buf[ptr..] == t + "\0" + buf[end + 1..];
    }
    assert buf[ptr..end + 1][end - ptr] == '\0';
  }

  /** Both strings of a property fixed up in the same buffer, in either order: each is read as its text, but a value
      that begins where the key ends is read as nothing. */
  method FixupPair(buf: array<char>, kp: nat, ke: nat, keySpecial: bool, vp: nat, ve: nat, valueSpecial: bool,
                   keyFirst: bool)
    requires kp <= ke <= vp <= ve < buf.Length
    modifies buf
    ensures UpToNul(buf[kp..]) == TextOf(old(buf[kp..ke]), keySpecial)
    ensures UpToNul(buf[vp..]) == if ke == vp then "" else TextOf(old(buf[vp..ve]), valueSpecial)
  {
    hide TextOf, UpToNul;
    ghost var k, v := buf[kp..ke], buf[vp..ve];
    if keyFirst {
      FixupString(buf, kp, ke, keySpecial);
      ghost var before := buf[..];
      if ke < vp { assert buf[vp..ve] == v; } else { NulFirst(buf[vp..ve], valueSpecial); }
      FixupString(buf, vp, ve, valueSpecial);
      if ke == vp {
        NothingRead(buf[vp..]);
        assert buf[vp..][0] == buf[vp];
      }
      SameFrom(before, buf[..], kp, ke);
    } else {
      FixupString(buf, vp, ve, valueSpecial);
      ghost var before := buf[..];
      assert buf[kp..ke] == k;
      FixupString(buf, kp, ke, keySpecial);
      if ke < vp {
        assert buf[vp..] == before[vp..];
      } else {
        assert buf[vp..][0] == '\0';
        NothingRead(buf[vp..]);
      }
    }
  }

  lemma UnescapeEmpty()
    ensures Unescape("") == ""
  {
  }
}
