/** The SMC text parser: one pass over the characters of the stream, three staged strings, and a listener that
    may stop the parse after any event.  The whole input is one window; strings are spans of it. */
module Smc {
  import opened Wrappers

  datatype SMCError =
    | Okay | Custom | InvalidSection1 | InvalidSection2 | InvalidSection3 | InvalidSection4 | InvalidSection5
    | InvalidTokens | InvalidProperty1

  datatype SMCResult = Continue | Halt | HaltFail

  /** A staged string: where it starts, where it ends once that is known, whether it was closed by a quote, and
      whether a backslash was seen inside it. */
  datatype StringInfo = NoString | Staged(quoted: bool, ptr: nat, end: Option<nat>, special: bool)

  /** A string as the listener gets it: NULL when nothing was staged; otherwise a C string, which ends at the first
      NUL.  When no end was recorded nothing terminates it where the token stops. */
  datatype Text = Missing | Text(chars: string) | Unterminated(from: nat)

  datatype Event =
    | ParseStart
    | RawLine(from: nat, to: nat)
    | NewSection(name: Text)
    | KeyValue(key: Text, value: Text)
    | LeavingSection
    | ParseEnd(halted: bool, failed: bool)

  /** The listener's answer to the last of the events it has seen. */
  type Listener = seq<Event> -> SMCResult

  datatype State = State(level: nat, inQuote: bool, ignoring: bool, mlComment: bool,
                         s0: StringInfo, s1: StringInfo, s2: StringInfo, lineBegin: nat, events: seq<Event>)

  const START := State(0, false, false, false, NoString, NoString, NoString, 0, [ParseStart])

  /** `Starved` is a look-ahead past the end of the stream; `AssertionFails` a failed C assertion. */
  datatype Stepped = More(next: nat, st: State) | Failed(err: SMCError, st: State) | Starved(st: State) | AssertionFails

  predicate White(c: char) { c in {'\n', '\U{0B}', '\r', '\t', '\U{0C}', ' '} }

  // ---------------------------------------------------------------- FixupString

  predicate Escapes(c: char) { c in {'n', 't', 'r', '\\', '"'} }

  function Unescaped(c: char): char {
    match c
    case 'n' => '\n'
    case 't' => '\t'
    case 'r' => '\r'
    case _ => c
  }

  function Unescape(t: string): string {
    if t == [] then []
    else if t[0] == '\\' && |t| > 1 && Escapes(t[1]) then [Unescaped(t[1])] + Unescape(t[2..])
    else [t[0]] + Unescape(t[1..])
  }

  function UpToNul(t: string): (r: string)
    ensures '\0' !in r && (r == t <==> '\0' !in t)
  {
    if t == [] || t[0] == '\0' then [] else [t[0]] + UpToNul(t[1..])
  }

  /** What is told of a string: without its escapes if any were seen, and only up to a NUL. */
  function TextOf(t: string, special: bool): string { UpToNul(if special && |t| >= 2 then Unescape(t) else t) }

  function Fixup(s: string, info: StringInfo): (t: Text)
    ensures t.Missing? <==> info.NoString?
  {
    match info
    case NoString => Missing
    case Staged(quoted, ptr, end, special) =>
      var from := if quoted then ptr + 1 else ptr;
      if end.None? || !(from <= end.value <= |s|) then Unterminated(from)
      else Text(TextOf(s[from..end.value], special))
  }

  /** The string that begins where the key ends: a quotation that no quote closes, right behind a key without quotes.
      The terminator of the key falls on its first character. */
  predicate Erased(key: StringInfo, value: StringInfo) {
    key.Staged? && value.Staged? && !value.quoted && key.end == Some(value.ptr)
  }

  /** The value as it is told, both strings being fixed up in the same buffer. */
  function ValueText(s: string, key: StringInfo, value: StringInfo): (t: Text)
    ensures t.Missing? <==> value.NoString?
    ensures !Erased(key, value) ==> t == Fixup(s, value)
  {
    if Erased(key, value) then Text("") else Fixup(s, value)
  }

  // ---------------------------------------------------------------- one character

  function Rotated(st: State): State {
    if st.s2.NoString? && st.s0.Staged? then st.(s2 := st.s1, s1 := st.s0, s0 := NoString) else st
  }

  function EndAt(info: StringInfo, i: nat): StringInfo {
    if info.Staged? then info.(end := Some(i)) else NoString
  }

  function Scrapped(st: State): State { st.(s0 := NoString, s1 := NoString, s2 := NoString) }

  function Told(st: State, e: Event): State { st.(events := st.events + [e]) }

  function Stopped(r: SMCResult, st: State): Stepped { Failed(if r == HaltFail then Custom else Okay, st) }

  /** Ends the staged string at `i` and rotates it out. */
  function Restage(st: State, i: nat): Stepped {
    var st1 := st.(s0 := EndAt(st.s0, i));
    if st1.s0.NoString? then More(i + 1, st1)
    else if st1.s2.Staged? then Failed(InvalidTokens, st1) else More(i + 1, Rotated(st1))
  }

  /** Delivers the two oldest strings as a property. */
  function Property(s: string, st: State, listener: Listener, next: nat): Stepped {
    if st.level == 0 then Failed(InvalidProperty1, st)
    else
      var st1 := Told(st, KeyValue(Fixup(s, st.s2), ValueText(s, st.s2, st.s1)));
      if listener(st1.events) != Continue then Stopped(listener(st1.events), st1) else More(next, Scrapped(st1))
  }

  function Newline(s: string, i: nat, st: State, listener: Listener): Stepped {
    var r := Restage(st, i);
    if !r.More? then r
    else
      var st1 := r.st.(inQuote := false, ignoring := st.ignoring && st.mlComment);
      var st2 := Told(st1, RawLine(st.lineBegin, i));
      if listener(st2.events) != Continue then Stopped(listener(st2.events), st2)
      else
        var p := if st2.s2.Staged? then Property(s, st2, listener, i + 1) else More(i + 1, st2);
        if p.More? then More(i + 1, p.st.(lineBegin := i + 1)) else p
  }

  function Quoted(s: string, i: nat, st: State): Stepped
    requires i < |s|
  {
    if i > 0 && s[i] == '"' && s[i - 1] != '\\' then
      var s0 := if st.s0.Staged? then st.s0.(quoted := true) else NoString;
      Restage(st.(inQuote := false, ignoring := false, s0 := s0), i)
    else if s[i] == '\\' then
      var st1 := if st.s0.Staged? then st.(s0 := st.s0.(special := true)) else st;
      if i == |s| - 1 then Starved(st1) else More(i + 1, st1)
    else More(i + 1, st)
  }

  function Comment(s: string, i: nat, st: State): Stepped
    requires i < |s|
  {
    if s[i] != '*' then More(i + 1, st)
    else if i == |s| - 1 then Starved(st)
    else if s[i + 1] != '/' then More(i + 1, st)
    else if st.s0.Staged? then AssertionFails
    else More(i + 2, st.(mlComment := false, ignoring := false))
  }

  function Slash(s: string, i: nat, st: State): Stepped
    requires i < |s|
  {
    if s[i] == ';' then Restage(st.(ignoring := true), i)
    else if i == |s| - 1 then Starved(st)
    else if s[i + 1] == '/' then Restage(st.(ignoring := true), i)
    else if s[i + 1] == '*' then Restage(st.(ignoring := true, mlComment := true), i)
    else More(i + 1, st)
  }

  function Open(s: string, i: nat, st: State, listener: Listener): Stepped {
    if st.s2.Staged? then Failed(InvalidSection1, st)
    else
      var st1 := Rotated(st);
      if st1.s2.Staged? then Failed(InvalidSection1, st1)
      else if st1.s1.NoString? then Failed(InvalidSection2, st1)
      else
        var st2 := Told(st1, NewSection(Fixup(s, st1.s1)));
        if listener(st2.events) != Continue then Stopped(listener(st2.events), st2)
        else More(i + 1, st2.(s1 := NoString, level := st2.level + 1))
  }

  function Close(s: string, i: nat, st: State, listener: Listener): Stepped {
    if st.s2.Staged? then Failed(InvalidSection3, st)
    else
      var st1 := Rotated(st);
      if st1.s2.NoString? && st1.s1.Staged? then Failed(InvalidSection3, st1)
      else if st1.s2.NoString? && st1.level == 0 then Failed(InvalidSection4, st1)
      else
        var p := if st1.s2.Staged? then Property(s, st1, listener, i) else More(i, st1);
        if !p.More? then p
        else
          var st2 := Told(Scrapped(p.st), LeavingSection);
          if listener(st2.events) != Continue then Stopped(listener(st2.events), st2)
          else if st2.level == 0 then AssertionFails
          else More(i + 1, st2.(level := st2.level - 1))
  }

  function Begin(i: nat): StringInfo { Staged(false, i, None, false) }

  function Quote(i: nat, st: State): Stepped {
    var r := Restage(st, i);
    if r.More? then More(i + 1, r.st.(s0 := Begin(i), inQuote := true, ignoring := true)) else r
  }

  function Blank(i: nat, st: State): Stepped {
    if st.s0.NoString? then More(i + 1, st)
    else if st.s1.NoString? then More(i + 1, Rotated(st.(s0 := EndAt(st.s0, i))))
    else if !st.s1.quoted then Failed(InvalidTokens, st) else More(i + 1, st)
  }

  function Step(s: string, i: nat, st: State, listener: Listener): Stepped
    requires i < |s|
  {
    var c := s[i];
    if c == '\n' then Newline(s, i, st, listener)
    else if st.ignoring then
      if st.inQuote then Quoted(s, i, st) else if st.mlComment then Comment(s, i, st) else More(i + 1, st)
    else if White(c) then Blank(i, st)
    else if c == ';' || c == '/' then Slash(s, i, st)
    else if c == '{' then Open(s, i, st, listener)
    else if c == '}' then Close(s, i, st, listener)
    else if c == '"' then Quote(i, st)
    else More(i + 1, if st.s0.NoString? then st.(s0 := Begin(i)) else st)
  }

  // ---------------------------------------------------------------- the whole stream

  datatype Result = Result(err: SMCError, events: seq<Event>) | Crash

  function AtEnd(st: State): Result {
    if st.level > 0 then Ended(InvalidSection5, true, st)
    else if st.s0.Staged? || st.s1.Staged? then Ended(InvalidTokens, true, st)
    else Ended(Okay, false, st)
  }

  function Ended(err: SMCError, halted: bool, st: State): Result {
    Result(err, st.events + [ParseEnd(halted, err == Custom)])
  }

  function Run(s: string, i: nat, st: State, listener: Listener): Result
    decreases |s| - i
  {
    if i >= |s| then AtEnd(st)
    else
      match Step(s, i, st, listener)
      case More(next, st') => if next > i then Run(s, next, st', listener) else Crash
      case Failed(err, st') => Ended(err, true, st')
      case Starved(st') => AtEnd(st')
      case AssertionFails => Crash
  }

  function Parse(s: string, listener: Listener): Result { Run(s, 0, START, listener) }

  // ---------------------------------------------------------------- bracketing, for every input and listener

  function Depth(events: seq<Event>): int {
    if events == [] then 0
    else
      Depth(events[..|events| - 1]) +
      match events[|events| - 1] {
        case NewSection(_) => 1
        case LeavingSection => -1
        case _ => 0
      }
  }

  /** No string of the event is NULL. */
  predicate Present(e: Event) {
    match e
    case NewSection(name) => !name.Missing?
    case KeyValue(key, value) => !key.Missing? && !value.Missing?
    case _ => true
  }

  /** Sections are left only when one is open, properties come only inside a section and have both strings, sections
      have a name, the first event and no other is ParseStart, and ParseEnd has not been sent. */
  predicate Bracketed(events: seq<Event>) {
    if events == [] then true
    else
      var before, e := events[..|events| - 1], events[|events| - 1];
      Bracketed(before) && !e.ParseEnd? && (e.ParseStart? <==> before == [])
      && (e.LeavingSection? || e.KeyValue? ==> Depth(before) >= 1) && Present(e)
  }

  /** The listener answered every event after ParseStart with Continue. */
  predicate Heard(events: seq<Event>, listener: Listener) {
    |events| <= 1 || (Heard(events[..|events| - 1], listener) && listener(events) == Continue)
  }

  lemma ToldOne(events: seq<Event>, e: Event, listener: Listener)
    ensures var after := events + [e];
      && after[..|after| - 1] == events
      && Depth(after) == Depth(events) + (if e.NewSection? then 1 else if e.LeavingSection? then -1 else 0)
      && (Bracketed(after) <==> Bracketed(events) && !e.ParseEnd? && (e.ParseStart? <==> events == [])
                                && (e.LeavingSection? || e.KeyValue? ==> Depth(events) >= 1) && Present(e))
      && (Heard(after, listener) <==> |events| == 0 || (Heard(events, listener) && listener(after) == Continue))
  {
  }

  ghost predicate Inv(st: State, listener: Listener) {
    && st.events != [] && Bracketed(st.events) && Heard(st.events, listener) && Depth(st.events) == st.level
    && (st.mlComment ==> st.ignoring && !st.inQuote && st.s0.NoString?)
    && (st.inQuote ==> st.ignoring && st.s0.Staged?)
    && (st.s2.Staged? ==> st.s1.Staged?)
  }

  /** What holds when a parse stops: the events are bracketed; it stopped on its own account, or because the
      listener said so in answer to the last event. */
  ghost predicate StoppedWell(err: SMCError, events: seq<Event>, listener: Listener) {
    && events != [] && Bracketed(events)
    && (err == Okay || err == Custom ==>
          |events| > 1 && Heard(events[..|events| - 1], listener)
          && listener(events) == if err == Custom then HaltFail else Halt)
    && (err != Okay && err != Custom ==> Heard(events, listener))
  }

  ghost predicate GoodStep(r: Stepped, listener: Listener) {
    match r
    case More(_, st) => Inv(st, listener)
    case Starved(st) => Inv(st, listener)
    case Failed(err, st) => StoppedWell(err, st.events, listener)
    case AssertionFails => false
  }

  lemma TellInv(st: State, e: Event, listener: Listener)
    requires st.events != [] && Bracketed(st.events) && Heard(st.events, listener) && Depth(st.events) == st.level
    requires !e.ParseStart? && !e.ParseEnd? && (e.LeavingSection? || e.KeyValue? ==> st.level >= 1) && Present(e)
    ensures var st' := Told(st, e);
      if listener(st'.events) == Continue then
        && Bracketed(st'.events) && Heard(st'.events, listener)
        && Depth(st'.events) == st.level + (if e.NewSection? then 1 else if e.LeavingSection? then -1 else 0)
      else GoodStep(Stopped(listener(st'.events), st'), listener)
  {
    ToldOne(st.events, e, listener);
    var st' := Told(st, e);
    if listener(st'.events) != Continue {
      assert st'.events[..|st'.events| - 1] == st.events;
    }
  }

  lemma NewlineInv(s: string, i: nat, st: State, listener: Listener)
    requires Inv(st, listener)
    ensures GoodStep(Newline(s, i, st, listener), listener)
  {
    hide Bracketed, Heard, Depth, Fixup, ValueText;
    var r := Restage(st, i);
    if r.More? {
      var st1 := r.st.(inQuote := false, ignoring := st.ignoring && st.mlComment);
      TellInv(st1, RawLine(st.lineBegin, i), listener);
      var st2 := Told(st1, RawLine(st.lineBegin, i));
      if listener(st2.events) == Continue && st2.s2.Staged? && st2.level > 0 {
        TellInv(st2, KeyValue(Fixup(s, st2.s2), ValueText(s, st2.s2, st2.s1)), listener);
      }
    }
  }

  lemma OpenInv(s: string, i: nat, st: State, listener: Listener)
    requires Inv(st, listener) && !st.ignoring
    ensures GoodStep(Open(s, i, st, listener), listener)
  {
    hide Bracketed, Heard, Depth, Fixup, ValueText;
    var st1 := Rotated(st);
    if st1.s1.Staged? { TellInv(st1, NewSection(Fixup(s, st1.s1)), listener); }
  }

  lemma CloseInv(s: string, i: nat, st: State, listener: Listener)
    requires Inv(st, listener) && !st.ignoring
    ensures GoodStep(Close(s, i, st, listener), listener)
  {
    hide Bracketed, Heard, Depth, Fixup, ValueText;
    if st.s2.NoString? {
      var st1 := Rotated(st);
      if st1.level > 0 {
        if st1.s2.Staged? { TellInv(st1, KeyValue(Fixup(s, st1.s2), ValueText(s, st1.s2, st1.s1)), listener); }
        var p := if st1.s2.Staged? then Property(s, st1, listener, i) else More(i, st1);
        if p.More? { TellInv(Scrapped(p.st), LeavingSection, listener); }
      }
    }
  }

  /** Characters that tell nothing. */
  lemma QuietInv(s: string, i: nat, st: State, listener: Listener)
    requires i < |s| && Inv(st, listener)
    ensures st.ignoring && st.inQuote ==> GoodStep(Quoted(s, i, st), listener)
    ensures st.ignoring && st.mlComment ==> GoodStep(Comment(s, i, st), listener)
    ensures !st.ignoring ==> GoodStep(Slash(s, i, st), listener)
    ensures !st.ignoring ==> GoodStep(Blank(i, st), listener) && GoodStep(Quote(i, st), listener)
  {
    hide Bracketed, Heard, Depth;
  }

  predicate Onward(r: Stepped, i: nat) { r.More? ==> r.next > i }

  lemma StepsOnward(s: string, i: nat, st: State, listener: Listener)
    requires i < |s|
    ensures Onward(Quoted(s, i, st), i) && Onward(Comment(s, i, st), i) && Onward(Slash(s, i, st), i)
    ensures Onward(Blank(i, st), i) && Onward(Quote(i, st), i)
    ensures Onward(Newline(s, i, st, listener), i) && Onward(Open(s, i, st, listener), i)
    ensures Onward(Close(s, i, st, listener), i)
  {
    hide Fixup, ValueText;
  }

  lemma StepInv(s: string, i: nat, st: State, listener: Listener)
    requires i < |s| && Inv(st, listener)
    ensures GoodStep(Step(s, i, st, listener), listener)
    ensures Step(s, i, st, listener).More? ==> Step(s, i, st, listener).next > i
  {
    hide Bracketed, Heard, Depth, Newline, Open, Close, Quoted, Comment, Slash, Blank, Quote;
    StepsOnward(s, i, st, listener);
    if s[i] == '\n' {
      NewlineInv(s, i, st, listener);
    } else if !st.ignoring && s[i] == '{' {
      OpenInv(s, i, st, listener);
    } else if !st.ignoring && s[i] == '}' {
      CloseInv(s, i, st, listener);
    } else {
      QuietInv(s, i, st, listener);
    }
  }

  /** A finished parse: one ParseStart first, one ParseEnd last, bracketed events between them; ParseEnd tells
      how it went; without an error or a stop every section is closed. */
  ghost predicate GoodResult(r: Result, listener: Listener) {
    && r.Result? && |r.events| >= 2
    && var body, last := r.events[..|r.events| - 1], r.events[|r.events| - 1];
    && Bracketed(body) && last.ParseEnd? && (last.failed <==> r.err == Custom)
    && (!last.halted ==> r.err == Okay && Depth(body) == 0 && Heard(body, listener))
    && (last.halted ==> StoppedWell(r.err, body, listener))
  }

  lemma EndedWell(err: SMCError, halted: bool, st: State, listener: Listener)
    requires Bracketed(st.events) && st.events != []
    requires if halted then StoppedWell(err, st.events, listener)
             else err == Okay && Depth(st.events) == 0 && Heard(st.events, listener)
    ensures GoodResult(Ended(err, halted, st), listener)
  {
  }

  lemma {:induction false} RunInv(s: string, i: nat, st: State, listener: Listener)
    requires Inv(st, listener)
    ensures GoodResult(Run(s, i, st, listener), listener)
    decreases |s| - i
  {
    hide Bracketed, Heard, Depth, Step, GoodResult, Ended;
    if i >= |s| {
      EndInv(st, listener);
    } else {
      StepInv(s, i, st, listener);
      match Step(s, i, st, listener) {
        case More(next, st') => RunInv(s, next, st', listener);
        case Failed(err, st') => EndedWell(err, true, st', listener);
        case Starved(st') => EndInv(st', listener);
      }
    }
  }

  lemma EndInv(st: State, listener: Listener)
    requires Inv(st, listener)
    ensures GoodResult(AtEnd(st), listener)
  {
  }

  /** Every parse, of any input, for any listener, is well bracketed, tells no NULL, and no assertion fails. */
  lemma ParseWell(s: string, listener: Listener)
    ensures GoodResult(Parse(s, listener), listener)
  {
    assert Depth(START.events[..0]) == 0;
    RunInv(s, 0, START, listener);
  }

  /** With a listener that always continues, Okay means that every section opened was closed. */
  lemma OkayIsClosed(s: string, listener: Listener)
    requires forall e :: listener(e) == Continue
    ensures var r := Parse(s, listener);
      && r.Result? && |r.events| >= 2 && r.events[|r.events| - 1].ParseEnd?
      && (r.err == Okay <==> !r.events[|r.events| - 1].halted)
      && (r.err == Okay ==> Depth(r.events[..|r.events| - 1]) == 0)
  {
    ParseWell(s, listener);
  }

  // ---------------------------------------------------------------- strings that nothing terminates

  /** The string has an end behind its beginning. */
  predicate Terminated(s: string, info: StringInfo) {
    info.Staged? ==> info.end.Some? && (if info.quoted then info.ptr + 1 else info.ptr) <= info.end.value <= |s|
  }

  /** Before character `i`: the string being read has no end yet, the strings before it have one ... */
  predicate Ordered(s: string, i: nat, st: State) {
    && (st.s0.Staged? ==> st.s0.ptr < i <= |s| && st.s0.end.None?)
    && Terminated(s, st.s1) && Terminated(s, st.s2) && (st.s1.Staged? ==> st.s1.end.value < i)
  }

  /** ... and unless it is a quotation, it begins behind the end of the one before. */
  predicate Framed(s: string, i: nat, st: State) {
    && Ordered(s, i, st) && (st.s0.Staged? ==> !st.s0.quoted)
    && (st.s1.Staged? && st.s0.Staged? && !st.inQuote ==> st.s1.end.value < st.s0.ptr)
  }

  /** A brace that ends the string being read and delivers it: as the name of a section, or as the value of a pair. */
  predicate Loose(s: string, i: nat, st: State)
    requires i < |s|
  {
    && !st.ignoring && st.s0.Staged? && st.s2.NoString?
    && ((s[i] == '{' && st.s1.NoString?) || (s[i] == '}' && st.s1.Staged? && st.level > 0))
  }

  /** A name or a value that nothing terminates. */
  predicate Unended(e: Event) { (e.NewSection? && e.name.Unterminated?) || (e.KeyValue? && e.value.Unterminated?) }

  predicate AnyUnended(events: seq<Event>) { exists k :: 0 <= k < |events| && Unended(events[k]) }

  predicate KeysEnded(events: seq<Event>) {
    forall k :: 0 <= k < |events| && events[k].KeyValue? ==> !events[k].key.Unterminated?
  }

  /** The step tells an unended string exactly when the brace is loose, and never an unended key. */
  ghost predicate ToldEnded(r: Stepped, st: State, loose: bool) {
    && !r.AssertionFails?
    && (KeysEnded(st.events) ==> KeysEnded(r.st.events))
    && (AnyUnended(r.st.events) <==> AnyUnended(st.events) || loose)
  }

  lemma EndedOne(events: seq<Event>, e: Event)
    ensures AnyUnended(events + [e]) <==> AnyUnended(events) || Unended(e)
    ensures KeysEnded(events + [e]) <==> KeysEnded(events) && (e.KeyValue? ==> !e.key.Unterminated?)
  {
    var after := events + [e];
    assert after[|events|] == e && forall k :: 0 <= k < |events| ==> after[k] == events[k];
  }

  lemma FixupEnded(s: string, info: StringInfo)
    requires info.Staged?
    ensures Fixup(s, info).Unterminated? <==> !Terminated(s, info)
  {
  }

  lemma RestageFramed(s: string, i: nat, st: State)
    requires i < |s| && Ordered(s, i, st)
    ensures var r := Restage(st, i);
      && !r.Starved? && !r.AssertionFails? && r.st.events == st.events
      && (r.More? ==> Framed(s, i + 1, r.st) && r.st.s0.NoString? && r.next == i + 1)
  {
  }

  lemma PropertyEnded(s: string, st: State, listener: Listener, next: nat, loose: bool)
    requires st.s2.Staged? && st.s1.Staged? && Terminated(s, st.s2) && (Terminated(s, st.s1) <==> !loose)
    requires loose ==> st.s2.end.value < st.s1.ptr
    ensures var r := Property(s, st, listener, next);
      && (r.More? ==> r.next == next && Framed(s, next, r.st))
      && ToldEnded(r, st, loose && st.level > 0)
  {
    hide Fixup, KeysEnded, AnyUnended;
    FixupEnded(s, st.s2);
    FixupEnded(s, st.s1);
    var kv := KeyValue(Fixup(s, st.s2), ValueText(s, st.s2, st.s1));
    assert Unended(kv) <==> loose;
    EndedOne(st.events, kv);
  }

  lemma NewlineEnded(s: string, i: nat, st: State, listener: Listener)
    requires i < |s| && s[i] == '\n' && Framed(s, i, st) && (st.s2.Staged? ==> st.s1.Staged?)
    ensures var r := Newline(s, i, st, listener);
      ToldEnded(r, st, false) && (r.More? ==> Framed(s, r.next, r.st))
  {
    hide Fixup, Restage, Property, Terminated, KeysEnded, AnyUnended;
    RestageFramed(s, i, st);
    RestageOrder(st, i);
    var r := Restage(st, i);
    if r.More? {
      var raw := RawLine(st.lineBegin, i);
      EndedOne(st.events, raw);
      var st2 := Told(r.st.(inQuote := false, ignoring := st.ignoring && st.mlComment), raw);
      if st2.s2.Staged? { PropertyEnded(s, st2, listener, i + 1, false); }
    }
  }

  lemma RestageOrder(st: State, i: nat)
    requires st.s2.Staged? ==> st.s1.Staged?
    ensures var r := Restage(st, i); r.More? && r.st.s2.Staged? ==> r.st.s1.Staged?
  {
  }

  lemma OpenEnded(s: string, i: nat, st: State, listener: Listener)
    requires i < |s| && s[i] == '{' && Framed(s, i, st) && !st.ignoring
    ensures var r := Open(s, i, st, listener);
      ToldEnded(r, st, Loose(s, i, st)) && (r.More? ==> Framed(s, r.next, r.st))
  {
    hide Fixup, KeysEnded, AnyUnended;
    var st1 := Rotated(st);
    if st1.s1.Staged? { FixupEnded(s, st1.s1); }
    EndedOne(st1.events, NewSection(Fixup(s, st1.s1)));
  }

  lemma CloseEnded(s: string, i: nat, st: State, listener: Listener)
    requires i < |s| && s[i] == '}' && Framed(s, i, st) && !st.ignoring && !st.inQuote
    requires (st.s2.Staged? ==> st.s1.Staged?) && !Close(s, i, st, listener).AssertionFails?
    ensures var r := Close(s, i, st, listener);
      ToldEnded(r, st, Loose(s, i, st)) && (r.More? ==> Framed(s, r.next, r.st))
  {
    hide Fixup, Property, KeysEnded, AnyUnended;
    var st1 := Rotated(st);
    var p := More(i, st1);
    if st.s2.NoString? && st1.s2.Staged? {
      PropertyEnded(s, st1, listener, i, st.s0.Staged?);
      p := Property(s, st1, listener, i);
    }
    if p.More? { EndedOne(p.st.events, LeavingSection); }
  }

  /** The step tells nothing and keeps the frame. */
  ghost predicate Untold(s: string, r: Stepped, st: State) {
    r.AssertionFails? || (r.st.events == st.events && (r.More? ==> Framed(s, r.next, r.st)))
  }

  lemma QuotedFramed(s: string, i: nat, st: State)
    requires i < |s| && Framed(s, i, st)
    ensures Untold(s, Quoted(s, i, st), st)
  {
    hide Restage;
    RestageFramed(s, i, st.(inQuote := false, ignoring := false,
      s0 := if st.s0.Staged? then st.s0.(quoted := true) else NoString));
  }

  lemma SlashFramed(s: string, i: nat, st: State)
    requires i < |s| && Framed(s, i, st)
    ensures Untold(s, Slash(s, i, st), st)
  {
    hide Restage;
    RestageFramed(s, i, st.(ignoring := true));
    RestageFramed(s, i, st.(ignoring := true, mlComment := true));
  }

  lemma BlankFramed(s: string, i: nat, st: State)
    requires i < |s| && Framed(s, i, st) && (st.s2.Staged? ==> st.s1.Staged?)
    ensures Untold(s, Blank(i, st), st) && Untold(s, Comment(s, i, st), st) && Untold(s, Quote(i, st), st)
  {
    RestageFramed(s, i, st);
    hide Restage;
  }

  lemma QuietEnded(s: string, i: nat, st: State, listener: Listener)
    requires i < |s| && Framed(s, i, st) && (st.s2.Staged? ==> st.s1.Staged?)
    requires s[i] != '\n' && (st.ignoring || (s[i] != '{' && s[i] != '}'))
    ensures Untold(s, Step(s, i, st, listener), st)
  {
    hide Newline, Open, Close, Quoted, Slash, Blank, Comment, Quote;
    QuotedFramed(s, i, st);
    SlashFramed(s, i, st);
    BlankFramed(s, i, st);
  }

  lemma StepEnded(s: string, i: nat, st: State, listener: Listener)
    requires i < |s| && Inv(st, listener) && Framed(s, i, st)
    ensures var r := Step(s, i, st, listener);
      ToldEnded(r, st, Loose(s, i, st)) && (r.More? ==> Framed(s, r.next, r.st))
  {
    StepInv(s, i, st, listener);
    hide Bracketed, Heard, Depth, Restage, Newline, Open, Close, KeysEnded, AnyUnended;
    if s[i] == '\n' {
      NewlineEnded(s, i, st, listener);
    } else if !st.ignoring && s[i] == '{' {
      OpenEnded(s, i, st, listener);
    } else if !st.ignoring && s[i] == '}' {
      CloseEnded(s, i, st, listener);
    } else {
      QuietEnded(s, i, st, listener);
    }
  }

  /** Some brace on the way is loose. */
  predicate AnyLoose(s: string, i: nat, st: State, listener: Listener)
    decreases |s| - i
  {
    i < |s| && (Loose(s, i, st) ||
      var r := Step(s, i, st, listener); r.More? && r.next > i && AnyLoose(s, r.next, r.st, listener))
  }

  lemma {:induction false} RunEnded(s: string, i: nat, st: State, listener: Listener)
    requires Inv(st, listener) && Framed(s, i, st) && KeysEnded(st.events)
    ensures var r := Run(s, i, st, listener);
      && r.Result? && KeysEnded(r.events)
      && (AnyUnended(r.events) <==> AnyUnended(st.events) || AnyLoose(s, i, st, listener))
    decreases |s| - i
  {
    hide Bracketed, Heard, Depth, Step, Loose, Framed, KeysEnded, AnyUnended;
    if i < |s| {
      StepInv(s, i, st, listener);
      StepEnded(s, i, st, listener);
      var r := Step(s, i, st, listener);
      LastEnded(r.st.events);
      if r.More? { RunEnded(s, r.next, r.st, listener); }
    } else {
      LastEnded(st.events);
    }
  }

  lemma LastEnded(events: seq<Event>)
    ensures forall h, f :: SameEnds(events + [ParseEnd(h, f)], events)
  {
    forall h, f ensures SameEnds(events + [ParseEnd(h, f)], events) { EndedOne(events, ParseEnd(h, f)); }
  }

  predicate SameEnds(a: seq<Event>, b: seq<Event>) {
    (AnyUnended(a) <==> AnyUnended(b)) && (KeysEnded(a) <==> KeysEnded(b))
  }

  /** Keys always have an end.  A name or a value without one is told if and only if a brace ends the string being
      read without a blank before it. */
  lemma UnendedExactly(s: string, listener: Listener)
    ensures var r := Parse(s, listener);
      r.Result? && KeysEnded(r.events) && (AnyUnended(r.events) <==> AnyLoose(s, 0, START, listener))
  {
    assert Depth(START.events[..0]) == 0;
    RunEnded(s, 0, START, listener);
  }

  /** A name right before its brace. */
  lemma NameRunsOn(listener: Listener)
    requires forall e :: listener(e) == Continue
    ensures Parse("A{\n}\n", listener) ==
      Result(Okay, [ParseStart, NewSection(Unterminated(0)), RawLine(0, 2), LeavingSection, RawLine(3, 4),
                    ParseEnd(false, false)])
  {
    var s := "A{\n}\n";
    assert s[0] == 'A' && s[1] == '{' && s[2] == '\n' && s[3] == '}' && s[4] == '\n' && |s| == 5;
    var st1 := START.(s0 := Begin(0));
    assert Step(s, 0, START, listener) == More(1, st1);
    var st2 := START.(level := 1, events := START.events + [NewSection(Unterminated(0))]);
    assert Step(s, 1, st1, listener) == More(2, st2);
    var st3 := st2.(lineBegin := 3, events := st2.events + [RawLine(0, 2)]);
    assert Step(s, 2, st2, listener) == More(3, st3);
    var st4 := st3.(level := 0, events := st3.events + [LeavingSection]);
    assert Step(s, 3, st3, listener) == More(4, st4);
    var st5 := st4.(lineBegin := 5, events := st4.events + [RawLine(3, 4)]);
    assert Step(s, 4, st4, listener) == More(5, st5);
    hide Step;
    assert Run(s, 5, st5, listener) == AtEnd(st5);
  }
}
