/** Writing a document in SMC syntax and reading it back. */
module SmcPrinter {
  import opened Wrappers
  import opened Smc

  datatype Item = Pair(key: string, value: string) | Section(name: string, items: seq<Item>)

  function EscapeChar(c: char): string {
    match c
    case '\n' => "\\n"
    case '\t' => "\\t"
    case '\r' => "\\r"
    case '\\' => "\\\\"
    case '"' => "\\\""
    case _ => [c]
  }

  function Escape(t: string): string { if t == [] then [] else EscapeChar(t[0]) + Escape(t[1..]) }

  function QuoteText(t: string): string { "\"" + Escape(t) + "\"" }

  function Print(item: Item): string {
    match item
    case Pair(key, value) => QuoteText(key) + " " + QuoteText(value) + "\n"
    case Section(name, items) => QuoteText(name) + "\n{\n" + PrintAll(items) + "}\n"
  }

  function PrintAll(items: seq<Item>): string { if items == [] then [] else Print(items[0]) + PrintAll(items[1..]) }

  function EventsOf(item: Item): seq<Event> {
    match item
    case Pair(key, value) => [KeyValue(Text(key), Text(value))]
    case Section(name, items) => [NewSection(Text(name))] + EventsOfAll(items) + [LeavingSection]
  }

  function EventsOfAll(items: seq<Item>): seq<Event> {
    if items == [] then [] else EventsOf(items[0]) + EventsOfAll(items[1..])
  }

  /** The events that carry the document. */
  function Structure(events: seq<Event>): seq<Event> {
    if events == [] then []
    else
      var e := events[|events| - 1];
      Structure(events[..|events| - 1]) + if e.NewSection? || e.KeyValue? || e.LeavingSection? then [e] else []
  }

  /** The parser takes a quote after a backslash for an escaped one, even when that backslash is itself escaped. */
  predicate Closable(t: string) { t == [] || t[|t| - 1] != '\\' }

  /** A listener takes the string for a C string, which ends at the first NUL. */
  predicate Clear(t: string) { Closable(t) && '\0' !in t }

  predicate Readable(item: Item) {
    match item
    case Pair(key, value) => Clear(key) && Clear(value)
    case Section(name, items) => Clear(name) && AllReadable(items)
  }

  predicate AllReadable(items: seq<Item>) { items == [] || (Readable(items[0]) && AllReadable(items[1..])) }

  // ---------------------------------------------------------------- escaping

  lemma {:induction false} EscapeConcat(a: string, b: string)
    ensures Escape(a + b) == Escape(a) + Escape(b)
  {
    if a == [] {
      assert a + b == b;
    } else {
      assert (a + b)[1..] == a[1..] + b;
      EscapeConcat(a[1..], b);
    }
  }

  lemma UnescapeChar(c: char, more: string)
    ensures Unescape(EscapeChar(c) + more) == [c] + Unescape(more)
  {
  }

  lemma {:induction false} UnescapeEscape(t: string, rest: string)
    ensures Unescape(Escape(t) + rest) == t + Unescape(rest)
  {
    hide Unescape;
    if t == [] {
      assert Escape(t) + rest == rest;
    } else {
      var more := Escape(t[1..]) + rest;
      assert Escape(t) + rest == EscapeChar(t[0]) + more;
      UnescapeChar(t[0], more);
      UnescapeEscape(t[1..], rest);
      assert t + Unescape(rest) == [t[0]] + (t[1..] + Unescape(rest));
    }
  }

  /** Inside an escaped text: no newline, every quote right behind a backslash. */
  predicate Quotable(e: string) {
    forall k :: 0 <= k < |e| ==> e[k] != '\n' && (e[k] == '"' ==> Guarded(e, k))
  }

  predicate Guarded(e: string, k: nat) { 0 < k <= |e| && e[k - 1] == '\\' }

  lemma {:induction false} EscapeQuotable(t: string)
    ensures Quotable(Escape(t))
  {
    if t != [] {
      var e, more := EscapeChar(t[0]), Escape(t[1..]);
      EscapeQuotable(t[1..]);
      assert Escape(t) == e + more;
      hide Escape;
    }
  }

  lemma {:induction false} EscapeShape(t: string)
    ensures |Escape(t)| >= |t|
    ensures '\\' !in Escape(t) ==> Escape(t) == t
    ensures '\\' in Escape(t) ==> |Escape(t)| >= 2
    ensures t != [] ==> Escape(t) != [] && (Escape(t)[|Escape(t)| - 1] == '\\' <==> !Closable(t))
  {
    hide EscapeChar;
    if t != [] {
      var e, more := EscapeChar(t[0]), Escape(t[1..]);
      CharShape(t[0]);
      EscapeShape(t[1..]);
      assert Escape(t) == e + more;
      hide Escape;
      assert t == [t[0]] + t[1..];
    }
  }

  lemma CharShape(c: char)
    ensures var e := EscapeChar(c);
      && e != [] && ('\\' !in e ==> e == [c]) && ('\\' in e ==> |e| >= 2) && (e[|e| - 1] == '\\' <==> c == '\\')
  {
  }

  /** A quotation that starts at `i` and holds the text t. */
  function Closed(i: nat, t: string): StringInfo { Staged(true, i, Some(i + 1 + |Escape(t)|), '\\' in Escape(t)) }

  lemma UnescapeWhole(t: string)
    ensures Unescape(Escape(t)) == t
  {
    UnescapeEscape(t, "");
    assert Escape(t) + "" == Escape(t) && t + "" == t;
  }

  lemma FixupQuoted(s: string, i: nat, t: string)
    requires Here(s, i + 1, Escape(t))
    ensures Fixup(s, Closed(i, t)) == Text(UpToNul(t))
  {
    hide Escape, Unescape, UpToNul;
    EscapeShape(t);
    UnescapeWhole(t);
  }

  // ---------------------------------------------------------------- running over a quotation

  predicate Here(s: string, i: nat, p: string) { i + |p| <= |s| && s[i..i + |p|] == p }

  lemma HereConcat(s: string, i: nat, a: string, b: string)
    ensures Here(s, i, a + b) <==> Here(s, i, a) && Here(s, i + |a|, b)
  {
    if i + |a| + |b| <= |s| {
      var w := s[i..i + |a| + |b|];
      assert w[..|a|] == s[i..i + |a|] && w[|a|..] == s[i + |a|..i + |a| + |b|];
      assert w == w[..|a|] + w[|a|..];
      assert (a + b)[..|a|] == a && (a + b)[|a|..] == b;
    }
  }

  lemma HereAt(s: string, i: nat, p: string, k: nat)
    requires Here(s, i, p) && k < |p|
    ensures s[i + k] == p[k]
  {
  }

  ghost predicate AlwaysContinues(listener: Listener) { forall e :: listener(e) == Continue }

  predicate Clean(st: State) {
    !st.ignoring && !st.inQuote && !st.mlComment && st.s0.NoString? && st.s2.NoString?
  }

  /** Inside the quotation that started at `i`, `e` of it read so far. */
  function Inside(st: State, i: nat, e: string): State {
    st.(s0 := Staged(false, i, None, '\\' in e), inQuote := true, ignoring := true)
  }

  lemma QuoteOpens(s: string, i: nat, st: State, listener: Listener)
    requires Clean(st) && i < |s| && s[i] == '"'
    ensures Run(s, i, st, listener) == Run(s, i + 1, Inside(st, i, ""), listener)
  {
  }

  /** Every character of an escaped text is read into the quotation. */
  lemma InsideStep(s: string, i: nat, e: string, k: nat, st: State, listener: Listener)
    requires Quotable(e) && k < |e| && Here(s, i + 1, e) && i + 1 + |e| < |s|
    ensures Step(s, i + 1 + k, Inside(st, i, e[..k]), listener) == More(i + 2 + k, Inside(st, i, e[..k + 1]))
  {
    HereAt(s, i + 1, e, k);
    if e[k] == '"' { HereAt(s, i + 1, e, k - 1); }
    assert e[..k + 1] == e[..k] + [e[k]];
    assert '\\' in e[..k + 1] <==> '\\' in e[..k] || e[k] == '\\';
  }

  lemma {:induction false} QuoteScans(s: string, i: nat, e: string, k: nat, st: State, listener: Listener)
    requires Quotable(e) && k <= |e| && Here(s, i + 1, e) && i + 1 + |e| < |s|
    ensures Run(s, i + 1 + k, Inside(st, i, e[..k]), listener) == Run(s, i + 1 + |e|, Inside(st, i, e), listener)
    decreases |e| - k
  {
    hide Step, Inside, Quotable;
    if k < |e| {
      InsideStep(s, i, e, k, st, listener);
      QuoteScans(s, i, e, k + 1, st, listener);
    } else {
      assert e[..k] == e;
    }
  }

  /** From the opening quote to the place of the closing one. */
  lemma QuoteReads(s: string, i: nat, t: string, st: State, listener: Listener)
    requires Clean(st) && Here(s, i, QuoteText(t))
    ensures var e := Escape(t); var j := i + 1 + |e|;
      && j < |s| && s[j] == '"' && Here(s, i + 1, e)
      && Run(s, i, st, listener) == Run(s, j, Inside(st, i, e), listener)
      && (s[j - 1] == '\\' <==> !Closable(t))
  {
    hide Escape, Run, Quotable, Clean;
    var e := Escape(t);
    EscapeQuotable(t);
    EscapeShape(t);
    HereConcat(s, i, "\"" + e, "\"");
    HereConcat(s, i, "\"", e);
    HereAt(s, i, "\"", 0);
    HereAt(s, i + 1 + |e|, "\"", 0);
    if t != [] { HereAt(s, i + 1, e, |e| - 1); } else { EscapeNothing(); }
    QuoteOpens(s, i, st, listener);
    assert e[..0] == "";
    QuoteScans(s, i, e, 0, st, listener);
  }

  lemma EscapeNothing()
    ensures Escape("") == ""
  {
  }

  /** The quote behind a text closes the quotation exactly when the text does not end in a backslash. */
  lemma QuoteCloses(s: string, j: nat, i: nat, e: string, st: State, listener: Listener)
    requires Clean(st) && 0 < j < |s| && s[j] == '"'
    ensures Step(s, j, Inside(st, i, e), listener) ==
      if s[j - 1] != '\\' then More(j + 1, st.(s1 := Staged(true, i, Some(j), '\\' in e), s2 := st.s1))
      else More(j + 1, Inside(st, i, e))
  {
  }

  lemma QuoteRun(s: string, i: nat, t: string, st: State, listener: Listener)
    requires Clean(st) && Here(s, i, QuoteText(t))
    ensures var j := i + 1 + |Escape(t)|;
      Run(s, i, st, listener) ==
        if Closable(t) then Run(s, i + |QuoteText(t)|, st.(s1 := Closed(i, t), s2 := st.s1), listener)
        else Run(s, i + |QuoteText(t)|, Inside(st, i, Escape(t)), listener)
  {
    hide Escape, Step, Inside, Clean;
    QuoteReads(s, i, t, st, listener);
    QuoteCloses(s, i + 1 + |Escape(t)|, i, Escape(t), st, listener);
  }

  // ---------------------------------------------------------------- readable documents

  /** Between two items. */
  predicate Ready(st: State) { Clean(st) && st.s1.NoString? }

  lemma StructureTold(events: seq<Event>, e: Event)
    ensures Structure(events + [e]) ==
            Structure(events) + if e.NewSection? || e.KeyValue? || e.LeavingSection? then [e] else []
  {
  }

  lemma RunStep(s: string, i: nat, st: State, listener: Listener, next: nat, st': State)
    requires i < next && i < |s| && Step(s, i, st, listener) == More(next, st')
    ensures Run(s, i, st, listener) == Run(s, next, st', listener)
  {
    hide Step;
  }

  /** A newline outside any token. */
  lemma NewlineRun(s: string, i: nat, st: State, listener: Listener) returns (st': State)
    requires Clean(st) && i < |s| && s[i] == '\n' && AlwaysContinues(listener)
    ensures Run(s, i, st, listener) == Run(s, i + 1, st', listener)
    ensures Clean(st') && st'.level == st.level && st'.s1 == st.s1 && Structure(st'.events) == Structure(st.events)
  {
    st' := Told(st, RawLine(st.lineBegin, i)).(lineBegin := i + 1);
    StructureTold(st.events, RawLine(st.lineBegin, i));
    hide Structure;
    RunStep(s, i, st, listener, i + 1, st');
  }

  /** A key and the blank behind it. */
  lemma KeyRun(s: string, i: nat, key: string, st: State, listener: Listener)
    requires Ready(st) && Closable(key) && Here(s, i, QuoteText(key)) && Here(s, i + |QuoteText(key)|, " ")
    ensures Run(s, i, st, listener) == Run(s, i + |QuoteText(key)| + 1, st.(s1 := Closed(i, key)), listener)
    ensures Clean(st.(s1 := Closed(i, key))) && Fixup(s, Closed(i, key)) == Text(UpToNul(key))
  {
    hide QuoteText, Structure, Run, Fixup, Closable;
    var p := i + |QuoteText(key)|;
    HereAt(s, p, " ", 0);
    QuoteRun(s, i, key, st, listener);
    var st1 := st.(s1 := Closed(i, key));
    RunStep(s, p, st1, listener, p + 1, st1);
    QuoteFixup(s, i, key);
  }

  /** A value and the end of its line deliver the pair. */
  lemma ValueRun(s: string, q: nat, key: string, value: string, st: State, listener: Listener) returns (st': State)
    requires Clean(st) && st.level > 0 && AlwaysContinues(listener) && st.s1.Staged? && Fixup(s, st.s1) == Text(key)
    requires Closable(value) && Here(s, q, QuoteText(value)) && Here(s, q + |QuoteText(value)|, "\n")
    ensures Run(s, q, st, listener) == Run(s, q + |QuoteText(value)| + 1, st', listener)
    ensures Ready(st') && st'.level == st.level
    ensures Structure(st'.events) == Structure(st.events) + [KeyValue(Text(key), Text(UpToNul(value)))]
  {
    hide QuoteText, Structure, Run, Fixup, Closable;
    var n := q + |QuoteText(value)|;
    HereAt(s, n, "\n", 0);
    QuoteRun(s, q, value, st, listener);
    var st2 := st.(s1 := Closed(q, value), s2 := st.s1);
    QuoteFixup(s, q, value);
    var raw, kv := RawLine(st.lineBegin, n), KeyValue(Text(key), Text(UpToNul(value)));
    StructureTold(st.events, raw);
    StructureTold(st.events + [raw], kv);
    st' := Scrapped(Told(Told(st2, raw), kv)).(lineBegin := n + 1);
    RunStep(s, n, st2, listener, n + 1, st');
  }

  lemma PairRun(s: string, i: nat, key: string, value: string, st: State, listener: Listener) returns (st': State)
    requires Ready(st) && st.level > 0 && AlwaysContinues(listener)
    requires Here(s, i, Print(Pair(key, value))) && Closable(key) && Closable(value)
    ensures Run(s, i, st, listener) == Run(s, i + |Print(Pair(key, value))|, st', listener)
    ensures Ready(st') && st'.level == st.level
    ensures Structure(st'.events) == Structure(st.events) + [KeyValue(Text(UpToNul(key)), Text(UpToNul(value)))]
  {
    hide QuoteText, Structure, Run, Fixup, Closable;
    var a, b := QuoteText(key), QuoteText(value);
    HereConcat(s, i, a + " " + b, "\n");
    HereConcat(s, i, a + " ", b);
    HereConcat(s, i, a, " ");
    KeyRun(s, i, key, st, listener);
    st' := ValueRun(s, i + |a| + 1, UpToNul(key), value, st.(s1 := Closed(i, key)), listener);
  }

  lemma QuoteFixup(s: string, i: nat, t: string)
    requires Here(s, i, QuoteText(t))
    ensures Fixup(s, Closed(i, t)) == Text(UpToNul(t))
  {
    hide Escape, Fixup;
    HereConcat(s, i, "\"" + Escape(t), "\"");
    HereConcat(s, i, "\"", Escape(t));
    FixupQuoted(s, i, t);
  }

  /** The name of a section, the line break and the opening brace. */
  lemma HeadRun(s: string, i: nat, name: string, st: State, listener: Listener) returns (st': State)
    requires Ready(st) && AlwaysContinues(listener) && Here(s, i, QuoteText(name) + "\n{\n") && Closable(name)
    ensures Run(s, i, st, listener) == Run(s, i + |QuoteText(name)| + 3, st', listener)
    ensures Ready(st') && st'.level == st.level + 1
    ensures Structure(st'.events) == Structure(st.events) + [NewSection(Text(UpToNul(name)))]
  {
    hide QuoteText, Structure, Run, Fixup, Closable;
    var a := QuoteText(name);
    HereConcat(s, i, a, "\n{\n");
    var p := i + |a|;
    HereAt(s, p, "\n{\n", 0); HereAt(s, p, "\n{\n", 1); HereAt(s, p, "\n{\n", 2);
    QuoteRun(s, i, name, st, listener);
    var st1 := NewlineRun(s, p, st.(s1 := Closed(i, name)), listener);
    QuoteFixup(s, i, name);
    StructureTold(st1.events, NewSection(Text(UpToNul(name))));
    var st2 := Told(st1, NewSection(Text(UpToNul(name)))).(s1 := NoString, level := st1.level + 1);
    RunStep(s, p + 1, st1, listener, p + 2, st2);
    st' := NewlineRun(s, p + 2, st2, listener);
  }

  lemma TailRun(s: string, i: nat, st: State, listener: Listener) returns (st': State)
    requires Ready(st) && AlwaysContinues(listener) && Here(s, i, "}\n") && st.level > 0
    ensures Run(s, i, st, listener) == Run(s, i + 2, st', listener)
    ensures Ready(st') && st'.level == st.level - 1
    ensures Structure(st'.events) == Structure(st.events) + [LeavingSection]
  {
    hide Structure, Run;
    HereAt(s, i, "}\n", 0);
    HereAt(s, i, "}\n", 1);
    StructureTold(st.events, LeavingSection);
    var st1 := Told(st, LeavingSection).(level := st.level - 1);
    RunStep(s, i, st, listener, i + 1, st1);
    st' := NewlineRun(s, i + 1, st1, listener);
  }

  // ---------------------------------------------------------------- unreadable documents

  lemma {:induction false} StructureGrows(a: seq<Event>, b: seq<Event>)
    ensures Structure(a) <= Structure(a + b)
    decreases |b|
  {
    if b == [] {
      assert a + b == a;
    } else {
      var b', e := b[..|b| - 1], b[|b| - 1];
      StructureGrows(a, b');
      StructureTold(a + b', e);
      assert a + b == a + b' + [e];
    }
  }

  ghost predicate Keeps(r: Stepped, st: State) { !r.AssertionFails? ==> st.events <= r.st.events }

  lemma NewlineKeeps(s: string, i: nat, st: State, listener: Listener)
    ensures Keeps(Newline(s, i, st, listener), st)
  {
    hide Fixup;
  }

  lemma PropertyKeeps(s: string, st: State, listener: Listener, next: nat)
    ensures Keeps(Property(s, st, listener, next), st)
  {
    hide Fixup;
  }

  lemma CloseKeeps(s: string, i: nat, st: State, listener: Listener)
    ensures Keeps(Close(s, i, st, listener), st)
  {
    hide Fixup, Property;
    PropertyKeeps(s, Rotated(st), listener, i);
  }

  lemma OpenKeeps(s: string, i: nat, st: State, listener: Listener)
    ensures Keeps(Open(s, i, st, listener), st)
  {
    hide Fixup;
  }

  lemma StepKeeps(s: string, i: nat, st: State, listener: Listener)
    requires i < |s|
    ensures Keeps(Step(s, i, st, listener), st)
  {
    hide Fixup, Newline, Close, Open;
    OpenKeeps(s, i, st, listener);
    NewlineKeeps(s, i, st, listener);
    CloseKeeps(s, i, st, listener);
  }

  /** A parse never takes back what it has told. */
  lemma {:induction false} RunGrows(s: string, i: nat, st: State, listener: Listener)
    ensures var r := Run(s, i, st, listener); r.Result? ==> Structure(st.events) <= Structure(r.events)
    decreases |s| - i
  {
    hide Step, Structure;
    if i < |s| {
      StepKeeps(s, i, st, listener);
      var r := Step(s, i, st, listener);
      if !r.AssertionFails? {
        StructureGrows(st.events, r.st.events[|st.events|..]);
        assert st.events + r.st.events[|st.events|..] == r.st.events;
        if r.More? && r.next > i { RunGrows(s, r.next, r.st, listener); }
        EndGrows(r.st.events);
      }
    } else {
      EndGrows(st.events);
    }
  }

  lemma EndGrows(events: seq<Event>)
    ensures forall h, f :: Structure(events + [ParseEnd(h, f)]) == Structure(events)
  {
  }

  /** The token `b` waits to become a section name or a key. */
  predicate Held(st: State, b: StringInfo) { b.Staged? && ((st.s1 == b && st.s2.NoString?) || st.s2 == b) }

  /** The first structural event after `base` gives the token away. */
  predicate Gives(events: seq<Event>, base: seq<Event>, t: Text) {
    && Structure(base) < Structure(events)
    && var e := Structure(events)[|Structure(base)|];
    (e.NewSection? && e.name == t) || (e.KeyValue? && e.key == t)
  }

  ghost predicate HeldOrGiven(r: Stepped, st: State, b: StringInfo, t: Text) {
    r.AssertionFails? || Gives(r.st.events, st.events, t)
    || (Structure(r.st.events) == Structure(st.events) && (r.More? ==> Held(r.st, b)))
  }

  lemma GivesOne(base: seq<Event>, e: Event, t: Text)
    requires (e.NewSection? && e.name == t) || (e.KeyValue? && e.key == t)
    ensures Gives(base + [e], base, t)
  {
  }

  lemma GivesMore(events: seq<Event>, more: seq<Event>, base: seq<Event>, t: Text)
    requires Gives(events, base, t)
    ensures Gives(events + more, base, t)
  {
    StructureGrows(events, more);
  }

  lemma HeldNewline(s: string, i: nat, st: State, listener: Listener, b: StringInfo)
    requires Held(st, b)
    ensures HeldOrGiven(Newline(s, i, st, listener), st, b, Fixup(s, b))
  {
    hide Structure, Gives, Fixup;
    var r := Restage(st, i);
    var raw := RawLine(st.lineBegin, i);
    StructureTold(st.events, raw);
    if r.More? {
      var st2 := Told(r.st.(inQuote := false, ignoring := st.ignoring && st.mlComment), raw);
      if st2.s2.Staged? {
        var kv := KeyValue(Fixup(s, st2.s2), ValueText(s, st2.s2, st2.s1));
        GivesOne(st2.events, kv, Fixup(s, b));
        GivesFrom(st2.events + [kv], st2.events, st.events, Fixup(s, b));
      }
    }
  }

  lemma GivesFrom(events: seq<Event>, a: seq<Event>, b: seq<Event>, t: Text)
    requires Gives(events, a, t) && Structure(a) == Structure(b)
    ensures Gives(events, b, t)
  {
  }

  lemma HeldClose(s: string, i: nat, st: State, listener: Listener, b: StringInfo)
    requires Held(st, b)
    ensures HeldOrGiven(Close(s, i, st, listener), st, b, Fixup(s, b))
  {
    hide Structure, Gives, Fixup;
    if st.s2.NoString? {
      var st1 := Rotated(st);
      if st1.s2.Staged? {
        var kv := KeyValue(Fixup(s, st1.s2), ValueText(s, st1.s2, st1.s1));
        GivesOne(st1.events, kv, Fixup(s, b));
        GivesMore(st1.events + [kv], [LeavingSection], st.events, Fixup(s, b));
      }
    }
  }

  lemma HeldOpen(s: string, i: nat, st: State, listener: Listener, b: StringInfo)
    requires Held(st, b)
    ensures HeldOrGiven(Open(s, i, st, listener), st, b, Fixup(s, b))
  {
    hide Structure, Gives, Fixup;
    GivesOne(st.events, NewSection(Fixup(s, b)), Fixup(s, b));
  }

  predicate Quiet(r: Stepped, st: State, b: StringInfo) {
    r.AssertionFails? || (r.st.events == st.events && (r.More? ==> Held(r.st, b)))
  }

  lemma RestageQuiet(st: State, i: nat, b: StringInfo)
    requires Held(st, b)
    ensures var r := Restage(st, i); !r.Starved? && !r.AssertionFails? && Quiet(r, st, b)
  {
  }

  lemma QuotedQuiet(s: string, i: nat, st: State, b: StringInfo)
    requires i < |s| && Held(st, b)
    ensures Quiet(Quoted(s, i, st), st, b)
  {
    hide Restage;
    var s0 := if st.s0.Staged? then st.s0.(quoted := true) else NoString;
    RestageQuiet(st.(inQuote := false, ignoring := false, s0 := s0), i, b);
  }

  lemma SlashQuiet(s: string, i: nat, st: State, b: StringInfo)
    requires i < |s| && Held(st, b)
    ensures Quiet(Slash(s, i, st), st, b)
  {
    hide Restage;
    RestageQuiet(st.(ignoring := true), i, b);
    RestageQuiet(st.(ignoring := true, mlComment := true), i, b);
  }

  lemma QuoteQuiet(i: nat, st: State, b: StringInfo)
    requires Held(st, b)
    ensures Quiet(Quote(i, st), st, b)
  {
  }

  lemma BlankQuiet(s: string, i: nat, st: State, b: StringInfo)
    requires i < |s| && Held(st, b)
    ensures Quiet(Blank(i, st), st, b) && Quiet(Comment(s, i, st), st, b)
  {
  }

  /** No other character tells the listener anything or drops a staged string. */
  lemma HeldQuiet(s: string, i: nat, st: State, listener: Listener, b: StringInfo)
    requires i < |s| && Held(st, b) && s[i] != '\n' && (st.ignoring || (s[i] != '{' && s[i] != '}'))
    ensures HeldOrGiven(Step(s, i, st, listener), st, b, Fixup(s, b))
  {
    hide Structure, Gives, Fixup, Newline, Open, Close, Quoted, Slash, Quote, Blank, Comment;
    QuotedQuiet(s, i, st, b);
    SlashQuiet(s, i, st, b);
    QuoteQuiet(i, st, b);
    BlankQuiet(s, i, st, b);
  }

  lemma HeldStep(s: string, i: nat, st: State, listener: Listener, b: StringInfo)
    requires i < |s| && Held(st, b)
    ensures HeldOrGiven(Step(s, i, st, listener), st, b, Fixup(s, b))
  {
    hide Structure, Gives, Fixup, Newline, Open, Close, HeldOrGiven, Held;
    if s[i] == '\n' {
      HeldNewline(s, i, st, listener, b);
    } else if !st.ignoring && s[i] == '{' {
      HeldOpen(s, i, st, listener, b);
    } else if !st.ignoring && s[i] == '}' {
      HeldClose(s, i, st, listener, b);
    } else {
      HeldQuiet(s, i, st, listener, b);
    }
  }

  /** Whatever follows, a held token is the next thing the listener hears of, if it hears anything. */
  lemma {:induction false} HeldRun(s: string, i: nat, st: State, listener: Listener, b: StringInfo)
    requires Held(st, b)
    ensures var r := Run(s, i, st, listener);
      r.Result? ==> Structure(r.events) == Structure(st.events) || Gives(r.events, st.events, Fixup(s, b))
    decreases |s| - i
  {
    hide Step, Structure, Gives, Fixup, Held;
    if i < |s| {
      HeldStep(s, i, st, listener, b);
      var r, t := Step(s, i, st, listener), Fixup(s, b);
      if !r.AssertionFails? {
        EndGrows(r.st.events);
        if Gives(r.st.events, st.events, t) {
          RunGrows(s, i + 1, r.st, listener);
          GivesOn(s, r, i, st, listener, t);
        } else if r.More? && r.next > i {
          HeldRun(s, r.next, r.st, listener, b);
          var r' := Run(s, r.next, r.st, listener);
          if r'.Result? && Gives(r'.events, r.st.events, t) { GivesFrom(r'.events, r.st.events, st.events, t); }
        }
      }
    } else {
      EndGrows(st.events);
    }
  }

  lemma GivesOn(s: string, r: Stepped, i: nat, st: State, listener: Listener, t: Text)
    requires i < |s| && r == Step(s, i, st, listener) && !r.AssertionFails? && Gives(r.st.events, st.events, t)
    ensures var f := Run(s, i, st, listener); f.Result? ==> Gives(f.events, st.events, t)
  {
    hide Step;
    EndGrows(r.st.events);
    if r.More? { RunGrows(s, r.next, r.st, listener); }
  }

  /** The run does not tell what it should. */
  ghost predicate Diverges(r: Result, base: seq<Event>, expected: seq<Event>) {
    r.Result? ==> !(base + expected <= Structure(r.events))
  }

  lemma DivergesHeld(s: string, i: nat, st: State, listener: Listener, b: StringInfo, e: Event, more: seq<Event>)
    requires Held(st, b)
    requires (e.NewSection? && e.name != Fixup(s, b)) || (e.KeyValue? && e.key != Fixup(s, b))
    ensures Diverges(Run(s, i, st, listener), Structure(st.events), [e] + more)
  {
    hide Structure, Fixup, Held, Run;
    HeldRun(s, i, st, listener, b);
    var r := Run(s, i, st, listener);
    if r.Result? { PrefixHead(Structure(st.events), e, more, Structure(r.events)); }
  }

  lemma PrefixHead(base: seq<Event>, e: Event, more: seq<Event>, all: seq<Event>)
    ensures base + ([e] + more) <= all ==> |base| < |all| && all[|base|] == e
  {
  }

  lemma UnescapeQuoted(t: string)
    ensures |QuoteText(t)| >= 2 && Unescape(QuoteText(t)) == "\"" + t + "\""
  {
    hide Escape, Unescape;
    var e := Escape(t);
    assert QuoteText(t) == "\"" + (e + "\"");
    UnescapeChar2('"', e + "\"");
    UnescapeEscape(t, "\"");
    UnescapeNothing();
    assert ['"'] + (t + "\"") == "\"" + t + "\"";
  }

  /** A quotation that was not closed runs to the end of the line and is delivered with both its quotes. */
  lemma OpenFixup(s: string, i: nat, t: string)
    requires Here(s, i, QuoteText(t))
    ensures Fixup(s, Staged(false, i, Some(i + |QuoteText(t)|), true)) == Text(UpToNul("\"" + t + "\""))
  {
    hide QuoteText, Unescape, UpToNul;
    UnescapeQuoted(t);
  }

  lemma UnescapeChar2(c: char, more: string)
    requires c != '\\'
    ensures Unescape([c] + more) == [c] + Unescape(more)
  {
  }

  lemma UnescapeNothing()
    ensures Unescape("") == "" && Unescape("\"") == "\""
  {
  }

  /** The key that was not closed swallows the quote of the value. */
  lemma KeyFixup(s: string, i: nat, t: string)
    requires Here(s, i, QuoteText(t) + " ")
    ensures Fixup(s, Staged(true, i, Some(i + |QuoteText(t)| + 1), true)) == Text(UpToNul(t + "\" "))
  {
    hide Escape, Unescape, UpToNul;
    var e := Escape(t);
    assert QuoteText(t) + " " == "\"" + (e + "\" ");
    HereConcat(s, i, "\"", e + "\" ");
    UnescapeEscape(t, "\" ");
    assert "\" " == ['"'] + " ";
    UnescapeChar2('"', " ");
    UnescapeChar2(' ', "");
    UnescapeNothing();
    assert " " == [' '] + "" && Unescape("\" ") == "\" ";
  }

  /** A string with more around it is not told as itself, with or without a NUL in it. */
  lemma Longer(t: string, a: string, b: string)
    requires (a != "" || b != "") && '\0' !in a + b
    ensures Text(t) != Text(UpToNul(a + t + b))
  {
    assert |a + t + b| > |t|;
  }

  lemma BadBackslash(t: string)
    requires !Closable(t)
    ensures '\\' in Escape(t)
  {
  }

  lemma QuoteLength(t: string)
    ensures |QuoteText(t)| == |Escape(t)| + 2
  {
  }

  lemma PairDiverges(s: string, i: nat, key: string, value: string, st: State, listener: Listener)
    requires Ready(st) && st.level > 0 && AlwaysContinues(listener)
    requires Here(s, i, Print(Pair(key, value))) && !(Clear(key) && Clear(value))
    ensures Diverges(Run(s, i, st, listener), Structure(st.events), EventsOf(Pair(key, value)))
  {
    hide QuoteText, Structure, Run, Fixup, Closable, Escape, UpToNul, Diverges;
    var a, b := QuoteText(key), QuoteText(value);
    HereConcat(s, i, a + " " + b, "\n");
    HereConcat(s, i, a + " ", b);
    HereConcat(s, i, a, " ");
    assert [KeyValue(Text(key), Text(value))] + [] == EventsOf(Pair(key, value));
    if !Closable(key) {
      KeyDiverges(s, i, key, value, st, listener);
    } else if !Closable(value) {
      HereAt(s, i + |a| + 1 + |b|, "\n", 0);
      KeyRun(s, i, key, st, listener);
      QuoteLength(key);
      ValueDiverges(s, i + |a| + 1, key, UpToNul(key), value, st.(s1 := Closed(i, key)), listener);
    } else {
      var st1 := PairRun(s, i, key, value, st, listener);
      var n := i + |Print(Pair(key, value))|;
      DivergesTold(s, n, st1, listener, Structure(st.events), KeyValue(Text(UpToNul(key)), Text(UpToNul(value))),
        KeyValue(Text(key), Text(value)), []);
    }
  }

  /** Something else has been told where `e` should have been. */
  lemma DivergesTold(s: string, n: nat, st: State, listener: Listener, base: seq<Event>, told: Event, e: Event,
                     more: seq<Event>)
    requires Structure(st.events) == base + [told] && told != e
    ensures Diverges(Run(s, n, st, listener), base, [e] + more)
  {
    hide Structure, Run;
    RunGrows(s, n, st, listener);
    var r := Run(s, n, st, listener);
    assert [told] + [] == [told];
    if r.Result? {
      PrefixHead(base, told, [], Structure(r.events));
      PrefixHead(base, e, more, Structure(r.events));
    }
  }

  lemma InsideBlank(s: string, p: nat, i: nat, e: string, st: State, listener: Listener)
    requires p < |s| && s[p] == ' '
    ensures Run(s, p, Inside(st, i, e), listener) == Run(s, p + 1, Inside(st, i, e), listener)
  {
    assert Step(s, p, Inside(st, i, e), listener) == More(p + 1, Inside(st, i, e));
    hide Step, Inside;
    RunStep(s, p, Inside(st, i, e), listener, p + 1, Inside(st, i, e));
  }

  lemma QuoteFirst(s: string, p: nat, t: string)
    requires Here(s, p, QuoteText(t))
    ensures p < |s| && s[p] == '"'
  {
    hide Escape;
    HereAt(s, p, QuoteText(t), 0);
  }

  /** A key that ends in a backslash swallows the blank, and the next quote ends it there. */
  lemma KeySwallows(s: string, i: nat, key: string, value: string, st: State, listener: Listener)
    requires Ready(st) && !Closable(key) && Here(s, i, QuoteText(key) + " ")
      && Here(s, i + |QuoteText(key)| + 1, QuoteText(value))
    ensures var p := i + |QuoteText(key)|; var bad := Staged(true, i, Some(p + 1), true);
      Run(s, i, st, listener) == Run(s, p + 2, st.(s1 := bad, s2 := st.s1), listener)
  {
    hide Structure, Run, Fixup, Closable, Escape, QuoteText, Inside, Step, Here;
    var p := i + |QuoteText(key)|;
    HereConcat(s, i, QuoteText(key), " ");
    HereAt(s, p, " ", 0);
    QuoteFirst(s, p + 1, value);
    QuoteRun(s, i, key, st, listener);
    BadBackslash(key);
    InsideBlank(s, p, i, Escape(key), st, listener);
    QuoteCloses(s, p + 1, i, Escape(key), st, listener);
    RunStep(s, p + 1, Inside(st, i, Escape(key)), listener, p + 2,
      st.(s1 := Staged(true, i, Some(p + 1), true), s2 := st.s1));
  }

  lemma KeyDiverges(s: string, i: nat, key: string, value: string, st: State, listener: Listener)
    requires Ready(st) && !Closable(key) && Here(s, i, QuoteText(key) + " ")
      && Here(s, i + |QuoteText(key)| + 1, QuoteText(value))
    ensures Diverges(Run(s, i, st, listener), Structure(st.events), EventsOf(Pair(key, value)))
  {
    hide Structure, Run, Fixup, Closable, QuoteText, UpToNul;
    var p := i + |QuoteText(key)|;
    KeySwallows(s, i, key, value, st, listener);
    var bad := Staged(true, i, Some(p + 1), true);
    KeyFixup(s, i, key);
    Longer(key, "", "\" ");
    assert "" + key + "\" " == key + "\" ";
    DivergesHeld(s, p + 2, st.(s1 := bad, s2 := st.s1), listener, bad, KeyValue(Text(key), Text(value)), []);
  }

  /** A value that ends in a backslash is delivered at the end of the line with both its quotes. */
  lemma ValueSwallows(s: string, i: nat, key: string, value: string, st: State, listener: Listener) returns (st': State)
    requires Clean(st) && st.s1.Staged? && st.level > 0 && Fixup(s, st.s1) == Text(key) && !Closable(value)
    requires st.s1.end != Some(i)
    requires Here(s, i, QuoteText(value)) && i + |QuoteText(value)| < |s| && s[i + |QuoteText(value)|] == '\n'
    requires AlwaysContinues(listener)
    ensures Run(s, i, st, listener) == Run(s, i + |QuoteText(value)| + 1, st', listener)
    ensures Structure(st'.events) ==
            Structure(st.events) + [KeyValue(Text(key), Text(UpToNul("\"" + value + "\"")))]
  {
    hide Structure, Fixup, Closable, Escape, Run, UpToNul;
    var n := i + |QuoteText(value)|;
    QuoteRun(s, i, value, st, listener);
    BadBackslash(value);
    OpenFixup(s, i, value);
    hide QuoteText;
    var raw, kv := RawLine(st.lineBegin, n), KeyValue(Text(key), Text(UpToNul("\"" + value + "\"")));
    StructureTold(st.events, raw);
    StructureTold(st.events + [raw], kv);
    st' := st.(s1 := NoString).(events := st.events + [raw] + [kv], lineBegin := n + 1);
    RunStep(s, n, Inside(st, i, Escape(value)), listener, n + 1, st');
  }

  /** Whatever is told as the key. */
  lemma ValueDiverges(s: string, i: nat, key: string, told: string, value: string, st: State, listener: Listener)
    requires Clean(st) && st.s1.Staged? && st.level > 0 && Fixup(s, st.s1) == Text(told) && !Closable(value)
    requires st.s1.end != Some(i)
    requires Here(s, i, QuoteText(value)) && i + |QuoteText(value)| < |s| && s[i + |QuoteText(value)|] == '\n'
    requires AlwaysContinues(listener)
    ensures Diverges(Run(s, i, st, listener), Structure(st.events), [KeyValue(Text(key), Text(value))] + [])
  {
    hide Structure, Fixup, Closable, QuoteText, Run, Clean, UpToNul, Diverges;
    var st1 := ValueSwallows(s, i, told, value, st, listener);
    Longer(value, "\"", "\"");
    DivergesTold(s, i + |QuoteText(value)| + 1, st1, listener, Structure(st.events),
      KeyValue(Text(told), Text(UpToNul("\"" + value + "\""))), KeyValue(Text(key), Text(value)), []);
  }

  lemma HeldFirst(st: State, b: StringInfo)
    requires st.s1 == b && b.Staged? && st.s2.NoString?
    ensures Held(st, b)
  {
  }

  lemma NameDiverges(s: string, i: nat, name: string, more: seq<Event>, st: State, listener: Listener)
    requires Ready(st) && !Closable(name) && AlwaysContinues(listener)
    requires Here(s, i, QuoteText(name)) && i + |QuoteText(name)| < |s| && s[i + |QuoteText(name)|] == '\n'
    ensures Diverges(Run(s, i, st, listener), Structure(st.events), [NewSection(Text(name))] + more)
  {
    hide Structure, Fixup, Closable, Escape, Held, Diverges, UpToNul, Run, Step, QuoteText, Ready;
    var n := i + |QuoteText(name)|;
    assert Clean(st) && st.s1.NoString? by { ReadyClean(st); }
    QuoteRun(s, i, name, st, listener);
    BadBackslash(name);
    OpenFixup(s, i, name);
    Longer(name, "\"", "\"");
    var raw, bad := RawLine(st.lineBegin, n), Staged(false, i, Some(n), true);
    StructureTold(st.events, raw);
    assert Structure(st.events) + [] == Structure(st.events);
    var st1 := st.(s1 := bad, events := st.events + [raw], lineBegin := n + 1);
    OpenEnds(s, i, n, Escape(name), st, listener);
    RunStep(s, n, Inside(st, i, Escape(name)), listener, n + 1, st1);
    HeldFirst(st1, bad);
    DivergesHeld(s, n + 1, st1, listener, bad, NewSection(Text(name)), more);
  }

  lemma ReadyClean(st: State)
    requires Ready(st)
    ensures Clean(st) && st.s1.NoString? && st.s2.NoString?
  {
  }

  /** The end of the line ends an open quotation. */
  lemma OpenEnds(s: string, i: nat, n: nat, e: string, st: State, listener: Listener)
    requires Ready(st) && AlwaysContinues(listener) && n < |s| && s[n] == '\n' && '\\' in e
    ensures Step(s, n, Inside(st, i, e), listener) ==
      More(n + 1, st.(s1 := Staged(false, i, Some(n), true),
                      events := st.events + [RawLine(st.lineBegin, n)], lineBegin := n + 1))
  {
  }

  // ---------------------------------------------------------------- whole documents

  lemma DivergesLater(r: Result, base: seq<Event>, a: seq<Event>, b: seq<Event>, c: seq<Event>)
    requires Diverges(r, base + a, b)
    ensures Diverges(r, base, a + b + c)
  {
    hide Structure;
  }

  /** An item is read back exactly when all its strings are clear; otherwise the events go wrong. */
  lemma {:induction false} ItemRun(s: string, i: nat, item: Item, st: State, listener: Listener) returns (st': State)
    requires Ready(st) && AlwaysContinues(listener) && Here(s, i, Print(item)) && (item.Pair? ==> st.level > 0)
    ensures Readable(item) ==>
      && Run(s, i, st, listener) == Run(s, i + |Print(item)|, st', listener)
      && Ready(st') && st'.level == st.level && Structure(st'.events) == Structure(st.events) + EventsOf(item)
    ensures !Readable(item) ==> Diverges(Run(s, i, st, listener), Structure(st.events), EventsOf(item))
    decreases item, 1
  {
    hide Structure, Run, QuoteText, Diverges, Closable, UpToNul, Ready, Here;
    st' := st;
    match item {
      case Pair(key, value) =>
        hide Print;
        if Readable(item) { st' := PairRun(s, i, key, value, st, listener); }
        else { PairDiverges(s, i, key, value, st, listener); }
      case Section(name, items) => st' := SectionRun(s, i, name, items, st, listener);
    }
  }

  lemma {:induction false} SectionRun(s: string, i: nat, name: string, items: seq<Item>, st: State,
                                      listener: Listener) returns (st': State)
    requires Ready(st) && AlwaysContinues(listener) && Here(s, i, Print(Section(name, items)))
    ensures Clear(name) && AllReadable(items) ==>
      && Run(s, i, st, listener) == Run(s, i + |Print(Section(name, items))|, st', listener)
      && Ready(st') && st'.level == st.level
      && Structure(st'.events) == Structure(st.events) + EventsOf(Section(name, items))
    ensures !(Clear(name) && AllReadable(items)) ==>
      Diverges(Run(s, i, st, listener), Structure(st.events), EventsOf(Section(name, items)))
    decreases Section(name, items), 0
  {
    hide Structure, Run, QuoteText, Diverges, Closable, UpToNul, Ready;
    st' := st;
    var head, base := QuoteText(name) + "\n{\n", Structure(st.events);
    var p := i + |head|;
    HereConcat(s, i, head + PrintAll(items), "}\n");
    HereConcat(s, i, head, PrintAll(items));
    HereConcat(s, i, QuoteText(name), "\n{\n");
    var ev, all := [NewSection(Text(name))], EventsOfAll(items);
    if Clear(name) {
      var st1 := HeadRun(s, i, name, st, listener);
      var st2 := ItemsRun(s, p, items, st1, listener);
      if AllReadable(items) {
        st' := TailRun(s, p + |PrintAll(items)|, st2, listener);
        assert base + (ev + all + [LeavingSection]) == base + ev + all + [LeavingSection];
      } else {
        DivergesLater(Run(s, i, st, listener), base, ev, all, [LeavingSection]);
      }
    } else {
      HereAt(s, i + |QuoteText(name)|, "\n{\n", 0);
      if Closable(name) {
        var st1 := HeadRun(s, i, name, st, listener);
        DivergesTold(s, p, st1, listener, base, NewSection(Text(UpToNul(name))), ev[0], all + [LeavingSection]);
      } else {
        NameDiverges(s, i, name, all + [LeavingSection], st, listener);
      }
      assert ev + (all + [LeavingSection]) == ev + all + [LeavingSection];
    }
  }

  lemma {:induction false} ItemsRun(s: string, i: nat, items: seq<Item>, st: State, listener: Listener)
                                    returns (st': State)
    requires Ready(st) && AlwaysContinues(listener) && Here(s, i, PrintAll(items))
    requires st.level > 0 || forall k :: 0 <= k < |items| ==> items[k].Section?
    ensures AllReadable(items) ==>
      && Run(s, i, st, listener) == Run(s, i + |PrintAll(items)|, st', listener)
      && Ready(st') && st'.level == st.level && Structure(st'.events) == Structure(st.events) + EventsOfAll(items)
    ensures !AllReadable(items) ==> Diverges(Run(s, i, st, listener), Structure(st.events), EventsOfAll(items))
    decreases items, 0
  {
    hide Structure, Run, Diverges, Ready, Print, EventsOf;
    st' := st;
    if items != [] {
      var item, rest, base := items[0], items[1..], Structure(st.events);
      HereConcat(s, i, Print(item), PrintAll(rest));
      var st1 := ItemRun(s, i, item, st, listener);
      if Readable(item) {
        st' := ItemsRun(s, i + |Print(item)|, rest, st1, listener);
        if AllReadable(rest) {
          assert base + EventsOf(item) + EventsOfAll(rest) == base + EventsOfAll(items);
        } else {
          DivergesLater(Run(s, i, st, listener), base, EventsOf(item), EventsOfAll(rest), []);
          assert EventsOf(item) + EventsOfAll(rest) + [] == EventsOfAll(items);
        }
      } else {
        assert base + [] == base;
        DivergesLater(Run(s, i, st, listener), base, [], EventsOf(item), EventsOfAll(rest));
        assert [] + EventsOf(item) + EventsOfAll(rest) == EventsOfAll(items);
      }
    } else {
      assert Structure(st.events) + [] == Structure(st.events);
    }
  }

  /** Writing a document and parsing it tells the listener exactly the document, if and only if no name, key
      or value ends in a backslash or contains a NUL. */
  lemma PrintParse(doc: seq<Item>, listener: Listener)
    requires AlwaysContinues(listener) && forall k :: 0 <= k < |doc| ==> doc[k].Section?
    ensures var r := Parse(PrintAll(doc), listener);
      AllReadable(doc) <==> r.Result? && r.err == Okay && Structure(r.events) == EventsOfAll(doc)
  {
    hide Structure, Run, PrintAll, EventsOfAll, AllReadable, Here, Diverges, AtEnd;
    var s := PrintAll(doc);
    HereAll(s);
    StartEmpty();
    var st := ItemsRun(s, 0, doc, START, listener);
    DivergedWrong(Run(s, 0, START, listener), EventsOfAll(doc));
    assert [] + EventsOfAll(doc) == EventsOfAll(doc);
    if AllReadable(doc) {
      RunAtEnd(s, st, listener);
      ReadyEnds(st);
    }
  }

  lemma DivergedWrong(r: Result, expected: seq<Event>)
    ensures r.Result? && Structure(r.events) == expected ==> !Diverges(r, [], expected)
  {
    hide Structure;
  }

  lemma ReadyEnds(st: State)
    requires Ready(st) && st.level == 0
    ensures var r := AtEnd(st); r.Result? && r.err == Okay && Structure(r.events) == Structure(st.events)
  {
  }

  lemma HereAll(s: string)
    ensures Here(s, 0, s)
  {
  }

  lemma StartEmpty()
    ensures Structure(START.events) == [] && Ready(START) && START.level == 0
  {
  }

  lemma RunAtEnd(s: string, st: State, listener: Listener)
    ensures Run(s, |s|, st, listener) == AtEnd(st)
  {
  }
}
