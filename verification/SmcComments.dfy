/** What lies between strings: blanks and comments change nothing the listener is told, and words need no quotes. */
module SmcComments {
  import opened Wrappers
  import opened Smc
  import opened SmcPrinter

  /** Between strings; what has been staged on the line does not matter. */
  predicate Outside(st: State) { !st.ignoring && !st.inQuote && !st.mlComment && st.s0.NoString? }

  // ---------------------------------------------------------------- comments

  predicate NoNewline(s: string, i: nat, j: nat) { j <= |s| && forall k :: i <= k < j ==> s[k] != '\n' }

  /** A comment to the end of the line starts here. */
  predicate LineComment(s: string, i: nat) {
    i < |s| && (s[i] == ';' || (s[i] == '/' && i + 1 < |s| && s[i + 1] == '/'))
  }

  /** Characters of a line comment are passed over. */
  lemma {:induction false} IgnoredRun(s: string, i: nat, j: nat, st: State, listener: Listener)
    requires i <= j && NoNewline(s, i, j) && st.ignoring && !st.inQuote && !st.mlComment
    ensures Run(s, i, st, listener) == Run(s, j, st, listener)
    decreases j - i
  {
    if i < j {
      assert s[i] != '\n' && Step(s, i, st, listener) == More(i + 1, st);
      IgnoredRun(s, i + 1, j, st, listener);
    }
  }

  lemma NewlineForgets(s: string, j: nat, st: State, listener: Listener)
    requires Outside(st) && j < |s| && s[j] == '\n'
    ensures Step(s, j, st.(ignoring := true), listener) == Step(s, j, st, listener)
  {
    var st1 := st.(ignoring := true);
    assert st1.(s0 := NoString) == st1 && st.(s0 := NoString) == st;
    assert st1.(inQuote := false, ignoring := false) == st.(inQuote := false, ignoring := false);
  }

  lemma LineCommentOpens(s: string, i: nat, st: State, listener: Listener)
    requires Outside(st) && LineComment(s, i)
    ensures Step(s, i, st, listener) == More(i + 1, st.(ignoring := true))
  {
    assert st.(ignoring := true).(s0 := NoString) == st.(ignoring := true);
  }

  /** A comment to the end of the line is invisible: the parse goes on as if the line ended where it starts. */
  lemma LineCommentInvisible(s: string, i: nat, j: nat, st: State, listener: Listener)
    requires Outside(st) && LineComment(s, i) && i < j < |s| && NoNewline(s, i, j) && s[j] == '\n'
    ensures Run(s, i, st, listener) == Run(s, j, st, listener)
  {
    hide Step, LineComment, Outside;
    LineCommentOpens(s, i, st, listener);
    RunStep(s, i, st, listener, i + 1, st.(ignoring := true));
    OutsideFacts(st);
    IgnoredRun(s, i + 1, j, st.(ignoring := true), listener);
    NewlineForgets(s, j, st, listener);
    SameStep(s, j, st.(ignoring := true), st, listener);
  }

  lemma OutsideFacts(st: State)
    requires Outside(st)
    ensures !st.inQuote && !st.mlComment && !st.ignoring && st.s0.NoString?
  {
  }

  lemma SameStep(s: string, i: nat, a: State, b: State, listener: Listener)
    requires i < |s| && Step(s, i, a, listener) == Step(s, i, b, listener)
    ensures Run(s, i, a, listener) == Run(s, i, b, listener)
  {
    hide Step;
  }

  /** The end of a block comment at k. */
  predicate Ends(s: string, k: nat) { k + 1 < |s| && s[k] == '*' && s[k + 1] == '/' }

  predicate InComment(st: State) { st.ignoring && st.mlComment && !st.inQuote && st.s0.NoString? }

  /** The same to the listener, outside of raw lines. */
  predicate Alike(a: State, b: State) {
    a.level == b.level && a.s1 == b.s1 && a.s2 == b.s2 && Structure(a.events) == Structure(b.events)
  }

  lemma CommentNewline(s: string, i: nat, st: State, listener: Listener) returns (st': State)
    requires InComment(st) && st.s2.NoString? && i < |s| && s[i] == '\n' && AlwaysContinues(listener)
    ensures Step(s, i, st, listener) == More(i + 1, st') && InComment(st') && Alike(st, st')
  {
    StructureTold(st.events, RawLine(st.lineBegin, i));
    hide Structure;
    assert st.(s0 := NoString) == st;
    st' := Told(st, RawLine(st.lineBegin, i)).(lineBegin := i + 1);
  }

  lemma CommentStep(s: string, i: nat, st: State, listener: Listener)
    requires InComment(st) && i + 1 < |s| && s[i] != '\n' && !Ends(s, i)
    ensures Step(s, i, st, listener) == More(i + 1, st)
  {
  }

  lemma {:induction false} CommentRun(s: string, i: nat, e: nat, st: State, listener: Listener) returns (st': State)
    requires InComment(st) && i <= e && Ends(s, e) && AlwaysContinues(listener)
    requires (forall k: nat :: i <= k < e ==> !Ends(s, k)) && (st.s2.NoString? || NoNewline(s, i, e))
    ensures Run(s, i, st, listener) == Run(s, e, st', listener) && InComment(st') && Alike(st, st')
    decreases e - i
  {
    hide Step, Structure, Run;
    st' := st;
    if i < e {
      var next := st;
      if s[i] == '\n' { next := CommentNewline(s, i, st, listener); } else { CommentStep(s, i, st, listener); }
      RunStep(s, i, st, listener, i + 1, next);
      st' := CommentRun(s, i + 1, e, next, listener);
    }
  }

  lemma BlockOpens(s: string, i: nat, st: State, listener: Listener)
    requires Outside(st) && i + 1 < |s| && s[i] == '/' && s[i + 1] == '*'
    ensures Step(s, i, st, listener) == More(i + 1, Commented(st)) && InComment(Commented(st))
  {
    assert Commented(st).(s0 := NoString) == Commented(st);
  }

  function Commented(st: State): State { st.(ignoring := true, mlComment := true) }

  lemma BlockCloses(s: string, e: nat, st: State, listener: Listener)
    requires InComment(st) && Ends(s, e)
    ensures Step(s, e, st, listener) == More(e + 2, st.(mlComment := false, ignoring := false))
  {
  }

  /** The comment between `i` and `e`: it ends at the first star and slash after its opening slash, so that
      `/` `*` `/` is a whole comment. */
  predicate BlockComment(s: string, i: nat, e: nat) {
    && i < e && Ends(s, e) && s[i] == '/' && s[i + 1] == '*'
    && forall k: nat :: i < k < e ==> !Ends(s, k)
  }

  lemma CommentCloses(s: string, i: nat, e: nat, st: State, listener: Listener) returns (st': State)
    requires InComment(st) && AlwaysContinues(listener) && i <= e && Ends(s, e)
    requires (forall k: nat :: i <= k < e ==> !Ends(s, k)) && (st.s2.NoString? || NoNewline(s, i, e))
    ensures Run(s, i, st, listener) == Run(s, e + 2, st', listener) && Outside(st') && Alike(st, st')
  {
    hide Step, Structure, Run;
    var last := CommentRun(s, i, e, st, listener);
    BlockCloses(s, e, last, listener);
    st' := last.(mlComment := false, ignoring := false);
    RunStep(s, e, last, listener, e + 2, st');
  }

  /** A block comment is invisible: on one line always, over any number of lines unless a whole pair stands before
      it on its first line. */
  lemma BlockCommentInvisible(s: string, i: nat, e: nat, st: State, listener: Listener) returns (st': State)
    requires Outside(st) && AlwaysContinues(listener) && BlockComment(s, i, e)
    requires st.s2.NoString? || NoNewline(s, i, e)
    ensures Run(s, i, st, listener) == Run(s, e + 2, st', listener) && Outside(st') && Alike(st, st')
  {
    hide Step, Structure, Run;
    BlockOpens(s, i, st, listener);
    RunStep(s, i, st, listener, i + 1, Commented(st));
    st' := CommentCloses(s, i + 1, e, Commented(st), listener);
  }

  /** After the newline at `n`, which ended the line of the pair. */
  function Delivered(s: string, n: nat, st: State): State {
    var st1 := Told(Told(st, RawLine(st.lineBegin, n)), KeyValue(Fixup(s, st.s2), ValueText(s, st.s2, st.s1)));
    Scrapped(st1).(lineBegin := n + 1)
  }

  lemma PairNewline(s: string, n: nat, st: State, listener: Listener)
    requires InComment(st) && st.s2.Staged? && n < |s| && s[n] == '\n' && AlwaysContinues(listener)
    ensures Step(s, n, st, listener) ==
      if st.level > 0 then More(n + 1, Delivered(s, n, st))
      else Failed(InvalidProperty1, Told(st, RawLine(st.lineBegin, n)))
  {
    hide Fixup;
    assert st.(s0 := NoString) == st && st.(inQuote := false, ignoring := true) == st;
  }

  /** A pair before a block comment is told at the first newline inside the comment; outside of all sections the
      parse fails there. */
  lemma BlockCommentEndsPair(s: string, i: nat, n: nat, e: nat, st: State, listener: Listener) returns (st': State)
    requires Outside(st) && st.s2.Staged? && AlwaysContinues(listener) && BlockComment(s, i, e)
    requires i < n < e && s[n] == '\n' && NoNewline(s, i, n)
    ensures st.level > 0 ==>
      && Run(s, i, st, listener) == Run(s, e + 2, st', listener) && Ready(st') && st'.level == st.level
      && Structure(st'.events) == Structure(st.events) + [KeyValue(Fixup(s, st.s2), ValueText(s, st.s2, st.s1))]
    ensures st.level == 0 ==>
      Run(s, i, st, listener) == Ended(InvalidProperty1, true, Told(st, RawLine(st.lineBegin, n)))
  {
    hide Step, Structure, Run, Fixup;
    BlockOpens(s, i, st, listener);
    var open := Commented(st);
    RunStep(s, i, st, listener, i + 1, open);
    CommentLine(s, i + 1, n, open, listener);
    PairNewline(s, n, open, listener);
    st' := st;
    if st.level > 0 {
      var told, raw := Delivered(s, n, open), RawLine(st.lineBegin, n);
      var kv := KeyValue(Fixup(s, st.s2), ValueText(s, st.s2, st.s1));
      StructureTold(st.events, raw);
      StructureTold(st.events + [raw], kv);
      RunStep(s, n, open, listener, n + 1, told);
      st' := CommentCloses(s, n + 1, e, told, listener);
    } else {
      RunFails(s, n, open, listener);
    }
  }

  lemma RunFails(s: string, i: nat, st: State, listener: Listener)
    requires i < |s| && Step(s, i, st, listener).Failed?
    ensures var r := Step(s, i, st, listener); Run(s, i, st, listener) == Ended(r.err, true, r.st)
  {
    hide Step;
  }

  /** The first line of a comment, whatever stands before it. */
  lemma {:induction false} CommentLine(s: string, i: nat, n: nat, st: State, listener: Listener)
    requires InComment(st) && i <= n < |s| && NoNewline(s, i, n) && forall k: nat :: i <= k < n ==> !Ends(s, k)
    ensures Run(s, i, st, listener) == Run(s, n, st, listener)
    decreases n - i
  {
    hide Step, Run;
    if i < n {
      CommentStep(s, i, st, listener);
      RunStep(s, i, st, listener, i + 1, st);
      CommentLine(s, i + 1, n, st, listener);
    }
  }

  // ---------------------------------------------------------------- blanks and words

  predicate Blanks(s: string, i: nat, j: nat) { j <= |s| && forall k :: i <= k < j ==> White(s[k]) && s[k] != '\n' }

  lemma BlankStep(s: string, i: nat, st: State, listener: Listener)
    requires Outside(st) && i < |s| && White(s[i]) && s[i] != '\n'
    ensures Step(s, i, st, listener) == More(i + 1, st)
  {
  }

  lemma {:induction false} BlanksInvisible(s: string, i: nat, j: nat, st: State, listener: Listener)
    requires Outside(st) && i <= j && Blanks(s, i, j)
    ensures Run(s, i, st, listener) == Run(s, j, st, listener)
    decreases j - i
  {
    hide Step, Run, White;
    if i < j {
      BlankStep(s, i, st, listener);
      RunStep(s, i, st, listener, i + 1, st);
      BlanksInvisible(s, i + 1, j, st, listener);
    }
  }

  /** Characters of a word without quotes. */
  predicate Plain(c: char) { !White(c) && c != ';' && c != '/' && c != '{' && c != '}' && c != '"' }

  predicate Word(w: string) { w != [] && forall k :: 0 <= k < |w| ==> Plain(w[k]) }

  lemma WordStep(s: string, i: nat, j: nat, st: State, listener: Listener)
    requires Clean(st) && j < |s| && Plain(s[j])
    ensures Step(s, j, st, listener) == More(j + 1, st.(s0 := Begin(j)))
    ensures Step(s, j, st.(s0 := Begin(i)), listener) == More(j + 1, st.(s0 := Begin(i)))
  {
  }

  lemma {:induction false} WordScans(s: string, i: nat, w: string, k: nat, st: State, listener: Listener)
    requires Clean(st) && Here(s, i, w) && Word(w) && 0 < k <= |w|
    ensures Run(s, i + k, st.(s0 := Begin(i)), listener) == Run(s, i + |w|, st.(s0 := Begin(i)), listener)
    decreases |w| - k
  {
    hide Step, Run, Plain, Clean, Begin;
    if k < |w| {
      HereAt(s, i, w, k);
      WordStep(s, i, i + k, st, listener);
      RunStep(s, i + k, st.(s0 := Begin(i)), listener, i + k + 1, st.(s0 := Begin(i)));
      WordScans(s, i, w, k + 1, st, listener);
    }
  }

  /** A word as it is staged. */
  function Bare(i: nat, w: string): StringInfo { Staged(false, i, Some(i + |w|), false) }

  lemma WordFixup(s: string, i: nat, w: string)
    requires Here(s, i, w)
    ensures Fixup(s, Bare(i, w)) == Text(UpToNul(w))
  {
    hide Unescape, UpToNul;
  }

  lemma WordReads(s: string, i: nat, w: string, st: State, listener: Listener)
    requires Clean(st) && Here(s, i, w) && Word(w)
    ensures Run(s, i, st, listener) == Run(s, i + |w|, st.(s0 := Begin(i)), listener)
  {
    hide Step, Run, Plain, Clean, Begin;
    HereAt(s, i, w, 0);
    WordStep(s, i, i, st, listener);
    RunStep(s, i, st, listener, i + 1, st.(s0 := Begin(i)));
    WordScans(s, i, w, 1, st, listener);
  }

  lemma WordEnds(s: string, i: nat, j: nat, st: State, listener: Listener)
    requires Ready(st) && j < |s| && White(s[j]) && s[j] != '\n'
    ensures Step(s, j, st.(s0 := Begin(i)), listener) == More(j + 1, st.(s1 := Staged(false, i, Some(j), false)))
  {
    assert st.(s2 := NoString) == st && st.(s0 := NoString) == st;
  }

  /** A word and a blank are read as the same key in quotes would be. */
  lemma WordKeyRun(s: string, i: nat, w: string, st: State, listener: Listener)
    requires Ready(st) && Word(w) && Here(s, i, w) && i + |w| < |s| && White(s[i + |w|]) && s[i + |w|] != '\n'
    ensures Run(s, i, st, listener) == Run(s, i + |w| + 1, st.(s1 := Bare(i, w)), listener)
    ensures Clean(st.(s1 := Bare(i, w))) && Fixup(s, Bare(i, w)) == Text(UpToNul(w))
  {
    hide Step, Run, White, Plain, Fixup, Begin, Word;
    WordReads(s, i, w, st, listener);
    WordEnds(s, i, i + |w|, st, listener);
    RunStep(s, i + |w|, st.(s0 := Begin(i)), listener, i + |w| + 1, st.(s1 := Bare(i, w)));
    WordFixup(s, i, w);
  }

  lemma WordPairEnds(s: string, i: nat, j: nat, st: State, listener: Listener, key: Text, value: Text)
                     returns (st': State)
    requires Clean(st) && st.s1.Staged? && st.level > 0 && AlwaysContinues(listener) && j < |s| && s[j] == '\n'
    requires Fixup(s, st.s1) == key && Fixup(s, Staged(false, i, Some(j), false)) == value && st.s1.end != Some(i)
    ensures Step(s, j, st.(s0 := Begin(i)), listener) == More(j + 1, st')
    ensures Ready(st') && st'.level == st.level
      && Structure(st'.events) == Structure(st.events) + [KeyValue(key, value)]
  {
    hide Fixup;
    var raw, kv := RawLine(st.lineBegin, j), KeyValue(key, value);
    StructureTold(st.events, raw);
    StructureTold(st.events + [raw], kv);
    hide Structure;
    st' := Scrapped(Told(Told(st, raw), kv)).(lineBegin := j + 1);
  }

  lemma WhiteBlank()
    ensures White(' ')
  {
  }

  /** A pair of words without quotes is told as the pair. */
  lemma WordPairRun(s: string, i: nat, key: string, value: string, st: State, listener: Listener) returns (st': State)
    requires Ready(st) && st.level > 0 && AlwaysContinues(listener) && Word(key) && Word(value)
    requires Here(s, i, key + " " + value + "\n")
    ensures Run(s, i, st, listener) == Run(s, i + |key| + |value| + 2, st', listener)
    ensures Ready(st') && st'.level == st.level
    ensures Structure(st'.events) == Structure(st.events) + [KeyValue(Text(UpToNul(key)), Text(UpToNul(value)))]
  {
    hide Step, Run, Plain, Fixup, Begin, Word, Structure, UpToNul, White;
    HereConcat(s, i, key + " " + value, "\n");
    HereConcat(s, i, key + " ", value);
    HereConcat(s, i, key, " ");
    var q := i + |key| + 1;
    HereAt(s, i + |key|, " ", 0);
    assert White(' ') by { WhiteBlank(); }
    HereAt(s, q + |value|, "\n", 0);
    hide Here;
    WordKeyRun(s, i, key, st, listener);
    var st1 := st.(s1 := Bare(i, key));
    WordReads(s, q, value, st1, listener);
    WordFixup(s, q, value);
    st' := WordPairEnds(s, q, q + |value|, st1, listener, Text(UpToNul(key)), Text(UpToNul(value)));
    RunStep(s, q + |value|, st1.(s0 := Begin(q)), listener, q + |value| + 1, st');
  }

  /** A quotation right behind a word ends the word and begins the next string there. */
  lemma WordMeetsQuote(s: string, i: nat, j: nat, st: State, listener: Listener)
    requires Ready(st) && j < |s| && s[j] == '"'
    ensures Step(s, j, st.(s0 := Begin(i)), listener) ==
      More(j + 1, Inside(st.(s1 := Staged(false, i, Some(j), false)), j, ""))
  {
    assert st.(s2 := NoString) == st && '\\' !in "";
  }

  lemma OpenPairEnds(s: string, j: nat, n: nat, e: string, st: State, listener: Listener,
                     key: Text) returns (st': State)
    requires Clean(st) && st.s1.Staged? && st.level > 0 && AlwaysContinues(listener) && n < |s| && s[n] == '\n'
    requires Fixup(s, st.s1) == key && st.s1.end == Some(j)
    ensures Step(s, n, Inside(st, j, e), listener) == More(n + 1, st')
    ensures Ready(st') && st'.level == st.level
    ensures Structure(st'.events) == Structure(st.events) + [KeyValue(key, Text(""))]
  {
    hide Fixup;
    var raw, kv := RawLine(st.lineBegin, n), KeyValue(key, Text(""));
    StructureTold(st.events, raw);
    StructureTold(st.events + [raw], kv);
    hide Structure;
    st' := Scrapped(Told(Told(st, raw), kv)).(lineBegin := n + 1);
  }

  /** A quotation that nothing closes, right behind the word before it, is told as the empty text, whatever it holds:
      the terminator of the key falls on its first character. */
  lemma QuotationErased(s: string, i: nat, key: string, e: string, st: State,
                        listener: Listener) returns (st': State)
    requires Ready(st) && st.level > 0 && AlwaysContinues(listener) && Word(key) && Quotable(e)
    requires Here(s, i, key + "\"" + e + "\n")
    ensures Run(s, i, st, listener) == Run(s, i + |key| + |e| + 2, st', listener)
    ensures Ready(st') && st'.level == st.level
    ensures Structure(st'.events) == Structure(st.events) + [KeyValue(Text(UpToNul(key)), Text(""))]
  {
    hide Step, Run, Plain, Fixup, Begin, Word, Structure, UpToNul, White, Quotable;
    var j := i + |key|;
    var n := j + 1 + |e|;
    HereConcat(s, i, key + "\"" + e, "\n");
    HereConcat(s, i, key + "\"", e);
    HereConcat(s, i, key, "\"");
    HereAt(s, j, "\"", 0);
    HereAt(s, n, "\n", 0);
    WordReads(s, i, key, st, listener);
    WordMeetsQuote(s, i, j, st, listener);
    var st1 := st.(s1 := Bare(i, key));
    RunStep(s, j, st.(s0 := Begin(i)), listener, j + 1, Inside(st1, j, ""));
    assert e[..0] == "";
    QuoteScans(s, j, e, 0, st1, listener);
    WordFixup(s, i, key);
    st' := OpenPairEnds(s, j, n, e, st1, listener, Text(UpToNul(key)));
    RunStep(s, n, Inside(st1, j, e), listener, n + 1, st');
  }
}
