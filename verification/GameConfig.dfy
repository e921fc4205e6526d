/** The game-config listener: which sections it follows, which it ignores, and how it finds its way back. */
module GameConfig {
  import Smc
  import SmcPrinter

  datatype PState =
    | None | Games | Gamedefs | Classes | Class | Offsets | Offset | Keys | Supported | Signatures | Sig
    | Crc | CrcBinary | Custom | Addresses | Address | AddressRead

  /** The machine the file is read on. `tail` is what follows an unterminated string in the buffer. */
  datatype Host = Host(game: string, engine: string, custom: set<string>, binaries: set<string>, platform: string,
                       crcMatches: (string, string) -> bool, tail: nat -> string)

  /** What decides whether the rest of a game is read. */
  datatype Info = Info(game: string, library: string, crcValid: bool, readDefault: bool,
                       hadGame: bool, matchedGame: bool, hadEngine: bool, matchedEngine: bool)

  datatype State = State(ps: PState, ignore: nat, custom: nat, matched: bool, cls: string, info: Info)

  /** The characters the listener compares. The parser never passes NULL. */
  function Chars(h: Host, t: Smc.Text): string {
    match t
    case Missing => ""
    case Text(chars) => chars
    case Unterminated(from) => Smc.UpToNul(h.tail(from))
  }

  // ---------------------------------------------------------------- the callbacks

  /** The section names the listener knows. */
  datatype Word = GamesWord | ClassesWord | OffsetsWord | KeysWord | SupportedWord | SignaturesWord | CrcWord
    | AddressesWord | OtherWord

  function WordOf(name: string): Word {
    if name == "Games" then GamesWord
    else if name == "Classes" then ClassesWord
    else if name == "Offsets" then OffsetsWord
    else if name == "Keys" then KeysWord
    else if name == "#supported" then SupportedWord
    else if name == "Signatures" then SignaturesWord
    else if name == "CRC" then CrcWord
    else if name == "Addresses" then AddressesWord
    else OtherWord
  }

  predicate GameNamed(h: Host, name: string) { name == "*" || name == "#default" || name == h.game }

  predicate DefaultGame(name: string) { name == "#default" }

  /** The sections that can be opened directly under a game or a class. */
  function OpenDefs(h: Host, st: State, name: string): State {
    var w := WordOf(name);
    if w == ClassesWord then
      if st.cls == "" then st.(ps := Classes, matched := true) else st.(ignore := st.ignore + 1)
    else if w == OffsetsWord then st.(ps := Offsets)
    else if w == KeysWord then st.(ps := Keys)
    else if w == SupportedWord && DefaultGame(st.info.game) then
      st.(ps := Supported, info := st.info.(readDefault := false, hadGame := false, matchedGame := false,
                                            hadEngine := false, matchedEngine := false))
    else if w == SignaturesWord then st.(ps := Signatures)
    else if w == CrcWord then st.(ps := Crc, info := st.info.(readDefault := false, crcValid := false, library := ""))
    else if w == AddressesWord then st.(ps := Addresses)
    else if name in h.custom then st.(ps := Custom, custom := 0)
    else st.(ignore := st.ignore + 1)
  }

  function NewSection(h: Host, st: State, name: string): State {
    if st.ignore > 0 then st.(ignore := st.ignore + 1)
    else
      match st.ps
      case None => if WordOf(name) == GamesWord then st.(ps := Games) else st.(ignore := st.ignore + 1)
      case Games =>
        if GameNamed(h, name) then
          st.(ps := Gamedefs, matched := false, cls := "", info := st.info.(readDefault := true, game := name))
        else st.(ignore := st.ignore + 1)
      case Gamedefs => OpenDefs(h, st, name)
      case Class => OpenDefs(h, st, name)
      case Classes => st.(cls := name, ps := Class)
      case Offsets => st.(ps := Offset)
      case Signatures => st.(ps := Sig)
      case Crc =>
        if name in h.binaries then st.(ps := CrcBinary, info := st.info.(crcValid := true, library := name))
        else st.(ignore := 1, info := st.info.(crcValid := false))
      case Custom => st.(custom := st.custom + 1)
      case Addresses => st.(ps := Address)
      case Address => if name == h.platform then st.(ps := AddressRead) else st.(ignore := 1)
      case _ => st.(ignore := st.ignore + 1)
  }

  predicate GameKey(key: string) { key == "game" }

  predicate EngineKey(key: string) { key == "engine" }

  function Value(h: Host, ps: PState, i: Info, key: string, value: string): Info {
    if ps == Supported && GameKey(key) then
      var g := i.matchedGame || value == h.game;
      i.(hadGame := true, matchedGame := g, readDefault := i.readDefault || (g && (!i.hadEngine || i.matchedEngine)))
    else if ps == Supported && EngineKey(key) then
      var e := i.matchedEngine || value == h.engine;
      i.(hadEngine := true, matchedEngine := e, readDefault := i.readDefault || (e && (!i.hadGame || i.matchedGame)))
    else if ps == CrcBinary && key == h.platform && i.crcValid && !i.readDefault && h.crcMatches(i.library, value) then
      i.(readDefault := true)
    else i
  }

  function KeyValue(h: Host, st: State, key: string, value: string): State {
    if st.ignore > 0 then st else st.(info := Value(h, st.ps, st.info, key, value))
  }

  function Back(st: State): State { st.(ps := if st.matched then Class else Gamedefs) }

  function LeavingSection(st: State): State {
    if st.ignore > 0 then st.(ignore := st.ignore - 1)
    else if st.custom > 0 then st.(custom := st.custom - 1)
    else
      match st.ps
      case None => st
      case Games => st.(ps := None)
      case Gamedefs => st.(ps := Games)
      case Classes => st.(matched := false, ps := Gamedefs)
      case Class => st.(ps := Classes, cls := "")
      case Custom => st.(ps := Gamedefs)
      case Keys => Back(st)
      case Offsets => Back(st)
      case Signatures => Back(st)
      case Addresses => Back(st)
      case Offset => st.(ps := Offsets)
      case Sig => st.(ps := Signatures)
      case Address => st.(ps := Addresses)
      case AddressRead => st.(ps := Address)
      case CrcBinary => st.(ps := Crc)
      case _ => if st.info.readDefault then st.(ps := Gamedefs) else st.(ignore := 1, ps := Games)
  }

  function Hear(h: Host, st: State, e: Smc.Event): State {
    match e
    case NewSection(name) => NewSection(h, st, Chars(h, name))
    case KeyValue(key, value) => KeyValue(h, st, Chars(h, key), Chars(h, value))
    case LeavingSection => LeavingSection(st)
    case _ => st
  }

  /** The state after a sequence of events, oldest first. */
  function Play(h: Host, init: State, events: seq<Smc.Event>): State {
    if events == [] then init else Hear(h, Play(h, init, events[..|events| - 1]), events[|events| - 1])
  }

  // ---------------------------------------------------------------- what a game supports

  /** The lines of a #supported section, as keys and values. */
  type Line = (string, string)

  predicate Given(lines: seq<Line>, kind: string -> bool) { exists k :: 0 <= k < |lines| && kind(lines[k].0) }

  predicate Matched(lines: seq<Line>, kind: string -> bool, name: string) {
    exists k :: 0 <= k < |lines| && kind(lines[k].0) && lines[k].1 == name
  }

  /** Every kind of line given has one that names this machine. */
  predicate AllMatch(h: Host, lines: seq<Line>) {
    && (Given(lines, GameKey) ==> Matched(lines, GameKey, h.game))
    && (Given(lines, EngineKey) ==> Matched(lines, EngineKey, h.engine))
  }

  predicate Speaks(l: Line) { GameKey(l.0) || EngineKey(l.0) }

  function Lines(h: Host, i: Info, lines: seq<Line>): Info {
    if lines == [] then i
    else var n := |lines| - 1; Value(h, Supported, Lines(h, i, lines[..n]), lines[n].0, lines[n].1)
  }

  predicate Unread(i: Info) { !i.readDefault && !i.hadGame && !i.matchedGame && !i.hadEngine && !i.matchedEngine }

  lemma {:induction false} LinesSeen(h: Host, i: Info, lines: seq<Line>)
    requires Unread(i)
    ensures var r := Lines(h, i, lines);
      && r.hadGame == Given(lines, GameKey) && r.matchedGame == Matched(lines, GameKey, h.game)
      && r.hadEngine == Given(lines, EngineKey) && r.matchedEngine == Matched(lines, EngineKey, h.engine)
  {
    if lines != [] {
      var n := |lines| - 1;
      LinesSeen(h, i, lines[..n]);
      KeysDiffer(lines[n].0);
      GivenSnoc(lines[..n], lines[n], GameKey, h.game);
      GivenSnoc(lines[..n], lines[n], EngineKey, h.engine);
      assert lines == lines[..n] + [lines[n]];
      hide GameKey, EngineKey, Given, Matched;
    }
  }

  lemma KeysDiffer(key: string)
    ensures !(GameKey(key) && EngineKey(key))
  {
  }

  lemma GivenSnoc(lines: seq<Line>, l: Line, kind: string -> bool, name: string)
    ensures Given(lines + [l], kind) == (Given(lines, kind) || kind(l.0))
    ensures Matched(lines + [l], kind, name) == (Matched(lines, kind, name) || (kind(l.0) && l.1 == name))
  {
    var more := lines + [l];
    assert more[|lines|] == l && forall k :: 0 <= k < |lines| ==> more[k] == lines[k];
  }

  /** The n-th line is a game or engine line, and all kinds given up to there have matched. */
  predicate MatchedAt(h: Host, lines: seq<Line>, n: nat) {
    0 < n <= |lines| && Speaks(lines[n - 1]) && AllMatch(h, lines[..n])
  }

  /** A game is read if and only if at some game or engine line all kinds given up to there had matched.  Lines that
      follow and do not match take nothing back. */
  lemma {:induction false} SupportedExactly(h: Host, i: Info, lines: seq<Line>)
    requires Unread(i)
    ensures Lines(h, i, lines).readDefault <==>
      exists n: nat :: MatchedAt(h, lines, n)
  {
    if lines != [] {
      var m := |lines| - 1;
      var before := lines[..m];
      SupportedExactly(h, i, before);
      LinesSeen(h, i, before);
      LinesSeen(h, i, lines);
      KeysDiffer(lines[m].0);
      hide GameKey, EngineKey, Given, Matched, Lines;
      assert lines[..|lines|] == lines;
      forall n: nat | n <= m ensures MatchedAt(h, before, n) == MatchedAt(h, lines, n) {
        assert before[..n] == lines[..n];
      }
      assert MatchedAt(h, lines, m + 1) == (Speaks(lines[m]) && AllMatch(h, lines));
      OneLine(h, Lines(h, i, before), lines[m]);
      LinesLast(h, i, lines);
    }
  }

  lemma LinesLast(h: Host, i: Info, lines: seq<Line>)
    requires lines != []
    ensures var n := |lines| - 1;
      Lines(h, i, lines) == Value(h, Supported, Lines(h, i, lines[..n]), lines[n].0, lines[n].1)
  {
  }

  /** One line turns reading on exactly when it speaks and all kinds had so far, itself included, have matched. */
  lemma OneLine(h: Host, i: Info, l: Line)
    ensures var r := Value(h, Supported, i, l.0, l.1);
      r.readDefault == (i.readDefault || (Speaks(l) && (r.hadGame ==> r.matchedGame)
        && (r.hadEngine ==> r.matchedEngine)))
  {
    KeysDiffer(l.0);
    hide GameKey, EngineKey;
  }

  // ---------------------------------------------------------------- conservation

  /** How deep a state lies when no class is open, and whether it can also lie in a class, two levels deeper. */
  function Rank(ps: PState): nat {
    match ps
    case None => 0
    case Games => 1
    case Gamedefs => 2
    case Classes => 3
    case Class => 4
    case AddressRead => 5
    case Offset => 4
    case Sig => 4
    case Address => 4
    case CrcBinary => 4
    case _ => 3
  }

  predicate InDefs(ps: PState) { !(ps.None? || ps.Games? || ps.Gamedefs? || ps.Classes? || ps.Class?) }

  /** How many sections a state accounts for. */
  function Depth(st: State): nat {
    st.ignore + st.custom + Rank(st.ps) + if st.matched && InDefs(st.ps) then 2 else 0
  }

  /** The sections that are left into the game, whatever they were opened in. */
  predicate GameOnly(ps: PState) { ps.Supported? || ps.Crc? || ps.CrcBinary? || ps.Custom? }

  ghost predicate Inv(st: State) {
    && (st.custom > 0 ==> st.ps == Custom)
    && (st.ps == Custom ==> st.ignore == 0)
    && (st.ps == Gamedefs ==> !st.matched && st.cls == "")
    && (st.ps == Classes || st.ps == Class ==> st.matched)
    && (st.ps == Classes ==> st.cls == "")
    && (GameOnly(st.ps) ==> !st.matched)
    && (!st.matched && !st.ps.None? && !st.ps.Games? ==> st.cls == "")
  }

  /** What goes wrong: inside a class, a section that belongs under the game, or `Classes` when the class has
      an empty name. */
  predicate Misplaced(h: Host, st: State, e: Smc.Event) {
    e.NewSection? && st.ignore == 0 && st.ps == Class && Foreign(h, st, Chars(h, e.name))
  }

  /** The name of a section that belongs under the game: `CRC`, `#supported` of the default game, a name that a
      plugin has registered and no known word hides; or `Classes` in a class without a name. */
  predicate Foreign(h: Host, st: State, name: string) {
    match WordOf(name)
    case ClassesWord => st.cls == ""
    case CrcWord => true
    case SupportedWord => DefaultGame(st.info.game) || name in h.custom
    case GamesWord => name in h.custom
    case OtherWord => name in h.custom
    case _ => false
  }

  /** Those are the names that open a section of the game alone, or a second level of classes. */
  lemma ForeignExactly(h: Host, st: State, name: string)
    requires st.ps == Class
    ensures Foreign(h, st, name) <==> GameOnly(OpenDefs(h, st, name).ps) || OpenDefs(h, st, name).ps == Classes
  {
    hide WordOf, DefaultGame;
  }

  predicate NoneMisplaced(h: Host, init: State, events: seq<Smc.Event>) {
    if events == [] then true
    else
      var before := events[..|events| - 1];
      NoneMisplaced(h, init, before) && !Misplaced(h, Play(h, init, before), events[|events| - 1])
  }

  /** After every event the state accounts for exactly the sections that are open. */
  predicate Conserved(h: Host, init: State, events: seq<Smc.Event>) {
    && Depth(Play(h, init, events)) == Smc.Depth(events)
    && (events != [] ==> Conserved(h, init, events[..|events| - 1]))
  }

  /** A game-only section opened in a class, not yet left. */
  ghost predicate Trapped(st: State) {
    st.matched && GameOnly(st.ps) && (st.custom > 0 ==> st.ps == Custom) && (st.ps == Custom ==> st.ignore == 0)
  }

  function Change(e: Smc.Event): int { if e.NewSection? then 1 else if e.LeavingSection? then -1 else 0 }

  lemma DefsKeep(h: Host, st: State, name: string)
    requires Inv(st) && st.ignore == 0 && (st.ps == Gamedefs || st.ps == Class)
    requires st.ps == Class ==> !Foreign(h, st, name)
    ensures Inv(OpenDefs(h, st, name)) && Depth(OpenDefs(h, st, name)) == Depth(st) + 1
  {
    hide WordOf, DefaultGame;
  }

  lemma OpenKeeps(h: Host, st: State, name: string)
    requires Inv(st) && (st.ps == Class && st.ignore == 0 ==> !Foreign(h, st, name))
    ensures Inv(NewSection(h, st, name)) && Depth(NewSection(h, st, name)) == Depth(st) + 1
  {
    hide WordOf, GameNamed, DefaultGame, OpenDefs, Foreign;
    if st.ignore > 0 {
      assert NewSection(h, st, name) == st.(ignore := st.ignore + 1);
    } else if st.ps == Gamedefs || st.ps == Class {
      DefsKeep(h, st, name);
    } else {
      match st.ps {
        case None =>
        case Games =>
        case Classes =>
        case Crc =>
        case Custom =>
        case Address =>
        case _ =>
      }
    }
  }

  lemma LeaveKeeps(st: State)
    requires Inv(st) && Depth(st) >= 1
    ensures Inv(LeavingSection(st)) && Depth(LeavingSection(st)) == Depth(st) - 1
  {
  }

  lemma ValueKeeps(h: Host, st: State, key: string, value: string)
    ensures var st' := KeyValue(h, st, key, value);
      Depth(st') == Depth(st) && (Inv(st) ==> Inv(st')) && (Trapped(st) ==> Trapped(st'))
  {
    hide Value;
  }

  lemma HearKeeps(h: Host, st: State, e: Smc.Event)
    requires Inv(st) && !Misplaced(h, st, e) && (e.LeavingSection? ==> Depth(st) >= 1)
    ensures Inv(Hear(h, st, e)) && Depth(Hear(h, st, e)) == Depth(st) + Change(e)
  {
    hide Chars, OpenDefs, NewSection, KeyValue, LeavingSection, Depth, Inv, WordOf, GameOnly, Foreign;
    match e {
      case NewSection(name) => OpenKeeps(h, st, Chars(h, name));
      case KeyValue(key, value) => ValueKeeps(h, st, Chars(h, key), Chars(h, value));
      case LeavingSection => LeaveKeeps(st);
      case _ =>
    }
  }

  /** Opening a misplaced section breaks the count at once, or traps the state. */
  lemma MisplacedTraps(h: Host, st: State, e: Smc.Event)
    requires Inv(st) && Misplaced(h, st, e)
    ensures Change(e) == 1 && (Depth(Hear(h, st, e)) != Depth(st) + 1 || Trapped(Hear(h, st, e)))
  {
    hide Chars, WordOf, GameNamed, DefaultGame, KeyValue, LeavingSection, Foreign;
    ForeignExactly(h, st, Chars(h, e.name));
  }

  lemma TrappedStays(h: Host, st: State, e: Smc.Event)
    requires Trapped(st)
    ensures Trapped(Hear(h, st, e)) || Depth(Hear(h, st, e)) != Depth(st) + Change(e)
  {
  }

  predicate Fresh(init: State) { init.ps.None? && init.ignore == 0 && init.custom == 0 }

  lemma {:induction false} KeptWhileInPlace(h: Host, init: State, events: seq<Smc.Event>)
    requires Fresh(init) && Smc.Bracketed(events) && NoneMisplaced(h, init, events)
    ensures Conserved(h, init, events) && Inv(Play(h, init, events))
    decreases |events|
  {
    hide Misplaced, Hear, Inv, Depth;
    if events == [] {
      FreshInv(init);
    } else {
      var before, e := events[..|events| - 1], events[|events| - 1];
      KeptWhileInPlace(h, init, before);
      HearKeeps(h, Play(h, init, before), e);
    }
  }

  lemma FreshInv(init: State)
    requires Fresh(init)
    ensures Inv(init) && Depth(init) == 0 && !Trapped(init)
  {
  }

  lemma {:induction false} ConservedOrTrapped(h: Host, init: State, events: seq<Smc.Event>)
    requires Fresh(init) && Smc.Bracketed(events) && Conserved(h, init, events)
    ensures (NoneMisplaced(h, init, events) && Inv(Play(h, init, events))) || Trapped(Play(h, init, events))
    decreases |events|
  {
    hide Misplaced, Hear, Inv, Depth, Trapped;
    if events == [] {
      FreshInv(init);
    } else {
      var before, e := events[..|events| - 1], events[|events| - 1];
      ConservedOrTrapped(h, init, before);
      var st := Play(h, init, before);
      if Trapped(st) { TrappedStays(h, st, e); }
      else if Misplaced(h, st, e) { MisplacedTraps(h, st, e); }
      else { HearKeeps(h, st, e); }
    }
  }

  /** For events that close what they open, the nesting is conserved throughout if and only if no section is
      misplaced. */
  lemma ConservedExactly(h: Host, init: State, events: seq<Smc.Event>)
    requires Fresh(init) && Smc.Bracketed(events) && Smc.Depth(events) == 0
    ensures Conserved(h, init, events) <==> NoneMisplaced(h, init, events)
  {
    if NoneMisplaced(h, init, events) { KeptWhileInPlace(h, init, events); }
    if Conserved(h, init, events) { ConservedOrTrapped(h, init, events); }
  }

  /** A file parsed without an error leaves the listener where it started, if no section was misplaced. */
  lemma ParsedFileEndsFresh(h: Host, init: State, s: string, listener: Smc.Listener)
    requires Fresh(init) && forall e :: listener(e) == Smc.Continue
    ensures var r := Smc.Parse(s, listener);
      && r.Result? && |r.events| >= 2
      && (r.err == Smc.Okay && NoneMisplaced(h, init, r.events[..|r.events| - 1]) ==> Fresh(Play(h, init, r.events)))
  {
    Smc.ParseWell(s, listener);
    Smc.OkayIsClosed(s, listener);
    var r := Smc.Parse(s, listener);
    var body := r.events[..|r.events| - 1];
    hide Smc.Parse, Play, Hear;
    if r.err == Smc.Okay && NoneMisplaced(h, init, body) {
      KeptWhileInPlace(h, init, body);
      PlayEnd(h, init, r.events);
    }
  }

  lemma PlayEnd(h: Host, init: State, events: seq<Smc.Event>)
    requires events != [] && events[|events| - 1].ParseEnd?
    ensures Play(h, init, events) == Play(h, init, events[..|events| - 1])
  {
  }

  /** A custom section is deeper in the file than its custom level tells, wherever it was opened. */
  lemma {:induction false} CustomBelow(h: Host, init: State, events: seq<Smc.Event>)
    requires Fresh(init) && Smc.Bracketed(events)
    ensures var st := Play(h, init, events);
      && (st.custom > 0 ==> st.ps == Custom)
      && (st.ps == Custom ==> st.ignore == 0 && st.custom < Smc.Depth(events))
  {
    if events != [] {
      var before, e := events[..|events| - 1], events[|events| - 1];
      CustomBelow(h, init, before);
      CustomStep(h, Play(h, init, before), e);
      DepthNat(before);
      hide Hear;
    }
  }

  lemma {:induction false} DepthNat(events: seq<Smc.Event>)
    requires Smc.Bracketed(events)
    ensures Smc.Depth(events) >= 0
  {
    if events != [] { DepthNat(events[..|events| - 1]); }
  }

  lemma CustomStep(h: Host, st: State, e: Smc.Event)
    requires (st.custom > 0 ==> st.ps == Custom) && (st.ps == Custom ==> st.ignore == 0)
    ensures var st' := Hear(h, st, e);
      && (st'.custom > 0 ==> st'.ps == Custom) && (st'.ps == Custom ==> st'.ignore == 0)
      && (st'.ps == Custom && st.ps == Custom ==> st'.custom == st.custom + Change(e))
      && (st'.ps == Custom && st.ps != Custom ==> e.NewSection? && st'.custom == 0)
  {
    hide Chars, WordOf, GameNamed, DefaultGame, Value;
  }

  /** When a file has been parsed without an error, no custom level is left. */
  lemma NoCustomLeft(h: Host, init: State, s: string, listener: Smc.Listener)
    requires Fresh(init) && forall e :: listener(e) == Smc.Continue
    ensures var r := Smc.Parse(s, listener);
      && r.Result? && |r.events| >= 2
      && (var last := Play(h, init, r.events);
          (last.custom > 0 ==> last.ps == Custom) && (r.err == Smc.Okay ==> last.ps != Custom))
  {
    Smc.ParseWell(s, listener);
    Smc.OkayIsClosed(s, listener);
    var r := Smc.Parse(s, listener);
    hide Smc.Parse, Play, Smc.Bracketed, Smc.Depth;
    CustomBelow(h, init, r.events[..|r.events| - 1]);
    PlayEnd(h, init, r.events);
  }

  // ---------------------------------------------------------------- a file where the count breaks

  lemma Hears(h: Host, init: State, events: seq<Smc.Event>, e: Smc.Event)
    ensures Play(h, init, events + [e]) == Hear(h, Play(h, init, events), e)
    ensures Smc.Depth(events + [e]) == Smc.Depth(events) + Change(e)
  {
    hide Hear;
  }

  /** Raw lines and the start do not concern the listener. */
  lemma {:induction false} PlayStructure(h: Host, init: State, events: seq<Smc.Event>)
    ensures Play(h, init, SmcPrinter.Structure(events)) == Play(h, init, events)
    ensures Smc.Depth(SmcPrinter.Structure(events)) == Smc.Depth(events)
    ensures Conserved(h, init, events) ==> Conserved(h, init, SmcPrinter.Structure(events))
  {
    hide Hear, Depth, Play, Conserved, Smc.Depth, SmcPrinter.Structure;
    if events == [] {
      NoStructure();
    } else {
      var before, e := events[..|events| - 1], events[|events| - 1];
      PlayStructure(h, init, before);
      var told := SmcPrinter.Structure(before);
      assert events == before + [e] && told + [] == told;
      SmcPrinter.StructureTold(before, e);
      Quiet(h, Play(h, init, before), e);
      Hears(h, init, told, e);
      Hears(h, init, before, e);
      ConservedSnoc(h, init, before, e);
      ConservedSnoc(h, init, told, e);
    }
  }

  lemma ConservedSnoc(h: Host, init: State, events: seq<Smc.Event>, e: Smc.Event)
    ensures var after := events + [e];
      Conserved(h, init, after) <==> Depth(Play(h, init, after)) == Smc.Depth(after) && Conserved(h, init, events)
  {
    hide Hear, Depth, Play;
    assert (events + [e])[..|events|] == events;
  }

  lemma NoStructure()
    ensures SmcPrinter.Structure([]) == []
  {
  }

  lemma Quiet(h: Host, st: State, e: Smc.Event)
    ensures !e.NewSection? && !e.KeyValue? && !e.LeavingSection? ==> Hear(h, st, e) == st
  {
  }

  /** Sections one inside the other. */
  function Nested(names: seq<string>): seq<SmcPrinter.Item> {
    if names == [] then [] else [SmcPrinter.Section(names[0], Nested(names[1..]))]
  }

  const CRC_FILE := ["Games", "*", "Classes", "C", "CRC"]

  function Named(name: string): Smc.Event { Smc.NewSection(Smc.Text(name)) }

  function AllNamed(names: seq<string>): seq<Smc.Event> { seq(|names|, k requires 0 <= k < |names| => Named(names[k])) }

  function Left(n: nat): seq<Smc.Event> { seq(n, _ => Smc.LeavingSection) }

  lemma {:induction false} NestedEvents(names: seq<string>)
    requires forall k :: 0 <= k < |names| ==> SmcPrinter.Clear(names[k])
    ensures SmcPrinter.AllReadable(Nested(names)) && forall k :: 0 <= k < |Nested(names)| ==> Nested(names)[k].Section?
    ensures SmcPrinter.EventsOfAll(Nested(names)) == AllNamed(names) + Left(|names|)
  {
    hide SmcPrinter.Clear;
    if names != [] {
      NestedEvents(names[1..]);
      var one := SmcPrinter.Section(names[0], Nested(names[1..]));
      assert Nested(names) == [one] && Nested(names)[1..] == [];
      assert SmcPrinter.EventsOfAll([one]) == SmcPrinter.EventsOf(one);
      assert AllNamed(names) == [Named(names[0])] + AllNamed(names[1..])
        && Left(|names|) == Left(|names| - 1) + Left(1);
    }
  }

  /** Leaving a CRC section inside a class loses two levels: the file is parsed without an error, with every section
      closed, and the nesting is not conserved. */
  lemma CrcInClassBreaks(h: Host, init: State, listener: Smc.Listener)
    requires Fresh(init) && forall e :: listener(e) == Smc.Continue
    ensures var r := Smc.Parse(SmcPrinter.PrintAll(Nested(CRC_FILE)), listener);
      && r.Result? && r.err == Smc.Okay && r.events != []
      && !Conserved(h, init, r.events[..|r.events| - 1])
  {
    CrcClear();
    hide *;
    NestedEvents(CRC_FILE);
    Parsed(Nested(CRC_FILE), listener);
    var r := Smc.Parse(SmcPrinter.PrintAll(Nested(CRC_FILE)), listener);
    var body := r.events[..|r.events| - 1];
    PlayStructure(h, init, body);
    CrcNotConserved(h, init);
    if Conserved(h, init, body) { CrcPrefix(h, init, SmcPrinter.Structure(body)); }
  }

  lemma CrcClear()
    ensures forall k :: 0 <= k < |CRC_FILE| ==> SmcPrinter.Clear(CRC_FILE[k])
  {
  }

  lemma CrcPrefix(h: Host, init: State, events: seq<Smc.Event>)
    requires events == AllNamed(CRC_FILE) + Left(|CRC_FILE|) && Conserved(h, init, events)
    ensures Conserved(h, init, AllNamed(CRC_FILE) + [Smc.LeavingSection])
  {
    hide Conserved, AllNamed;
    assert Left(5) == [Smc.LeavingSection] + Left(4);
    var path := AllNamed(CRC_FILE) + [Smc.LeavingSection];
    assert path + Left(4) == events;
    ConservedPrefix(h, init, path, Left(4));
  }

  lemma Parsed(doc: seq<SmcPrinter.Item>, listener: Smc.Listener)
    requires SmcPrinter.AllReadable(doc) && forall k :: 0 <= k < |doc| ==> doc[k].Section?
    requires forall e :: listener(e) == Smc.Continue
    ensures var r := Smc.Parse(SmcPrinter.PrintAll(doc), listener);
      && r.Result? && r.err == Smc.Okay && r.events != []
      && SmcPrinter.Structure(r.events[..|r.events| - 1]) == SmcPrinter.EventsOfAll(doc)
  {
    hide Smc.Parse, SmcPrinter.EventsOfAll, SmcPrinter.AllReadable, SmcPrinter.PrintAll;
    SmcPrinter.PrintParse(doc, listener);
    Smc.ParseWell(SmcPrinter.PrintAll(doc), listener);
  }

  lemma {:induction false} ConservedPrefix(h: Host, init: State, a: seq<Smc.Event>, b: seq<Smc.Event>)
    requires Conserved(h, init, a + b)
    ensures Conserved(h, init, a)
    decreases |b|
  {
    if b == [] {
      assert a + b == a;
    } else {
      assert (a + b)[..|a + b| - 1] == a + b[..|b| - 1];
      ConservedPrefix(h, init, a, b[..|b| - 1]);
    }
  }

  lemma CrcNotConserved(h: Host, init: State)
    requires Fresh(init)
    ensures !Conserved(h, init, AllNamed(CRC_FILE) + [Smc.LeavingSection])
  {
    CrcPath(h, init);
    hide NewSection, LeavingSection, Depth, WordOf, GameNamed, Conserved, Play, Smc.Depth;
    PlayNothing(h, init);
    Hears(h, init, [], Named("Games"));
    var one := [Named("Games")];
    assert [] + one == one;
    Hears(h, init, one, Named("*"));
    var two := one + [Named("*")];
    Hears(h, init, two, Named("Classes"));
    var three := two + [Named("Classes")];
    Hears(h, init, three, Named("C"));
    var four := three + [Named("C")];
    Hears(h, init, four, Named("CRC"));
    var five := four + [Named("CRC")];
    Hears(h, init, five, Smc.LeavingSection);
    ConservedSnoc(h, init, five, Smc.LeavingSection);
    assert five == AllNamed(CRC_FILE);
  }

  lemma PlayNothing(h: Host, init: State)
    ensures Play(h, init, []) == init && Smc.Depth([]) == 0
  {
  }

  lemma CrcPath(h: Host, init: State)
    requires Fresh(init)
    ensures var st := NewSection(h, NewSection(h, NewSection(h, init, "Games"), "*"), "Classes");
      Depth(LeavingSection(NewSection(h, NewSection(h, st, "C"), "CRC"))) == 2
  {
  }

  // ---------------------------------------------------------------- the listener object

  class Reader {
    var parseState: PState
    var ignoreLevel: nat
    var customLevel: nat
    var matchedClasses: bool
    var class_: string
    var info: Info
    const host: Host

    constructor (host: Host)
      ensures this.host == host && Fresh(Current())
    {
      this.host := host;
      parseState, ignoreLevel, customLevel, matchedClasses, class_ := None, 0, 0, false, "";
      info := Info("", "", false, true, false, false, false, false);
    }

    function Current(): State
      reads this
    {
      State(parseState, ignoreLevel, customLevel, matchedClasses, class_, info)
    }

    method OpenUnderGame(name: string)
      modifies this
      ensures Current() == OpenDefs(host, old(Current()), name)
    {
      match WordOf(name) {
        case ClassesWord =>
          if class_ == "" { parseState, matchedClasses := Classes, true; }
          else { ignoreLevel := ignoreLevel + 1; }
          return;
        case OffsetsWord => parseState := Offsets; return;
        case KeysWord => parseState := Keys; return;
        case SupportedWord =>
          if DefaultGame(info.game) {
            parseState := Supported;
            info := info.(readDefault := false, hadGame := false, matchedGame := false,
                          hadEngine := false, matchedEngine := false);
            return;
          }
        case SignaturesWord => parseState := Signatures; return;
        case CrcWord =>
          parseState, info := Crc, info.(readDefault := false, crcValid := false, library := "");
          return;
        case AddressesWord => parseState := Addresses; return;
        case _ =>
      }
      if name in host.custom { customLevel, parseState := 0, Custom; }
      else { ignoreLevel := ignoreLevel + 1; }
    }

    method ReadNewSection(name: string)
      modifies this
      ensures Current() == NewSection(host, old(Current()), name)
      ensures old(Inv(Current()) && !Misplaced(host, Current(), Smc.NewSection(Smc.Text(name)))) ==>
              Inv(Current()) && Depth(Current()) == old(Depth(Current())) + 1
    {
      hide Inv, Depth, Foreign, WordOf, GameNamed, OpenDefs;
      if Inv(Current()) && !Misplaced(host, Current(), Smc.NewSection(Smc.Text(name))) {
        OpenKeeps(host, Current(), name);
      }
      if ignoreLevel > 0 {
        ignoreLevel := ignoreLevel + 1;
        return;
      }
      match parseState {
        case None =>
          if WordOf(name) == GamesWord { parseState := Games; } else { ignoreLevel := ignoreLevel + 1; }
        case Games =>
          if GameNamed(host, name) {
            info := info.(readDefault := true, game := name);
            class_, matchedClasses, parseState := "", false, Gamedefs;
          } else {
            ignoreLevel := ignoreLevel + 1;
          }
        case Gamedefs => OpenUnderGame(name);
        case Class => OpenUnderGame(name);
        case Classes => class_, parseState := name, Class;
        case Offsets => parseState := Offset;
        case Signatures => parseState := Sig;
        case Crc =>
          info := info.(crcValid := false);
          if name in host.binaries {
            info := info.(crcValid := true, library := name);
            parseState := CrcBinary;
          } else {
            ignoreLevel := 1;
          }
        case Custom => customLevel := customLevel + 1;
        case Addresses => parseState := Address;
        case Address =>
          if name == host.platform { parseState := AddressRead; } else { ignoreLevel := 1; }
        case _ => ignoreLevel := ignoreLevel + 1;
      }
    }

    method ReadKeyValue(key: string, value: string)
      modifies `info
      ensures Current() == KeyValue(host, old(Current()), key, value)
    {
      if ignoreLevel > 0 { return; }
      if parseState == Supported && key == "game" {
        info := info.(hadGame := true);
        if value == host.game { info := info.(matchedGame := true); }
        if (!info.hadEngine && info.matchedGame) || (info.matchedEngine && info.matchedGame) {
          info := info.(readDefault := true);
        }
      } else if parseState == Supported && key == "engine" {
        info := info.(hadEngine := true);
        if value == host.engine { info := info.(matchedEngine := true); }
        if (!info.hadGame && info.matchedEngine) || (info.matchedGame && info.matchedEngine) {
          info := info.(readDefault := true);
        }
      } else if parseState == CrcBinary && key == host.platform && info.crcValid && !info.readDefault {
        if host.crcMatches(info.library, value) { info := info.(readDefault := true); }
      }
    }

    method ReadLeavingSection()
      modifies this
      ensures Current() == LeavingSection(old(Current()))
      ensures old(Inv(Current()) && Depth(Current()) >= 1) ==>
              Inv(Current()) && Depth(Current()) == old(Depth(Current())) - 1
    {
      hide Inv, Depth;
      if Inv(Current()) && Depth(Current()) >= 1 { LeaveKeeps(Current()); }
      if ignoreLevel > 0 {
        ignoreLevel := ignoreLevel - 1;
        return;
      }
      if customLevel > 0 {
        customLevel := customLevel - 1;
        return;
      }
      match parseState {
        case None =>
        case Games => parseState := None;
        case Gamedefs => parseState := Games;
        case Classes => matchedClasses, parseState := false, Gamedefs;
        case Class => parseState, class_ := Classes, "";
        case Custom => parseState := Gamedefs;
        case Offset => parseState := Offsets;
        case Sig => parseState := Signatures;
        case Address => parseState := Addresses;
        case AddressRead => parseState := Address;
        case CrcBinary => parseState := Crc;
        case Supported =>
          if !info.readDefault { ignoreLevel, parseState := 1, Games; } else { parseState := Gamedefs; }
        case Crc =>
          if !info.readDefault { ignoreLevel, parseState := 1, Games; } else { parseState := Gamedefs; }
        case _ => parseState := if matchedClasses then Class else Gamedefs;
      }
    }

    /** Reads one file. Every handler continues, so the parser's events are simply played to the listener; a file
        that fails in a plugin's section takes the custom level back.  No file leaves a custom level behind. */
    method EnterFile(text: string) returns (ok: bool)
      modifies this
      ensures var init := old(Current()).(ps := None, ignore := 0,
                                          info := old(info).(readDefault := true, crcValid := false));
        var r := Smc.Parse(text, _ => Smc.Continue);
        && r.Result? && |r.events| >= 2 && (ok <==> r.err == Smc.Okay)
        && (var last := Play(host, init, r.events);
            Current() == if !ok && last.ps == Custom then last.(custom := 0) else last)
        && (old(customLevel) == 0 ==> customLevel == 0)
        && (ok && old(customLevel) == 0 && NoneMisplaced(host, init, r.events[..|r.events| - 1]) ==> Fresh(Current()))
    {
      ignoreLevel, parseState := 0, None;
      info := info.(readDefault := true, crcValid := false);
      ghost var init := Current();
      var listener := _ => Smc.Continue;
      Smc.ParseWell(text, listener);
      if customLevel == 0 {
        ParsedFileEndsFresh(host, init, text, listener);
        NoCustomLeft(host, init, text, listener);
      }
      var r := Smc.Parse(text, listener);
      hide *;
      HearAll(r.events);
      ok := r.err == Smc.Okay;
      if !ok && parseState == Custom { customLevel := 0; }
    }

    method HearAll(events: seq<Smc.Event>)
      modifies this
      ensures Current() == Play(host, old(Current()), events)
    {
      hide NewSection, KeyValue, LeavingSection, Inv, Depth, Misplaced;
      for i := 0 to |events|
        invariant Current() == Play(host, old(Current()), events[..i])
      {
        var e := events[i];
        assert events[..i + 1][..i] == events[..i];
        match e {
          case NewSection(name) => ReadNewSection(Chars(host, name));
          case KeyValue(key, value) => ReadKeyValue(Chars(host, key), Chars(host, value));
          case LeavingSection => ReadLeavingSection();
          case _ =>
        }
      }
      assert events[..|events|] == events;
    }
  }
}
