/** Log events: filters shared between events and remembered for a line, against direct evaluation. */
module LogEvents {
  import opened Strings

  const MAX_LOGARGS := 12

  /** A condition on one argument: equal to the text, or containing it. */
  datatype Filter = Filter(pos: int, within: bool, text: string)

  /** A condition with the line it was last evaluated on, and the result: zero when it holds. */
  datatype Cmp = Cmp(filter: Filter, logid: int, result: int)

  /** The conditions of an event on one argument, newest first; conditions are known by their index. */
  datatype LogCond = LogCond(argnum: int, list: seq<nat>)

  datatype LogEvent = LogEvent(func: int, filters: seq<LogCond>, active: bool)

  // ---------------------------------------------------------------- the meaning

  predicate Holds(f: Filter, args: seq<string>) {
    0 <= f.pos < |args| && if f.within then Contains(args[f.pos], f.text) else args[f.pos] == f.text
  }

  predicate CondMet(c: LogCond, cmps: seq<Cmp>, args: seq<string>) {
    exists k :: 0 <= k < |c.list| && c.list[k] < |cmps| && Holds(cmps[c.list[k]].filter, args)
  }

  predicate Meets(e: LogEvent, cmps: seq<Cmp>, args: seq<string>) {
    forall j :: 0 <= j < |e.filters| ==> CondMet(e.filters[j], cmps, args)
  }

  /** The functions called for a line, in the order of registration. */
  function Fired(es: seq<LogEvent>, cmps: seq<Cmp>, args: seq<string>): seq<int> {
    if es == [] then []
    else
      var last := es[|es| - 1];
      Fired(es[..|es| - 1], cmps, args) + if last.active && Meets(last, cmps, args) then [last.func] else []
  }

  predicate SameFilters(a: seq<Cmp>, b: seq<Cmp>) {
    |a| == |b| && forall i :: 0 <= i < |a| ==> a[i].filter == b[i].filter
  }

  lemma MeetsSame(e: LogEvent, a: seq<Cmp>, b: seq<Cmp>, args: seq<string>)
    requires SameFilters(a, b)
    ensures Meets(e, a, args) == Meets(e, b, args)
  {
    hide Holds;
  }

  lemma {:induction false} FiredSame(es: seq<LogEvent>, a: seq<Cmp>, b: seq<Cmp>, args: seq<string>)
    requires SameFilters(a, b)
    ensures Fired(es, a, args) == Fired(es, b, args)
  {
    hide Meets, SameFilters;
    if es != [] {
      FiredSame(es[..|es| - 1], a, b, args);
      MeetsSame(es[|es| - 1], a, b, args);
    }
  }

  // ---------------------------------------------------------------- the filters of an event

  /** The k-th condition of group j. */
  predicate Occurs(c: LogCond, cmps: seq<Cmp>, f: Filter, k: nat) {
    k < |c.list| && c.list[k] < |cmps| && cmps[c.list[k]].filter == f
  }

  ghost predicate CondHas(c: LogCond, cmps: seq<Cmp>, f: Filter) { exists k: nat :: Occurs(c, cmps, f, k) }

  ghost predicate HasFilter(e: LogEvent, cmps: seq<Cmp>, f: Filter) {
    exists j :: 0 <= j < |e.filters| && CondHas(e.filters[j], cmps, f)
  }

  /** Conditions are grouped by argument, one group for each. */
  predicate Grouped(e: LogEvent, cmps: seq<Cmp>) {
    && (forall j :: 0 <= j < |e.filters| ==> GoodCond(e.filters[j], cmps))
    && forall i, j :: 0 <= i < j < |e.filters| ==> e.filters[i].argnum != e.filters[j].argnum
  }

  predicate GoodCond(c: LogCond, cmps: seq<Cmp>) {
    && c.list != [] && 0 <= c.argnum < MAX_LOGARGS
    && forall k :: 0 <= k < |c.list| ==> c.list[k] < |cmps| && cmps[c.list[k]].filter.pos == c.argnum
  }

  lemma CondMetExactly(c: LogCond, cmps: seq<Cmp>, args: seq<string>)
    ensures CondMet(c, cmps, args) <==> exists f :: CondHas(c, cmps, f) && Holds(f, args)
  {
    hide Holds;
    if CondMet(c, cmps, args) {
      var k: nat :| k < |c.list| && c.list[k] < |cmps| && Holds(cmps[c.list[k]].filter, args);
      assert Occurs(c, cmps, cmps[c.list[k]].filter, k);
    }
  }

  lemma CondPos(c: LogCond, cmps: seq<Cmp>)
    requires GoodCond(c, cmps)
    ensures forall f :: CondHas(c, cmps, f) ==> f.pos == c.argnum
    ensures CondHas(c, cmps, cmps[c.list[0]].filter)
  {
    assert Occurs(c, cmps, cmps[c.list[0]].filter, 0);
  }

  /** One of the filters on this argument holds. */
  ghost predicate SomeHolds(e: LogEvent, cmps: seq<Cmp>, pos: int, args: seq<string>) {
    exists g :: HasFilter(e, cmps, g) && g.pos == pos && Holds(g, args)
  }

  /** What an event's filters say together: every argument that has filters satisfies one of them. */
  lemma MeetsExactly(e: LogEvent, cmps: seq<Cmp>, args: seq<string>)
    requires Grouped(e, cmps)
    ensures Meets(e, cmps, args) <==> forall f :: HasFilter(e, cmps, f) ==> SomeHolds(e, cmps, f.pos, args)
  {
    hide Holds, GoodCond, CondHas, CondMet, SomeHolds;
    forall j | 0 <= j < |e.filters|
      ensures CondMet(e.filters[j], cmps, args) == SomeHolds(e, cmps, e.filters[j].argnum, args)
    {
      OneMet(e, cmps, args, j);
    }
    forall j | 0 <= j < |e.filters|
      ensures exists f :: HasFilter(e, cmps, f) && f.pos == e.filters[j].argnum
    {
      FirstFilter(e, cmps, j);
    }
    forall f | HasFilter(e, cmps, f) ensures exists j :: 0 <= j < |e.filters| && e.filters[j].argnum == f.pos {
      var j :| 0 <= j < |e.filters| && CondHas(e.filters[j], cmps, f);
      CondPos(e.filters[j], cmps);
    }
  }

  lemma FirstFilter(e: LogEvent, cmps: seq<Cmp>, j: nat)
    requires Grouped(e, cmps) && j < |e.filters|
    ensures exists f :: HasFilter(e, cmps, f) && f.pos == e.filters[j].argnum
  {
    hide CondHas;
    assert GoodCond(e.filters[j], cmps);
    CondPos(e.filters[j], cmps);
    assert HasFilter(e, cmps, cmps[e.filters[j].list[0]].filter);
  }

  lemma OneMet(e: LogEvent, cmps: seq<Cmp>, args: seq<string>, j: nat)
    requires Grouped(e, cmps) && j < |e.filters|
    ensures CondMet(e.filters[j], cmps, args) == SomeHolds(e, cmps, e.filters[j].argnum, args)
  {
    hide Holds, CondHas, CondMet, GoodCond;
    assert GoodCond(e.filters[j], cmps);
    CondPos(e.filters[j], cmps);
    CondMetExactly(e.filters[j], cmps, args);
    if CondMet(e.filters[j], cmps, args) {
      var f :| CondHas(e.filters[j], cmps, f) && Holds(f, args);
      assert HasFilter(e, cmps, f);
    }
    if SomeHolds(e, cmps, e.filters[j].argnum, args) {
      var g :| HasFilter(e, cmps, g) && g.pos == e.filters[j].argnum && Holds(g, args);
      var i :| 0 <= i < |e.filters| && CondHas(e.filters[i], cmps, g);
      CondPos(e.filters[i], cmps);
    }
  }

  // ---------------------------------------------------------------- registration

  /** registerCondition's position: out of range counts as the first argument. */
  function Clamped(pos: int): int { if pos < 0 || pos >= MAX_LOGARGS then 0 else pos }

  /** Where a condition goes among the groups. */
  function WithCond(filters: seq<LogCond>, argnum: int, cmp: nat, k: nat): seq<LogCond>
    requires k <= |filters|
    decreases |filters| - k
  {
    if k == |filters| then [LogCond(argnum, [cmp])] + filters
    else if filters[k].argnum == argnum then filters[k := LogCond(argnum, [cmp] + filters[k].list)]
    else WithCond(filters, argnum, cmp, k + 1)
  }

  lemma {:induction false} WithCondIs(filters: seq<LogCond>, argnum: int, cmp: nat, k: nat)
    requires k <= |filters| && forall j :: 0 <= j < k ==> filters[j].argnum != argnum
    ensures var r := WithCond(filters, argnum, cmp, k);
      || (r == [LogCond(argnum, [cmp])] + filters && forall j :: 0 <= j < |filters| ==> filters[j].argnum != argnum)
      || exists j ::
           0 <= j < |filters| && filters[j].argnum == argnum
           && r == filters[j := LogCond(argnum, [cmp] + filters[j].list)]
    decreases |filters| - k
  {
    if k < |filters| && filters[k].argnum != argnum { WithCondIs(filters, argnum, cmp, k + 1); }
  }

  /** Registering a filter adds it to the event's filters, and nothing else. */
  lemma WithCondAdds(e: LogEvent, cmps: seq<Cmp>, cmp: nat, f: Filter)
    requires Grouped(e, cmps) && cmp < |cmps| && 0 <= cmps[cmp].filter.pos < MAX_LOGARGS
    ensures var e' := e.(filters := WithCond(e.filters, cmps[cmp].filter.pos, cmp, 0));
      Grouped(e', cmps) && (HasFilter(e', cmps, f) <==> HasFilter(e, cmps, f) || f == cmps[cmp].filter)
  {
    hide WithCond;
    var argnum := cmps[cmp].filter.pos;
    WithCondIs(e.filters, argnum, cmp, 0);
    var r := WithCond(e.filters, argnum, cmp, 0);
    var e' := e.(filters := r);
    if r == [LogCond(argnum, [cmp])] + e.filters && forall j :: 0 <= j < |e.filters| ==> e.filters[j].argnum != argnum {
      FrontAdds(e, e', cmps, cmp, f);
    } else {
      var j :| 0 <= j < |e.filters| && e.filters[j].argnum == argnum
        && r == e.filters[j := LogCond(argnum, [cmp] + e.filters[j].list)];
      InsideAdds(e, e', cmps, cmp, f, j);
    }
  }

  lemma FrontAdds(e: LogEvent, e': LogEvent, cmps: seq<Cmp>, cmp: nat, f: Filter)
    requires Grouped(e, cmps) && cmp < |cmps| && 0 <= cmps[cmp].filter.pos < MAX_LOGARGS
    requires e'.filters == [LogCond(cmps[cmp].filter.pos, [cmp])] + e.filters
    requires forall j :: 0 <= j < |e.filters| ==> e.filters[j].argnum != cmps[cmp].filter.pos
    ensures Grouped(e', cmps) && (HasFilter(e', cmps, f) <==> HasFilter(e, cmps, f) || f == cmps[cmp].filter)
  {
    hide GoodCond, CondHas, HasFilter;
    ConsCond(LogCond(cmps[cmp].filter.pos, []), cmps, cmp, f);
    assert [cmp] + [] == [cmp];
    NoneHas(cmps[cmp].filter.pos, cmps, f);
    FrontHas(e, e', cmps, f);
    forall j | 0 < j < |e'.filters| ensures e'.filters[j] == e.filters[j - 1] {}
  }

  lemma FrontHas(e: LogEvent, e': LogEvent, cmps: seq<Cmp>, f: Filter)
    requires e'.filters != [] && e.filters == e'.filters[1..]
    ensures HasFilter(e', cmps, f) <==> HasFilter(e, cmps, f) || CondHas(e'.filters[0], cmps, f)
  {
    hide CondHas;
  }

  lemma NoneHas(argnum: int, cmps: seq<Cmp>, f: Filter)
    ensures !CondHas(LogCond(argnum, []), cmps, f)
  {
  }

  lemma InsideAdds(e: LogEvent, e': LogEvent, cmps: seq<Cmp>, cmp: nat, f: Filter, at: nat)
    requires Grouped(e, cmps) && cmp < |cmps| && at < |e.filters| && e.filters[at].argnum == cmps[cmp].filter.pos
    requires e'.filters == e.filters[at := LogCond(e.filters[at].argnum, [cmp] + e.filters[at].list)]
    ensures Grouped(e', cmps) && (HasFilter(e', cmps, f) <==> HasFilter(e, cmps, f) || f == cmps[cmp].filter)
  {
    hide CondHas;
    assert GoodCond(e.filters[at], cmps);
    hide GoodCond;
    ConsCond(e.filters[at], cmps, cmp, f);
    if CondHas(e'.filters[at], cmps, f) { assert HasFilter(e', cmps, f); }
    if HasFilter(e, cmps, f) {
      var j :| 0 <= j < |e.filters| && CondHas(e.filters[j], cmps, f);
      assert CondHas(e'.filters[j], cmps, f);
    }
  }

  /** A condition put at the front of a group. */
  lemma ConsCond(c: LogCond, cmps: seq<Cmp>, cmp: nat, f: Filter)
    requires cmp < |cmps| && cmps[cmp].filter.pos == c.argnum && 0 <= c.argnum < MAX_LOGARGS
      && (c.list == [] || GoodCond(c, cmps))
    ensures var c' := LogCond(c.argnum, [cmp] + c.list);
      GoodCond(c', cmps) && (CondHas(c', cmps, f) <==> f == cmps[cmp].filter || CondHas(c, cmps, f))
  {
    var c' := LogCond(c.argnum, [cmp] + c.list);
    assert c'.list[0] == cmp && forall k :: 0 <= k < |c.list| ==> c'.list[k + 1] == c.list[k];
    if CondHas(c, cmps, f) {
      var k: nat :| Occurs(c, cmps, f, k);
      assert Occurs(c', cmps, f, k + 1);
    }
    if f == cmps[cmp].filter { assert Occurs(c', cmps, f, 0); }
    if CondHas(c', cmps, f) {
      var k: nat :| Occurs(c', cmps, f, k);
      if k > 0 { assert Occurs(c, cmps, f, k - 1); }
    }
  }

  // ---------------------------------------------------------------- the manager

  predicate Distinct(s: seq<nat>) { forall a, b :: 0 <= a < b < |s| ==> s[a] != s[b] }

  class LogEventsMngr {
    var cmps: seq<Cmp>
    var events: seq<seq<LogEvent>>
    var counter: int
    var args: seq<string>
    var argc: nat
    var fired: seq<int>
    /** The conditions evaluated on this line. */
    ghost var evaluated: seq<nat>

    ghost predicate Valid()
      reads this`cmps, this`events, this`counter, this`args, this`argc
    {
      && counter >= 0 && |args| == MAX_LOGARGS && argc <= MAX_LOGARGS && |events| == MAX_LOGARGS + 1
      && (forall i :: 0 <= i < |cmps| ==> cmps[i].logid <= counter && 0 <= cmps[i].filter.pos < MAX_LOGARGS)
      && (forall i, j :: 0 <= i < j < |cmps| ==> cmps[i].filter != cmps[j].filter)
      && forall t, i :: 0 <= t < |events| && 0 <= i < |events[t]| ==> Grouped(events[t][i], cmps)
    }

    /** What is remembered for this line is true, and was evaluated once. */
    ghost predicate Memo()
      reads this`cmps, this`counter, this`args, this`evaluated
    {
      && counter > 0 && Distinct(evaluated)
      && forall i: nat :: i < |cmps| ==> MemoOf(i)
    }

    ghost predicate MemoOf(i: nat)
      requires i < |cmps|
      reads this`cmps, this`counter, this`args, this`evaluated
    {
      && (cmps[i].logid == counter <==> i in evaluated)
      && (cmps[i].logid == counter ==> (cmps[i].result == 0 <==> Holds(cmps[i].filter, args)))
    }

    constructor ()
      ensures Valid() && cmps == [] && fired == []
    {
      cmps, events, counter, argc, fired, evaluated := [], seq(MAX_LOGARGS + 1, _ => []), 0, 0, [], [];
      args := seq(MAX_LOGARGS, _ => "");
    }

    /** A new line: nothing remembered counts any more. */
    method SetLogString()
      requires Valid()
      modifies this`counter, this`argc, this`evaluated
      ensures Valid() && counter == old(counter) + 1 && argc == 0 && evaluated == []
      ensures forall i :: 0 <= i < |cmps| ==> cmps[i].logid < counter
    {
      counter := counter + 1;
      argc := 0;
      evaluated := [];
    }

    /** The arguments of the line; those behind argc keep what an earlier line left. */
    method ParseLogString(parsed: seq<string>)
      requires Valid() && |parsed| <= MAX_LOGARGS && counter > 0 && evaluated == []
      requires forall i :: 0 <= i < |cmps| ==> cmps[i].logid < counter
      modifies this`args, this`argc
      ensures Valid() && Memo() && argc == |parsed| && args == parsed + old(args)[|parsed|..]
    {
      args := parsed + args[|parsed|..];
      argc := |parsed|;
    }

    /** compareCondition: evaluates unless remembered. */
    method CompareCondition(i: nat, s: string) returns (result: int)
      requires Valid() && Memo() && i < |cmps| && s == args[cmps[i].filter.pos]
      modifies this`cmps, this`evaluated
      ensures Valid() && Memo() && SameFilters(cmps, old(cmps))
      ensures result == 0 <==> Holds(cmps[i].filter, args)
      ensures evaluated == if old(cmps[i].logid) == counter then old(evaluated) else old(evaluated) + [i]
    {
      hide Grouped, Contains, StrCmp;
      assert MemoOf(i);
      var c := cmps[i];
      if c.logid == counter { return c.result; }
      if c.filter.within {
        result := if Contains(s, c.filter.text) then 0 else 1;
      } else {
        result := StrCmp(s, c.filter.text);
        StrCmpOrder(s, c.filter.text);
      }
      ghost var was := cmps;
      cmps := cmps[i := Cmp(c.filter, counter, result)];
      evaluated := evaluated + [i];
      RegroupAll(events, was, cmps);
      forall k: nat | k < |cmps| ensures MemoOf(k) {
        assert old(MemoOf(k));
      }
    }

    method RegisterCondition(pos: int, within: bool, text: string) returns (i: nat)
      requires Valid()
      modifies this`cmps
      ensures Valid() && i < |cmps| && cmps[i].filter == Filter(Clamped(pos), within, text)
      ensures old(cmps) <= cmps && |cmps| <= |old(cmps)| + 1
      ensures forall k :: |old(cmps)| <= k < |cmps| ==> cmps[k].logid == 0
      ensures (exists k :: 0 <= k < |old(cmps)| && old(cmps)[k].filter == Filter(Clamped(pos), within, text)) ==>
        cmps == old(cmps)
    {
      hide Grouped;
      var p := if pos < 0 || pos >= MAX_LOGARGS then 0 else pos;
      i := |cmps|;
      while i > 0
        invariant 0 <= i <= |cmps| && forall k :: i <= k < |cmps| ==> cmps[k].filter != Filter(p, within, text)
      {
        i := i - 1;
        if cmps[i].filter.pos == p && cmps[i].filter.within == within && cmps[i].filter.text == text { return; }
      }
      i := |cmps|;
      ghost var was := cmps;
      cmps := cmps + [Cmp(Filter(p, within, text), 0, 0)];
      RegroupAll(events, was, cmps);
    }

    /** A filter joins exactly one event; conditions already known are shared. */
    method RegisterFilter(t: nat, e: nat, pos: int, within: bool, text: string)
      requires Valid() && t < |events| && e < |events[t]|
      modifies this`cmps, this`events
      ensures Valid() && |events| == |old(events)| && |events[t]| == |old(events)[t]| && old(cmps) <= cmps
      ensures forall a, b :: 0 <= a < |events| && 0 <= b < |old(events)[a]| && (a, b) != (t, e) ==>
        |events[a]| == |old(events)[a]| && events[a][b] == old(events)[a][b]
      ensures events[t][e].func == old(events)[t][e].func && events[t][e].active == old(events)[t][e].active
      ensures forall f :: HasFilter(events[t][e], cmps, f) <==>
        HasFilter(old(events)[t][e], old(cmps), f) || f == Filter(Clamped(pos), within, text)
    {
      hide Grouped, WithCond;
      var i := RegisterCondition(pos, within, text);
      var event := events[t][e];
      assert Grouped(event, cmps);
      forall f ensures HasFilter(event, cmps, f) <==> HasFilter(event, old(cmps), f) {
        assert Grouped(event, old(cmps));
        FilterKept(event, old(cmps), cmps, f);
      }
      forall f { WithCondAdds(event, cmps, i, f); }
      WithCondAdds(event, cmps, i, cmps[i].filter);
      var filters := AddCond(event.filters, cmps[i].filter.pos, i);
      events := events[t := events[t][e := event.(filters := filters)]];
    }

    /** The inner loops of executeLogEvents for one event. */
    method Check(a: LogEvent) returns (valid: bool)
      requires Valid() && Memo() && Grouped(a, cmps)
      modifies this`cmps, this`evaluated
      ensures Valid() && Memo() && SameFilters(cmps, old(cmps)) && valid == Meets(a, old(cmps), args)
    {
      hide Holds, Grouped;
      valid := true;
      var j := 0;
      while j < |a.filters| && valid
        invariant Valid() && Memo() && SameFilters(cmps, old(cmps)) && 0 <= j <= |a.filters|
        invariant valid ==> forall k :: 0 <= k < j ==> CondMet(a.filters[k], old(cmps), args)
        invariant !valid ==> exists k :: 0 <= k < |a.filters| && !CondMet(a.filters[k], old(cmps), args)
      {
        GroupedCond(a, old(cmps), j);
        valid := CheckCond(a.filters[j], old(cmps));
        j := j + 1;
      }
    }

    method CheckCond(b: LogCond, ghost known: seq<Cmp>) returns (valid: bool)
      requires Valid() && Memo() && SameFilters(cmps, known) && GoodCond(b, known)
      modifies this`cmps, this`evaluated
      ensures Valid() && Memo() && SameFilters(cmps, known) && valid == CondMet(b, known, args)
    {
      hide Holds, Valid, Memo;
      valid := false;
      var k := 0;
      while k < |b.list|
        invariant Valid() && Memo() && SameFilters(cmps, known) && 0 <= k <= |b.list| && !valid
        invariant forall m :: 0 <= m < k ==> !Holds(known[b.list[m]].filter, args)
      {
        assert known[b.list[k]].filter.pos == b.argnum == cmps[b.list[k]].filter.pos;
        ArgsThere();
        var r := CompareCondition(b.list[k], args[b.argnum]);
        if r == 0 { valid := true; break; }
        k := k + 1;
      }
    }

    lemma ArgsThere()
      requires Valid()
      ensures |args| == MAX_LOGARGS
    {
    }

    /** Exactly the active events of the line's length whose filters are met are called, in order, and every
        condition was evaluated at most once. */
    method ExecuteLogEvents()
      requires Valid() && Memo()
      modifies this`cmps, this`evaluated, this`fired
      ensures Valid() && Memo() && SameFilters(cmps, old(cmps)) && Distinct(evaluated)
      ensures fired == old(fired) + Fired(events[argc], old(cmps), args)
    {
      hide Holds, Grouped, Meets, SameFilters, Memo, Valid;
      Start();
      var i := 0;
      var es := events[argc];
      assert es[..0] == [];
      while i < |es|
        invariant Valid() && Memo() && SameFilters(cmps, old(cmps)) && 0 <= i <= |es| && es == events[argc]
        invariant fired == old(fired) + Fired(es[..i], old(cmps), args)
      {
        assert es[..i + 1][..i] == es[..i];
        if es[i].active {
          MeetsSame(es[i], cmps, old(cmps), args);
          GroupedAt(argc, i);
          ghost var was := cmps;
          var valid := Check(es[i]);
          SameTrans(cmps, was, old(cmps));
          if valid { fired := fired + [es[i].func]; }
        }
        i := i + 1;
      }
      assert es[..i] == es;
      Start();
    }

    lemma Start()
      requires Valid() && Memo()
      ensures argc < |events| && SameFilters(cmps, cmps) && Distinct(evaluated)
    {
    }

    lemma GroupedAt(t: nat, i: nat)
      requires Valid() && t < |events| && i < |events[t]|
      ensures Grouped(events[t][i], cmps)
    {
    }

    /** One log line. */
    method Line(parsed: seq<string>)
      requires Valid() && |parsed| <= MAX_LOGARGS
      modifies this
      ensures Valid() && SameFilters(cmps, old(cmps)) && events == old(events) && args == parsed + old(args)[|parsed|..]
      ensures fired == old(fired) + Fired(events[|parsed|], old(cmps), args) && Distinct(evaluated)
    {
      SetLogString();
      ParseLogString(parsed);
      ExecuteLogEvents();
    }
  }

  lemma SameTrans(a: seq<Cmp>, b: seq<Cmp>, c: seq<Cmp>)
    requires SameFilters(a, b) && SameFilters(b, c)
    ensures SameFilters(a, c)
  {
  }

  method AddCond(filters: seq<LogCond>, argnum: int, cmp: nat) returns (r: seq<LogCond>)
    ensures r == WithCond(filters, argnum, cmp, 0)
  {
    var k := 0;
    while k < |filters|
      invariant 0 <= k <= |filters| && WithCond(filters, argnum, cmp, k) == WithCond(filters, argnum, cmp, 0)
    {
      if filters[k].argnum == argnum { return filters[k := LogCond(argnum, [cmp] + filters[k].list)]; }
      k := k + 1;
    }
    r := [LogCond(argnum, [cmp])] + filters;
  }

  lemma GroupedCond(e: LogEvent, cmps: seq<Cmp>, j: nat)
    requires Grouped(e, cmps) && j < |e.filters|
    ensures GoodCond(e.filters[j], cmps)
  {
  }

  lemma FilterKept(e: LogEvent, a: seq<Cmp>, b: seq<Cmp>, f: Filter)
    requires Grouped(e, a) && a <= b
    ensures HasFilter(e, a, f) <==> HasFilter(e, b, f)
  {
    forall j, k: nat | 0 <= j < |e.filters| ensures Occurs(e.filters[j], a, f, k) == Occurs(e.filters[j], b, f, k) {
      assert GoodCond(e.filters[j], a);
    }
  }

  /** The groups only depend on the filters of the conditions. */
  lemma RegroupAll(events: seq<seq<LogEvent>>, a: seq<Cmp>, b: seq<Cmp>)
    requires |a| <= |b| && forall i :: 0 <= i < |a| ==> a[i].filter == b[i].filter
    ensures forall t, i :: 0 <= t < |events| && 0 <= i < |events[t]| && Grouped(events[t][i], a) ==>
      Grouped(events[t][i], b)
  {
  }
}
