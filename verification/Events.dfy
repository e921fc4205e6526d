/** Message events: filters applied value by value while a message streams in, against the meaning they have on
    the whole message. */
module Events {
  import opened Wrappers
  import opened Strings

  /** One message parameter. */
  datatype Value = Int(i: bv32) | Float(f: real) | Str(s: string)

  /** A filter: parameter number, operator and operand in its three readings. */
  datatype Cond = Cond(param: int, op: char, s: string, f: real, i: bv32)

  datatype Flags = Flags(world: bool, client: bool, once: bool, alive: bool, dead: bool, player: bool, bot: bool)

  datatype Event = Event(func: int, flags: Flags, conds: seq<Cond>, active: bool, stamp: real, done: bool)

  /** Whom a message goes to; nobody in particular for world messages. */
  datatype Player = Player(isBot: bool, isAlive: bool)
  datatype Context = Context(player: Option<Player>, timer: real, running: set<int>)

  // ---------------------------------------------------------------- one condition

  /** Signed comparison of 32-bit integers. */
  predicate Below(a: bv32, b: bv32) { a ^ 0x8000_0000 < b ^ 0x8000_0000 }

  predicate Matches(c: Cond, v: Value) {
    match v
    case Int(i) => (c.op == '=' && c.i == i) || (c.op == '!' && c.i != i) || (c.op == '&' && i & c.i != 0)
        || (c.op == '<' && Below(i, c.i)) || (c.op == '>' && Below(c.i, i))
    case Float(f) => (c.op == '=' && c.f == f) || (c.op == '!' && c.f != f) || (c.op == '<' && f < c.f)
      || (c.op == '>' && f > c.f)
    case Str(s) => (c.op == '=' && s == c.s) || (c.op == '!' && s != c.s) || (c.op == '&' && Contains(s, c.s))
  }

  // ---------------------------------------------------------------- the meaning of filters

  predicate Conditioned(e: Event, p: int) { exists k :: 0 <= k < |e.conds| && e.conds[k].param == p }

  predicate Satisfied(e: Event, p: int, v: Value) {
    exists k :: 0 <= k < |e.conds| && e.conds[k].param == p && Matches(e.conds[k], v)
  }

  predicate Admitted(e: Event, c: Context) {
    && e.func in c.running
    && (match c.player
        case Some(p) => e.flags.client && (if p.isBot then e.flags.bot else e.flags.player)
          && (if p.isAlive then e.flags.alive else e.flags.dead)
        case None => e.flags.world)
    && !(e.flags.once && e.stamp == c.timer)
  }

  /** The batch reading: the flags admit the event, and every parameter that has conditions satisfies one. */
  predicate Passes(e: Event, c: Context, values: seq<Value>) {
    Admitted(e, c) && forall p {:trigger Conditioned(e, p)} :: 1 <= p <= |values| && Conditioned(e, p) ==>
      Satisfied(e, p, values[p - 1])
  }

  lemma PassesSnoc(e: Event, c: Context, values: seq<Value>, v: Value)
    ensures Passes(e, c, values + [v]) <==>
      Passes(e, c, values) && (Conditioned(e, |values| + 1) ==> Satisfied(e, |values| + 1, v))
  {
    hide Conditioned, Satisfied, Admitted;
  }

  /** A callback made: the function, the message's index, and the arguments it can read. */
  datatype Call = Call(func: int, index: Value, args: seq<Value>)

  /** The calls a message makes, in the order of registration. */
  function Calls(es: seq<Event>, c: Context, args: seq<Value>): seq<Call>
    requires args != []
  {
    if es == [] then []
    else
      var last := es[|es| - 1];
      Calls(es[..|es| - 1], c, args) +
      if Passes(last, c, args[1..]) && last.active then [Call(last.func, args[0], args)] else []
  }

  /** What a message leaves: the time in the events that passed, and every flag clear. */
  function After(e: Event, c: Context, values: seq<Value>): Event {
    if Passes(e, c, values) then e.(stamp := c.timer, done := false) else e.(done := false)
  }

  predicate AllClear(es: seq<Event>) { forall i :: 0 <= i < |es| ==> !es[i].done }

  // ---------------------------------------------------------------- the manager

  class EventsMngr {
    var events: seq<seq<Event>>
    var parseFun: int
    var parseNotDone: bool
    var parsePos: nat
    var parseVault: array<Value>
    var readVault: seq<Value>
    var calls: seq<Call>

    ghost predicate Idle()
      reads this
    {
      parseFun == -1 && forall t :: 0 <= t < |events| ==> AllClear(events[t])
    }

    /** In the middle of message t, with these arguments parsed. */
    ghost predicate Parsing(t: nat, es: seq<Event>, c: Context, args: seq<Value>)
      reads this, parseVault
    {
      && t < |events| && parseFun == t && args != [] && |events[t]| == |es|
      && (forall i :: 0 <= i < |es| ==> events[t][i] == es[i].(done := !Passes(es[i], c, args[1..])))
      && (parseNotDone ==> parsePos == |args| - 1 < parseVault.Length && parseVault[..parsePos + 1] == args)
      && (!parseNotDone ==> forall i :: 0 <= i < |es| ==> !Admitted(es[i], c))
    }

    constructor (types: nat)
      ensures Idle() && |events| == types && fresh(parseVault)
    {
      events := seq(types, _ => []);
      parseFun, parseNotDone, parsePos := -1, false, 0;
      parseVault := new Value[0];
      readVault, calls := [], [];
    }

    /** Room for the current position; what was parsed before it stays. */
    method NextParam()
      modifies this`parseVault
      ensures parseVault == old(parseVault) || fresh(parseVault)
      ensures parseVault.Length >= old(parseVault).Length && parseVault[..old(parseVault.Length)] == old(parseVault[..])
      ensures parsePos <= old(parseVault.Length) ==> parsePos < parseVault.Length
    {
      assert parseVault[..parseVault.Length] == parseVault[..];
      if parsePos < parseVault.Length { return; }
      var size := if parseVault.Length > 0 then parseVault.Length * 2 else 32;
      var vault := new Value[size];
      var i := 0;
      while i < parseVault.Length
        invariant 0 <= i <= parseVault.Length <= size && vault[..i] == parseVault[..i]
        invariant parseVault == old(parseVault) && fresh(vault)
      {
        vault[i] := parseVault[i];
        i := i + 1;
      }
      assert vault[..i] == parseVault[..];
      parseVault := vault;
    }

    method ParserInit(t: nat, c: Context, index: bv32)
      requires t < |events| && Idle()
      modifies this`events, this`parseFun, this`parseNotDone, this`parsePos, this`parseVault, parseVault
      ensures |events| == |old(events)| && forall k :: 0 <= k < |events| && k != t ==> events[k] == old(events)[k]
      ensures parseVault == old(parseVault) || fresh(parseVault)
      ensures if old(events)[t] == [] then Idle() && events == old(events)
        else Parsing(t, old(events)[t], c, [Int(index)])
    {
      parseNotDone := false;
      if events[t] == [] { return; }
      ghost var es := events[t];
      assert AllClear(es);
      var i := 0;
      while i < |events[t]|
        invariant |events| == |old(events)| && |events[t]| == |es| && 0 <= i <= |es|
        invariant forall k :: 0 <= k < |events| && k != t ==> events[k] == old(events)[k]
        invariant forall k :: 0 <= k < i ==> events[t][k] == es[k].(done := !Admitted(es[k], c))
        invariant forall k :: i <= k < |es| ==> events[t][k] == es[k]
        invariant !parseNotDone ==> forall k :: 0 <= k < i ==> !Admitted(es[k], c)
        invariant parseFun == -1 && parseVault == old(parseVault)
      {
        var event := events[t][i];
        if !event.done {
          if event.func !in c.running {
            event := event.(done := true);
          } else if c.player.Some? && (!event.flags.client
              || (if c.player.value.isBot then !event.flags.bot else !event.flags.player)
              || (if c.player.value.isAlive then !event.flags.alive else !event.flags.dead)) {
            event := event.(done := true);
          } else if c.player.None? && !event.flags.world {
            event := event.(done := true);
          } else if event.flags.once && event.stamp == c.timer {
            event := event.(done := true);
          } else {
            parseNotDone := true;
          }
        }
        events := events[t := events[t][i := event]];
        i := i + 1;
      }
      if parseNotDone {
        parsePos := 0;
        NextParam();
        parseVault[0] := Int(index);
      }
      parseFun := t;
      NothingParsed(es, c, Int(index));
      assert parseNotDone ==> parseVault[..1] == [Int(index)];
    }

    /** One more value: an event goes on only if no condition on this parameter speaks, or one holds. */
    method ParseValue(v: Value, ghost t: nat, ghost es: seq<Event>, ghost c: Context, ghost args: seq<Value>)
      requires Parsing(t, es, c, args)
      modifies this`events, this`parsePos, this`parseVault, parseVault
      ensures Parsing(t, es, c, args + [v])
      ensures |events| == |old(events)| && forall k :: 0 <= k < |events| && k != t ==> events[k] == old(events)[k]
      ensures parseVault == old(parseVault) || fresh(parseVault)
    {
      hide Admitted, Passes, Conditioned, Satisfied;
      assert (args + [v])[1..] == args[1..] + [v];
      if !parseNotDone || parseFun == -1 {
        NotAdmitted(es, c, args[1..]);
        NotAdmitted(es, c, args[1..] + [v]);
        return;
      }
      parsePos := parsePos + 1;
      NextParam();
      parseVault[parsePos] := v;
      assert parseVault[..parsePos + 1] == args + [v];
      var filtered := Filter(events[parseFun], parsePos, v);
      FilterPasses(es, events[parseFun], filtered, c, args[1..], v);
      events := events[parseFun := filtered];
    }

    /** The calls of executeEvents; callbacks start no message of their own. */
    method ExecuteEvents(timer: real, ghost t: nat, ghost es: seq<Event>, ghost c: Context, ghost args: seq<Value>)
      requires Parsing(t, es, c, args) && timer == c.timer
      modifies this`events, this`parseFun, this`readVault, this`calls
      ensures |events| == |old(events)| && forall k :: 0 <= k < |events| && k != t ==> events[k] == old(events)[k]
      ensures |events[t]| == |es| && forall i :: 0 <= i < |es| ==> events[t][i] == After(es[i], c, args[1..])
      ensures calls == old(calls) + Calls(es, c, args)
      ensures parseFun == -1 && readVault == old(readVault)
    {
      hide Passes, Admitted, Calls, After;
      var oldReadVault := readVault;
      if parseNotDone { readVault := parseVault[..parsePos + 1]; }
      var fun := parseFun;
      parseFun := -1;
      NotAdmitted(es, c, args[1..]);
      var left, made := Fire(events[fun], timer, readVault, es, c, args);
      events := events[fun := left];
      calls := calls + made;
      readVault := oldReadVault;
    }

    /** A whole message that starts no other: exactly the active events that pass are called, in order, with all the
        arguments; the events that passed are stamped; and the next message can come. */
    method Message(t: nat, c: Context, index: bv32, values: seq<Value>)
      requires t < |events| && Idle()
      modifies this, parseVault
      ensures calls == old(calls) + Calls(old(events)[t], c, [Int(index)] + values)
      ensures |events| == |old(events)| && forall k :: 0 <= k < |events| && k != t ==> events[k] == old(events)[k]
      ensures |events[t]| == |old(events)[t]| &&
        forall i :: 0 <= i < |events[t]| ==> events[t][i] == After(old(events)[t][i], c, values)
      ensures Idle() && readVault == old(readVault) && (parseVault == old(parseVault) || fresh(parseVault))
    {
      hide Admitted, Passes, Conditioned, Satisfied;
      var es := events[t];
      ghost var args := [Int(index)];
      ParserInit(t, c, index);
      if es == [] {  // the other steps find nothing to do
        assert old(events)[t] == [];
        return;
      }
      var k := 0;
      while k < |values|
        invariant 0 <= k <= |values| && args == [Int(index)] + values[..k] && Parsing(t, es, c, args)
        invariant |events| == |old(events)| && forall j :: 0 <= j < |events| && j != t ==> events[j] == old(events)[j]
        invariant calls == old(calls) && readVault == old(readVault)
        invariant parseVault == old(parseVault) || fresh(parseVault)
      {
        ParseValue(values[k], t, es, c, args);
        args := args + [values[k]];
        k := k + 1;
      }
      assert args[1..] == values;
      ExecuteEvents(c.timer, t, es, c, args);
    }

    /** Any messages, one after the other. */
    method Messages(ms: seq<Received>)
      requires Idle() && forall k :: 0 <= k < |ms| ==> ms[k].t < |events|
      modifies this, parseVault
      ensures events == AfterAll(old(events), ms) && calls == old(calls) + CallsAll(old(events), ms)
      ensures Idle() && readVault == old(readVault)
    {
      hide Calls, After;
      ghost var made: seq<Call> := [];
      var k := 0;
      while k < |ms|
        invariant 0 <= k <= |ms| && Idle() && readVault == old(readVault) && |events| == |old(events)|
        invariant parseVault == old(parseVault) || fresh(parseVault)
        invariant calls == old(calls) + made && made + CallsAll(events, ms[k..]) == CallsAll(old(events), ms)
        invariant AfterAll(events, ms[k..]) == AfterAll(old(events), ms)
      {
        var m := ms[k];
        assert ms[k..][0] == m && ms[k..][1..] == ms[k + 1..];
        ghost var before := events;
        Message(m.t, m.c, m.index, m.values);
        OneMessage(before, events, m);
        made := made + CallsOne(before, m);
        k := k + 1;
      }
    }
  }

  /** A message: its type, what surrounds it, its index and its values. */
  datatype Received = Received(t: nat, c: Context, index: bv32, values: seq<Value>)

  function CallsOne(events: seq<seq<Event>>, m: Received): seq<Call>
    requires m.t < |events|
  {
    Calls(events[m.t], m.c, [Int(m.index)] + m.values)
  }

  function AfterOne(events: seq<seq<Event>>, m: Received): (r: seq<seq<Event>>)
    requires m.t < |events|
    ensures |r| == |events|
  {
    events[m.t := seq(|events[m.t]|, i requires 0 <= i < |events[m.t]| => After(events[m.t][i], m.c, m.values))]
  }

  /** What the messages call in all: each finds the events as those before it left them. */
  function CallsAll(events: seq<seq<Event>>, ms: seq<Received>): seq<Call>
    requires forall k :: 0 <= k < |ms| ==> ms[k].t < |events|
    decreases |ms|
  {
    if ms == [] then [] else CallsOne(events, ms[0]) + CallsAll(AfterOne(events, ms[0]), ms[1..])
  }

  function AfterAll(events: seq<seq<Event>>, ms: seq<Received>): seq<seq<Event>>
    requires forall k :: 0 <= k < |ms| ==> ms[k].t < |events|
    decreases |ms|
  {
    if ms == [] then events else AfterAll(AfterOne(events, ms[0]), ms[1..])
  }

  lemma OneMessage(before: seq<seq<Event>>, after: seq<seq<Event>>, m: Received)
    requires m.t < |before| == |after| && |after[m.t]| == |before[m.t]|
    requires forall k :: 0 <= k < |before| && k != m.t ==> after[k] == before[k]
    requires forall i :: 0 <= i < |before[m.t]| ==> after[m.t][i] == After(before[m.t][i], m.c, m.values)
    ensures after == AfterOne(before, m)
  {
    hide After;
    var list := AfterOne(before, m)[m.t];
    assert list == after[m.t];
  }

  /** Messages only ever change the stamps of events ... */
  lemma {:induction false} StampsOnly(events: seq<seq<Event>>, ms: seq<Received>, t: nat, i: nat)
    requires forall k :: 0 <= k < |ms| ==> ms[k].t < |events|
    requires t < |events| && i < |events[t]| && !events[t][i].done
    ensures var r := AfterAll(events, ms);
      |r| == |events| && i < |r[t]| && r[t][i] == events[t][i].(stamp := r[t][i].stamp)
    decreases |ms|
  {
    hide Passes;
    if ms != [] { StampsOnly(AfterOne(events, ms[0]), ms[1..], t, i); }
  }

  /** ... so an event that is not for once only is called for a message whatever messages came before. */
  lemma AnyTime(events: seq<seq<Event>>, ms: seq<Received>, t: nat, i: nat, c: Context, values: seq<Value>)
    requires forall k :: 0 <= k < |ms| ==> ms[k].t < |events|
    requires t < |events| && i < |events[t]| && !events[t][i].done && !events[t][i].flags.once
    ensures var r := AfterAll(events, ms);
      && |r| == |events| && i < |r[t]|
      && (Passes(r[t][i], c, values) <==> Passes(events[t][i], c, values))
  {
    hide AfterAll, Satisfied;
    StampsOnly(events, ms, t, i);
    var e, e' := events[t][i], AfterAll(events, ms)[t][i];
    assert forall p {:trigger Conditioned(e, p)} {:trigger Conditioned(e', p)} ::
      Conditioned(e, p) <==> Conditioned(e', p);
    forall p, v ensures Satisfied(e, p, v) <==> Satisfied(e', p, v) { SameSatisfied(e, e', p, v); }
  }

  lemma SameSatisfied(e: Event, e': Event, p: int, v: Value)
    requires e.conds == e'.conds
    ensures Satisfied(e, p, v) <==> Satisfied(e', p, v)
  {
  }

  /** The inner loop of parseValue. */
  method Test(e: Event, p: int, v: Value) returns (execute: bool, any: bool)
    ensures execute <==> Satisfied(e, p, v)
    ensures !execute ==> (any <==> Conditioned(e, p))
  {
    execute, any := false, false;
    var k := 0;
    while k < |e.conds|
      invariant 0 <= k <= |e.conds| && !execute
      invariant any <==> exists j :: 0 <= j < k && e.conds[j].param == p
      invariant forall j :: 0 <= j < k && e.conds[j].param == p ==> !Matches(e.conds[j], v)
    {
      if e.conds[k].param == p {
        any := true;
        if Matches(e.conds[k], v) { execute := true; break; }
      }
      k := k + 1;
    }
  }

  /** The loop of parseValue over the events. */
  method Filter(list: seq<Event>, p: int, v: Value) returns (r: seq<Event>)
    ensures |r| == |list|
    ensures forall k :: 0 <= k < |list| ==>
      r[k] == list[k].(done := list[k].done || (Conditioned(list[k], p) && !Satisfied(list[k], p, v)))
  {
    hide Conditioned, Satisfied;
    r := list;
    var i := 0;
    while i < |r|
      invariant 0 <= i <= |r| == |list| && r[i..] == list[i..]
      invariant forall k :: 0 <= k < i ==>
        r[k] == list[k].(done := list[k].done || (Conditioned(list[k], p) && !Satisfied(list[k], p, v)))
    {
      assert r[i] == list[i] by { assert r[i..][0] == list[i..][0]; }
      if !r[i].done {
        var execute, any := Test(r[i], p, v);
        if any && !execute { r := r[i := r[i].(done := true)]; }
      }
      i := i + 1;
    }
  }

  lemma FilterPasses(es: seq<Event>, list: seq<Event>, r: seq<Event>, c: Context, values: seq<Value>, v: Value)
    requires |es| == |list| == |r| && forall i :: 0 <= i < |es| ==> list[i] == es[i].(done := !Passes(es[i], c, values))
    requires forall i {:trigger r[i]} :: 0 <= i < |es| ==>
      r[i] == list[i].(done :=
        list[i].done || (Conditioned(list[i], |values| + 1) && !Satisfied(list[i], |values| + 1, v)))
    ensures forall i :: 0 <= i < |es| ==> r[i] == es[i].(done := !Passes(es[i], c, values + [v]))
  {
    hide Conditioned, Satisfied, Passes;
    forall i | 0 <= i < |es| ensures r[i] == es[i].(done := !Passes(es[i], c, values + [v])) {
      PassesSnoc(es[i], c, values, v);
      SameConds(es[i], list[i], |values| + 1, v);
    }
  }

  /** The loop of executeEvents: what the events become, and the calls made. */
  method Fire(list: seq<Event>, timer: real, readVault: seq<Value>, ghost es: seq<Event>, ghost c: Context,
              ghost args: seq<Value>)
    returns (r: seq<Event>, made: seq<Call>)
    requires |list| == |es| && args != [] && timer == c.timer
    requires forall i :: 0 <= i < |es| ==> list[i] == es[i].(done := !Passes(es[i], c, args[1..]))
    requires readVault == args || forall i :: 0 <= i < |es| ==> !Passes(es[i], c, args[1..])
    ensures |r| == |es| && forall i :: 0 <= i < |es| ==> r[i] == After(es[i], c, args[1..])
    ensures made == Calls(es, c, args)
  {
    hide Passes;
    r, made := list, [];
    var i := 0;
    assert es[..0] == [];
    while i < |r|
      invariant 0 <= i <= |r| == |es| && made == Calls(es[..i], c, args)
      invariant forall k :: 0 <= k < i ==> r[k] == After(es[k], c, args[1..])
      invariant forall k :: i <= k < |es| ==> r[k] == list[k]
    {
      assert es[..i + 1][..i] == es[..i];
      if r[i].done {
        r := r[i := r[i].(done := false)];
      } else {
        r := r[i := r[i].(stamp := timer)];
        if r[i].active { made := made + [Call(r[i].func, readVault[0], readVault)]; }
      }
      i := i + 1;
    }
    assert es[..i] == es;
  }

  lemma SameConds(a: Event, b: Event, p: int, v: Value)
    requires a.conds == b.conds
    ensures Conditioned(a, p) == Conditioned(b, p) && Satisfied(a, p, v) == Satisfied(b, p, v)
    ensures Satisfied(a, p, v) ==> Conditioned(a, p)
  {
  }

  lemma NothingParsed(es: seq<Event>, c: Context, index: Value)
    ensures forall i :: 0 <= i < |es| ==> Passes(es[i], c, [index][1..]) == Admitted(es[i], c)
  {
  }

  lemma NotAdmitted(es: seq<Event>, c: Context, values: seq<Value>)
    ensures forall i :: 0 <= i < |es| && !Admitted(es[i], c) ==> !Passes(es[i], c, values)
  {
  }
}
