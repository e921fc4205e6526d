/** The command lists: sorted insertion, and lookup by number through a cached cursor. */
module Commands {
  import opened Wrappers
  import opened Strings

  /** `uid` is the negative number a command is known by for good. */
  datatype Command = Command(command: string, argument: string, flags: bv32, func: int, listable: bool, uid: int)

  // ---------------------------------------------------------------- order

  /** The test that ends the search for a place: by command, then by argument. */
  predicate Before(c: Command, d: Command) {
    var i := StrCmp(c.command, d.command);
    i < 0 || (i == 0 && StrCmp(c.argument, d.argument) < 0)
  }

  lemma BeforeTotal(a: Command, b: Command)
    ensures !(Before(a, b) && Before(b, a))
  {
    StrCmpOrder(a.command, b.command);
    StrCmpOrder(a.argument, b.argument);
  }

  lemma NotBeforeTrans(a: Command, b: Command, c: Command)
    requires !Before(b, a) && !Before(c, b)
    ensures !Before(c, a)
    ensures Before(a, b) || Before(b, c) ==> Before(a, c)
  {
    hide StrCmp;
    StrCmpOrder(a.command, b.command);
    StrCmpOrder(b.command, c.command);
    StrCmpOrder(a.command, c.command);
    StrCmpOrder(a.argument, b.argument);
    StrCmpOrder(b.argument, c.argument);
    StrCmpOrder(a.argument, c.argument);
    StrCmpTrans(a.command, b.command, c.command);
    if a.command == b.command == c.command { StrCmpTrans(a.argument, b.argument, c.argument); }
  }

  predicate Sorted(list: seq<Command>) { forall i, j :: 0 <= i < j < |list| ==> !Before(list[j], list[i]) }

  /** The place of a new command: behind everything not after it. */
  predicate Place(list: seq<Command>, c: Command, k: nat) {
    && k <= |list|
    && (forall i :: 0 <= i < k ==> !Before(c, list[i]))
    && (forall i :: k <= i < |list| ==> Before(c, list[i]))
  }

  function Inserted(list: seq<Command>, c: Command, k: nat): (r: seq<Command>)
    requires k <= |list|
    ensures |r| == |list| + 1 && r[k] == c
  {
    list[..k] + [c] + list[k..]
  }

  lemma InsertedAt(list: seq<Command>, c: Command, k: nat, i: nat)
    requires k <= |list| && i < |list|
    ensures Inserted(list, c, k)[if i < k then i else i + 1] == list[i]
  {
  }

  lemma PlaceSorted(list: seq<Command>, c: Command, k: nat)
    requires Sorted(list) && Place(list, c, k)
    ensures Sorted(Inserted(list, c, k))
  {
    hide Before;
    var r := Inserted(list, c, k);
    forall i, j | 0 <= i < j < |r| ensures !Before(r[j], r[i]) {
      if i == k { BeforeTotal(c, r[j]); }
    }
  }

  // ---------------------------------------------------------------- what a number means

  /** Access to the command, an executable plugin function, and a listed command. */
  predicate Qualifies(c: Command, access: bv32, running: set<int>) {
    (c.flags == 0 || c.flags & access != 0) && c.func in running && c.listable
  }

  function CountBefore(list: seq<Command>, access: bv32, running: set<int>, n: nat): nat
    requires n <= |list|
  {
    if n == 0 then 0
    else CountBefore(list, access, running, n - 1) + if Qualifies(list[n - 1], access, running) then 1 else 0
  }

  lemma CountZero(list: seq<Command>, access: bv32, running: set<int>)
    ensures CountBefore(list, access, running, 0) == 0
  {
  }

  lemma CountStep(list: seq<Command>, access: bv32, running: set<int>, n: nat)
    requires n < |list|
    ensures CountBefore(list, access, running, n + 1) ==
      CountBefore(list, access, running, n) + if Qualifies(list[n], access, running) then 1 else 0
  {
  }

  lemma {:induction false} CountMonotone(list: seq<Command>, access: bv32, running: set<int>, a: nat, b: nat)
    requires a <= b <= |list|
    ensures CountBefore(list, access, running, a) <= CountBefore(list, access, running, b)
    ensures a < b && Qualifies(list[a], access, running) ==>
      CountBefore(list, access, running, a) < CountBefore(list, access, running, b)
    decreases b
  {
    if a < b { CountMonotone(list, access, running, a, b - 1); }
  }

  /** Index k is the id-th command that qualifies; |list| stands for there being none. */
  predicate IsNth(list: seq<Command>, access: bv32, running: set<int>, id: int, k: nat) {
    && k <= |list|
    && if k < |list| then Qualifies(list[k], access, running) && CountBefore(list, access, running, k) == id
       else CountBefore(list, access, running, |list|) <= id
  }

  /** A number names at most one place. */
  lemma NthUnique(list: seq<Command>, access: bv32, running: set<int>, id: int, a: nat, b: nat)
    requires IsNth(list, access, running, id, a) && IsNth(list, access, running, id, b)
    ensures a == b
  {
    hide Qualifies;
    if a < b { CountMonotone(list, access, running, a, b); }
    if b < a { CountMonotone(list, access, running, b, a); }
  }

  lemma {:induction false} CountShift(list: seq<Command>, c: Command, k: nat, access: bv32, running: set<int>, n: nat)
    requires k <= |list| && n <= |list|
    ensures var r := Inserted(list, c, k); var one := if Qualifies(c, access, running) then 1 else 0;
      && (n <= k ==> CountBefore(r, access, running, n) == CountBefore(list, access, running, n))
      && (n >= k ==> CountBefore(r, access, running, n + 1) == CountBefore(list, access, running, n) + one)
    decreases n
  {
    hide Qualifies;
    if n > 0 { CountShift(list, c, k, access, running, n - 1); }
  }

  // ---------------------------------------------------------------- the cursor

  /** buf_cmdptr as an index, |list| for null, with the number, list and access it stands for. */
  datatype Cursor = Cursor(at: nat, id: int, typ: int, access: bv32)

  const NO_CURSOR := Cursor(0, -1, -1, 0)

  predicate CursorTrue(lists: seq<seq<Command>>, running: set<int>, cur: Cursor) {
    cur.typ != -1 ==> 0 <= cur.typ < |lists| && IsNth(lists[cur.typ], cur.access, running, cur.id, cur.at)
  }

  /** A command linked in at k while the cursor waits: the cursor stays with its node. */
  function Moved(cur: Cursor, k: nat): Cursor { if k <= cur.at then cur.(at := cur.at + 1) else cur }

  /** The cursor survives an insertion into its list exactly when the new command does not qualify for it, or comes
      behind it, or the cursor has run off the end and was asked for a number that still does not exist. */
  lemma InsertExactly(list: seq<Command>, running: set<int>, cur: Cursor, c: Command, k: nat)
    requires k <= |list| && IsNth(list, cur.access, running, cur.id, cur.at)
    ensures IsNth(Inserted(list, c, k), cur.access, running, cur.id, Moved(cur, k).at) <==>
      !Qualifies(c, cur.access, running) || k > cur.at ||
      (cur.at == |list| && CountBefore(list, cur.access, running, |list|) < cur.id)
  {
    hide Qualifies, CountBefore, Inserted;
    CountShift(list, c, k, cur.access, running, cur.at);
    if cur.at < |list| { InsertedAt(list, c, k, cur.at); }
  }

  class CmdMngr {
    var lists: seq<seq<Command>>
    var running: set<int>
    var cursor: Cursor

    ghost predicate Valid()
      reads this
    {
      |lists| == 3 && (forall t :: 0 <= t < 3 ==> Sorted(lists[t])) && CursorTrue(lists, running, cursor)
    }

    constructor ()
      ensures Valid() && lists == [[], [], []]
    {
      lists, cursor, running := [[], [], []], NO_CURSOR, {};
    }

    method ClearBufforedInfo()
      modifies this`cursor
      ensures cursor == NO_CURSOR && CursorTrue(lists, running, cursor)
    {
      cursor := NO_CURSOR;
    }

    /** Linking keeps the list in order, the new command behind its equals, and every other command where it was. */
    method SetCmdLink(t: nat, c: Command) returns (ghost k: nat)
      requires t < |lists| && Sorted(lists[t])
      modifies this`lists, this`cursor
      ensures Place(old(lists[t]), c, k) && lists == old(lists)[t := Inserted(old(lists[t]), c, k)] && Sorted(lists[t])
      ensures cursor == if old(cursor).typ == t then Moved(old(cursor), k) else old(cursor)
    {
      var list := lists[t];
      var i := 0;
      while i < |list|
        invariant 0 <= i <= |list| && lists == old(lists) && cursor == old(cursor)
        invariant forall j :: 0 <= j < i ==> !Before(c, list[j])
      {
        if Before(c, list[i]) { break; }
        i := i + 1;
      }
      forall j | i <= j < |list| ensures Before(c, list[j]) {
        BeforeTotal(c, list[i]);
        if i < j { NotBeforeTrans(c, list[i], list[j]); }
      }
      k := i;
      PlaceSorted(list, c, i);
      lists := lists[t := list[..i] + [c] + list[i..]];
      if cursor.typ == t { cursor := Moved(cursor, i); }
    }

    /** A negative number finds the command known by it.  For any other, whatever was asked before, the answer is the
        id-th command that qualifies. */
    method GetCmd(id: int, typ: nat, access: bv32) returns (r: Option<Command>)
      requires Valid() && typ < 3
      modifies this`cursor
      ensures Valid()
      ensures id >= 0 ==> exists k: nat ::
        IsNth(lists[typ], access, running, id, k) && r == if k < |lists[typ]| then Some(lists[typ][k]) else None
      ensures id < 0 ==> cursor == old(cursor) && if r.Some? then r.value in lists[typ] && r.value.uid == id
                         else forall c :: c in lists[typ] ==> c.uid != id
    {
      if id < 0 {
        r := GetCmdByUid(id, typ);
      } else {
        r := GetCmdByNumber(id, typ, access);
      }
    }

    method GetCmdByUid(id: int, typ: nat) returns (r: Option<Command>)
      requires typ < |lists|
      ensures if r.Some? then r.value in lists[typ] && r.value.uid == id
        else forall c :: c in lists[typ] ==> c.uid != id
    {
      var a := 0;
      while a < |lists[typ]|
        invariant 0 <= a <= |lists[typ]| && forall j :: 0 <= j < a ==> lists[typ][j].uid != id
      {
        if lists[typ][a].uid == id { return Some(lists[typ][a]); }
        a := a + 1;
      }
      return None;
    }

    method GetCmdByNumber(id: nat, typ: nat, access: bv32) returns (r: Option<Command>)
      requires Valid() && typ < 3
      modifies this`cursor
      ensures Valid()
      ensures exists k: nat ::
        IsNth(lists[typ], access, running, id, k) && r == if k < |lists[typ]| then Some(lists[typ][k]) else None
    {
      hide Qualifies, Sorted, CountBefore;
      var left := id;
      if id < cursor.id || access != cursor.access || typ != cursor.typ {
        cursor := Cursor(0, id, typ, access);
      } else {
        left := id - cursor.id;
        cursor := cursor.(id := id);
      }
      var list := lists[typ];
      CountZero(list, access, running);
      assert old(cursor).typ == typ ==> CursorTrue(lists, running, old(cursor));
      while cursor.at < |list|
        invariant cursor.at <= |list| && cursor == Cursor(cursor.at, id, typ, access) && left >= 0
        invariant CountBefore(list, access, running, cursor.at) <= id
        invariant cursor.at < |list| ==> CountBefore(list, access, running, cursor.at) + left == id
        decreases |list| - cursor.at
      {
        CountStep(list, access, running, cursor.at);
        if Qualifies(list[cursor.at], access, running) {
          if left == 0 {
            assert IsNth(list, access, running, id, cursor.at);
            return Some(list[cursor.at]);
          }
          left := left - 1;
        }
        cursor := cursor.(at := cursor.at + 1);
      }
      assert IsNth(list, access, running, id, |list|);
      r := None;
    }

    method GetCmdNum(typ: nat, access: bv32) returns (num: nat)
      requires typ < |lists|
      ensures num == CountBefore(lists[typ], access, running, |lists[typ]|)
    {
      num := 0;
      var a := 0;
      while a < |lists[typ]|
        invariant 0 <= a <= |lists[typ]| && num == CountBefore(lists[typ], access, running, a)
      {
        if Qualifies(lists[typ][a], access, running) { num := num + 1; }
        a := a + 1;
      }
    }

    /** A number has a command exactly when it is below the count. */
    method Listed(id: nat, typ: nat, access: bv32) returns (r: Option<Command>, num: nat)
      requires Valid() && typ < 3
      modifies this`cursor
      ensures Valid() && (r.Some? <==> id < num)
    {
      r := GetCmd(id, typ, access);
      num := GetCmdNum(typ, access);
      ghost var list := lists[typ];
      ghost var k: nat :| IsNth(list, access, running, id, k) && r == if k < |list| then Some(list[k]) else None;
      if k < |list| { CountMonotone(list, access, running, k, |list|); }
    }
  }
}
