/** The lock list of the SSH protocol (locking/ssh.go). */
module LockList {
  import opened Options
  import opened Locks
  import opened Text

  datatype Entry = Entry(lock: Lock, who: string)

  const LOCK := "lock"
  const PATH := "path"
  const OWNER := "owner"
  const OWNERNAME := "ownername"
  const LOCKED_AT := "locked-at"
  const OURS := "ours"
  const THEIRS := "theirs"
  const CURSOR := "next-cursor="

  // ---------------------------------------------------------------- parsing

  /** strings.SplitN(s, " ", 3). */
  function Fields(s: string): seq<string> {
    match Cut(s, ' ')
    case None => [s]
    case Some(first) =>
      match Cut(first.1, ' ')
      case None => [first.0, first.1]
      case Some(second) => [first.0, second.0, second.1]
  }

  /** The locks so far, and which of them the current lines describe. */
  datatype Parsing = Parsing(locks: map<string, Entry>, last: Option<string>)

  const NOTHING := Parsing(map[], None)

  predicate Incomplete(e: Entry) { e.lock.path == "" || e.lock.owner.None? || e.lock.lockedAt == 0 }

  /** The current lock is missing something. */
  predicate Unfinished(p: Parsing) { p.last.Some? && p.last.value in p.locks && Incomplete(p.locks[p.last.value]) }

  function Blank(id: string): Entry { Entry(Lock(id, "", None, 0), "") }

  /** One detail of the current lock; unknown details are ignored. */
  function WithDetail(parse: string -> Option<nat>, e: Entry, cmd: string, value: string): Option<Entry> {
    if cmd == PATH then Some(e.(lock := e.lock.(path := value)))
    else if cmd == OWNER then Some(e.(who := value))
    else if cmd == OWNERNAME then Some(e.(lock := e.lock.(owner := Some(value))))
    else if cmd == LOCKED_AT then
      match parse(value)
      case None => None
      case Some(t) => Some(e.(lock := e.lock.(lockedAt := t)))
    else Some(e)
  }

  function ParseFields(parse: string -> Option<nat>, p: Parsing, values: seq<string>): Option<Parsing>
    requires values != []
  {
    if values[0] == LOCK then
      if |values| != 2 || Unfinished(p) then None
      else Some(Parsing(p.locks[values[1] := Blank(values[1])], Some(values[1])))
    else if |values| != 3 then None
    else if p.last != Some(values[1]) || values[1] !in p.locks then None
    else
      match WithDetail(parse, p.locks[values[1]], values[0], values[2])
      case None => None
      case Some(e) => Some(p.(locks := p.locks[values[1] := e]))
  }

  function ParseLines(parse: string -> Option<nat>, p: Parsing, lines: seq<string>): Option<Parsing>
    decreases |lines|
  {
    if lines == [] then (if Unfinished(p) then None else Some(p))
    else
      match ParseFields(parse, p, Fields(lines[0]))
      case None => None
      case Some(next) => ParseLines(parse, next, lines[1..])
  }

  /** The cursor argument; a second one after a non-empty one is an error. */
  function CursorOf(args: seq<string>, cursor: string): Option<string>
    decreases |args|
  {
    if args == [] then Some(cursor)
    else if CURSOR <= args[0] then
      if cursor != "" then None else CursorOf(args[1..], args[0][12..])
    else CursorOf(args[1..], cursor)
  }

  /** The three lists, each in any order. */
  datatype Lists = Lists(all: seq<Lock>, ours: seq<Lock>, theirs: seq<Lock>)

  predicate Distinct(s: seq<Lock>) { forall i, j :: 0 <= i < j < |s| ==> s[i] != s[j] }

  ghost predicate Named(m: map<string, Entry>) { forall k :: k in m ==> m[k].lock.id == k }

  predicate Holds(m: map<string, Entry>, who: Option<string>, l: Lock) {
    l.id in m && m[l.id].lock == l && (who.None? || m[l.id].who == who.value)
  }

  ghost predicate Listed(m: map<string, Entry>, keys: set<string>, s: seq<Lock>, who: Option<string>) {
    && Distinct(s)
    && (forall l :: l in s <==> l.id in keys && Holds(m, who, l))
  }

  ghost predicate ListsOf(m: map<string, Entry>, keys: set<string>, lists: Lists) {
    && Listed(m, keys, lists.all, None)
    && Listed(m, keys, lists.ours, Some(OURS))
    && Listed(m, keys, lists.theirs, Some(THEIRS))
  }

  lemma ListOneMore(m: map<string, Entry>, keys: set<string>, s: seq<Lock>, who: Option<string>, k: string)
    requires Named(m) && Listed(m, keys, s, who) && k in m && k !in keys
    ensures Listed(m, keys + {k}, if who.None? || m[k].who == who.value then s + [m[k].lock] else s, who)
  {
    var l := m[k].lock;
    assert l !in s;
    var now := if who.None? || m[k].who == who.value then s + [l] else s;
    forall x
      ensures x in now <==> x.id in keys + {k} && Holds(m, who, x)
    {
      assert x in s + [l] <==> x in s || x == l;
    }
  }

  /** The last loop, over the lock map in any order. */
  method Collect(m: map<string, Entry>) returns (lists: Lists)
    requires Named(m)
    ensures ListsOf(m, m.Keys, lists)
    ensures forall l :: l in lists.ours ==> l in lists.all && l !in lists.theirs
    ensures forall l :: l in lists.theirs ==> l in lists.all
  {
    hide Listed;
    lists := Lists([], [], []);
    var seen: set<string> := {};
    NoneListed(m);
    while m.Keys - seen != {}
      invariant seen <= m.Keys && ListsOf(m, seen, lists)
      decreases m.Keys - seen
    {
      var k :| k in m.Keys - seen;
      var l := m[k].lock;
      ListOneMore(m, seen, lists.all, None, k);
      ListOneMore(m, seen, lists.ours, Some(OURS), k);
      ListOneMore(m, seen, lists.theirs, Some(THEIRS), k);
      OursIsNotTheirs();
      lists := lists.(all := lists.all + [l]);
      if m[k].who == OURS {
        lists := lists.(ours := lists.ours + [l]);
      } else if m[k].who == THEIRS {
        lists := lists.(theirs := lists.theirs + [l]);
      }
      seen := seen + {k};
    }
    assert forall k :: k in m.Keys ==> k !in m.Keys - seen;
    assert seen == m.Keys;
    Apart(m, lists);
  }

  /** No lock is both ours and theirs, and both lists are part of all. */
  lemma Apart(m: map<string, Entry>, lists: Lists)
    requires ListsOf(m, m.Keys, lists)
    ensures forall l :: l in lists.ours ==> l in lists.all && l !in lists.theirs
    ensures forall l :: l in lists.theirs ==> l in lists.all
  {
    OursIsNotTheirs();
  }

  lemma NoneListed(m: map<string, Entry>)
    ensures ListsOf(m, {}, Lists([], [], []))
  {
  }

  lemma OursIsNotTheirs()
    ensures OURS != THEIRS
  {
    assert OURS[0] != THEIRS[0];
  }

  // ---------------------------------------------------------------- the parser's loops

  ghost predicate Valid(p: Parsing) { Named(p.locks) && (p.last.Some? ==> p.last.value in p.locks) }

  lemma FieldsKeepValid(parse: string -> Option<nat>, p: Parsing, values: seq<string>)
    requires values != [] && Valid(p) && ParseFields(parse, p, values).Some?
    ensures Valid(ParseFields(parse, p, values).value)
  {
  }

  method ParseEntries(parse: string -> Option<nat>, lines: seq<string>) returns (r: Option<map<string, Entry>>)
    ensures var p := ParseLines(parse, NOTHING, lines);
            r == if p.Some? then Some(p.value.locks) else None
    ensures r.Some? ==> Named(r.value)
  {
    hide Fields, ParseFields, Unfinished;
    var p := NOTHING;
    for i := 0 to |lines|
      invariant Valid(p) && ParseLines(parse, NOTHING, lines) == ParseLines(parse, p, lines[i..])
    {
      assert lines[i..][0] == lines[i] && lines[i..][1..] == lines[i + 1..];
      FieldsNotEmpty(lines[i]);
      var next := ParseFields(parse, p, Fields(lines[i]));
      if next.None? {
        return None;
      }
      FieldsKeepValid(parse, p, Fields(lines[i]));
      p := next.value;
    }
    r := if Unfinished(p) then None else Some(p.locks);
  }

  lemma FieldsNotEmpty(s: string)
    ensures Fields(s) != []
  {
  }

  method ParseCursor(args: seq<string>) returns (r: Option<string>)
    ensures r == CursorOf(args, "")
  {
    var cursor := "";
    for i := 0 to |args|
      invariant CursorOf(args, "") == CursorOf(args[i..], cursor)
    {
      assert args[i..][0] == args[i] && args[i..][1..] == args[i + 1..];
      if CURSOR <= args[i] {
        if cursor != "" {
          return None;
        }
        cursor := args[i][12..];
      }
    }
    r := Some(cursor);
  }

  datatype Response = Response(lists: Lists, nextCursor: string, message: string)

  /** parseListLockResponse. */
  method ParseListLockResponse(parse: string -> Option<nat>, status: int, args: seq<string>, lines: seq<string>)
    returns (r: Option<Response>)
    ensures 200 <= status <= 299 ==>
              (r.Some? <==> CursorOf(args, "").Some? && ParseLines(parse, NOTHING, lines).Some?)
    ensures 200 <= status <= 299 && r.Some? ==>
              var m := ParseLines(parse, NOTHING, lines).value.locks;
              && ListsOf(m, m.Keys, r.value.lists)
              && Some(r.value.nextCursor) == CursorOf(args, "") && r.value.message == ""
    ensures !(200 <= status <= 299) ==>
              r == Some(Response(Lists([], [], []), "", if status > 299 && lines != [] then lines[0] else ""))
  {
    hide ParseLines, CursorOf, ListsOf;
    if 200 <= status <= 299 {
      var cursor := ParseCursor(args);
      if cursor.None? {
        return None;
      }
      var m := ParseEntries(parse, lines);
      if m.None? {
        return None;
      }
      var lists := Collect(m.value);
      return Some(Response(lists, cursor.value, ""));
    }
    r := Some(Response(Lists([], [], []), "", if status > 299 && |lines| > 0 then lines[0] else ""));
  }

  // ---------------------------------------------------------------- printing and parsing

  function Line(cmd: string, id: string, value: string): string { cmd + [' '] + (id + [' '] + value) }

  /** The lines that describe a lock in the protocol's list format. */
  function Printed(format: nat -> string, e: Entry): seq<string> {
    [LOCK + [' '] + e.lock.id, Line(PATH, e.lock.id, e.lock.path), Line(LOCKED_AT, e.lock.id, format(e.lock.lockedAt)),
     Line(OWNERNAME, e.lock.id, if e.lock.owner.Some? then e.lock.owner.value else ""), Line(OWNER, e.lock.id, e.who)]
  }

  function PrintedAll(format: nat -> string, es: seq<Entry>): seq<string> {
    if es == [] then [] else Printed(format, es[0]) + PrintedAll(format, es[1..])
  }

  /** A complete lock whose id has no space and whose time survives printing. */
  predicate Printable(parse: string -> Option<nat>, format: nat -> string, e: Entry) {
    ' ' !in e.lock.id && !Incomplete(e) && parse(format(e.lock.lockedAt)) == Some(e.lock.lockedAt)
  }

  lemma FieldsOfLine(cmd: string, id: string, value: string)
    requires ' ' !in cmd && ' ' !in id
    ensures Fields(Line(cmd, id, value)) == [cmd, id, value]
  {
    CutAt(cmd, ' ', id + [' '] + value);
    CutAt(id, ' ', value);
  }

  lemma FieldsOfLock(id: string)
    requires ' ' !in id
    ensures Fields(LOCK + [' '] + id) == [LOCK, id]
  {
    CutAt(LOCK, ' ', id);
    CutNone(id, ' ');
  }

  lemma CommandsDiffer()
    ensures PATH != LOCK && LOCKED_AT != LOCK && OWNERNAME != LOCK && OWNER != LOCK
    ensures LOCKED_AT != PATH && OWNERNAME != PATH && OWNER != PATH
    ensures OWNERNAME != OWNER && LOCKED_AT != OWNER && LOCKED_AT != OWNERNAME
  {
    assert |LOCK| == 4 && |PATH| == 4 && |OWNER| == 5 && |OWNERNAME| == 9 && |LOCKED_AT| == 9;
    assert PATH[0] == 'p' && LOCK[0] == 'l' && OWNERNAME[0] == 'o' && LOCKED_AT[0] == 'l';
  }

  lemma CommandsAreWords()
    ensures ' ' !in PATH && ' ' !in LOCKED_AT && ' ' !in OWNERNAME && ' ' !in OWNER
  {
  }

  /** A detail line of the current lock updates that lock and nothing else. */
  lemma DetailLine(parse: string -> Option<nat>, p: Parsing, cmd: string, id: string, value: string)
    requires p.last == Some(id) && id in p.locks && ' ' !in id && ' ' !in cmd && cmd != LOCK
    requires WithDetail(parse, p.locks[id], cmd, value).Some?
    ensures ParseFields(parse, p, Fields(Line(cmd, id, value)))
            == Some(p.(locks := p.locks[id := WithDetail(parse, p.locks[id], cmd, value).value]))
  {
    hide WithDetail;
    FieldsOfLine(cmd, id, value);
  }

  lemma Details(parse: string -> Option<nat>, e: Entry, value: string)
    ensures WithDetail(parse, e, PATH, value) == Some(e.(lock := e.lock.(path := value)))
    ensures WithDetail(parse, e, OWNER, value) == Some(e.(who := value))
    ensures WithDetail(parse, e, OWNERNAME, value) == Some(e.(lock := e.lock.(owner := Some(value))))
    ensures parse(value).Some? ==>
              WithDetail(parse, e, LOCKED_AT, value) == Some(e.(lock := e.lock.(lockedAt := parse(value).value)))
  {
    CommandsDiffer();
  }

  /** Parsing the lines of one lock adds exactly that lock. */
  lemma {:induction false} OneLockParses(parse: string -> Option<nat>, format: nat -> string, p: Parsing, e: Entry,
                                         rest: seq<string>)
    requires Printable(parse, format, e) && !Unfinished(p)
    ensures ParseLines(parse, p, Printed(format, e) + rest)
            == ParseLines(parse, Parsing(p.locks[e.lock.id := e], Some(e.lock.id)), rest)
  {
    hide WithDetail, ParseFields, Fields, Line, Unfinished;
    var id := e.lock.id;
    var lines := Printed(format, e);
    CommandsDiffer();
    CommandsAreWords();
    LockLine(parse, p, id);
    var e0 := Blank(id);
    var p0 := Parsing(p.locks[id := e0], Some(id));
    var e1, p1 := AfterDetail(parse, p0, id, e0, PATH, e.lock.path);
    var e2, p2 := AfterDetail(parse, p1, id, e1, LOCKED_AT, format(e.lock.lockedAt));
    var e3, p3 := AfterDetail(parse, p2, id, e2, OWNERNAME, e.lock.owner.value);
    var e4, p4 := AfterDetail(parse, p3, id, e3, OWNER, e.who);
    assert e4 == e;
    assert p4.locks == p.locks[id := e];
    FiveSteps(parse, p, [p0, p1, p2, p3, p4], lines, rest);
  }

  lemma LockLine(parse: string -> Option<nat>, p: Parsing, id: string)
    requires ' ' !in id && !Unfinished(p)
    ensures ParseFields(parse, p, Fields(LOCK + [' '] + id)) == Some(Parsing(p.locks[id := Blank(id)], Some(id)))
  {
    hide Fields, Unfinished;
    FieldsOfLock(id);
  }

  lemma AfterDetail(parse: string -> Option<nat>, p: Parsing, id: string, e: Entry, cmd: string, value: string)
    returns (e': Entry, p': Parsing)
    requires p.last == Some(id) && id in p.locks && p.locks[id] == e && ' ' !in id && ' ' !in cmd && cmd != LOCK
    requires cmd in [PATH, OWNER, OWNERNAME] || (cmd == LOCKED_AT && parse(value).Some?)
    ensures ParseFields(parse, p, Fields(Line(cmd, id, value))) == Some(p')
    ensures p' == Parsing(p.locks[id := e'], Some(id))
    ensures cmd == PATH ==> e' == e.(lock := e.lock.(path := value))
    ensures cmd == OWNER ==> e' == e.(who := value)
    ensures cmd == OWNERNAME ==> e' == e.(lock := e.lock.(owner := Some(value)))
    ensures cmd == LOCKED_AT ==> e' == e.(lock := e.lock.(lockedAt := parse(value).value))
  {
    hide ParseFields, Fields, Line, WithDetail;
    Details(parse, e, value);
    DetailLine(parse, p, cmd, id, value);
    e' := WithDetail(parse, e, cmd, value).value;
    p' := p.(locks := p.locks[id := e']);
  }

  lemma {:induction false} FiveSteps(parse: string -> Option<nat>, p: Parsing, ps: seq<Parsing>, lines: seq<string>,
                                     rest: seq<string>)
    requires |ps| == |lines| == 5
    requires ParseFields(parse, p, Fields(lines[0])) == Some(ps[0])
    requires forall i :: 1 <= i < 5 ==> ParseFields(parse, ps[i - 1], Fields(lines[i])) == Some(ps[i])
    ensures ParseLines(parse, p, lines + rest) == ParseLines(parse, ps[4], rest)
  {
    hide ParseFields, Fields, Unfinished;
    OneStep(parse, p, ps[0], lines, rest, 0);
    OneStep(parse, ps[0], ps[1], lines, rest, 1);
    OneStep(parse, ps[1], ps[2], lines, rest, 2);
    OneStep(parse, ps[2], ps[3], lines, rest, 3);
    OneStep(parse, ps[3], ps[4], lines, rest, 4);
    assert lines[0..] + rest == lines + rest && lines[5..] + rest == rest;
  }

  lemma {:induction false} OneStep(parse: string -> Option<nat>, p: Parsing, next: Parsing, lines: seq<string>,
                                   rest: seq<string>, i: nat)
    requires i < |lines| && ParseFields(parse, p, Fields(lines[i])) == Some(next)
    ensures ParseLines(parse, p, lines[i..] + rest) == ParseLines(parse, next, lines[i + 1..] + rest)
  {
    hide ParseFields, Fields, Unfinished;
    var all := lines[i..] + rest;
    assert all[0] == lines[i] && all[1..] == lines[i + 1..] + rest;
  }

  predicate DistinctIds(es: seq<Entry>) { forall i, j :: 0 <= i < j < |es| ==> es[i].lock.id != es[j].lock.id }

  function WithAll(m: map<string, Entry>, es: seq<Entry>): map<string, Entry>
    decreases |es|
  {
    if es == [] then m else WithAll(m[es[0].lock.id := es[0]], es[1..])
  }

  lemma {:induction false} PrintedParses(parse: string -> Option<nat>, format: nat -> string, p: Parsing,
                                         es: seq<Entry>)
    requires !Unfinished(p) && forall i :: 0 <= i < |es| ==> Printable(parse, format, es[i])
    ensures ParseLines(parse, p, PrintedAll(format, es)).Some?
    ensures ParseLines(parse, p, PrintedAll(format, es)).value.locks == WithAll(p.locks, es)
    decreases |es|
  {
    hide Printed, ParseFields, Fields;
    if es != [] {
      var next := Parsing(p.locks[es[0].lock.id := es[0]], Some(es[0].lock.id));
      OneLockParses(parse, format, p, es[0], PrintedAll(format, es[1..]));
      assert Printable(parse, format, es[0]);
      PrintedParses(parse, format, next, es[1..]);
    }
  }

  lemma {:induction false} WithAllHas(m: map<string, Entry>, es: seq<Entry>, k: string)
    requires DistinctIds(es)
    ensures k in WithAll(m, es) <==> k in m || exists i :: 0 <= i < |es| && es[i].lock.id == k
    ensures forall i :: 0 <= i < |es| && es[i].lock.id == k ==> WithAll(m, es)[k] == es[i]
    ensures k in m && (forall i :: 0 <= i < |es| ==> es[i].lock.id != k) ==> WithAll(m, es)[k] == m[k]
    decreases |es|
  {
    if es != [] {
      WithAllHas(m[es[0].lock.id := es[0]], es[1..], k);
      var rest := es[1..];
      forall i | 0 < i < |es| && es[i].lock.id == k
        ensures k in WithAll(m, es) && WithAll(m, es)[k] == es[i]
      {
        assert rest[i - 1] == es[i];
      }
    }
  }

  /** Printing any complete locks with distinct, space-free ids and parsing the lines
      gives the same locks, each in the list its owner line names. */
  lemma {:induction false} ListRoundTrip(parse: string -> Option<nat>, format: nat -> string, es: seq<Entry>,
                                         lists: Lists, l: Lock)
    requires DistinctIds(es) && forall i :: 0 <= i < |es| ==> Printable(parse, format, es[i])
    requires var p := ParseLines(parse, NOTHING, PrintedAll(format, es));
             p.Some? ==> ListsOf(p.value.locks, p.value.locks.Keys, lists)
    ensures ParseLines(parse, NOTHING, PrintedAll(format, es)).Some?
    ensures l in lists.all <==> exists i :: 0 <= i < |es| && es[i].lock == l
    ensures l in lists.ours <==> exists i :: 0 <= i < |es| && es[i] == Entry(l, OURS)
    ensures l in lists.theirs <==> exists i :: 0 <= i < |es| && es[i] == Entry(l, THEIRS)
  {
    hide ParseLines, PrintedAll, Printable;
    assert !Unfinished(NOTHING);
    PrintedParses(parse, format, NOTHING, es);
    WithAllHas(map[], es, l.id);
  }
}
