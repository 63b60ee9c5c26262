/** Every interleaving of pull's scanner and watcher checks each pointer out once. */
module PullSafety {
  import opened GoSync
  import opened Pull

  // ---------------------------------------------------------------- where each pointer is

  /** How many pointers have been dealt with: counted, or put in a list. */
  function Upto(sc: Scanner): nat { if sc.Added? then sc.at + 1 else sc.at }

  function Handed(w: Watcher): seq<nat> { if w.Running? then w.list else [] }

  predicate Parked(scan: seq<string>, m: Waiting, p: nat)
    requires p < |scan|
  {
    scan[p] in m && p in m[scan[p]]
  }

  predicate Distinct(s: seq<nat>) { forall i, j :: 0 <= i < j < |s| ==> s[i] != s[j] }

  /** A list of pointers below n that all name the object. */
  predicate ListOf(scan: seq<string>, list: seq<nat>, oid: string, n: nat) {
    Distinct(list) && forall p :: p in list ==> p < n && p < |scan| && scan[p] == oid
  }

  ghost predicate Lists(scan: seq<string>, m: Waiting, n: nat) {
    forall oid :: oid in m ==> ListOf(scan, m[oid], oid, n)
  }

  predicate HandedList(scan: seq<string>, list: seq<nat>, n: nat) {
    Distinct(list) && forall p :: p in list ==> p < n && p < |scan|
  }

  function One(b: bool): nat { if b then 1 else 0 }

  /** Each pointer below n was checked out once, waits in one list, or was handed to
      the watcher: exactly one of the three. The others are untouched. */
  ghost predicate Placed(scan: seq<string>, m: Waiting, list: seq<nat>, runs: seq<nat>, n: nat) {
    && |runs| == |scan|
    && forall p :: 0 <= p < |scan| ==>
         runs[p] + One(Parked(scan, m, p)) + One(p in list) == One(p < n)
  }

  /** A pointer list is kept only while its object is still to be announced. */
  ghost predicate Announced(s: State, scan: seq<string>) {
    && (forall oid :: oid in s.waiting ==>
          || (s.scanner.Added? && s.scanner.at < |scan| && scan[s.scanner.at] == oid && oid !in s.queue)
          || (oid in s.queue && (s.queue[oid] != Notified || oid in s.watch)))
    && (forall oid :: oid in s.queue && s.queue[oid] != Notified ==> oid in s.waiting)
    && (forall oid :: oid in s.queue && s.queue[oid] in {Arrived, Notified} ==> oid in s.local)
    && (forall oid :: oid in s.watch ==> In(s, oid, Notified))
  }

  /** What the scanner knows about its current pointer between its steps. */
  predicate Turn(s: State, scan: seq<string>) {
    && s.scanner.at <= |scan|
    && (!s.scanner.Next? ==> s.scanner.at < |scan|)
    && (s.scanner.Unseen? || s.scanner.Missing? ==> scan[s.scanner.at] !in s.waiting)
    && (s.scanner.Missing? || s.scanner.Added? ==> scan[s.scanner.at] !in s.queue)
    && (s.scanner.Added? ==> Parked(scan, s.waiting, s.scanner.at))
  }

  predicate Ending(s: State, scan: seq<string>) {
    && (s.closed ==> s.scanner == Next(|scan|) && forall oid :: oid in s.queue ==> s.queue[oid] in {Notified, Failed})
    && (s.watcher.Stopped? ==> s.closed && s.watch == [])
    && (s.watcher.Running? ==> s.watcher.list != [])
  }

  ghost predicate Inv(scan: seq<string>, s: State) {
    && Turn(s, scan)
    && Lists(scan, s.waiting, Upto(s.scanner))
    && HandedList(scan, Handed(s.watcher), Upto(s.scanner))
    && Placed(scan, s.waiting, Handed(s.watcher), s.runs, Upto(s.scanner))
    && Announced(s, scan)
    && Ending(s, scan)
  }

  // ---------------------------------------------------------------- pieces that move a pointer

  /** The scanner's pointer n joins the list of its object. */
  lemma Park(scan: seq<string>, m: Waiting, list: seq<nat>, runs: seq<nat>, n: nat)
    requires n < |scan| && Lists(scan, m, n) && HandedList(scan, list, n) && Placed(scan, m, list, runs, n)
    ensures var m' := WithAdded(m, scan[n], n);
            Lists(scan, m', n + 1) && Placed(scan, m', list, runs, n + 1)
  {
    var oid := scan[n];
    var before := ListFor(m, oid);
    var m' := WithAdded(m, oid, n);
    assert ListOf(scan, before, oid, n);
    assert n !in before;
    forall o | o in m'
      ensures ListOf(scan, m'[o], o, n + 1)
    {
      if o == oid {
        assert m'[o] == before + [n];
      }
    }
    forall p | 0 <= p < |scan|
      ensures runs[p] + One(Parked(scan, m', p)) + One(p in list) == One(p < n + 1)
    {
      if scan[p] == oid {
        assert p in before + [n] <==> p in before || p == n;
      }
    }
  }

  /** The scanner's pointer n is checked out right away. */
  lemma RunScanned(scan: seq<string>, m: Waiting, list: seq<nat>, runs: seq<nat>, n: nat)
    requires n < |scan| && Lists(scan, m, n) && HandedList(scan, list, n) && Placed(scan, m, list, runs, n)
    ensures Lists(scan, m, n + 1) && HandedList(scan, list, n + 1)
    ensures Placed(scan, m, list, CheckOut(runs, n), n + 1)
  {
    assert !Parked(scan, m, n) && n !in list;
    forall oid | oid in m
      ensures ListOf(scan, m[oid], oid, n + 1)
    {
      assert ListOf(scan, m[oid], oid, n);
    }
  }

  /** The watcher takes over the list of an object. */
  lemma HandOver(scan: seq<string>, m: Waiting, runs: seq<nat>, n: nat, oid: string)
    requires Lists(scan, m, n) && Placed(scan, m, [], runs, n)
    ensures var list := ListFor(m, oid);
            Lists(scan, m - {oid}, n) && HandedList(scan, list, n) && Placed(scan, m - {oid}, list, runs, n)
  {
    var list := ListFor(m, oid);
    assert ListOf(scan, list, oid, n);
    forall p | 0 <= p < |scan|
      ensures runs[p] + One(Parked(scan, m - {oid}, p)) + One(p in list) == One(p < n)
    {
      assert p in list ==> scan[p] == oid;
    }
    forall o | o in m - {oid}
      ensures ListOf(scan, (m - {oid})[o], o, n)
    {
      assert ListOf(scan, m[o], o, n);
    }
  }

  /** The watcher checks out the first pointer of its list. */
  lemma RunHanded(scan: seq<string>, m: Waiting, list: seq<nat>, runs: seq<nat>, n: nat)
    requires list != [] && HandedList(scan, list, n) && Placed(scan, m, list, runs, n)
    ensures HandedList(scan, list[1..], n) && Placed(scan, m, list[1..], CheckOut(runs, list[0]), n)
  {
    var p := list[0];
    assert p in list && p !in list[1..];
    assert runs[p] == 0;
    assert forall x :: x in list <==> x == p || x in list[1..];
  }

  // ---------------------------------------------------------------- every step keeps the invariant

  lemma SeenKeepsInv(scan: seq<string>, s: State)
    requires Inv(scan, s) && ScanStep(scan, s, ScanSeen).Stepped?
    ensures Inv(scan, ScanStep(scan, s, ScanSeen).next)
  {
    hide Lists, HandedList, Placed, ListOf;
    var at := s.scanner.at;
    if scan[at] in s.waiting {
      assert WithSeen(s.waiting, scan[at], at) == WithAdded(s.waiting, scan[at], at);
      Park(scan, s.waiting, Handed(s.watcher), s.runs, at);
      HandedGrows(scan, Handed(s.watcher), at);
    }
  }

  lemma HandedGrows(scan: seq<string>, list: seq<nat>, n: nat)
    requires HandedList(scan, list, n)
    ensures HandedList(scan, list, n + 1)
  {
  }

  lemma CheckKeepsInv(scan: seq<string>, s: State)
    requires Inv(scan, s) && ScanStep(scan, s, ScanCheck).Stepped?
    ensures Inv(scan, ScanStep(scan, s, ScanCheck).next)
  {
    hide Lists, HandedList, Placed, ListOf;
    if scan[s.scanner.at] in s.local {
      RunScanned(scan, s.waiting, Handed(s.watcher), s.runs, s.scanner.at);
    }
  }

  lemma AddKeepsInv(scan: seq<string>, s: State)
    requires Inv(scan, s) && ScanStep(scan, s, ScanAdd).Stepped?
    ensures Inv(scan, ScanStep(scan, s, ScanAdd).next)
  {
    hide Lists, HandedList, Placed, ListOf;
    Park(scan, s.waiting, Handed(s.watcher), s.runs, s.scanner.at);
    HandedGrows(scan, Handed(s.watcher), s.scanner.at);
  }

  lemma EnqueueKeepsInv(scan: seq<string>, s: State)
    requires Inv(scan, s) && ScanStep(scan, s, ScanEnqueue).Stepped?
    ensures Inv(scan, ScanStep(scan, s, ScanEnqueue).next)
  {
    hide Lists, HandedList, Placed, ListOf;
  }

  lemma QueueKeepsInv(scan: seq<string>, s: State, a: Action)
    requires Inv(scan, s) && QueueStep(s, a).Stepped?
    ensures Inv(scan, QueueStep(s, a).next)
  {
    hide Lists, HandedList, Placed, ListOf, Announced;
    QueueAnnounces(scan, s, a);
  }

  lemma QueueAnnounces(scan: seq<string>, s: State, a: Action)
    requires Announced(s, scan) && QueueStep(s, a).Stepped?
    ensures Announced(QueueStep(s, a).next, scan)
  {
    if a.Notify? {
      assert forall oid :: oid in s.watch + [a.oid] <==> oid in s.watch || oid == a.oid;
    }
  }

  lemma TakeKeepsInv(scan: seq<string>, s: State)
    requires Inv(scan, s) && WatchStep(s, Take).Stepped?
    ensures Inv(scan, WatchStep(s, Take).next)
  {
    hide Lists, HandedList, Placed, ListOf;
    if s.watch != [] {
      HandOver(scan, s.waiting, s.runs, Upto(s.scanner), s.watch[0]);
      assert s.watch[0] in s.watch;
      assert forall oid :: oid in s.watch ==> oid == s.watch[0] || oid in s.watch[1..];
      assert forall oid :: oid in s.watch[1..] ==> oid in s.watch;
    }
  }

  lemma RunNextKeepsInv(scan: seq<string>, s: State)
    requires Inv(scan, s) && WatchStep(s, RunNext).Stepped?
    ensures Inv(scan, WatchStep(s, RunNext).next)
  {
    hide Lists, HandedList, Placed, ListOf;
    RunHanded(scan, s.waiting, s.watcher.list, s.runs, Upto(s.scanner));
  }

  lemma CloseKeepsInv(scan: seq<string>, s: State)
    requires Inv(scan, s) && CloseStep(scan, s).Stepped?
    ensures Inv(scan, CloseStep(scan, s).next)
  {
    hide Lists, HandedList, Placed, ListOf;
  }

  lemma StepKeepsInv(scan: seq<string>, s: State, a: Action)
    requires Inv(scan, s) && Step(scan, s, a).Stepped?
    ensures Inv(scan, Step(scan, s, a).next)
  {
    hide Inv, ScanStep, QueueStep, WatchStep, CloseStep;
    match a
    case ScanSeen => SeenKeepsInv(scan, s);
    case ScanCheck => CheckKeepsInv(scan, s);
    case ScanAdd => AddKeepsInv(scan, s);
    case ScanEnqueue => EnqueueKeepsInv(scan, s);
    case CloseWatch => CloseKeepsInv(scan, s);
    case Take => TakeKeepsInv(scan, s);
    case RunNext => RunNextKeepsInv(scan, s);
    case _ => QueueKeepsInv(scan, s, a);
  }

  lemma StartInv(scan: seq<string>, local: set<string>)
    ensures Inv(scan, Start(scan, local))
  {
  }

  lemma {:induction false} RunKeepsInv(scan: seq<string>, s: State, acts: seq<Action>)
    requires Inv(scan, s) && Run(scan, s, acts).Stepped?
    ensures Inv(scan, Run(scan, s, acts).next)
    decreases |acts|
  {
    hide Inv, Step;
    if acts != [] {
      StepKeepsInv(scan, s, acts[0]);
      RunKeepsInv(scan, Step(scan, s, acts[0]).next, acts[1..]);
    }
  }

  // ---------------------------------------------------------------- over every run

  /** At no moment of any run has a pointer been checked out twice. */
  lemma {:induction false} NeverTwice(scan: seq<string>, local: set<string>, acts: seq<Action>, p: nat)
    requires Run(scan, Start(scan, local), acts).Stepped? && p < |scan|
    ensures var s := Run(scan, Start(scan, local), acts).next; p < |s.runs| && s.runs[p] <= 1
  {
    hide Run;
    StartInv(scan, local);
    RunKeepsInv(scan, Start(scan, local), acts);
  }

  /** When the watcher has stopped, every reported pointer was checked out exactly
      once, except those left waiting for an object whose download failed. */
  lemma {:induction false} PullChecksOutOnce(scan: seq<string>, local: set<string>, acts: seq<Action>, p: nat)
    requires Run(scan, Start(scan, local), acts).Stepped? && p < |scan|
    requires Run(scan, Start(scan, local), acts).next.watcher.Stopped?
    ensures var s := Run(scan, Start(scan, local), acts).next;
            && |s.runs| == |scan|
            && (s.runs[p] == 1 <==> !Parked(scan, s.waiting, p))
            && (s.runs[p] == 0 <==> Parked(scan, s.waiting, p))
            && (Parked(scan, s.waiting, p) ==> In(s, scan[p], Failed))
  {
    hide Run;
    StartInv(scan, local);
    RunKeepsInv(scan, Start(scan, local), acts);
    var s := Run(scan, Start(scan, local), acts).next;
    assert Placed(scan, s.waiting, [], s.runs, |scan|);
  }

  /** An object is put in the transfer queue at most once, and only after its first
      pointer is in the map that the watcher looks it up in. */
  lemma {:induction false} EnqueuedOnceAfterParking(scan: seq<string>, local: set<string>, acts: seq<Action>)
    requires Run(scan, Start(scan, local), acts).Stepped?
    ensures var s := Run(scan, Start(scan, local), acts).next;
            s.scanner.Added? ==>
              s.scanner.at < |scan| && scan[s.scanner.at] !in s.queue && Parked(scan, s.waiting, s.scanner.at)
  {
    hide Run;
    StartInv(scan, local);
    RunKeepsInv(scan, Start(scan, local), acts);
  }

  /** Until the watcher stops, some part of the program or the queue can move. */
  lemma {:induction false} NoDeadlock(scan: seq<string>, local: set<string>, acts: seq<Action>)
    requires Run(scan, Start(scan, local), acts).Stepped?
    requires !Run(scan, Start(scan, local), acts).next.watcher.Stopped?
    ensures exists a: Action :: !a.Appear? && Step(scan, Run(scan, Start(scan, local), acts).next, a).Stepped?
  {
    hide Run, Placed, Lists, HandedList, Announced;
    StartInv(scan, local);
    RunKeepsInv(scan, Start(scan, local), acts);
    var s := Run(scan, Start(scan, local), acts).next;
    if s.scanner.at < |scan| {
      match s.scanner
      case Next(_) => assert Step(scan, s, ScanSeen).Stepped?;
      case Unseen(_) => assert Step(scan, s, ScanCheck).Stepped?;
      case Missing(_) => assert Step(scan, s, ScanAdd).Stepped?;
      case Added(_) => assert Step(scan, s, ScanEnqueue).Stepped?;
    } else if s.watcher.Running? {
      assert Step(scan, s, RunNext).Stepped?;
    } else if s.watch != [] || s.closed {
      assert Step(scan, s, Take).Stepped?;
    } else if oid :| oid in s.queue && s.queue[oid] == Queued {
      assert Step(scan, s, Finish(oid)).Stepped?;
    } else if oid :| oid in s.queue && s.queue[oid] == Arrived {
      assert Step(scan, s, Notify(oid)).Stepped?;
    } else {
      assert forall oid :: oid in s.queue ==> s.queue[oid] in {Notified, Failed};
      assert Step(scan, s, CloseWatch).Stepped?;
    }
  }
}
