/** git lfs pull: the tree scanner's callback and the download watcher share a map
    of pointers that wait for their object (commands/command_pull.go). */
module Pull {
  import opened GoSync

  // ---------------------------------------------------------------- pointerMap

  /** Pointers are numbered in the order the scanner reports them. */
  type Waiting = map<string, seq<nat>>

  function WithSeen(m: Waiting, oid: string, p: nat): Waiting {
    if oid in m then m[oid := m[oid] + [p]] else m
  }

  function WithAdded(m: Waiting, oid: string, p: nat): Waiting {
    m[oid := (if oid in m then m[oid] else []) + [p]]
  }

  function ListFor(m: Waiting, oid: string): seq<nat> { if oid in m then m[oid] else [] }

  class PointerMap {
    var pointers: Waiting

    constructor ()
      ensures pointers == map[]
    {
      pointers := map[];
    }

    method Seen(oid: string, p: nat) returns (seen: bool)
      modifies this
      ensures seen <==> oid in old(pointers)
      ensures pointers == WithSeen(old(pointers), oid, p)
    {
      if oid in pointers {
        pointers := pointers[oid := pointers[oid] + [p]];
        return true;
      }
      return false;
    }

    method Add(oid: string, p: nat)
      modifies this
      ensures pointers == WithAdded(old(pointers), oid, p)
    {
      var existing := if oid in pointers then pointers[oid] else [];
      pointers := pointers[oid := existing + [p]];
    }

    method All(oid: string) returns (list: seq<nat>)
      modifies this
      ensures list == ListFor(old(pointers), oid)
      ensures pointers == old(pointers) - {oid}
    {
      list := if oid in pointers then pointers[oid] else [];
      pointers := pointers - {oid};
    }
  }

  // ---------------------------------------------------------------- the two goroutines

  /** Where the scanner stands with pointer `at`: between callbacks, before the
      existence check, before pointers.Add, before q.Add. */
  datatype Scanner = Next(at: nat) | Unseen(at: nat) | Missing(at: nat) | Added(at: nat)

  datatype Watcher = Listening | Running(list: seq<nat>) | Stopped

  /** An object in the transfer queue. Arrived objects are in the local store. */
  datatype Download = Queued | Arrived | Notified | Failed

  /** Runs counts the singleCheckout.Run calls for each pointer. */
  datatype State = State(scanner: Scanner, waiting: Waiting, local: set<string>, queue: map<string, Download>,
                         watch: seq<string>, closed: bool, watcher: Watcher, runs: seq<nat>)

  datatype Action =
    | ScanSeen | ScanCheck | ScanAdd | ScanEnqueue
    | Appear(oid: string)      // an object reaches the local store from elsewhere
    | Finish(oid: string)      // a download completes
    | Fail(oid: string)        // a download is given up
    | Notify(oid: string)      // the queue tells the watcher of a completed download, perhaps again
    | CloseWatch               // q.Wait has seen every download end
    | Take                     // the watcher receives a notification, or the end
    | RunNext                  // the watcher checks the next pointer out

  function Start(scan: seq<string>, local: set<string>): State {
    State(Next(0), map[], local, map[], [], false, Listening, seq(|scan|, _ => 0))
  }

  /** singleCheckout.Run. */
  function CheckOut(runs: seq<nat>, p: nat): seq<nat> {
    if p < |runs| then runs[p := runs[p] + 1] else runs
  }

  function ScanStep(scan: seq<string>, s: State, a: Action): Outcome<State> {
    var at := s.scanner.at;
    if at >= |scan| then Blocked
    else if a.ScanSeen? && s.scanner.Next? then
      Stepped(s.(waiting := WithSeen(s.waiting, scan[at], at),
                 scanner := if scan[at] in s.waiting then Next(at + 1) else Unseen(at)))
    else if a.ScanCheck? && s.scanner.Unseen? then
      Stepped(if scan[at] in s.local then s.(runs := CheckOut(s.runs, at), scanner := Next(at + 1))
              else s.(scanner := Missing(at)))
    else if a.ScanAdd? && s.scanner.Missing? then
      Stepped(s.(waiting := WithAdded(s.waiting, scan[at], at), scanner := Added(at)))
    else if a.ScanEnqueue? && s.scanner.Added? then
      Stepped(s.(queue := if scan[at] in s.queue then s.queue else s.queue[scan[at] := Queued],
                 scanner := Next(at + 1)))
    else Blocked
  }

  predicate In(s: State, oid: string, d: Download) { oid in s.queue && s.queue[oid] == d }

  function QueueStep(s: State, a: Action): Outcome<State> {
    match a
    case Appear(oid) => Stepped(s.(local := s.local + {oid}))
    case Finish(oid) =>
      if In(s, oid, Queued) then Stepped(s.(queue := s.queue[oid := Arrived], local := s.local + {oid})) else Blocked
    case Fail(oid) => if In(s, oid, Queued) then Stepped(s.(queue := s.queue[oid := Failed])) else Blocked
    case Notify(oid) =>
      if (In(s, oid, Arrived) || In(s, oid, Notified)) && !s.closed then
        Stepped(s.(queue := s.queue[oid := Notified], watch := s.watch + [oid]))
      else Blocked
    case _ => Blocked
  }

  function WatchStep(s: State, a: Action): Outcome<State> {
    if a.Take? && s.watcher.Listening? then
      if s.watch != [] then
        var oid := s.watch[0];
        Stepped(s.(watch := s.watch[1..], waiting := s.waiting - {oid},
                   watcher := if ListFor(s.waiting, oid) == [] then Listening else Running(ListFor(s.waiting, oid))))
      else if s.closed then Stepped(s.(watcher := Stopped))
      else Blocked
    else if a.RunNext? && s.watcher.Running? && s.watcher.list != [] then
      var rest := s.watcher.list[1..];
      Stepped(s.(runs := CheckOut(s.runs, s.watcher.list[0]),
                 watcher := if rest == [] then Listening else Running(rest)))
    else Blocked
  }

  /** q.Wait closes the watch once the scan is over and every download has ended. */
  function CloseStep(scan: seq<string>, s: State): Outcome<State> {
    if s.scanner == Next(|scan|) && (forall oid :: oid in s.queue ==> s.queue[oid] in {Notified, Failed}) && !s.closed
    then Stepped(s.(closed := true))
    else Blocked
  }

  function Step(scan: seq<string>, s: State, a: Action): Outcome<State> {
    match a
    case ScanSeen => ScanStep(scan, s, a)
    case ScanCheck => ScanStep(scan, s, a)
    case ScanAdd => ScanStep(scan, s, a)
    case ScanEnqueue => ScanStep(scan, s, a)
    case CloseWatch => CloseStep(scan, s)
    case Take => WatchStep(s, a)
    case RunNext => WatchStep(s, a)
    case _ => QueueStep(s, a)
  }

  function Run(scan: seq<string>, s: State, acts: seq<Action>): Outcome<State>
    decreases |acts|
  {
    if acts == [] then Stepped(s)
    else
      var next :- Step(scan, s, acts[0]);
      Run(scan, next, acts[1..])
  }
}
