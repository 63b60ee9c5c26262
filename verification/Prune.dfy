/** Prune (commands/command_prune.go) as a concurrent mark and sweep.

    Scanning tasks, an unbounded number of them because tasks spawn tasks, report
    objects to keep and errors over channels. WaitGroups and channel closes decide
    when it is safe to list and delete. The goroutines are a step function; a run
    is any list of actions, so a theorem over all lists covers every
    interleaving. */
module Prune {
  import opened GoSync

  type Oid = string
  type Error = string

  datatype Config = Config(verify: bool, dryRun: bool, semCap: nat)

  datatype Kind =
    | LocalObjects | CurrentAndRecentRefs | Unpushed | Worktree | Stashed | Reachable
    | AtRef | PreviousVersions

  /** One scanner callback: an object, or an error. */
  datatype Report = Object(oid: Oid) | Problem(err: Error)

  datatype Phase =
    | AwaitSem                        // AtRef, PreviousVersions: before sem.Acquire
    | Running
    | SendRetain(oid: Oid)
    | SendError(err: Error)
    | SendProgress
    | AwaitCallback(report: Report)   // Reachable: its callback takes the semaphore
    | InCallback(report: Report)
    | Starting(child: Kind)           // after waitg.Add(1), before the go statement
    | Releasing                       // after waitg.Done(), before sem.Release
    | Finished

  datatype Task = Task(kind: Kind, phase: Phase)

  /** The scanning tasks with the WaitGroup and the semaphore they share. */
  datatype Pool = Pool(taskwait: int, sem: int, tasks: seq<Task>)

  datatype Channels = Channels(retain: Channel<Oid>, error: Channel<Error>, progress: Channel<()>)

  /** What has been collected, and the history of what was ever reported. */
  datatype Log = Log(local: seq<Oid>, retained: set<Oid>, errors: seq<Error>, reachable: set<Oid>,
                     reported: set<Oid>, failures: nat)

  datatype Scan = Scan(pool: Pool, chans: Channels, log: Log)

  /** A goroutine that ranges over a channel and reports progress. */
  datatype Collector = Unstarted | Receiving | Reporting | Stopped

  datatype Collectors = Collectors(retain: Collector, error: Collector, display: Collector)

  datatype Sweep = Sweep(verifier: Collector, watch: Channel<Oid>, verified: set<Oid>,
                         prunable: seq<Oid>, removed: set<Oid>, skipped: set<Oid>, undeleted: nat)

  datatype Main =
    | WaitTasks | CloseRetain | WaitRetain | CloseErrors | WaitErrors | CheckErrors
    | Listing(next: nat) | WaitQueue | WaitVerifier | CloseProgress | WaitProgress
    | CheckVerified | Decide | Deleting(at: nat) | Returned

  datatype State = State(cfg: Config, main: Main, over: bool, scan: Scan, who: Collectors, sweep: Sweep)

  datatype TaskOp =
    | FoundLocal(oid: Oid) | Found(oid: Oid) | Fail(err: Error) | Reach(report: Report)
    | AddChild(kind: Kind) | GoChild | Acquire | Release | Transmit | Finish

  datatype Deletion = Removed | DevNull | Undeletable

  datatype Action =
    | OfTask(task: nat, op: TaskOp)
    | Fatal(task: nat)                // the branch scan fails: the process exits
    | CollectRetained | ReportRetained
    | CollectError
    | ShowProgress
    | Emit(oid: Oid)                  // the verify queue reports a checked object
    | CollectVerified | ReportVerified
    | OfMain(deletion: Deletion)

  /** taskwait.Add(5), or 6 with --verify-remote, precedes every go statement. */
  function BaseKinds(verify: bool): seq<Kind> {
    [LocalObjects, CurrentAndRecentRefs, Unpushed, Worktree, Stashed] + if verify then [Reachable] else []
  }

  function Start(cfg: Config): State {
    var kinds := BaseKinds(cfg.verify);
    State(cfg, WaitTasks, false,
          Scan(Pool(|kinds|, 0, seq(|kinds|, i requires 0 <= i < |kinds| => Task(kinds[i], Running))),
               Channels(Channel(100, [], false), Channel(10, [], false), Channel(100, [], false)),
               Log([], {}, [], {}, {}, 0)),
          Collectors(Receiving, Receiving, Receiving),
          Sweep(Unstarted, Channel(100, [], false), {}, [], {}, {}, 0))
  }

  predicate Retains(k: Kind) { k in {Unpushed, Stashed, AtRef, PreviousVersions} }

  predicate TakesSem(k: Kind) { k in {AtRef, PreviousVersions} }

  predicate Spawns(parent: Kind, child: Kind) {
    || (parent == CurrentAndRecentRefs && child in {AtRef, PreviousVersions})
    || (parent == Worktree && child == AtRef)
  }

  function Put(p: Pool, i: nat, phase: Phase): Pool
    requires i < |p.tasks|
  {
    p.(tasks := p.tasks[i := p.tasks[i].(phase := phase)])
  }

  /** Sends the pending value of task i. */
  function TransmitStep(s: Scan, i: nat): Outcome<Scan>
    requires i < |s.pool.tasks|
  {
    var pool := Put(s.pool, i, Running);
    match s.pool.tasks[i].phase
    case SendRetain(o) =>
      (var c :- Send(s.chans.retain, o); Stepped(s.(pool := pool, chans := s.chans.(retain := c))))
    case SendError(e) =>
      (var c :- Send(s.chans.error, e); Stepped(s.(pool := pool, chans := s.chans.(error := c))))
    case SendProgress =>
      (var c :- Send(s.chans.progress, ()); Stepped(s.(pool := pool, chans := s.chans.(progress := c))))
    case InCallback(Object(o)) =>
      Stepped(s.(pool := pool.(sem := pool.sem - 1), log := s.log.(reachable := s.log.reachable + {o})))
    case InCallback(Problem(e)) =>
      (var c :- Send(s.chans.error, e);
       Stepped(s.(pool := pool.(sem := pool.sem - 1), chans := s.chans.(error := c))))
    case _ => Blocked
  }

  /** The steps of a task that touch only the WaitGroup and the semaphore. */
  function ControlStep(p: Pool, semCap: nat, i: nat, op: TaskOp): Outcome<Pool>
    requires i < |p.tasks|
  {
    var t := p.tasks[i];
    match op
    case AddChild(k) =>
      if Spawns(t.kind, k) && t.phase == Running
      then Stepped(Put(p, i, Starting(k)).(taskwait := p.taskwait + 1)) else Blocked
    case GoChild =>
      if t.phase.Starting?
      then Stepped(p.(tasks := Put(p, i, Running).tasks + [Task(t.phase.child, AwaitSem)])) else Blocked
    case Acquire =>
      if p.sem >= semCap then Blocked
      else if t.phase == AwaitSem then Stepped(Put(p, i, Running).(sem := p.sem + 1))
      else if t.phase.AwaitCallback? then Stepped(Put(p, i, InCallback(t.phase.report)).(sem := p.sem + 1))
      else Blocked
    case Release =>
      if t.phase == Releasing then Stepped(Put(p, i, Finished).(sem := p.sem - 1)) else Blocked
    case Finish =>
      if t.phase != Running then Blocked
      else
        var n :- Done(p.taskwait);
        Stepped(Put(p, i, if TakesSem(t.kind) then Releasing else Finished).(taskwait := n))
    case _ => Blocked
  }

  function TaskStep(s: Scan, semCap: nat, i: nat, op: TaskOp): Outcome<Scan>
    requires i < |s.pool.tasks|
  {
    var t := s.pool.tasks[i];
    match op
    case FoundLocal(o) =>
      if t.kind == LocalObjects && t.phase == Running
      then Stepped(s.(pool := Put(s.pool, i, SendProgress), log := s.log.(local := s.log.local + [o]))) else Blocked
    case Found(o) =>
      if Retains(t.kind) && t.phase == Running
      then Stepped(s.(pool := Put(s.pool, i, SendRetain(o)), log := s.log.(reported := s.log.reported + {o})))
      else Blocked
    case Fail(e) =>
      if t.kind != LocalObjects && t.phase == Running
      then Stepped(s.(pool := Put(s.pool, i, SendError(e)), log := s.log.(failures := s.log.failures + 1)))
      else Blocked
    case Reach(r) =>
      if t.kind == Reachable && t.phase == Running
      then
        var owed := if r.Problem? then 1 else 0;
        Stepped(s.(pool := Put(s.pool, i, AwaitCallback(r)), log := s.log.(failures := s.log.failures + owed)))
      else Blocked
    case Transmit => TransmitStep(s, i)
    case _ => var p :- ControlStep(s.pool, semCap, i, op); Stepped(s.(pool := p))
  }

  /** for oid := range retainChan { if retained.Add(oid) { progressChan <- 1 } } */
  function CollectRetainedStep(s: State): Outcome<State> {
    var c := s.scan.chans.retain;
    if s.who.retain != Receiving then Blocked
    else if CanReceive(c) then
      var o := c.items[0];
      Stepped(s.(scan := s.scan.(chans := s.scan.chans.(retain := c.(items := c.items[1..])),
                                 log := s.scan.log.(retained := s.scan.log.retained + {o})),
                 who := s.who.(retain := if o in s.scan.log.retained then Receiving else Reporting)))
    else if Drained(c) then Stepped(s.(who := s.who.(retain := Stopped)))
    else Blocked
  }

  function CollectErrorStep(s: State): Outcome<State> {
    var c := s.scan.chans.error;
    if s.who.error != Receiving then Blocked
    else if CanReceive(c) then
      Stepped(s.(scan := s.scan.(chans := s.scan.chans.(error := c.(items := c.items[1..])),
                                 log := s.scan.log.(errors := s.scan.log.errors + [c.items[0]]))))
    else if Drained(c) then Stepped(s.(who := s.who.(error := Stopped)))
    else Blocked
  }

  function ShowProgressStep(s: State): Outcome<State> {
    var c := s.scan.chans.progress;
    if s.who.display != Receiving then Blocked
    else if CanReceive(c) then
      Stepped(s.(scan := s.scan.(chans := s.scan.chans.(progress := c.(items := c.items[1..])))))
    else if Drained(c) then Stepped(s.(who := s.who.(display := Stopped)))
    else Blocked
  }

  function CollectVerifiedStep(w: Sweep): Outcome<Sweep> {
    if w.verifier != Receiving then Blocked
    else if CanReceive(w.watch) then
      Stepped(w.(watch := w.watch.(items := w.watch.items[1..]),
                 verified := w.verified + {w.watch.items[0]},
                 verifier := Reporting))
    else if Drained(w.watch) then Stepped(w.(verifier := Stopped))
    else Blocked
  }

  /** The queue may report any object it was given while the list was built. */
  function EmitStep(w: Sweep, o: Oid): Outcome<Sweep> {
    if w.verifier == Unstarted || w.watch.closed || o !in w.prunable then Blocked
    else var c :- Send(w.watch, o); Stepped(w.(watch := c))
  }

  /** The collector's and the verifier's progressChan <- 1. */
  function ReportProgress(s: State): Outcome<State> {
    var c :- Send(s.scan.chans.progress, ());
    Stepped(s.(scan := s.scan.(chans := s.scan.chans.(progress := c))))
  }

  /** The local objects that no collected report retains, in order. */
  function Prunable(local: seq<Oid>, retained: set<Oid>): (p: seq<Oid>)
    ensures forall o :: o in p <==> o in local && o !in retained
  {
    if local == [] then []
    else
      var rest := Prunable(local[..|local| - 1], retained);
      var o := local[|local| - 1];
      assert local == local[..|local| - 1] + [o];
      if o in retained then rest else rest + [o]
  }

  /** Objects about to be pruned that are reachable and not known to the remote. */
  function Unsafe(prunable: seq<Oid>, reachable: set<Oid>, verified: set<Oid>): (p: seq<Oid>)
    ensures forall o :: o in p <==> o in prunable && o !in verified && o in reachable
  {
    if prunable == [] then []
    else
      var rest := Unsafe(prunable[..|prunable| - 1], reachable, verified);
      var o := prunable[|prunable| - 1];
      assert prunable == prunable[..|prunable| - 1] + [o];
      if o !in verified && o in reachable then rest + [o] else rest
  }

  /** The main goroutine up to the error check. */
  function CollectStep(s: State): Outcome<State> {
    var ch := s.scan.chans;
    match s.main
    case WaitTasks => if s.scan.pool.taskwait == 0 then Stepped(s.(main := CloseRetain)) else Blocked
    case CloseRetain =>
      (var c :- Close(ch.retain); Stepped(s.(scan := s.scan.(chans := ch.(retain := c)), main := WaitRetain)))
    case WaitRetain => if s.who.retain == Stopped then Stepped(s.(main := CloseErrors)) else Blocked
    case CloseErrors =>
      (var c :- Close(ch.error); Stepped(s.(scan := s.scan.(chans := ch.(error := c)), main := WaitErrors)))
    case WaitErrors => if s.who.error == Stopped then Stepped(s.(main := CheckErrors)) else Blocked
    case CheckErrors =>
      if s.scan.log.errors != [] then Stepped(s.(over := true))
      else Stepped(s.(main := Listing(0),
                      sweep := s.sweep.(verifier := if s.cfg.verify then Receiving else Unstarted)))
    case _ => Blocked
  }

  /** The main goroutine from listing to the end of the verification. */
  function ListStep(s: State): Outcome<State> {
    var w := s.sweep;
    match s.main
    case Listing(i) =>
      if i < |s.scan.log.local| then
        var o := s.scan.log.local[i];
        Stepped(s.(main := Listing(i + 1),
                   sweep := w.(prunable := if o in s.scan.log.retained then w.prunable else w.prunable + [o])))
      else Stepped(s.(main := if s.cfg.verify then WaitQueue else CloseProgress))
    case WaitQueue =>
      (var c :- Close(w.watch); Stepped(s.(sweep := w.(watch := c), main := WaitVerifier)))
    case WaitVerifier => if w.verifier == Stopped then Stepped(s.(main := CloseProgress)) else Blocked
    case CloseProgress =>
      (var c :- Close(s.scan.chans.progress);
       Stepped(s.(scan := s.scan.(chans := s.scan.chans.(progress := c)), main := WaitProgress)))
    case WaitProgress =>
      if s.who.display == Stopped then Stepped(s.(main := if s.cfg.verify then CheckVerified else Decide)) else Blocked
    case _ => Blocked
  }

  /** The main goroutine's last checks before it deletes anything. */
  function DecideStep(s: State): Outcome<State> {
    var w := s.sweep;
    match s.main
    case CheckVerified =>
      if Unsafe(w.prunable, s.scan.log.reachable, w.verified) != [] then Stepped(s.(over := true))
      else Stepped(s.(main := Decide))
    case Decide =>
      if w.prunable == [] || s.cfg.dryRun then Stepped(s.(main := Returned, over := true))
      else Stepped(s.(main := Deleting(0)))
    case _ => Blocked
  }

  function DeleteStep(s: State, d: Deletion): Outcome<State>
    requires s.main.Deleting?
  {
    var i, w := s.main.at, s.sweep;
    if i < |w.prunable| then
      var o := w.prunable[i];
      var n := s.(main := Deleting(i + 1));
      match d
      case Removed => Stepped(n.(sweep := w.(removed := w.removed + {o})))
      case DevNull => Stepped(n.(sweep := w.(skipped := w.skipped + {o})))
      case Undeletable => Stepped(n.(sweep := w.(undeleted := w.undeleted + 1)))
    else if w.undeleted > 0 then Stepped(s.(over := true))
    else Stepped(s.(main := Returned, over := true))
  }

  function Step(s: State, a: Action): Outcome<State> {
    if s.over then Blocked else
    match a
    case OfTask(i, op) =>
      if i >= |s.scan.pool.tasks| then Blocked
      else var c :- TaskStep(s.scan, s.cfg.semCap, i, op); Stepped(s.(scan := c))
    case Fatal(i) =>
      if i < |s.scan.pool.tasks| && s.scan.pool.tasks[i] == Task(CurrentAndRecentRefs, Running)
      then Stepped(s.(over := true)) else Blocked
    case CollectRetained => CollectRetainedStep(s)
    case ReportRetained =>
      if s.who.retain != Reporting then Blocked
      else var n :- ReportProgress(s); Stepped(n.(who := s.who.(retain := Receiving)))
    case CollectError => CollectErrorStep(s)
    case ShowProgress => ShowProgressStep(s)
    case Emit(o) => var w :- EmitStep(s.sweep, o); Stepped(s.(sweep := w))
    case CollectVerified => var w :- CollectVerifiedStep(s.sweep); Stepped(s.(sweep := w))
    case ReportVerified =>
      if s.sweep.verifier != Reporting then Blocked
      else var n :- ReportProgress(s); Stepped(n.(sweep := s.sweep.(verifier := Receiving)))
    case OfMain(d) =>
      if s.main.Deleting? then DeleteStep(s, d)
      else if Rank(s.main) < 6 then CollectStep(s)
      else if Rank(s.main) < 11 then ListStep(s) else DecideStep(s)
  }

  /** The order in which the main goroutine passes its stages. */
  function Rank(m: Main): nat {
    match m
    case WaitTasks => 0 case CloseRetain => 1 case WaitRetain => 2 case CloseErrors => 3
    case WaitErrors => 4 case CheckErrors => 5 case Listing(_) => 6 case WaitQueue => 7
    case WaitVerifier => 8 case CloseProgress => 9 case WaitProgress => 10
    case CheckVerified => 11 case Decide => 12 case Deleting(_) => 13 case Returned => 14
  }

  /** The state after a list of actions, each of which must be enabled. */
  function Run(s: State, acts: seq<Action>): Outcome<State>
    decreases |acts|
  {
    if acts == [] then Stepped(s)
    else
      var s' :- Step(s, acts[0]);
      Run(s', acts[1..])
  }

  // ---------------------------------------------------------------- the main goroutine's loops

  method ListPrunable(local: seq<Oid>, retained: set<Oid>) returns (prunable: seq<Oid>)
    ensures prunable == Prunable(local, retained)
  {
    prunable := [];
    for i := 0 to |local|
      invariant prunable == Prunable(local[..i], retained)
    {
      assert local[..i + 1][..i] == local[..i];
      if local[i] !in retained {
        prunable := prunable + [local[i]];
      }
    }
    assert local[..|local|] == local;
  }

  /** pruneCheckVerified's loop: the objects it reports. */
  method FindUnverified(prunable: seq<Oid>, reachable: set<Oid>, verified: set<Oid>) returns (problems: seq<Oid>)
    ensures problems == Unsafe(prunable, reachable, verified)
  {
    problems := [];
    for i := 0 to |prunable|
      invariant problems == Unsafe(prunable[..i], reachable, verified)
    {
      assert prunable[..i + 1][..i] == prunable[..i];
      if prunable[i] !in verified {
        if prunable[i] in reachable {
          problems := problems + [prunable[i]];
        }
      }
    }
    assert prunable[..|prunable|] == prunable;
  }
}
