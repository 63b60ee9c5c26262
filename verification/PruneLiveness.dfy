/** Prune returns: once nothing more is found, every run ends. */
module PruneLiveness {
  import opened GoSync
  import opened Prune
  import opened PruneSafety

  /** The steps a task can still cause, in its own goroutine and in the collectors. */
  function TaskWork(t: Task): nat {
    match t.phase
    case AwaitSem => 3
    case Running => 2
    case SendRetain(_) => 6
    case SendError(_) => 4
    case SendProgress => 4
    case AwaitCallback(_) => 5
    case InCallback(_) => 4
    case Starting(_) => 6
    case Releasing => 1
    case Finished => 0
  }

  function CollectorWork(c: Collector): nat {
    match c
    case Unstarted => 1
    case Receiving => 1
    case Reporting => 3
    case Stopped => 0
  }

  function Minus(a: nat, b: nat): nat { if a > b then a - b else 0 }

  function MainWork(m: Main, local: nat, prunable: nat): nat {
    match m
    case Listing(i) => 24 + 2 * Minus(local, i) + prunable
    case Deleting(i) => 10 + Minus(prunable, i)
    case Returned => 0
    case _ => Minus(30, Rank(m)) + prunable + if Rank(m) < 6 then 2 + 2 * local else 0
  }

  function ScanWork(s: Scan): nat {
    Total(s.pool.tasks, TaskWork)
    + 3 * |s.chans.retain.items| + |s.chans.error.items| + |s.chans.progress.items|
  }

  function SweepWork(w: Sweep): nat { CollectorWork(w.verifier) + 3 * |w.watch.items| }

  function Work(s: State): nat {
    if s.over then 0
    else
      1 + ScanWork(s.scan) + SweepWork(s.sweep)
      + CollectorWork(s.who.retain) + CollectorWork(s.who.error) + CollectorWork(s.who.display)
      + MainWork(s.main, |s.scan.log.local|, |s.sweep.prunable|)
  }

  // ---------------------------------------------------------------- tasks

  lemma PutWork(p: Pool, i: nat, phase: Phase)
    requires i < |p.tasks|
    ensures Total(Put(p, i, phase).tasks, TaskWork) + TaskWork(p.tasks[i])
         == Total(p.tasks, TaskWork) + TaskWork(p.tasks[i].(phase := phase))
  {
    TotalUpdate(p.tasks, i, p.tasks[i].(phase := phase), TaskWork);
  }

  lemma TransmitWorks(s: Scan, i: nat)
    requires i < |s.pool.tasks| && TransmitStep(s, i).Stepped?
    ensures ScanWork(TransmitStep(s, i).next) < ScanWork(s) && TransmitStep(s, i).next.log.local == s.log.local
  {
    PutWork(s.pool, i, Running);
  }

  lemma ControlWorks(p: Pool, semCap: nat, i: nat, op: TaskOp)
    requires i < |p.tasks| && ControlStep(p, semCap, i, op).Stepped?
    ensures var n := Total(ControlStep(p, semCap, i, op).next.tasks, TaskWork);
            if op.AddChild? then n <= Total(p.tasks, TaskWork) + 4 else n < Total(p.tasks, TaskWork)
  {
    var t := p.tasks[i];
    match op
    case AddChild(k) => PutWork(p, i, Starting(k));
    case GoChild =>
      PutWork(p, i, Running);
      TotalAppend(Put(p, i, Running).tasks, Task(t.phase.child, AwaitSem), TaskWork);
    case Acquire => PutWork(p, i, if t.phase == AwaitSem then Running else InCallback(t.phase.report));
    case Release => PutWork(p, i, Finished);
    case Finish => PutWork(p, i, if TakesSem(t.kind) then Releasing else Finished);
    case _ =>
  }

  /** An external step of a task adds at most four steps of work. */
  lemma TaskWorks(s: Scan, semCap: nat, i: nat, op: TaskOp)
    requires i < |s.pool.tasks| && TaskStep(s, semCap, i, op).Stepped?
    ensures var n := TaskStep(s, semCap, i, op).next;
            if External(OfTask(i, op)) then
              ScanWork(n) + 2 * |n.log.local| <= ScanWork(s) + 2 * |s.log.local| + 4
              && |s.log.local| <= |n.log.local| <= |s.log.local| + 1
            else ScanWork(n) < ScanWork(s) && n.log.local == s.log.local
  {
    match op
    case FoundLocal(o) => PutWork(s.pool, i, SendProgress);
    case Found(o) => PutWork(s.pool, i, SendRetain(o));
    case Fail(e) => PutWork(s.pool, i, SendError(e));
    case Reach(r) => PutWork(s.pool, i, AwaitCallback(r));
    case Transmit => TransmitWorks(s, i);
    case _ => ControlWorks(s.pool, semCap, i, op);
  }

  // ---------------------------------------------------------------- every step

  lemma TaskStepWorks(s: State, i: nat, op: TaskOp)
    requires Step(s, OfTask(i, op)).Stepped?
    ensures Work(Step(s, OfTask(i, op)).next) <= Work(s) + (if External(OfTask(i, op)) then 4 else 0)
    ensures !External(OfTask(i, op)) ==> Work(Step(s, OfTask(i, op)).next) < Work(s)
  {
    hide ScanWork, TaskStep;
    TaskWorks(s.scan, s.cfg.semCap, i, op);
  }

  lemma CollectorWorks(s: State, a: Action)
    requires Step(s, a).Stepped?
    requires a.CollectRetained? || a.ReportRetained? || a.CollectError? || a.ShowProgress? || a.Fatal?
    ensures Work(Step(s, a).next) < Work(s)
  {
    hide MainWork, SweepWork;
  }

  lemma VerifierWorks(s: State, a: Action)
    requires Step(s, a).Stepped? && (a.Emit? || a.CollectVerified? || a.ReportVerified?)
    ensures Work(Step(s, a).next) <= Work(s) + (if a.Emit? then 3 else 0)
    ensures !a.Emit? ==> Work(Step(s, a).next) < Work(s)
  {
    hide MainWork;
  }

  lemma CollectWorks(s: State)
    requires !s.over && Rank(s.main) < 6 && CollectStep(s).Stepped?
    ensures Work(CollectStep(s).next) < Work(s)
  {
    hide ScanWork;
    SameItems(s.scan);
  }

  lemma ListWorks(s: State)
    requires !s.over && 6 <= Rank(s.main) < 11 && ListStep(s).Stepped?
    ensures Work(ListStep(s).next) < Work(s)
  {
    hide ScanWork, Prunable;
    SameItems(s.scan);
  }

  /** Closing a channel leaves the work queued in it. */
  lemma SameItems(s: Scan)
    ensures ScanWork(s.(chans := s.chans.(retain := s.chans.retain.(closed := true)))) == ScanWork(s)
    ensures ScanWork(s.(chans := s.chans.(error := s.chans.error.(closed := true)))) == ScanWork(s)
    ensures ScanWork(s.(chans := s.chans.(progress := s.chans.progress.(closed := true)))) == ScanWork(s)
  {
  }

  lemma SweepWorks(s: State, d: Deletion)
    requires !s.over && Rank(s.main) >= 11 && Step(s, OfMain(d)).Stepped?
    ensures Work(Step(s, OfMain(d)).next) < Work(s)
  {
    hide ScanWork, Unsafe;
  }

  lemma MainWorks(s: State, d: Deletion)
    requires Step(s, OfMain(d)).Stepped?
    ensures Work(Step(s, OfMain(d)).next) < Work(s)
  {
    hide Work, CollectStep, ListStep, DecideStep, DeleteStep;
    if Rank(s.main) < 6 {
      CollectWorks(s);
    } else if Rank(s.main) < 11 {
      ListWorks(s);
    } else {
      SweepWorks(s, d);
    }
  }

  lemma StepWorks(s: State, a: Action)
    requires Step(s, a).Stepped?
    ensures Work(Step(s, a).next) <= Work(s) + (if External(a) then 4 else 0)
    ensures !External(a) ==> Work(Step(s, a).next) < Work(s)
  {
    hide Step, Work;
    match a
    case OfTask(i, op) => TaskStepWorks(s, i, op);
    case OfMain(d) => MainWorks(s, d);
    case Emit(_) => VerifierWorks(s, a);
    case CollectVerified => VerifierWorks(s, a);
    case ReportVerified => VerifierWorks(s, a);
    case _ => CollectorWorks(s, a);
  }

  /** How much was found and reported in a run. */
  function Findings(acts: seq<Action>): nat {
    if acts == [] then 0 else (if External(acts[0]) then 1 else 0) + Findings(acts[1..])
  }

  lemma {:induction false} RunIsBounded(s: State, acts: seq<Action>)
    requires Run(s, acts).Stepped?
    ensures |acts| + Work(Run(s, acts).next) <= Work(s) + 5 * Findings(acts)
    decreases |acts|
  {
    hide Step, Work;
    if acts != [] {
      StepWorks(s, acts[0]);
      RunIsBounded(Step(s, acts[0]).next, acts[1..]);
    }
  }

  lemma StartWork(cfg: Config)
    ensures Work(Start(cfg)) <= 49
  {
    var tasks := Start(cfg).scan.pool.tasks;
    TotalUniform(tasks, TaskWork, 2);
  }

  // ---------------------------------------------------------------- prune returns

  /** A run in which n things are found or reported has at most 49 + 5n steps, and one
      that cannot go on without more being found has ended: pruned, refused or failed. */
  lemma {:induction false} PruneEnds(cfg: Config, acts: seq<Action>)
    requires cfg.semCap > 0 && Run(Start(cfg), acts).Stepped?
    ensures |acts| <= 49 + 5 * Findings(acts)
    ensures (forall a :: !External(a) ==> !Step(Run(Start(cfg), acts).next, a).Stepped?) ==>
              Run(Start(cfg), acts).next.over
  {
    hide Step, Work, External, Run;
    StartWork(cfg);
    RunIsBounded(Start(cfg), acts);
    if !Run(Start(cfg), acts).next.over {
      var a := NoDeadlock(cfg, acts);
      assert !External(a) && Step(Run(Start(cfg), acts).next, a).Stepped?;
    }
  }
}
