/** Safety and progress of every run of prune. */
module PruneSafety {
  import opened GoSync
  import opened Prune

  // ---------------------------------------------------------------- invariant

  function Credit(t: Task): nat {
    match t.phase
    case Releasing => 0
    case Finished => 0
    case Starting(_) => 2
    case _ => 1
  }

  function Holds(t: Task): nat {
    if t.phase.InCallback? || t.phase == Releasing then 1
    else if TakesSem(t.kind) && (t.phase == Running || t.phase.SendRetain? || t.phase.SendError?) then 1
    else 0
  }

  function OwedErrors(t: Task): nat {
    match t.phase
    case SendError(_) => 1
    case AwaitCallback(Problem(_)) => 1
    case InCallback(Problem(_)) => 1
    case _ => 0
  }

  /** Phases a task of each kind can be in. */
  ghost predicate WellTyped(t: Task) {
    match t.phase
    case AwaitSem => TakesSem(t.kind)
    case Running => true
    case SendRetain(_) => Retains(t.kind)
    case SendError(_) => t.kind != LocalObjects
    case SendProgress => t.kind == LocalObjects
    case AwaitCallback(_) => t.kind == Reachable
    case InCallback(_) => t.kind == Reachable
    case Starting(k) => Spawns(t.kind, k)
    case Releasing => TakesSem(t.kind)
    case Finished => true
  }

  /** The WaitGroup counts the tasks that may still act, the semaphore its holders,
      and every error ever reported is collected, queued or still being sent. */
  ghost predicate CountedIn(p: Pool, failures: nat, errors: seq<Error>, queued: seq<Error>, semCap: nat) {
    && (forall i :: 0 <= i < |p.tasks| ==> WellTyped(p.tasks[i]))
    && p.taskwait == Total(p.tasks, Credit)
    && p.sem == Total(p.tasks, Holds) <= semCap
    && failures == |errors| + |queued| + Total(p.tasks, OwedErrors)
  }

  ghost predicate Counted(s: Scan, semCap: nat) {
    CountedIn(s.pool, s.log.failures, s.log.errors, s.chans.error.items, semCap)
  }

  ghost predicate Pending(tasks: seq<Task>, o: Oid) {
    exists i :: 0 <= i < |tasks| && tasks[i].phase == SendRetain(o)
  }

  /** Every retention report is collected, queued or still being sent. */
  ghost predicate MarkedIn(reported: set<Oid>, retained: set<Oid>, queued: seq<Oid>, tasks: seq<Task>) {
    && retained <= reported
    && (forall o :: o in queued ==> o in reported)
    && (forall i :: 0 <= i < |tasks| && tasks[i].phase.SendRetain? ==> tasks[i].phase.oid in reported)
    && (forall o :: o in reported ==> o in retained || o in queued || Pending(tasks, o))
  }

  ghost predicate Marked(s: Scan) {
    MarkedIn(s.log.reported, s.log.retained, s.chans.retain.items, s.pool.tasks)
  }

  /** What the position of the main goroutine says about channels and collectors. */
  ghost predicate Ordered(m: Main, verify: bool, wait: int, errors: seq<Error>, c: Channels, who: Collectors) {
    var r := Rank(m);
    && (r >= 1 ==> wait == 0)
    && (c.retain.closed <==> r >= 2)
    && (c.error.closed <==> r >= 4)
    && (c.progress.closed <==> r >= 10)
    && (r >= 3 ==> who.retain == Stopped)
    && (r >= 5 ==> who.error == Stopped)
    && (r >= 6 ==> errors == [])
    && (r >= 11 ==> who.display == Stopped)
    && (who.retain == Stopped ==> Drained(c.retain))
    && (who.error == Stopped ==> Drained(c.error))
    && (who.display == Stopped ==> Drained(c.progress))
    && who.retain != Unstarted && who.error in {Receiving, Stopped} && who.display in {Receiving, Stopped}
    && c.retain.cap > 0 && c.error.cap > 0 && c.progress.cap > 0
    && (r in {7, 8, 11} ==> verify)
  }

  ghost predicate Watched(m: Main, verify: bool, w: Sweep) {
    var r := Rank(m);
    && (w.verifier != Unstarted <==> verify && r >= 6)
    && (w.watch.closed <==> verify && r >= 8)
    && (verify && r >= 9 ==> w.verifier == Stopped)
    && (w.verifier == Stopped ==> Drained(w.watch))
  }

  ghost predicate Listed(m: Main, local: seq<Oid>, retained: set<Oid>, prunable: seq<Oid>) {
    match m
    case Listing(i) => i <= |local| && prunable == Prunable(local[..i], retained)
    case _ => if Rank(m) < 6 then prunable == [] else prunable == Prunable(local, retained)
  }

  /** Every object of the list so far is deleted or lives at the null device. */
  ghost predicate Gone(prunable: seq<Oid>, upTo: nat, gone: set<Oid>) {
    upTo <= |prunable| && forall k :: 0 <= k < upTo ==> prunable[k] in gone
  }

  ghost predicate Swept(cfg: Config, m: Main, over: bool, reachable: set<Oid>, w: Sweep) {
    var gone := w.removed + w.skipped;
    && (cfg.verify && Rank(m) >= 12 ==> Unsafe(w.prunable, reachable, w.verified) == [])
    && (gone != {} ==> Rank(m) >= 13)
    && (Rank(m) == 13 || gone != {} ==> !cfg.dryRun)
    && (forall o :: o in gone ==> o in w.prunable)
    && (m.Deleting? ==> m.at <= |w.prunable| && (w.undeleted == 0 ==> Gone(w.prunable, m.at, gone)))
    && (m == Returned ==> over)
    && (m == Returned && !cfg.dryRun ==> Gone(w.prunable, |w.prunable|, gone))
  }

  ghost predicate Staged(s: State) {
    && Ordered(s.main, s.cfg.verify, s.scan.pool.taskwait, s.scan.log.errors, s.scan.chans, s.who)
    && Watched(s.main, s.cfg.verify, s.sweep)
    && Listed(s.main, s.scan.log.local, s.scan.log.retained, s.sweep.prunable)
    && Swept(s.cfg, s.main, s.over, s.scan.log.reachable, s.sweep)
  }

  ghost predicate Inv(s: State) {
    Counted(s.scan, s.cfg.semCap) && Marked(s.scan) && Staged(s)
  }

  // ---------------------------------------------------------------- task steps

  lemma PutTotals(p: Pool, i: nat, phase: Phase)
    requires i < |p.tasks|
    ensures var t := p.tasks[i].(phase := phase); var n := Put(p, i, phase).tasks;
            && Total(n, Credit) + Credit(p.tasks[i]) == Total(p.tasks, Credit) + Credit(t)
            && Total(n, Holds) + Holds(p.tasks[i]) == Total(p.tasks, Holds) + Holds(t)
            && Total(n, OwedErrors) + OwedErrors(p.tasks[i]) == Total(p.tasks, OwedErrors) + OwedErrors(t)
    ensures Credit(p.tasks[i]) <= Total(p.tasks, Credit)
    ensures Holds(p.tasks[i]) <= Total(p.tasks, Holds)
  {
    var t := p.tasks[i].(phase := phase);
    TotalUpdate(p.tasks, i, t, Credit);
    TotalUpdate(p.tasks, i, t, Holds);
    TotalUpdate(p.tasks, i, t, OwedErrors);
    TotalAtLeast(p.tasks, i, Credit);
    TotalAtLeast(p.tasks, i, Holds);
  }

  lemma TransmitKeepsCount(s: Scan, semCap: nat, i: nat)
    requires Counted(s, semCap) && i < |s.pool.tasks| && TransmitStep(s, i).Stepped?
    ensures Counted(TransmitStep(s, i).next, semCap)
  {
    assert WellTyped(s.pool.tasks[i]);
    PutTotals(s.pool, i, Running);
  }

  lemma FindingKeepsCount(s: Scan, semCap: nat, i: nat, op: TaskOp)
    requires Counted(s, semCap) && i < |s.pool.tasks| && (op.FoundLocal? || op.Found? || op.Fail? || op.Reach?)
    requires TaskStep(s, semCap, i, op).Stepped?
    ensures Counted(TaskStep(s, semCap, i, op).next, semCap)
  {
    assert WellTyped(s.pool.tasks[i]);
    PutTotals(s.pool, i, TaskStep(s, semCap, i, op).next.pool.tasks[i].phase);
  }

  lemma ControlKeepsCount(s: Scan, semCap: nat, i: nat, op: TaskOp)
    requires Counted(s, semCap) && i < |s.pool.tasks|
    requires op.AddChild? || op.Acquire? || op.Release? || op.Finish?
    requires TaskStep(s, semCap, i, op).Stepped?
    ensures Counted(TaskStep(s, semCap, i, op).next, semCap)
  {
    assert WellTyped(s.pool.tasks[i]);
    PutTotals(s.pool, i, ControlStep(s.pool, semCap, i, op).next.tasks[i].phase);
  }

  lemma PhaseStepKeepsCount(s: Scan, semCap: nat, i: nat, op: TaskOp)
    requires Counted(s, semCap) && i < |s.pool.tasks| && op != GoChild && op != Transmit
    requires TaskStep(s, semCap, i, op).Stepped?
    ensures Counted(TaskStep(s, semCap, i, op).next, semCap)
  {
    hide Counted, TaskStep;
    if op.FoundLocal? || op.Found? || op.Fail? || op.Reach? {
      FindingKeepsCount(s, semCap, i, op);
    } else {
      ControlKeepsCount(s, semCap, i, op);
    }
  }

  lemma SpawnKeepsCount(s: Scan, semCap: nat, i: nat)
    requires Counted(s, semCap) && i < |s.pool.tasks|
    requires TaskStep(s, semCap, i, GoChild).Stepped?
    ensures Counted(TaskStep(s, semCap, i, GoChild).next, semCap)
  {
    var p := Put(s.pool, i, Running);
    var child := Task(s.pool.tasks[i].phase.child, AwaitSem);
    assert WellTyped(s.pool.tasks[i]);
    PutTotals(s.pool, i, Running);
    TotalAppend(p.tasks, child, Credit);
    TotalAppend(p.tasks, child, Holds);
    TotalAppend(p.tasks, child, OwedErrors);
  }

  /** A report that was being sent elsewhere is still being sent. */
  lemma StillPending(tasks: seq<Task>, tasks': seq<Task>, o: Oid, i: nat)
    requires Pending(tasks, o) && |tasks| <= |tasks'|
    requires forall k :: 0 <= k < |tasks| && k != i ==> tasks'[k] == tasks[k]
    requires i < |tasks| ==> tasks[i].phase != SendRetain(o)
    ensures Pending(tasks', o)
  {
    var k :| 0 <= k < |tasks| && tasks[k].phase == SendRetain(o);
    assert tasks'[k].phase == SendRetain(o);
  }

  lemma QuietStepKeepsMarks(s: Scan, semCap: nat, i: nat, op: TaskOp)
    requires Marked(s) && i < |s.pool.tasks| && !op.Found? && op != Transmit
    requires TaskStep(s, semCap, i, op).Stepped?
    ensures Marked(TaskStep(s, semCap, i, op).next)
  {
    var n := TaskStep(s, semCap, i, op).next;
    forall o | o in n.log.reported && o !in n.log.retained && o !in n.chans.retain.items
      ensures Pending(n.pool.tasks, o)
    {
      StillPending(s.pool.tasks, n.pool.tasks, o, i);
    }
  }

  lemma FoundKeepsMarks(s: Scan, semCap: nat, i: nat, x: Oid)
    requires Marked(s) && i < |s.pool.tasks|
    requires TaskStep(s, semCap, i, Found(x)).Stepped?
    ensures Marked(TaskStep(s, semCap, i, Found(x)).next)
  {
    var n := TaskStep(s, semCap, i, Found(x)).next;
    assert n.pool.tasks[i].phase == SendRetain(x);
    forall o | o in n.log.reported && o !in n.log.retained && o !in n.chans.retain.items && o != x
      ensures Pending(n.pool.tasks, o)
    {
      StillPending(s.pool.tasks, n.pool.tasks, o, i);
    }
  }

  lemma TransmitKeepsMarks(s: Scan, i: nat)
    requires Marked(s) && i < |s.pool.tasks| && TransmitStep(s, i).Stepped?
    ensures Marked(TransmitStep(s, i).next)
  {
    var n := TransmitStep(s, i).next;
    var sent := if s.pool.tasks[i].phase.SendRetain? then [s.pool.tasks[i].phase.oid] else [];
    assert n.chans.retain.items == s.chans.retain.items + sent;
    forall o | o in n.log.reported && o !in n.log.retained && o !in n.chans.retain.items
      ensures Pending(n.pool.tasks, o)
    {
      assert o !in sent;
      StillPending(s.pool.tasks, n.pool.tasks, o, i);
    }
  }

  /** A task that can still report, fail or spawn keeps the main goroutine waiting. */
  lemma LiveTaskHoldsMain(s: State, i: nat)
    requires Counted(s.scan, s.cfg.semCap) && Staged(s)
    requires i < |s.scan.pool.tasks| && Credit(s.scan.pool.tasks[i]) > 0
    ensures s.main == WaitTasks && s.scan.pool.taskwait > 0
  {
    TotalAtLeast(s.scan.pool.tasks, i, Credit);
  }

  /** What a task step leaves alone. */
  lemma TaskFrame(s: Scan, semCap: nat, i: nat, op: TaskOp)
    requires i < |s.pool.tasks| && TaskStep(s, semCap, i, op).Stepped?
    ensures var n := TaskStep(s, semCap, i, op).next;
            && n.log.retained == s.log.retained && n.log.errors == s.log.errors
            && n.chans.retain == s.chans.retain.(items := n.chans.retain.items)
            && n.chans.error == s.chans.error.(items := n.chans.error.items)
            && n.chans.progress == s.chans.progress.(items := n.chans.progress.items)
            && (op == Release ==> n.chans == s.chans && n.log == s.log && n.pool.taskwait == s.pool.taskwait)
            && (op != Release ==> Credit(s.pool.tasks[i]) > 0)
  {
  }

  lemma EarlyStepKeepsStages(s: State, c: Scan)
    requires Staged(s) && s.main == WaitTasks
    requires c.log.retained == s.scan.log.retained && c.log.errors == s.scan.log.errors
    requires c.chans.retain == s.scan.chans.retain.(items := c.chans.retain.items)
    requires c.chans.error == s.scan.chans.error.(items := c.chans.error.items)
    requires c.chans.progress == s.scan.chans.progress.(items := c.chans.progress.items)
    ensures Staged(s.(scan := c))
  {
  }

  lemma TaskStepKeepsInv(s: State, i: nat, op: TaskOp)
    requires Inv(s) && i < |s.scan.pool.tasks|
    requires TaskStep(s.scan, s.cfg.semCap, i, op).Stepped?
    ensures Inv(s.(scan := TaskStep(s.scan, s.cfg.semCap, i, op).next))
  {
    TaskFrame(s.scan, s.cfg.semCap, i, op);
    if op != Release {
      LiveTaskHoldsMain(s, i);
      EarlyStepKeepsStages(s, TaskStep(s.scan, s.cfg.semCap, i, op).next);
    }
    match op
    case Transmit =>
      TransmitKeepsCount(s.scan, s.cfg.semCap, i);
      TransmitKeepsMarks(s.scan, i);
    case GoChild =>
      SpawnKeepsCount(s.scan, s.cfg.semCap, i);
      QuietStepKeepsMarks(s.scan, s.cfg.semCap, i, op);
    case Found(o) =>
      PhaseStepKeepsCount(s.scan, s.cfg.semCap, i, op);
      FoundKeepsMarks(s.scan, s.cfg.semCap, i, o);
    case _ =>
      PhaseStepKeepsCount(s.scan, s.cfg.semCap, i, op);
      QuietStepKeepsMarks(s.scan, s.cfg.semCap, i, op);
  }

  /** No task sends on a closed channel or drives the WaitGroup below zero. */
  lemma TaskNeverPanics(s: State, i: nat, op: TaskOp)
    requires Counted(s.scan, s.cfg.semCap) && Staged(s) && i < |s.scan.pool.tasks|
    ensures TaskStep(s.scan, s.cfg.semCap, i, op) != Panicked
  {
    if Credit(s.scan.pool.tasks[i]) > 0 {
      LiveTaskHoldsMain(s, i);
    }
  }

  // ---------------------------------------------------------------- collectors

  lemma CollectRetainedKeepsInv(s: State)
    requires Inv(s) && CollectRetainedStep(s).Stepped?
    ensures Inv(CollectRetainedStep(s).next)
  {
    var n := CollectRetainedStep(s).next;
    if CanReceive(s.scan.chans.retain) {
      assert s.scan.chans.retain.items == [s.scan.chans.retain.items[0]] + n.scan.chans.retain.items;
    }
  }

  lemma CollectErrorKeepsInv(s: State)
    requires Inv(s) && CollectErrorStep(s).Stepped?
    ensures Inv(CollectErrorStep(s).next)
  {
  }

  lemma ShowProgressKeepsInv(s: State)
    requires Inv(s) && ShowProgressStep(s).Stepped?
    ensures Inv(ShowProgressStep(s).next)
  {
  }

  lemma VerifierKeepsInv(s: State, a: Action)
    requires Inv(s) && (a.Emit? || a == CollectVerified || a == ReportVerified || a == ReportRetained)
    ensures Step(s, a) != Panicked
    ensures Step(s, a).Stepped? ==> Inv(Step(s, a).next)
  {
  }

  // ---------------------------------------------------------------- main goroutine

  lemma CollectKeepsStages(s: State)
    requires Staged(s) && Rank(s.main) < 6
    ensures CollectStep(s) != Panicked
    ensures CollectStep(s).Stepped? ==> Staged(CollectStep(s).next)
  {
  }

  lemma ListingKeepsStages(s: State)
    requires Staged(s) && s.main.Listing?
    ensures ListStep(s).Stepped? && Staged(ListStep(s).next)
  {
    var i, local := s.main.next, s.scan.log.local;
    if i < |local| {
      assert local[..i + 1][..i] == local[..i];
    } else {
      assert local[..i] == local;
    }
  }

  lemma ListKeepsStages(s: State)
    requires Staged(s) && !s.over && !s.main.Listing?
    ensures ListStep(s) != Panicked
    ensures ListStep(s).Stepped? ==> Staged(ListStep(s).next)
  {
  }

  lemma DecideKeepsStages(s: State)
    requires Staged(s) && !s.over && Rank(s.main) >= 11
    ensures DecideStep(s) != Panicked
    ensures DecideStep(s).Stepped? ==> Staged(DecideStep(s).next)
  {
  }

  lemma DeleteKeepsStages(s: State, d: Deletion)
    requires Staged(s) && s.main.Deleting?
    ensures DeleteStep(s, d).Stepped? && Staged(DeleteStep(s, d).next)
  {
    var n := DeleteStep(s, d).next;
    if s.main.at < |s.sweep.prunable| && d != Undeletable {
      assert n.sweep.removed + n.sweep.skipped
          == s.sweep.removed + s.sweep.skipped + {s.sweep.prunable[s.main.at]};
    }
  }

  /** The main goroutine closes channels but collects nothing itself. */
  lemma MainFrame(s: State, d: Deletion)
    requires Step(s, OfMain(d)).Stepped?
    ensures var n := Step(s, OfMain(d)).next;
            && n.cfg == s.cfg && n.scan.pool == s.scan.pool && n.scan.log == s.scan.log
            && n.scan.chans.retain.items == s.scan.chans.retain.items
            && n.scan.chans.error.items == s.scan.chans.error.items
  {
  }

  lemma MainKeepsInv(s: State, d: Deletion)
    requires Inv(s)
    ensures Step(s, OfMain(d)) != Panicked
    ensures Step(s, OfMain(d)).Stepped? ==> Inv(Step(s, OfMain(d)).next)
  {
    if !s.over {
      if s.main.Deleting? {
        DeleteKeepsStages(s, d);
      } else if Rank(s.main) < 6 {
        CollectKeepsStages(s);
      } else if s.main.Listing? {
        ListingKeepsStages(s);
      } else if Rank(s.main) < 11 {
        ListKeepsStages(s);
      } else {
        DecideKeepsStages(s);
      }
      if Step(s, OfMain(d)).Stepped? {
        MainFrame(s, d);
      }
    }
  }

  lemma StepKeepsInv(s: State, a: Action)
    requires Inv(s)
    ensures Step(s, a) != Panicked
    ensures Step(s, a).Stepped? ==> Inv(Step(s, a).next)
  {
    match a
    case OfTask(i, op) =>
      if i < |s.scan.pool.tasks| {
        TaskNeverPanics(s, i, op);
        if Step(s, a).Stepped? {
          TaskStepKeepsInv(s, i, op);
        }
      }
    case Fatal(_) =>
    case OfMain(d) => MainKeepsInv(s, d);
    case CollectRetained => if Step(s, a).Stepped? { CollectRetainedKeepsInv(s); }
    case CollectError => if Step(s, a).Stepped? { CollectErrorKeepsInv(s); }
    case ShowProgress => if Step(s, a).Stepped? { ShowProgressKeepsInv(s); }
    case _ => VerifierKeepsInv(s, a);
  }

  lemma StartInv(cfg: Config)
    ensures Inv(Start(cfg))
  {
    var tasks := Start(cfg).scan.pool.tasks;
    TotalUniform(tasks, Credit, 1);
    TotalUniform(tasks, Holds, 0);
    TotalUniform(tasks, OwedErrors, 0);
  }

  lemma {:induction false} RunKeepsInv(s: State, acts: seq<Action>)
    requires Inv(s)
    ensures Run(s, acts) != Panicked
    ensures Run(s, acts).Stepped? ==> Inv(Run(s, acts).next)
    decreases |acts|
  {
    if acts != [] {
      StepKeepsInv(s, acts[0]);
      if Step(s, acts[0]).Stepped? {
        RunKeepsInv(Step(s, acts[0]).next, acts[1..]);
      }
    }
  }

  // ---------------------------------------------------------------- theorems

  /** In no interleaving does a goroutine send on or close a closed channel, or
      drive a WaitGroup below zero. */
  lemma {:induction false} NoRunPanics(cfg: Config, acts: seq<Action>)
    ensures Run(Start(cfg), acts) != Panicked
  {
    StartInv(cfg);
    RunKeepsInv(Start(cfg), acts);
  }

  /** In every state of every run, what has been removed is a local object that no
      retention task ever reported; no task reported an error; this is no dry run;
      and with verification the object is on the remote or unreachable. */
  lemma {:induction false} RemovedObjectsAreSafe(cfg: Config, acts: seq<Action>, o: Oid)
    requires Run(Start(cfg), acts).Stepped?
    requires o in Run(Start(cfg), acts).next.sweep.removed
    ensures var s := Run(Start(cfg), acts).next;
            && o in s.scan.log.local
            && o !in s.scan.log.reported
            && s.scan.log.failures == 0
            && !s.cfg.dryRun
            && (s.cfg.verify ==> o in s.sweep.verified || o !in s.scan.log.reachable)
  {
    StartInv(cfg);
    RunKeepsInv(Start(cfg), acts);
    var s := Run(Start(cfg), acts).next;
    assert o in s.sweep.removed + s.sweep.skipped;
    NothingInFlight(s);
    NothingOwed(s);
    assert o !in Unsafe(s.sweep.prunable, s.scan.log.reachable, s.sweep.verified) || !s.cfg.verify;
  }

  /** Once main has passed the waits, the retained set is exactly what was reported. */
  lemma NothingInFlight(s: State)
    requires Inv(s) && Rank(s.main) >= 3
    ensures s.scan.log.retained == s.scan.log.reported
  {
    forall o | o in s.scan.log.reported
      ensures o in s.scan.log.retained
    {
      if o !in s.scan.log.retained {
        var i :| 0 <= i < |s.scan.pool.tasks| && s.scan.pool.tasks[i].phase == SendRetain(o);
        TotalAtLeast(s.scan.pool.tasks, i, Credit);
        assert false;
      }
    }
  }

  lemma NothingOwed(s: State)
    requires Inv(s) && Rank(s.main) >= 6
    ensures s.scan.log.failures == 0
  {
    if Total(s.scan.pool.tasks, OwedErrors) > 0 {
      var i := TotalPositive(s.scan.pool.tasks, OwedErrors);
      TotalAtLeast(s.scan.pool.tasks, i, Credit);
    }
  }

  /** A prune that returns normally and is no dry run has dealt with every local
      object that was not reported, and with nothing else. */
  lemma {:induction false} ReturnedPruneIsComplete(cfg: Config, acts: seq<Action>, o: Oid)
    requires Run(Start(cfg), acts).Stepped?
    requires Run(Start(cfg), acts).next.main == Returned && !cfg.dryRun
    ensures var s := Run(Start(cfg), acts).next;
            o in s.sweep.removed + s.sweep.skipped <==> o in s.scan.log.local && o !in s.scan.log.reported
  {
    StartInv(cfg);
    RunKeepsInv(Start(cfg), acts);
    RunKeepsConfig(Start(cfg), acts);
    NothingInFlight(Run(Start(cfg), acts).next);
  }

  lemma {:induction false} RunKeepsConfig(s: State, acts: seq<Action>)
    ensures Run(s, acts).Stepped? ==> Run(s, acts).next.cfg == s.cfg
    decreases |acts|
  {
    if acts != [] && Step(s, acts[0]).Stepped? {
      RunKeepsConfig(Step(s, acts[0]).next, acts[1..]);
    }
  }

  // ---------------------------------------------------------------- no deadlock

  /** What the scanners find and the remote reports; the rest is prune's own work. */
  predicate External(a: Action) {
    || a.Emit?
    || (a.OfTask? && (a.op.FoundLocal? || a.op.Found? || a.op.Fail? || a.op.Reach? || a.op.AddChild?))
  }

  /** If the progress channel is full its display goroutine can make room. */
  lemma ReportOrShow(s: State, report: Action) returns (a: Action)
    requires Inv(s) && !s.over
    requires (report == ReportRetained && s.who.retain == Reporting)
          || (report == ReportVerified && s.sweep.verifier == Reporting)
    ensures Step(s, a).Stepped? && !External(a)
  {
    if |s.scan.chans.progress.items| < s.scan.chans.progress.cap {
      a := report;
    } else {
      a := ShowProgress;
    }
  }

  /** A task that wants to send can send, or a collector can make room for it. */
  lemma TransmitOrCollect(s: State, i: nat) returns (a: Action)
    requires Inv(s) && !s.over && i < |s.scan.pool.tasks|
    requires s.scan.pool.tasks[i].phase.SendRetain? || s.scan.pool.tasks[i].phase.SendError?
          || s.scan.pool.tasks[i].phase.SendProgress? || s.scan.pool.tasks[i].phase.InCallback?
    ensures Step(s, a).Stepped? && !External(a)
  {
    LiveTaskHoldsMain(s, i);
    a := OfTask(i, Transmit);
    if !Step(s, a).Stepped? {
      match s.scan.pool.tasks[i].phase
      case SendRetain(_) =>
        if s.who.retain == Receiving {
          a := CollectRetained;
        } else {
          a := ReportOrShow(s, ReportRetained);
        }
      case SendProgress => a := ShowProgress;
      case _ => a := CollectError;
    }
  }

  lemma TaskCanMove(s: State, i: nat) returns (a: Action)
    requires Inv(s) && !s.over && i < |s.scan.pool.tasks|
    requires Credit(s.scan.pool.tasks[i]) > 0 || s.scan.pool.tasks[i].phase == Releasing
    requires !s.scan.pool.tasks[i].phase.AwaitSem? && !s.scan.pool.tasks[i].phase.AwaitCallback?
    ensures Step(s, a).Stepped? && !External(a)
  {
    match s.scan.pool.tasks[i].phase
    case Running => LiveTaskHoldsMain(s, i); a := OfTask(i, Finish);
    case Starting(_) => a := OfTask(i, GoChild);
    case Releasing => a := OfTask(i, Release);
    case _ => a := TransmitOrCollect(s, i);
  }

  lemma TasksCanMove(s: State) returns (a: Action)
    requires Inv(s) && !s.over && s.cfg.semCap > 0 && s.scan.pool.taskwait > 0
    ensures Step(s, a).Stepped? && !External(a)
  {
    var i := TotalPositive(s.scan.pool.tasks, Credit);
    var phase := s.scan.pool.tasks[i].phase;
    if phase.AwaitSem? || phase.AwaitCallback? {
      if s.scan.pool.sem < s.cfg.semCap {
        a := OfTask(i, Acquire);
      } else {
        var j := TotalPositive(s.scan.pool.tasks, Holds);
        a := TaskCanMove(s, j);
      }
    } else {
      a := TaskCanMove(s, i);
    }
  }

  lemma CollectorsCanMove(s: State) returns (a: Action)
    requires Inv(s) && !s.over && s.main in {WaitRetain, WaitErrors, WaitVerifier, WaitProgress}
    ensures Step(s, a).Stepped? && !External(a)
  {
    match s.main
    case WaitRetain =>
      match s.who.retain {
        case Stopped => a := OfMain(Removed);
        case Reporting => a := ReportOrShow(s, ReportRetained);
        case _ => a := CollectRetained;
      }
    case WaitErrors =>
      a := if s.who.error == Stopped then OfMain(Removed) else CollectError;
    case WaitVerifier =>
      match s.sweep.verifier {
        case Stopped => a := OfMain(Removed);
        case Reporting => a := ReportOrShow(s, ReportVerified);
        case _ => a := CollectVerified;
      }
    case _ =>
      a := if s.who.display == Stopped then OfMain(Removed) else ShowProgress;
  }

  lemma SomeoneCanMove(s: State) returns (a: Action)
    requires Inv(s) && !s.over && s.cfg.semCap > 0
    ensures Step(s, a).Stepped? && !External(a)
  {
    if s.main == WaitTasks && s.scan.pool.taskwait > 0 {
      a := TasksCanMove(s);
    } else if s.main in {WaitRetain, WaitErrors, WaitVerifier, WaitProgress} {
      a := CollectorsCanMove(s);
    } else {
      a := OfMain(Removed);
    }
  }

  /** No reachable state short of the end is a deadlock: some goroutine can move
      without anything more being found. The semaphore has 2 * NumCPU slots, hence at least one. */
  lemma NoDeadlock(cfg: Config, acts: seq<Action>) returns (a: Action)
    requires cfg.semCap > 0
    requires Run(Start(cfg), acts).Stepped? && !Run(Start(cfg), acts).next.over
    ensures Step(Run(Start(cfg), acts).next, a).Stepped? && !External(a)
  {
    StartInv(cfg);
    RunKeepsInv(Start(cfg), acts);
    RunKeepsConfig(Start(cfg), acts);
    a := SomeoneCanMove(Run(Start(cfg), acts).next);
  }
}
