/** End always returns: after it is called every step shrinks a measure, and a state
    in which nothing can move is one where End has returned and every results
    channel is closed. */
module WorkerPoolLiveness {
  import opened GoSync
  import opened WorkerPool
  import opened WorkerPoolSafety

  function JobWork(j: Job): nat {
    match j.status
    case Unsent => 10
    case Queued => 9
    case _ => 0
  }

  function WorkerWork(x: Worker): nat {
    match x.phase
    case AwaitAuth => 4
    case Receiving => 3
    case Running(_, cb) => if cb then 9 else 8
    case Delivering(_) => 7
    case Completing(_) => 5
    case Ending => if x.signal then 2 else 1
    case Ended => 0
  }

  function AddWork(c: AddCall): nat {
    |c.results.items| +
    match c.phase
    case Sending => 3
    case Waiting => 2
    case Closing => 1
    case Finished => 0
  }

  function CallerWork(c: Caller): nat {
    match c
    case Adding => 4
    case EndWaiting => 3
    case CloseJobs => 2
    case WaitWorkers => 1
    case Stopped => 0
  }

  function Measure(s: State): nat {
    Total(s.jobs, JobWork) + Total(s.workers, WorkerWork) + Total(s.adds, AddWork) + CallerWork(s.caller)
  }

  lemma {:induction false} WakeShrinks(adds: seq<AddCall>)
    ensures Total(Wake(adds), AddWork) <= Total(adds, AddWork)
  {
    if adds != [] {
      assert Wake(adds)[1..] == Wake(adds[1..]);
      WakeShrinks(adds[1..]);
    }
  }

  lemma FeedShrinks(s: State, k: nat)
    requires Owned(s.jobs, s.adds) && k < |s.adds| && Step(s, Feed(k)).Stepped?
    ensures Measure(Step(s, Feed(k)).next) < Measure(s)
  {
    hide Owned;
    var j := s.adds[k].next;
    NextIsUnsent(s.jobs, s.adds, k);
    TotalUpdate(s.adds, k, s.adds[k].(next := j + 1), AddWork);
    TotalUpdate(s.jobs, j, s.jobs[j].(status := Queued), JobWork);
  }

  lemma AddPhaseShrinks(s: State, a: Action, k: nat)
    requires k < |s.adds| && !a.Feed? && AddStep(s, a, k).Stepped?
    ensures Measure(AddStep(s, a, k).next) < Measure(s)
  {
    TotalUpdate(s.adds, k, AddStep(s, a, k).next.adds[k], AddWork);
  }

  lemma ReceiveShrinks(s: State, w: nat)
    requires QueueHolds(s.jobs, s.jobChan.items) && w < |s.workers| && Step(s, Receive(w)).Stepped?
    ensures Measure(Step(s, Receive(w)).next) < Measure(s)
  {
    var n := Step(s, Receive(w)).next;
    TotalUpdate(s.workers, w, n.workers[w], WorkerWork);
    if CanReceive(s.jobChan) {
      var j := s.jobChan.items[0];
      TotalUpdate(s.jobs, j, n.jobs[j], JobWork);
    }
  }

  lemma PhaseShrinks(s: State, a: Action, w: nat)
    requires w < |s.workers| && (a.WakeAuth? || a.Authenticate? || a.Transferred? || a.SignalAtEnd? || a.Leave?)
    requires WorkerStep(s, a, w).Stepped?
    ensures Measure(WorkerStep(s, a, w).next) < Measure(s)
  {
    TotalUpdate(s.workers, w, WorkerStep(s, a, w).next.workers[w], WorkerWork);
  }

  lemma DeliverShrinks(s: State, w: nat)
    requires WorkersHold(s.jobs, s.workers) && w < |s.workers| && Step(s, Deliver(w)).Stepped?
    ensures Measure(Step(s, Deliver(w)).next) < Measure(s)
  {
    hide WorkersHold;
    DeliverKeepsHold(s.jobs, s.workers, w);
    var n := Step(s, Deliver(w)).next;
    var j := s.workers[w].phase.job;
    TotalUpdate(s.workers, w, n.workers[w], WorkerWork);
    TotalUpdate(s.jobs, j, n.jobs[j], JobWork);
    TotalUpdate(s.adds, s.jobs[j].owner, n.adds[s.jobs[j].owner], AddWork);
  }

  lemma CompleteShrinks(s: State, w: nat)
    requires WorkersHold(s.jobs, s.workers) && w < |s.workers| && Step(s, Complete(w)).Stepped?
    ensures Measure(Step(s, Complete(w)).next) < Measure(s)
  {
    hide WorkersHold;
    CompleteKeepsHold(s.jobs, s.workers, w);
    var n := Step(s, Complete(w)).next;
    var j := s.workers[w].phase.job;
    TotalUpdate(s.workers, w, n.workers[w], WorkerWork);
    TotalUpdate(s.jobs, j, n.jobs[j], JobWork);
    WakeShrinks(s.adds);
  }

  /** Every step but a new call of Add shrinks the measure. */
  lemma StepShrinks(s: State, a: Action)
    requires Inv(s) && !a.Add? && Step(s, a).Stepped?
    ensures Measure(Step(s, a).next) < Measure(s)
  {
    hide Owned, QueueHolds, WorkersHold, AddsGood, Gated, AddStep, FinishStep, Measure;
    match a
    case Feed(k) => FeedShrinks(s, k);
    case StartWait(k) => AddPhaseShrinks(s, a, k);
    case CloseResults(k) => AddPhaseShrinks(s, a, k);
    case Consume(k) => AddPhaseShrinks(s, a, k);
    case Receive(w) => ReceiveShrinks(s, w);
    case Deliver(w) => DeliverShrinks(s, w);
    case Complete(w) => CompleteShrinks(s, w);
    case WakeAuth(w) => PhaseShrinks(s, a, w);
    case Authenticate(w) => PhaseShrinks(s, a, w);
    case Transferred(w) => PhaseShrinks(s, a, w);
    case SignalAtEnd(w) => PhaseShrinks(s, a, w);
    case Leave(w) => PhaseShrinks(s, a, w);
    case _ => CallerShrinks(s, a);
  }

  lemma CallerShrinks(s: State, a: Action)
    requires !a.Add? && CallerStep(s, a).Stepped?
    ensures Measure(CallerStep(s, a).next) < Measure(s)
  {
  }

  lemma EndIsFinal(s: State, a: Action)
    requires s.caller != Adding && Step(s, a).Stepped?
    ensures !a.Add? && Step(s, a).next.caller != Adding
  {
  }

  /** After End is called, no run is longer than the measure. */
  lemma {:induction false} RunsAfterEndAreBounded(s: State, acts: seq<Action>)
    requires Inv(s) && s.caller != Adding && Run(s, acts).Stepped?
    ensures |acts| <= Measure(s)
    decreases |acts|
  {
    hide Inv, Step, Measure;
    if acts != [] {
      StepKeepsInv(s, acts[0]);
      EndIsFinal(s, acts[0]);
      StepShrinks(s, acts[0]);
      RunsAfterEndAreBounded(Step(s, acts[0]).next, acts[1..]);
    }
  }

  // ---------------------------------------------------------------- progress

  /** A worker that is past the gate and not waiting for a job can move. */
  lemma BusyWorkerCanMove(s: State, w: nat) returns (a: Action)
    requires Inv(s) && w < |s.workers|
    requires !s.workers[w].phase.AwaitAuth? && !s.workers[w].phase.Ended?
    requires s.workers[w].phase == Receiving ==> CanReceive(s.jobChan) || Drained(s.jobChan)
    ensures !a.Add? && Step(s, a).Stepped?
  {
    hide Owned, WorkersHold, AddsGood, Gated;
    var x := s.workers[w];
    if x.phase.Receiving? {
      a := Receive(w);
    } else if x.phase.Running? {
      a := Transferred(w);
    } else if x.phase.Delivering? {
      DeliverKeepsInv(s, w);
      a := Deliver(w);
    } else if x.phase.Completing? {
      CompleteKeepsInv(s, w);
      a := Complete(w);
    } else {
      EndingKeepsInv(s, SignalAtEnd(w));
      EndingKeepsInv(s, Leave(w));
      a := if x.signal then SignalAtEnd(w) else Leave(w);
    }
  }

  /** A non-empty job channel is served at the latest by worker 0. */
  lemma WorkerZeroServes(s: State) returns (a: Action)
    requires Inv(s) && CanReceive(s.jobChan)
    ensures !a.Add? && Step(s, a).Stepped?
  {
    assert s.workers[0].phase != AwaitAuth && s.workers[0].phase != Ended by {
      hide Owned, QueueHolds, WorkersHold, AddsGood;
    }
    hide Owned, QueueHolds, WorkersHold, AddsGood, Gated;
    a := BusyWorkerCanMove(s, 0);
  }

  lemma UnsentJobIsFed(s: State, j: nat) returns (a: Action)
    requires Inv(s) && j < |s.jobs| && s.jobs[j].status == Unsent
    ensures !a.Add? && Step(s, a).Stepped?
  {
    var k := s.jobs[j].owner;
    assert k < |s.adds| && s.adds[k].next < s.adds[k].hi <= |s.jobs|;
    assert AddWaits(s.jobs, s.gates.jobWait, s.adds[k]);
    hide Owned, QueueHolds, WorkersHold, AddsGood, Gated;
    QueuedMeansOpen(s, j);
    if |s.jobChan.items| < s.jobChan.cap {
      a := Feed(k);
    } else {
      a := WorkerZeroServes(s);
    }
  }

  lemma OpenJobMoves(s: State) returns (a: Action)
    requires Inv(s) && s.gates.jobWait > 0
    ensures !a.Add? && Step(s, a).Stepped?
  {
    hide Owned, AddsGood, Gated;
    var j := TotalPositive(s.jobs, Undone);
    match s.jobs[j].status
    case Unsent => a := UnsentJobIsFed(s, j);
    case Queued => a := WorkerZeroServes(s);
    case Held(w) => a := BusyWorkerCanMove(s, w);
    case Delivered(w) => a := BusyWorkerCanMove(s, w);
    case Done => assert false;
  }

  lemma QueueIsEmptyAtClose(s: State)
    requires Inv(s) && s.gates.jobWait == 0
    ensures s.jobChan.items == []
    ensures forall k :: 0 <= k < |s.adds| ==> s.adds[k].next == s.adds[k].hi
  {
    if s.jobChan.items != [] {
      QueuedMeansOpen(s, s.jobChan.items[0]);
    }
    forall k | 0 <= k < |s.adds|
      ensures s.adds[k].next == s.adds[k].hi
    {
      if s.adds[k].next < s.adds[k].hi {
        NextIsUnsent(s.jobs, s.adds, k);
        QueuedMeansOpen(s, s.adds[k].next);
      }
    }
  }

  lemma WorkersDrain(s: State) returns (a: Action)
    requires Inv(s) && s.caller == WaitWorkers && s.gates.workerWait > 0
    ensures !a.Add? && Step(s, a).Stepped?
  {
    hide Owned, QueueHolds, WorkersHold, AddsGood;
    QueueIsEmptyAtClose(s);
    var w := TotalPositive(s.workers, Alive);
    if s.workers[w].phase.AwaitAuth? {
      if s.gates.authWait == 0 {
        a := WakeAuth(w);
      } else {
        a := BusyWorkerCanMove(s, 0);
      }
    } else {
      a := BusyWorkerCanMove(s, w);
    }
  }

  lemma AddFinishes(s: State, k: nat) returns (a: Action)
    requires Inv(s) && s.gates.jobWait == 0 && k < |s.adds| && s.adds[k].phase != Finished
    ensures !a.Add? && Step(s, a).Stepped?
  {
    hide Owned, QueueHolds, WorkersHold, Gated;
    QueueIsEmptyAtClose(s);
    assert Reported(s.jobs, s.adds[k]) && AddWaits(s.jobs, s.gates.jobWait, s.adds[k]);
    a := if s.adds[k].phase == Sending then StartWait(k) else CloseResults(k);
  }

  ghost predicate Final(s: State) {
    s.caller == Stopped && forall k :: 0 <= k < |s.adds| ==> s.adds[k].results.closed
  }

  /** After End is called, some goroutine can move until End has returned and every
      results channel is closed. */
  lemma SomeoneCanMove(s: State) returns (a: Action)
    requires Inv(s) && s.caller != Adding && !Final(s)
    ensures !a.Add? && Step(s, a).Stepped?
  {
    hide Owned, QueueHolds, WorkersHold, Gated, AddsGood;
    if s.gates.jobWait > 0 {
      a := OpenJobMoves(s);
    } else if s.caller == CloseJobs {
      a := CloseJobChan;
    } else if s.caller == WaitWorkers {
      if s.gates.workerWait > 0 {
        a := WorkersDrain(s);
      } else {
        a := ReturnFromEnd;
      }
    } else {
      var k :| 0 <= k < |s.adds| && !s.adds[k].results.closed;
      OpenResultsNotFinished(s, k);
      a := AddFinishes(s, k);
    }
  }

  lemma OpenResultsNotFinished(s: State, k: nat)
    requires AddsGood(s.jobs, s.gates.jobWait, s.adds) && k < |s.adds| && !s.adds[k].results.closed
    ensures s.adds[k].phase != Finished
  {
    assert Reported(s.jobs, s.adds[k]);
  }

  /** Once End has been called, every run ends within Measure steps, and a run that
      cannot be continued has returned from End with every results channel closed. */
  lemma {:induction false} EndReturns(n: nat, s: State, acts: seq<Action>)
    requires n > 0 && Reachable(n, s) && s.caller != Adding && Run(s, acts).Stepped?
    ensures |acts| <= Measure(s)
    ensures (forall a :: !Step(Run(s, acts).next, a).Stepped?) ==> Final(Run(s, acts).next)
  {
    hide Inv, Step, Measure;
    ReachableInv(n, s);
    RunsAfterEndAreBounded(s, acts);
    RunKeepsInv(s, acts);
    RunAfterEnd(s, acts);
    var t := Run(s, acts).next;
    if !Final(t) {
      var a := SomeoneCanMove(t);
    }
  }

  lemma {:induction false} RunAfterEnd(s: State, acts: seq<Action>)
    requires s.caller != Adding && Run(s, acts).Stepped?
    ensures Run(s, acts).next.caller != Adding
    decreases |acts|
  {
    hide Step;
    if acts != [] {
      EndIsFinal(s, acts[0]);
      RunAfterEnd(Step(s, acts[0]).next, acts[1..]);
    }
  }
}
