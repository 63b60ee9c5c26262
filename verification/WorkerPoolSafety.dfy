/** Conservation of jobs, close-safety, the auth gate and termination of the worker
    pool, over every run. */
module WorkerPoolSafety {
  import opened GoSync
  import opened WorkerPool

  // ---------------------------------------------------------------- invariant

  function Undone(j: Job): nat { if j.status.Done? then 0 else 1 }

  function Alive(w: Worker): nat { if w.phase.Ended? then 0 else 1 }

  ghost predicate NoDuplicates(s: seq<nat>) {
    forall i, j :: 0 <= i < j < |s| ==> s[i] != s[j]
  }

  /** Each job belongs to the call of Add whose range holds it, and is unsent
      exactly until that call has sent it. */
  ghost predicate Owned(jobs: seq<Job>, adds: seq<AddCall>) {
    && (forall j :: 0 <= j < |jobs| ==> jobs[j].owner < |adds| && adds[jobs[j].owner].lo <= j < adds[jobs[j].owner].hi)
    && (forall k :: 0 <= k < |adds| ==> adds[k].lo <= adds[k].next <= adds[k].hi <= |jobs|)
    && (forall k, j :: 0 <= k < |adds| && adds[k].lo <= j < adds[k].hi ==> jobs[j].owner == k)
    && (forall j :: 0 <= j < |jobs| ==> (jobs[j].status == Unsent <==> j >= adds[jobs[j].owner].next))
  }

  /** The job channel holds exactly the queued jobs, each once. */
  ghost predicate QueueHolds(jobs: seq<Job>, items: seq<nat>) {
    && NoDuplicates(items)
    && (forall i :: 0 <= i < |items| ==> items[i] < |jobs| && jobs[items[i]].status == Queued)
    && (forall j :: 0 <= j < |jobs| && jobs[j].status == Queued ==> j in items)
  }

  ghost predicate AtWork(x: Worker, j: nat) {
    (x.phase.Running? || x.phase.Delivering?) && x.phase.job == j
  }

  /** A held job is the one its worker is working on, and conversely. */
  ghost predicate WorkersHold(jobs: seq<Job>, workers: seq<Worker>) {
    && (forall w :: 0 <= w < |workers| && (workers[w].phase.Running? || workers[w].phase.Delivering?) ==>
          workers[w].phase.job < |jobs| && jobs[workers[w].phase.job].status == Held(w))
    && (forall w :: 0 <= w < |workers| && workers[w].phase.Completing? ==>
          workers[w].phase.job < |jobs| && jobs[workers[w].phase.job].status == Delivered(w))
    && (forall j :: 0 <= j < |jobs| && jobs[j].status.Held? ==>
          jobs[j].status.worker < |workers| && AtWork(workers[jobs[j].status.worker], j))
    && (forall j :: 0 <= j < |jobs| && jobs[j].status.Delivered? ==>
          jobs[j].status.worker < |workers| && workers[jobs[j].status.worker].phase == Completing(j))
  }

  predicate HasResult(j: Job) { j.status.Delivered? || j.status.Done? }

  /** The results of one call: each delivered job once, nothing else. */
  ghost predicate Reported(jobs: seq<Job>, c: AddCall) {
    && NoDuplicates(c.history)
    && (forall j :: j in c.history <==> c.lo <= j < c.hi && j < |jobs| && HasResult(jobs[j]))
    && c.results.cap == c.hi - c.lo
    && |c.results.items| <= |c.history|
    && c.results.items == c.history[|c.history| - |c.results.items|..]
    && (c.results.closed <==> c.phase == Finished)
  }

  ghost predicate AddWaits(jobs: seq<Job>, jobWait: int, c: AddCall) {
    && (c.phase != Sending ==> c.next == c.hi)
    && (c.phase == Waiting ==> jobWait > 0)
    && (c.phase == Closing || c.phase == Finished ==>
          forall j :: c.lo <= j < c.hi && j < |jobs| ==> jobs[j].status == Status.Done)
  }

  ghost predicate AddsGood(jobs: seq<Job>, jobWait: int, adds: seq<AddCall>) {
    forall k :: 0 <= k < |adds| ==> Reported(jobs, adds[k]) && AddWaits(jobs, jobWait, adds[k])
  }

  ghost predicate CallerWaits(caller: Caller, jobChan: Channel<nat>, g: Gates) {
    && (caller == EndWaiting ==> g.jobWait > 0)
    && (caller in {CloseJobs, WaitWorkers, Stopped} ==> g.jobWait == 0)
    && (jobChan.closed <==> caller in {WaitWorkers, Stopped})
    && (caller == Stopped ==> g.workerWait == 0)
    && jobChan.cap > 0
  }

  /** The auth gate: worker 0 opens it once, the others pass only then. */
  ghost predicate Gated(workers: seq<Worker>, jobChan: Channel<nat>, g: Gates) {
    && |workers| > 0
    && workers[0].phase != AwaitAuth
    && g.authWait == (if workers[0].signal then 1 else 0)
    && g.releases == 1 - g.authWait
    && (g.authReported ==> g.authWait == 0)
    && (g.authWait == 0 && !g.authReported ==> jobChan.closed)
    && (forall w :: 0 <= w < |workers| ==>
          && (workers[w].signal ==> w == 0)
          && (workers[w].phase.Running? && workers[w].phase.callback ==> workers[w].signal)
          && (w > 0 && workers[w].phase != AwaitAuth ==> g.authWait == 0)
          && (workers[w].phase == Ending || workers[w].phase == Ended ==> Drained(jobChan))
          && (workers[w].phase == Ended ==> !workers[w].signal))
  }

  ghost predicate Counted(s: State) {
    && s.gates.jobWait == Total(s.jobs, Undone)
    && s.gates.workerWait == Total(s.workers, Alive)
  }

  ghost predicate Inv(s: State) {
    && Counted(s)
    && Owned(s.jobs, s.adds)
    && QueueHolds(s.jobs, s.jobChan.items)
    && WorkersHold(s.jobs, s.workers)
    && AddsGood(s.jobs, s.gates.jobWait, s.adds)
    && CallerWaits(s.caller, s.jobChan, s.gates)
    && Gated(s.workers, s.jobChan, s.gates)
  }

  // ---------------------------------------------------------------- caller

  lemma {:induction false} TotalFresh(jobs: seq<Job>, n: nat, k: nat)
    ensures Total(jobs + seq(n, _ => Job(k, Unsent)), Undone) == Total(jobs, Undone) + n
  {
    if n == 0 {
      assert jobs + seq(n, _ => Job(k, Unsent)) == jobs;
    } else {
      TotalFresh(jobs, n - 1, k);
      var shorter := jobs + seq(n - 1, _ => Job(k, Unsent));
      assert jobs + seq(n, _ => Job(k, Unsent)) == shorter + [Job(k, Unsent)];
      TotalAppend(shorter, Job(k, Unsent), Undone);
    }
  }

  function Fresh(jobs: seq<Job>, n: nat, k: nat): seq<Job> { jobs + seq(n, _ => Job(k, Unsent)) }

  function NewCall(lo: nat, n: nat): AddCall { AddCall(lo, lo + n, lo, Sending, Channel(n, [], false), []) }

  lemma AddKeepsOwned(jobs: seq<Job>, adds: seq<AddCall>, n: nat)
    requires Owned(jobs, adds)
    ensures Owned(Fresh(jobs, n, |adds|), adds + [NewCall(|jobs|, n)])
  {
    var jobs', adds' := Fresh(jobs, n, |adds|), adds + [NewCall(|jobs|, n)];
    forall j | 0 <= j < |jobs'|
      ensures jobs'[j].owner < |adds'| && adds'[jobs'[j].owner].lo <= j < adds'[jobs'[j].owner].hi
      ensures jobs'[j].status == Unsent <==> j >= adds'[jobs'[j].owner].next
    {
      if j < |jobs| {
        assert jobs'[j] == jobs[j];
      } else {
        assert jobs'[j] == Job(|adds|, Unsent);
      }
    }
  }

  lemma AddKeepsJobPlaces(jobs: seq<Job>, items: seq<nat>, workers: seq<Worker>, n: nat, k: nat)
    requires QueueHolds(jobs, items) && WorkersHold(jobs, workers)
    ensures QueueHolds(Fresh(jobs, n, k), items) && WorkersHold(Fresh(jobs, n, k), workers)
  {
    var jobs' := Fresh(jobs, n, k);
    assert forall j :: 0 <= j < |jobs| ==> jobs'[j] == jobs[j];
    assert forall j :: |jobs| <= j < |jobs'| ==> jobs'[j].status == Unsent;
  }

  lemma AddKeepsResults(jobs: seq<Job>, wait: int, adds: seq<AddCall>, n: nat)
    requires AddsGood(jobs, wait, adds) && Owned(jobs, adds)
    ensures AddsGood(Fresh(jobs, n, |adds|), wait + n, adds + [NewCall(|jobs|, n)])
  {
    var jobs', adds' := Fresh(jobs, n, |adds|), adds + [NewCall(|jobs|, n)];
    assert forall j :: 0 <= j < |jobs| ==> jobs'[j] == jobs[j];
    forall k | 0 <= k < |adds'|
      ensures Reported(jobs', adds'[k]) && AddWaits(jobs', wait + n, adds'[k])
    {
      if k < |adds| {
        assert adds'[k] == adds[k] && Reported(jobs, adds[k]) && AddWaits(jobs, wait, adds[k]);
      } else {
        assert adds'[k] == NewCall(|jobs|, n);
        assert forall j :: |jobs| <= j < |jobs'| ==> jobs'[j].status == Unsent;
      }
    }
  }

  lemma AddKeepsInv(s: State, n: nat)
    requires Inv(s) && Step(s, Add(n)).Stepped?
    ensures Inv(Step(s, Add(n)).next)
  {
    hide Owned, QueueHolds, WorkersHold, AddsGood, Gated;
    TotalFresh(s.jobs, n, |s.adds|);
    AddKeepsOwned(s.jobs, s.adds, n);
    AddKeepsJobPlaces(s.jobs, s.jobChan.items, s.workers, n, |s.adds|);
    AddKeepsResults(s.jobs, s.gates.jobWait, s.adds, n);
    GateIgnoresJobs(s.workers, s.jobChan, s.gates, s.gates.jobWait + n, s.gates.workerWait);
  }

  /** The gate does not depend on the other WaitGroups. */
  lemma GateIgnoresJobs(workers: seq<Worker>, ch: Channel<nat>, g: Gates, jobWait: int, workerWait: int)
    requires Gated(workers, ch, g)
    ensures Gated(workers, ch, g.(jobWait := jobWait, workerWait := workerWait))
  {
  }

  /** While the channel is open no worker has left its loop. */
  lemma OpenQueueKeepsGate(workers: seq<Worker>, ch: Channel<nat>, g: Gates, items: seq<nat>)
    requires Gated(workers, ch, g) && !ch.closed
    ensures Gated(workers, ch.(items := items), g)
  {
  }

  lemma CallerKeepsInv(s: State, a: Action)
    requires Inv(s) && (a == CallEnd || a == CloseJobChan || a == ReturnFromEnd)
    ensures Step(s, a) != Panicked
    ensures Step(s, a).Stepped? ==> Inv(Step(s, a).next)
  {
  }

  // ---------------------------------------------------------------- moving one job

  function Move(jobs: seq<Job>, j: nat, st: Status): seq<Job>
    requires j < |jobs|
  {
    jobs[j := jobs[j].(status := st)]
  }

  lemma MoveKeepsOwned(jobs: seq<Job>, adds: seq<AddCall>, j: nat, st: Status)
    requires Owned(jobs, adds) && j < |jobs| && jobs[j].status != Unsent && st != Unsent
    ensures Owned(Move(jobs, j, st), adds)
  {
  }

  lemma MoveKeepsQueue(jobs: seq<Job>, items: seq<nat>, j: nat, st: Status)
    requires QueueHolds(jobs, items) && j < |jobs| && jobs[j].status != Queued && st != Queued
    ensures QueueHolds(Move(jobs, j, st), items)
  {
  }

  lemma MoveKeepsResults(jobs: seq<Job>, wait: int, adds: seq<AddCall>, j: nat, st: Status)
    requires AddsGood(jobs, wait, adds) && j < |jobs|
    requires HasResult(jobs[j]) == (st.Delivered? || st.Done?) && !jobs[j].status.Done?
    ensures AddsGood(Move(jobs, j, st), wait, adds)
  {
    var jobs' := Move(jobs, j, st);
    forall k | 0 <= k < |adds|
      ensures Reported(jobs', adds[k]) && AddWaits(jobs', wait, adds[k])
    {
      assert Reported(jobs, adds[k]) && AddWaits(jobs, wait, adds[k]);
      assert forall i :: 0 <= i < |jobs| ==> HasResult(jobs'[i]) == HasResult(jobs[i]);
    }
  }

  // ---------------------------------------------------------------- Add goroutines

  lemma FeedKeepsOwned(jobs: seq<Job>, adds: seq<AddCall>, k: nat)
    requires Owned(jobs, adds) && k < |adds| && adds[k].next < adds[k].hi
    ensures Owned(Move(jobs, adds[k].next, Queued), adds[k := adds[k].(next := adds[k].next + 1)])
  {
  }

  lemma FeedKeepsPlaces(jobs: seq<Job>, items: seq<nat>, workers: seq<Worker>, j: nat)
    requires QueueHolds(jobs, items) && WorkersHold(jobs, workers) && j < |jobs| && jobs[j].status == Unsent
    ensures QueueHolds(Move(jobs, j, Queued), items + [j])
    ensures WorkersHold(Move(jobs, j, Queued), workers)
  {
    assert j !in items;
  }

  lemma FeedKeepsResults(jobs: seq<Job>, wait: int, adds: seq<AddCall>, k: nat)
    requires AddsGood(jobs, wait, adds) && k < |adds| && adds[k].next < |jobs|
    requires jobs[adds[k].next].status == Unsent && adds[k].phase == Sending
    ensures AddsGood(Move(jobs, adds[k].next, Queued), wait, adds[k := adds[k].(next := adds[k].next + 1)])
  {
    MoveKeepsResults(jobs, wait, adds, adds[k].next, Queued);
  }

  lemma NextIsUnsent(jobs: seq<Job>, adds: seq<AddCall>, k: nat)
    requires Owned(jobs, adds) && k < |adds| && adds[k].next < adds[k].hi
    ensures adds[k].next < |jobs| && jobs[adds[k].next].status == Unsent
  {
    assert jobs[adds[k].next].owner == k;
  }

  lemma FeedKeepsInv(s: State, k: nat)
    requires Inv(s) && Step(s, Feed(k)).Stepped?
    ensures Inv(Step(s, Feed(k)).next)
  {
    hide Owned, QueueHolds, WorkersHold, AddsGood, Gated;
    var c := s.adds[k];
    NextIsUnsent(s.jobs, s.adds, k);
    TotalUpdate(s.jobs, c.next, s.jobs[c.next].(status := Queued), Undone);
    FeedKeepsOwned(s.jobs, s.adds, k);
    FeedKeepsPlaces(s.jobs, s.jobChan.items, s.workers, c.next);
    FeedKeepsResults(s.jobs, s.gates.jobWait, s.adds, k);
    OpenQueueKeepsGate(s.workers, s.jobChan, s.gates, s.jobChan.items + [c.next]);
  }

  /** A step that changes neither the range nor the progress of any call. */
  lemma SameRangesKeepOwned(jobs: seq<Job>, adds: seq<AddCall>, adds': seq<AddCall>)
    requires Owned(jobs, adds) && |adds'| == |adds|
    requires forall k :: 0 <= k < |adds| ==>
      adds'[k].lo == adds[k].lo && adds'[k].hi == adds[k].hi && adds'[k].next == adds[k].next
    ensures Owned(jobs, adds')
  {
    assert forall k :: 0 <= k < |adds'| ==> adds'[k].lo == adds[k].lo && adds'[k].hi == adds[k].hi;
  }

  lemma {:induction false} NoneUndone(jobs: seq<Job>, j: nat)
    requires Total(jobs, Undone) == 0 && j < |jobs|
    ensures jobs[j].status == Status.Done
  {
    TotalAtLeast(jobs, j, Undone);
  }

  /** One call of Add changes phase or is read from. */
  lemma AddPhaseKeepsResults(jobs: seq<Job>, wait: int, adds: seq<AddCall>, k: nat, c: AddCall)
    requires AddsGood(jobs, wait, adds) && k < |adds|
    requires Reported(jobs, c) && AddWaits(jobs, wait, c)
    ensures AddsGood(jobs, wait, adds[k := c])
  {
  }

  lemma AddPhaseStep(s: State, a: Action)
    requires AddsGood(s.jobs, s.gates.jobWait, s.adds) && s.gates.jobWait == Total(s.jobs, Undone)
    requires (a.StartWait? || a.CloseResults? || a.Consume?) && a.add < |s.adds|
    ensures Step(s, a) != Panicked
    ensures Step(s, a).Stepped? ==>
      var n := Step(s, a).next; var c := n.adds[a.add];
      && n == s.(adds := s.adds[a.add := c])
      && c.lo == s.adds[a.add].lo && c.hi == s.adds[a.add].hi && c.next == s.adds[a.add].next
      && Reported(s.jobs, c) && AddWaits(s.jobs, s.gates.jobWait, c)
  {
    var c := s.adds[a.add];
    assert Reported(s.jobs, c) && AddWaits(s.jobs, s.gates.jobWait, c);
    if s.gates.jobWait == 0 {
      forall j | c.lo <= j < c.hi && j < |s.jobs|
        ensures s.jobs[j].status == Status.Done
      {
        NoneUndone(s.jobs, j);
      }
    }
  }

  lemma AddPhaseKeepsInv(s: State, a: Action)
    requires Inv(s) && (a.StartWait? || a.CloseResults? || a.Consume?)
    ensures Step(s, a) != Panicked
    ensures Step(s, a).Stepped? ==> Inv(Step(s, a).next)
  {
    hide Owned, QueueHolds, WorkersHold, AddsGood, Gated, Reported, AddWaits, AddStep;
    if a.add < |s.adds| {
      AddPhaseStep(s, a);
      if Step(s, a).Stepped? {
        var n := Step(s, a).next;
        SameRangesKeepOwned(s.jobs, s.adds, n.adds);
        AddPhaseKeepsResults(s.jobs, s.gates.jobWait, s.adds, a.add, n.adds[a.add]);
      }
    }
  }

  // ---------------------------------------------------------------- workers

  lemma GateKeepsWorker(workers: seq<Worker>, ch: Channel<nat>, g: Gates, w: nat, p: WorkerPhase)
    requires Gated(workers, ch, g) && w < |workers|
    requires p.Receiving? || p.Delivering? || p.Completing? || (p.Running? && p.callback == workers[w].signal)
    requires w > 0 ==> g.authWait == 0
    ensures Gated(workers[w := workers[w].(phase := p)], ch, g)
  {
  }

  lemma ReceiveKeepsPlaces(jobs: seq<Job>, items: seq<nat>, workers: seq<Worker>, w: nat, cb: bool)
    requires QueueHolds(jobs, items) && WorkersHold(jobs, workers)
    requires items != [] && w < |workers| && workers[w].phase == Receiving
    ensures items[0] < |jobs| && jobs[items[0]].status == Queued
    ensures QueueHolds(Move(jobs, items[0], Held(w)), items[1..])
    ensures WorkersHold(Move(jobs, items[0], Held(w)), workers[w := workers[w].(phase := Running(items[0], cb))])
  {
  }

  lemma ReceiveJobKeepsInv(s: State, w: nat)
    requires Inv(s) && w < |s.workers| && CanReceive(s.jobChan) && Step(s, Receive(w)).Stepped?
    ensures Inv(Step(s, Receive(w)).next)
  {
    hide Owned, QueueHolds, WorkersHold, AddsGood, Gated;
    var j := s.jobChan.items[0];
    ReceiveKeepsPlaces(s.jobs, s.jobChan.items, s.workers, w, s.workers[w].signal);
    TotalUpdate(s.jobs, j, s.jobs[j].(status := Held(w)), Undone);
    TotalUpdate(s.workers, w, s.workers[w].(phase := Running(j, s.workers[w].signal)), Alive);
    MoveKeepsOwned(s.jobs, s.adds, j, Held(w));
    MoveKeepsResults(s.jobs, s.gates.jobWait, s.adds, j, Held(w));
    QueuedMeansOpen(s, j);
    OpenQueueKeepsGate(s.workers, s.jobChan, s.gates, s.jobChan.items[1..]);
    PastGate(s.workers, s.jobChan, s.gates, w);
    GateKeepsWorker(s.workers, s.jobChan.(items := s.jobChan.items[1..]), s.gates, w, Running(j, s.workers[w].signal));
  }

  lemma QueuedMeansOpen(s: State, j: nat)
    requires Counted(s) && CallerWaits(s.caller, s.jobChan, s.gates) && j < |s.jobs| && s.jobs[j].status != Status.Done
    ensures !s.jobChan.closed && s.gates.jobWait > 0
  {
    TotalAtLeast(s.jobs, j, Undone);
  }

  lemma PastGate(workers: seq<Worker>, ch: Channel<nat>, g: Gates, w: nat)
    requires Gated(workers, ch, g)
    requires 0 < w < |workers| ==> workers[w].phase != AwaitAuth
    ensures 0 < w < |workers| ==> g.authWait == 0
  {
  }

  predicate Idle(p: WorkerPhase) { p.AwaitAuth? || p.Receiving? || p.Ending? || p.Ended? }

  lemma IdleKeepsHold(jobs: seq<Job>, workers: seq<Worker>, w: nat, x: Worker)
    requires WorkersHold(jobs, workers) && w < |workers| && Idle(workers[w].phase) && Idle(x.phase)
    ensures WorkersHold(jobs, workers[w := x])
  {
  }

  lemma SameJobKeepsHold(jobs: seq<Job>, workers: seq<Worker>, w: nat, x: Worker)
    requires WorkersHold(jobs, workers) && w < |workers| && workers[w].phase.Running?
    requires (x.phase.Running? || x.phase.Delivering?) && x.phase.job == workers[w].phase.job
    ensures WorkersHold(jobs, workers[w := x])
  {
  }

  lemma WakeKeepsInv(s: State, w: nat)
    requires Inv(s) && Step(s, WakeAuth(w)).Stepped?
    ensures Inv(Step(s, WakeAuth(w)).next)
  {
    hide Owned, QueueHolds, WorkersHold, AddsGood, Gated;
    var x := s.workers[w].(phase := Receiving);
    TotalUpdate(s.workers, w, x, Alive);
    IdleKeepsHold(s.jobs, s.workers, w, x);
    GateKeepsWorker(s.workers, s.jobChan, s.gates, w, Receiving);
  }

  lemma EndKeepsGate(workers: seq<Worker>, ch: Channel<nat>, g: Gates, w: nat)
    requires Gated(workers, ch, g) && w < |workers| && workers[w].phase == Receiving && Drained(ch)
    ensures Gated(workers[w := workers[w].(phase := Ending)], ch, g)
  {
  }

  lemma DrainKeepsInv(s: State, w: nat)
    requires Inv(s) && w < |s.workers| && !CanReceive(s.jobChan) && Step(s, Receive(w)).Stepped?
    ensures Inv(Step(s, Receive(w)).next)
  {
    hide Owned, QueueHolds, WorkersHold, AddsGood, Gated;
    var x := s.workers[w].(phase := Ending);
    TotalUpdate(s.workers, w, x, Alive);
    IdleKeepsHold(s.jobs, s.workers, w, x);
    EndKeepsGate(s.workers, s.jobChan, s.gates, w);
  }

  lemma TransferredKeepsInv(s: State, w: nat)
    requires Inv(s) && Step(s, Transferred(w)).Stepped?
    ensures Inv(Step(s, Transferred(w)).next)
  {
    hide Owned, QueueHolds, WorkersHold, AddsGood, Gated;
    var x := s.workers[w].(phase := Delivering(s.workers[w].phase.job));
    TotalUpdate(s.workers, w, x, Alive);
    SameJobKeepsHold(s.jobs, s.workers, w, x);
    PastGate(s.workers, s.jobChan, s.gates, w);
    GateKeepsWorker(s.workers, s.jobChan, s.gates, w, x.phase);
  }

  /** The auth callback exists only for worker 0, while the gate is closed. */
  lemma AuthKeepsGate(workers: seq<Worker>, ch: Channel<nat>, g: Gates, w: nat)
    requires Gated(workers, ch, g) && w < |workers| && workers[w].phase.Running? && workers[w].phase.callback
    ensures g.authWait == 1
    ensures Gated(workers[w := Worker(Running(workers[w].phase.job, false), false)], ch,
                  g.(authWait := 0, releases := g.releases + 1, authReported := true))
  {
  }

  lemma AuthKeepsInv(s: State, w: nat)
    requires Inv(s)
    ensures Step(s, Authenticate(w)) != Panicked
    ensures Step(s, Authenticate(w)).Stepped? ==> Inv(Step(s, Authenticate(w)).next)
  {
    hide Owned, QueueHolds, WorkersHold, AddsGood, Gated;
    if w < |s.workers| && s.workers[w].phase.Running? && s.workers[w].phase.callback {
      var x := Worker(Running(s.workers[w].phase.job, false), false);
      TotalUpdate(s.workers, w, x, Alive);
      SameJobKeepsHold(s.jobs, s.workers, w, x);
      AuthKeepsGate(s.workers, s.jobChan, s.gates, w);
    }
  }

  lemma SignalKeepsGate(workers: seq<Worker>, ch: Channel<nat>, g: Gates, w: nat)
    requires Gated(workers, ch, g) && w < |workers| && workers[w].phase == Ending && workers[w].signal
    ensures g.authWait == 1
    ensures Gated(workers[w := workers[w].(signal := false)], ch, g.(authWait := 0, releases := g.releases + 1))
  {
  }

  lemma LeaveKeepsGate(workers: seq<Worker>, ch: Channel<nat>, g: Gates, w: nat)
    requires Gated(workers, ch, g) && w < |workers| && workers[w].phase == Ending && !workers[w].signal
    ensures Gated(workers[w := workers[w].(phase := Ended)], ch, g)
  {
  }

  lemma EndingKeepsInv(s: State, a: Action)
    requires Inv(s) && (a.SignalAtEnd? || a.Leave?)
    ensures Step(s, a) != Panicked
    ensures Step(s, a).Stepped? ==> Inv(Step(s, a).next)
  {
    hide Owned, QueueHolds, WorkersHold, AddsGood, Gated;
    var w := a.worker;
    if w < |s.workers| && s.workers[w].phase == Ending {
      var x := if s.workers[w].signal then s.workers[w].(signal := false) else s.workers[w].(phase := Ended);
      TotalUpdate(s.workers, w, x, Alive);
      TotalAtLeast(s.workers, w, Alive);
      IdleKeepsHold(s.jobs, s.workers, w, x);
      if s.workers[w].signal {
        SignalKeepsGate(s.workers, s.jobChan, s.gates, w);
      } else {
        LeaveKeepsGate(s.workers, s.jobChan, s.gates, w);
        GateIgnoresJobs(s.workers[w := x], s.jobChan, s.gates, s.gates.jobWait, s.gates.workerWait - 1);
      }
    }
  }

  // ---------------------------------------------------------------- job.Done

  function Elements(s: seq<nat>): set<nat> { set x | x in s }

  function Range(lo: nat, hi: nat): (r: set<nat>)
    ensures forall x :: x in r <==> lo <= x < hi
  {
    if lo >= hi then {} else Range(lo, hi - 1) + {hi - 1}
  }

  lemma ElementsCount(s: seq<nat>)
    requires NoDuplicates(s)
    ensures |Elements(s)| == |s|
  {
    if s != [] {
      var init := s[..|s| - 1];
      ElementsCount(init);
      assert s == init + [s[|s| - 1]];
      assert Elements(s) == Elements(init) + {s[|s| - 1]};
    }
  }

  lemma {:induction false} RangeCount(lo: nat, hi: nat)
    requires lo <= hi
    ensures |Range(lo, hi)| == hi - lo
  {
    if lo < hi {
      RangeCount(lo, hi - 1);
    }
  }

  lemma SubsetCount(a: set<nat>, b: set<nat>)
    requires a <= b
    ensures |a| <= |b|
    decreases |a|
  {
    if a != {} {
      var x :| x in a;
      SubsetCount(a - {x}, b - {x});
    }
  }

  /** A results channel has room as long as one of its jobs has no result yet. */
  lemma ResultsHaveRoom(jobs: seq<Job>, c: AddCall, j: nat)
    requires Reported(jobs, c) && c.lo <= j < c.hi <= |jobs| && !HasResult(jobs[j])
    ensures |c.results.items| < c.results.cap
  {
    ElementsCount(c.history);
    RangeCount(c.lo, c.hi);
    SubsetCount(Elements(c.history) + {j}, Range(c.lo, c.hi));
  }

  lemma DeliverKeepsReport(jobs: seq<Job>, wait: int, c: AddCall, j: nat, w: nat)
    requires Reported(jobs, c) && AddWaits(jobs, wait, c)
    requires c.lo <= j < c.hi <= |jobs| && jobs[j].status.Held?
    ensures !c.results.closed && |c.results.items| < c.results.cap
    ensures var c' := c.(results := c.results.(items := c.results.items + [j]), history := c.history + [j]);
            Reported(Move(jobs, j, Delivered(w)), c') && AddWaits(Move(jobs, j, Delivered(w)), wait, c')
  {
    ResultsHaveRoom(jobs, c, j);
    assert j !in c.history;
  }

  lemma DeliverKeepsResults(jobs: seq<Job>, wait: int, adds: seq<AddCall>, j: nat, w: nat)
    requires Owned(jobs, adds) && AddsGood(jobs, wait, adds) && j < |jobs| && jobs[j].status.Held?
    ensures var k := jobs[j].owner;
            k < |adds| && !adds[k].results.closed && |adds[k].results.items| < adds[k].results.cap
    ensures var k := jobs[j].owner; var c := adds[k];
            var c' := c.(results := c.results.(items := c.results.items + [j]), history := c.history + [j]);
            AddsGood(Move(jobs, j, Delivered(w)), wait, adds[k := c'])
  {
    var k := jobs[j].owner;
    var c := adds[k];
    assert Reported(jobs, c) && AddWaits(jobs, wait, c);
    DeliverKeepsReport(jobs, wait, c, j, w);
    var jobs' := Move(jobs, j, Delivered(w));
    forall i | 0 <= i < |adds| && i != k
      ensures Reported(jobs', adds[i]) && AddWaits(jobs', wait, adds[i])
    {
      assert Reported(jobs, adds[i]) && AddWaits(jobs, wait, adds[i]);
      assert !(adds[i].lo <= j < adds[i].hi);
    }
  }

  lemma DeliverKeepsHold(jobs: seq<Job>, workers: seq<Worker>, w: nat)
    requires WorkersHold(jobs, workers) && w < |workers| && workers[w].phase.Delivering?
    ensures var j := workers[w].phase.job;
            && j < |jobs| && jobs[j].status == Held(w)
            && WorkersHold(Move(jobs, j, Delivered(w)), workers[w := workers[w].(phase := Completing(j))])
  {
  }

  lemma DeliverKeepsInv(s: State, w: nat)
    requires Inv(s) && w < |s.workers| && s.workers[w].phase.Delivering?
    ensures Step(s, Deliver(w)).Stepped? && Inv(Step(s, Deliver(w)).next)
  {
    hide Owned, QueueHolds, WorkersHold, AddsGood, Gated;
    var j := s.workers[w].phase.job;
    DeliverKeepsHold(s.jobs, s.workers, w);
    DeliverKeepsResults(s.jobs, s.gates.jobWait, s.adds, j, w);
    TotalUpdate(s.jobs, j, s.jobs[j].(status := Delivered(w)), Undone);
    TotalUpdate(s.workers, w, s.workers[w].(phase := Completing(j)), Alive);
    MoveKeepsOwned(s.jobs, s.adds, j, Delivered(w));
    MoveKeepsQueue(s.jobs, s.jobChan.items, j, Delivered(w));
    PastGate(s.workers, s.jobChan, s.gates, w);
    GateKeepsWorker(s.workers, s.jobChan, s.gates, w, Completing(j));
    SameRangesKeepOwned(Move(s.jobs, j, Delivered(w)), s.adds, Step(s, Deliver(w)).next.adds);
  }

  lemma CompleteKeepsHold(jobs: seq<Job>, workers: seq<Worker>, w: nat)
    requires WorkersHold(jobs, workers) && w < |workers| && workers[w].phase.Completing?
    ensures var j := workers[w].phase.job;
            && j < |jobs| && jobs[j].status == Delivered(w)
            && WorkersHold(Move(jobs, j, Status.Done), workers[w := workers[w].(phase := Receiving)])
  {
  }

  lemma CompleteKeepsResults(jobs: seq<Job>, wait: int, adds: seq<AddCall>, j: nat)
    requires AddsGood(jobs, wait, adds) && j < |jobs| && jobs[j].status.Delivered?
    requires wait - 1 == Total(Move(jobs, j, Status.Done), Undone)
    ensures wait > 1 ==> AddsGood(Move(jobs, j, Status.Done), wait - 1, adds)
    ensures wait == 1 ==> AddsGood(Move(jobs, j, Status.Done), 0, Wake(adds))
  {
    var jobs' := Move(jobs, j, Status.Done);
    MoveKeepsResults(jobs, wait, adds, j, Status.Done);
    if wait == 1 {
      forall i | 0 <= i < |jobs'|
        ensures jobs'[i].status == Status.Done
      {
        NoneUndone(jobs', i);
      }
      forall k | 0 <= k < |adds|
        ensures Reported(jobs', Wake(adds)[k]) && AddWaits(jobs', 0, Wake(adds)[k])
      {
        assert Reported(jobs', adds[k]) && AddWaits(jobs', wait, adds[k]);
      }
    } else {
      forall k | 0 <= k < |adds|
        ensures Reported(jobs', adds[k]) && AddWaits(jobs', wait - 1, adds[k])
      {
        assert Reported(jobs', adds[k]) && AddWaits(jobs', wait, adds[k]);
      }
    }
  }

  lemma CompleteKeepsInv(s: State, w: nat)
    requires Inv(s) && w < |s.workers| && s.workers[w].phase.Completing?
    ensures Step(s, Complete(w)).Stepped? && Inv(Step(s, Complete(w)).next)
  {
    hide Owned, QueueHolds, WorkersHold, AddsGood, Gated;
    var j := s.workers[w].phase.job;
    CompleteKeepsHold(s.jobs, s.workers, w);
    QueuedMeansOpen(s, j);
    TotalUpdate(s.jobs, j, s.jobs[j].(status := Status.Done), Undone);
    TotalUpdate(s.workers, w, s.workers[w].(phase := Receiving), Alive);
    CompleteKeepsResults(s.jobs, s.gates.jobWait, s.adds, j);
    MoveKeepsOwned(s.jobs, s.adds, j, Status.Done);
    MoveKeepsQueue(s.jobs, s.jobChan.items, j, Status.Done);
    SameRangesKeepOwned(Move(s.jobs, j, Status.Done), s.adds, Wake(s.adds));
    PastGate(s.workers, s.jobChan, s.gates, w);
    GateKeepsWorker(s.workers, s.jobChan, s.gates, w, Receiving);
    GateIgnoresJobs(s.workers[w := s.workers[w].(phase := Receiving)], s.jobChan, s.gates,
                    s.gates.jobWait - 1, s.gates.workerWait);
  }

  lemma StepKeepsInv(s: State, a: Action)
    requires Inv(s)
    ensures Step(s, a) != Panicked
    ensures Step(s, a).Stepped? ==> Inv(Step(s, a).next)
  {
    hide Inv;
    match a
    case Add(n) => if Step(s, a).Stepped? { AddKeepsInv(s, n); }
    case Feed(k) => FeedNeverPanics(s, k); if Step(s, a).Stepped? { FeedKeepsInv(s, k); }
    case StartWait(_) => AddPhaseKeepsInv(s, a);
    case CloseResults(_) => AddPhaseKeepsInv(s, a);
    case Consume(_) => AddPhaseKeepsInv(s, a);
    case WakeAuth(w) => if Step(s, a).Stepped? { WakeKeepsInv(s, w); }
    case Receive(w) =>
      if Step(s, a).Stepped? {
        if CanReceive(s.jobChan) {
          ReceiveJobKeepsInv(s, w);
        } else {
          DrainKeepsInv(s, w);
        }
      }
    case Authenticate(w) => AuthKeepsInv(s, w);
    case Transferred(w) => if Step(s, a).Stepped? { TransferredKeepsInv(s, w); }
    case Deliver(w) => if w < |s.workers| && s.workers[w].phase.Delivering? { DeliverKeepsInv(s, w); }
    case Complete(w) => if w < |s.workers| && s.workers[w].phase.Completing? { CompleteKeepsInv(s, w); }
    case SignalAtEnd(_) => EndingKeepsInv(s, a);
    case Leave(_) => EndingKeepsInv(s, a);
    case _ => CallerKeepsInv(s, a);
  }

  /** The job channel closes only after every goroutine of Add has sent its jobs. */
  lemma FeedNeverPanics(s: State, k: nat)
    requires Inv(s)
    ensures Step(s, Feed(k)) != Panicked
  {
    hide QueueHolds, WorkersHold, AddsGood, Gated;
    if k < |s.adds| && s.adds[k].next < s.adds[k].hi {
      hide Owned;
      NextIsUnsent(s.jobs, s.adds, k);
      QueuedMeansOpen(s, s.adds[k].next);
    }
  }

  lemma BeginCounted(n: nat)
    ensures Total(Begin(n).workers, Alive) == n
  {
    TotalUniform(Begin(n).workers, Alive, 1);
  }

  lemma BeginGated(n: nat)
    requires n > 0
    ensures Gated(Begin(n).workers, Begin(n).jobChan, Begin(n).gates)
    ensures WorkersHold([], Begin(n).workers)
  {
  }

  lemma BeginInv(n: nat)
    requires n > 0
    ensures Inv(Begin(n))
  {
    hide Gated, WorkersHold, Owned, QueueHolds, AddsGood;
    BeginCounted(n);
    BeginGated(n);
    NoJobsYet();
  }

  lemma NoJobsYet()
    ensures Owned([], []) && QueueHolds([], []) && AddsGood([], 0, [])
  {
  }

  lemma {:induction false} RunKeepsInv(s: State, acts: seq<Action>)
    requires Inv(s)
    ensures Run(s, acts) != Panicked
    ensures Run(s, acts).Stepped? ==> Inv(Run(s, acts).next)
    decreases |acts|
  {
    hide Inv, Step;
    if acts != [] {
      StepKeepsInv(s, acts[0]);
      if Step(s, acts[0]).Stepped? {
        RunKeepsInv(Step(s, acts[0]).next, acts[1..]);
      }
    }
  }

  ghost predicate Reachable(n: nat, s: State) {
    exists acts :: Run(Begin(n), acts) == Stepped(s)
  }

  lemma ReachableInv(n: nat, s: State)
    requires n > 0 && Reachable(n, s)
    ensures Inv(s)
  {
    hide Inv;
    var acts :| Run(Begin(n), acts) == Stepped(s);
    BeginInv(n);
    RunKeepsInv(Begin(n), acts);
  }

  // ---------------------------------------------------------------- theorems

  /** No run sends on or closes a closed channel, or drives a WaitGroup negative. */
  lemma {:induction false} NoRunPanics(n: nat, acts: seq<Action>)
    requires n > 0
    ensures Run(Begin(n), acts) != Panicked
  {
    hide Inv;
    BeginInv(n);
    RunKeepsInv(Begin(n), acts);
  }

  /** Each job yields at most one result, only on the channel of its own call; a
      results channel closes only when each of its jobs has yielded exactly one. */
  lemma ResultsAreExact(n: nat, s: State, k: nat)
    requires n > 0 && Reachable(n, s) && k < |s.adds|
    ensures NoDuplicates(s.adds[k].history)
    ensures forall j :: j in s.adds[k].history ==> s.adds[k].lo <= j < s.adds[k].hi
    ensures s.adds[k].results.closed ==>
      forall j :: s.adds[k].lo <= j < s.adds[k].hi ==> j in s.adds[k].history
    ensures |s.adds[k].results.items| <= |s.adds[k].history|
    ensures s.adds[k].results.items == s.adds[k].history[|s.adds[k].history| - |s.adds[k].results.items|..]
  {
    ReachableInv(n, s);
    assert Reported(s.jobs, s.adds[k]) && AddWaits(s.jobs, s.gates.jobWait, s.adds[k]);
  }

  /** Delivering a result never blocks, read or unread. */
  lemma DeliveryNeverBlocks(n: nat, s: State, w: nat)
    requires n > 0 && Reachable(n, s) && w < |s.workers| && s.workers[w].phase.Delivering?
    ensures Step(s, Deliver(w)).Stepped?
  {
    hide Inv;
    ReachableInv(n, s);
    DeliverKeepsInv(s, w);
  }

  /** Once the job channel is closed no call of Add has a job left to send, no job
      is queued, and every job has its result. */
  lemma JobChannelClosesLast(n: nat, s: State)
    requires n > 0 && Reachable(n, s) && s.jobChan.closed
    ensures forall k :: 0 <= k < |s.adds| ==> s.adds[k].next == s.adds[k].hi
    ensures s.jobChan.items == []
    ensures forall j :: 0 <= j < |s.jobs| ==> s.jobs[j].status == Status.Done
  {
    ReachableInv(n, s);
    if s.jobChan.items != [] {
      QueuedMeansOpen(s, s.jobChan.items[0]);
    }
    forall j | 0 <= j < |s.jobs|
      ensures s.jobs[j].status == Status.Done
    {
      NoneUndone(s.jobs, j);
    }
    forall k | 0 <= k < |s.adds|
      ensures s.adds[k].next == s.adds[k].hi
    {
      if s.adds[k].next < s.adds[k].hi {
        NextIsUnsent(s.jobs, s.adds, k);
      }
    }
  }

  /** A worker other than worker 0 works on a job only after worker 0 reported an
      authentication. */
  lemma OthersWaitForAuth(n: nat, s: State, w: nat)
    requires n > 0 && Reachable(n, s) && 0 < w < |s.workers|
    requires !Idle(s.workers[w].phase) || (Step(s, Receive(w)).Stepped? && CanReceive(s.jobChan))
    ensures s.gates.authReported
  {
    ReachableInv(n, s);
    if Idle(s.workers[w].phase) {
      QueuedMeansOpen(s, s.jobChan.items[0]);
    } else {
      QueuedMeansOpen(s, s.workers[w].phase.job);
    }
  }

  /** The gate opens at most once, and has opened exactly once when End returns,
      whether or not any transfer succeeded; then no worker is left waiting. */
  lemma GateOpensOnce(n: nat, s: State)
    requires n > 0 && Reachable(n, s)
    ensures s.gates.releases <= 1
    ensures s.caller == Stopped ==>
      s.gates.releases == 1 && forall w :: 0 <= w < |s.workers| ==> s.workers[w].phase == Ended
  {
    ReachableInv(n, s);
    if s.caller == Stopped {
      forall w | 0 <= w < |s.workers|
        ensures s.workers[w].phase == Ended
      {
        TotalAtLeast(s.workers, w, Alive);
      }
    }
  }

  /** All this rests on adapters calling their auth callback at most once per job: a
      second call for the same job would drive the gate's WaitGroup below zero. */
  lemma SecondCallbackPanics(n: nat, s: State, w: nat)
    requires n > 0 && Reachable(n, s) && Step(s, Authenticate(w)).Stepped?
    ensures OpenGate(Step(s, Authenticate(w)).next) == Panicked
  {
    hide Owned, QueueHolds, WorkersHold, AddsGood, Gated;
    ReachableInv(n, s);
    AuthKeepsGate(s.workers, s.jobChan, s.gates, w);
  }
}
