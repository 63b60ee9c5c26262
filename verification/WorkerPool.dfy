/** The transfer worker pool (tq/adapterbase.go).

    N workers share a job channel and one in-flight WaitGroup; every worker but
    worker 0 waits for the first authentication. Each call of Add starts a
    goroutine that feeds the channel and closes the results channel. The model is a
    step function; a run is any list of actions. */
module WorkerPool {
  import opened GoSync

  /** Where a job is: the position of a transfer given to Add. */
  datatype Status = Unsent | Queued | Held(worker: nat) | Delivered(worker: nat) | Done

  datatype Job = Job(owner: nat, status: Status)

  datatype AddPhase = Sending | Waiting | Closing | Finished

  /** One call of Add: the jobs lo..hi-1, the next one to send, the results channel
      and the history of everything ever put into it. */
  datatype AddCall = AddCall(lo: nat, hi: nat, next: nat, phase: AddPhase,
                             results: Channel<nat>, history: seq<nat>)

  datatype WorkerPhase =
    | AwaitAuth
    | Receiving
    | Running(job: nat, callback: bool)  // DoTransfer, with or without an unused auth callback
    | Delivering(job: nat)               // before results <- TransferResult
    | Completing(job: nat)               // before wg.Done()
    | Ending                             // after the range loop
    | Ended

  datatype Worker = Worker(phase: WorkerPhase, signal: bool)

  datatype Caller = Adding | EndWaiting | CloseJobs | WaitWorkers | Stopped

  /** The WaitGroups: in-flight jobs, authentication and workers. The history says
      whether worker 0 reported an authentication and how often the gate opened. */
  datatype Gates = Gates(jobWait: int, authWait: int, workerWait: int, authReported: bool, releases: nat)

  datatype State = State(caller: Caller, jobs: seq<Job>, jobChan: Channel<nat>,
                         adds: seq<AddCall>, workers: seq<Worker>, gates: Gates)

  datatype Action =
    | Add(transfers: nat)
    | CallEnd | CloseJobChan | ReturnFromEnd
    | Feed(add: nat) | StartWait(add: nat) | CloseResults(add: nat) | Consume(add: nat)
    | WakeAuth(worker: nat) | Receive(worker: nat) | Authenticate(worker: nat) | Transferred(worker: nat)
    | Deliver(worker: nat) | Complete(worker: nat) | SignalAtEnd(worker: nat) | Leave(worker: nat)

  /** Begin with n workers: workerWait.Add(n), authWait.Add(1). */
  function Begin(n: nat): State {
    State(Adding, [], Channel(100, [], false), [],
          seq(n, w => Worker(if w == 0 then Receiving else AwaitAuth, w == 0)),
          Gates(0, 1, n, false, 0))
  }

  function SetStatus(s: State, j: nat, st: Status): State
    requires j < |s.jobs|
  {
    s.(jobs := s.jobs[j := s.jobs[j].(status := st)])
  }

  function SetWorker(s: State, w: nat, x: Worker): State
    requires w < |s.workers|
  {
    s.(workers := s.workers[w := x])
  }

  /** Goroutines blocked in jobWait.Wait() are released when the counter reaches
      zero, even if it rises again before they run. */
  function Wake(adds: seq<AddCall>): seq<AddCall> {
    seq(|adds|, i requires 0 <= i < |adds| =>
      if adds[i].phase == Waiting then adds[i].(phase := Closing) else adds[i])
  }

  function CallerStep(s: State, a: Action): Outcome<State> {
    match a
    case Add(n) =>
      if s.caller != Adding then Blocked
      else
        var lo, k := |s.jobs|, |s.adds|;
        Stepped(s.(jobs := s.jobs + seq(n, _ => Job(k, Unsent)),
                   adds := s.adds + [AddCall(lo, lo + n, lo, Sending, Channel(n, [], false), [])],
                   gates := s.gates.(jobWait := s.gates.jobWait + n)))
    case CallEnd =>
      if s.caller != Adding then Blocked
      else Stepped(s.(caller := if s.gates.jobWait == 0 then CloseJobs else EndWaiting))
    case CloseJobChan =>
      if s.caller != CloseJobs then Blocked
      else var c :- Close(s.jobChan); Stepped(s.(jobChan := c, caller := WaitWorkers))
    case ReturnFromEnd =>
      if s.caller == WaitWorkers && s.gates.workerWait == 0 then Stepped(s.(caller := Stopped)) else Blocked
    case _ => Blocked
  }

  /** The goroutine of one call of Add, and the reader of its results. */
  function AddStep(s: State, a: Action, k: nat): Outcome<State>
    requires k < |s.adds|
  {
    var c := s.adds[k];
    match a
    case Feed(_) =>
      if c.phase != Sending || c.next >= c.hi || c.next >= |s.jobs| then Blocked
      else
        var ch :- Send(s.jobChan, c.next);
        Stepped(SetStatus(s, c.next, Queued).(jobChan := ch, adds := s.adds[k := c.(next := c.next + 1)]))
    case StartWait(_) =>
      if c.phase != Sending || c.next != c.hi then Blocked
      else Stepped(s.(adds := s.adds[k := c.(phase := if s.gates.jobWait == 0 then Closing else Waiting)]))
    case CloseResults(_) =>
      if c.phase != Closing then Blocked
      else
        var ch :- Close(c.results);
        Stepped(s.(adds := s.adds[k := c.(results := ch, phase := Finished)]))
    case Consume(_) =>
      if !CanReceive(c.results) then Blocked
      else Stepped(s.(adds := s.adds[k := c.(results := c.results.(items := c.results.items[1..]))]))
    case _ => Blocked
  }

  /** authWait.Done() */
  function OpenGate(s: State): Outcome<State> {
    var n :- GoSync.Done(s.gates.authWait);
    Stepped(s.(gates := s.gates.(authWait := n, releases := s.gates.releases + 1)))
  }

  function WorkerStep(s: State, a: Action, w: nat): Outcome<State>
    requires w < |s.workers|
  {
    var x := s.workers[w];
    match a
    case WakeAuth(_) =>
      if x.phase == AwaitAuth && s.gates.authWait == 0 then Stepped(SetWorker(s, w, x.(phase := Receiving)))
      else Blocked
    case Receive(_) =>
      if x.phase != Receiving then Blocked
      else if CanReceive(s.jobChan) then
        var j := s.jobChan.items[0];
        if j >= |s.jobs| then Blocked
        else Stepped(SetWorker(SetStatus(s, j, Held(w)), w, x.(phase := Running(j, x.signal)))
                     .(jobChan := s.jobChan.(items := s.jobChan.items[1..])))
      else if Drained(s.jobChan) then Stepped(SetWorker(s, w, x.(phase := Ending)))
      else Blocked
    case Authenticate(_) =>
      if !x.phase.Running? || !x.phase.callback then Blocked
      else
        var g :- OpenGate(s);
        Stepped(SetWorker(g, w, Worker(Running(x.phase.job, false), false))
                .(gates := g.gates.(authReported := true)))
    case Transferred(_) =>
      if x.phase.Running? then Stepped(SetWorker(s, w, x.(phase := Delivering(x.phase.job)))) else Blocked
    case _ => FinishStep(s, a, w)
  }

  /** job.Done(err), and the end of the worker. */
  function FinishStep(s: State, a: Action, w: nat): Outcome<State>
    requires w < |s.workers|
  {
    var x := s.workers[w];
    match a
    case Deliver(_) =>
      if !x.phase.Delivering? || x.phase.job >= |s.jobs| || s.jobs[x.phase.job].owner >= |s.adds| then Blocked
      else
        var j := x.phase.job;
        var k := s.jobs[j].owner;
        var c := s.adds[k];
        var ch :- Send(c.results, j);
        Stepped(SetWorker(SetStatus(s, j, Delivered(w)), w, x.(phase := Completing(j)))
                .(adds := s.adds[k := c.(results := ch, history := c.history + [j])]))
    case Complete(_) =>
      if !x.phase.Completing? || x.phase.job >= |s.jobs| then Blocked
      else
        var n :- GoSync.Done(s.gates.jobWait);
        var s1 := SetWorker(SetStatus(s, x.phase.job, Status.Done), w, x.(phase := Receiving))
                  .(gates := s.gates.(jobWait := n));
        Stepped(if n > 0 then s1
                else s1.(adds := Wake(s.adds), caller := if s.caller == EndWaiting then CloseJobs else s.caller))
    case SignalAtEnd(_) =>
      if x.phase != Ending || !x.signal then Blocked
      else var g :- OpenGate(s); Stepped(SetWorker(g, w, x.(signal := false)))
    case Leave(_) =>
      if x.phase != Ending || x.signal then Blocked
      else
        var n :- GoSync.Done(s.gates.workerWait);
        Stepped(SetWorker(s, w, x.(phase := Ended)).(gates := s.gates.(workerWait := n)))
    case _ => Blocked
  }

  function Step(s: State, a: Action): Outcome<State> {
    if a.Add? || a.CallEnd? || a.CloseJobChan? || a.ReturnFromEnd? then CallerStep(s, a)
    else if a.Feed? || a.StartWait? || a.CloseResults? || a.Consume? then
      if a.add < |s.adds| then AddStep(s, a, a.add) else Blocked
    else
      if a.worker < |s.workers| then WorkerStep(s, a, a.worker) else Blocked
  }

  function Run(s: State, acts: seq<Action>): Outcome<State>
    decreases |acts|
  {
    if acts == [] then Stepped(s)
    else
      var s' :- Step(s, acts[0]);
      Run(s', acts[1..])
  }
}
