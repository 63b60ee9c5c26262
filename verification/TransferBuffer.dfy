/** The unbounded buffer between the transfer queue and the list_available_blobs
    reader (commands/command_filter_process.go): infiniteTransferBuffer feeds the
    unbuffered channel `available` from `watch`, and readAvailable drains it. */
module TransferBuffer {
  import opened GoSync

  /** Where infiniteTransferBuffer stands. Pending is what it cannot hand over yet. */
  datatype Feeder<T> =
    | Idle                       // waiting for the watch, nothing pending
    | Trying(item: T)            // about to hand one item over without blocking
    | Holding(pending: seq<T>)   // waiting for the watch or for the reader
    | Flushing(pending: seq<T>)  // the watch is closed, handing over the rest
    | Finished                   // available is closed

  /** Where readAvailable stands. */
  datatype Reader<T> = Away | Polling(got: seq<T>) | Waiting

  /** Arrived lists everything ever sent to the watch, batches everything returned. */
  datatype State<T> = State(watch: seq<T>, watchClosed: bool, feeder: Feeder<T>, reader: Reader<T>,
                            arrived: seq<T>, batches: seq<seq<T>>)

  datatype Action<T> =
    | Arrive(item: T)
    | CloseWatch
    | Take          // the feeder receives from the watch, or sees it closed
    | TryHand       // the feeder's non-blocking send succeeds
    | TryMiss       // the feeder's non-blocking send does not find a reader
    | Hand          // the feeder's blocking send meets a receive
    | CloseOut      // the feeder has flushed everything
    | Call          // a list request reaches readAvailable
    | PollMiss      // the reader's non-blocking receive finds nothing ready
    | SeeClosed     // the reader receives from the closed channel

  function Start<T>(): State<T> { State([], false, Idle, Away, [], []) }

  function Return<T>(s: State<T>, batch: seq<T>): State<T> {
    s.(reader := Away, batches := s.batches + [batch])
  }

  /** The reader's side of a rendezvous. */
  function Receive<T>(s: State<T>, item: T): Outcome<State<T>> {
    match s.reader
    case Away => Blocked
    case Polling(got) => Stepped(s.(reader := Polling(got + [item])))
    case Waiting => Stepped(Return(s, [item]))
  }

  function TakeStep<T>(s: State<T>): Outcome<State<T>> {
    if s.watch != [] then
      match s.feeder
      case Idle => Stepped(s.(watch := s.watch[1..], feeder := Trying(s.watch[0])))
      case Holding(pending) => Stepped(s.(watch := s.watch[1..], feeder := Holding(pending + [s.watch[0]])))
      case _ => Blocked
    else if s.watchClosed then
      match s.feeder
      case Idle => Stepped(s.(feeder := Finished))
      case Holding(pending) => Stepped(s.(feeder := Flushing(pending)))
      case _ => Blocked
    else Blocked
  }

  function HandStep<T>(s: State<T>): Outcome<State<T>> {
    match s.feeder
    case Holding(pending) =>
      if pending == [] then Blocked
      else
        var rest := pending[1..];
        Receive(s.(feeder := if rest == [] then Idle else Holding(rest)), pending[0])
    case Flushing(pending) =>
      if pending == [] then Blocked else Receive(s.(feeder := Flushing(pending[1..])), pending[0])
    case _ => Blocked
  }

  function Step<T>(s: State<T>, a: Action<T>): Outcome<State<T>> {
    match a
    case Arrive(item) =>
      if s.watchClosed then Blocked else Stepped(s.(watch := s.watch + [item], arrived := s.arrived + [item]))
    case CloseWatch => if s.watchClosed then Blocked else Stepped(s.(watchClosed := true))
    case Take => TakeStep(s)
    case TryHand =>
      if s.feeder.Trying? && s.reader.Waiting? then Receive(s.(feeder := Idle), s.feeder.item) else Blocked
    case TryMiss => if s.feeder.Trying? then Stepped(s.(feeder := Holding([s.feeder.item]))) else Blocked
    case Hand => HandStep(s)
    case CloseOut => if s.feeder == Flushing([]) then Stepped(s.(feeder := Finished)) else Blocked
    case Call => if s.reader.Away? then Stepped(s.(reader := Polling([]))) else Blocked
    case PollMiss =>
      if !s.reader.Polling? || s.feeder.Finished? then Blocked
      else if s.reader.got != [] then Stepped(Return(s, s.reader.got))
      else Stepped(s.(reader := Waiting))
    case SeeClosed =>
      if !s.feeder.Finished? then Blocked
      else
        match s.reader
        case Away => Blocked
        case Polling(got) => Stepped(Return(s, got))
        case Waiting => Stepped(Return(s, []))
  }

  function Run<T>(s: State<T>, acts: seq<Action<T>>): Outcome<State<T>>
    decreases |acts|
  {
    if acts == [] then Stepped(s)
    else
      var next :- Step(s, acts[0]);
      Run(next, acts[1..])
  }

  // ---------------------------------------------------------------- conservation

  function Flatten<T>(batches: seq<seq<T>>): seq<T> {
    if batches == [] then [] else Flatten(batches[..|batches| - 1]) + batches[|batches| - 1]
  }

  lemma {:induction false} FlattenAppend<T>(batches: seq<seq<T>>, batch: seq<T>)
    ensures Flatten(batches + [batch]) == Flatten(batches) + batch
  {
    assert (batches + [batch])[..|batches|] == batches;
  }

  function Read<T>(r: Reader<T>): seq<T> { if r.Polling? then r.got else [] }

  function Fed<T>(f: Feeder<T>): seq<T> {
    match f
    case Trying(item) => [item]
    case Holding(pending) => pending
    case Flushing(pending) => pending
    case _ => []
  }

  /** Only a finished feeder leaves empty batches, each after everything arrived. */
  ghost predicate EmptyWhenDone<T>(batches: seq<seq<T>>, finished: bool, arrived: seq<T>) {
    forall i :: 0 <= i < |batches| && batches[i] == [] ==> finished && Flatten(batches[..i]) == arrived
  }

  predicate Phases<T>(s: State<T>) {
    && (s.feeder.Holding? ==> s.feeder.pending != [])
    && (s.feeder.Flushing? || s.feeder.Finished? ==> s.watchClosed && s.watch == [])
  }

  /** Everything that arrived is, in order, in a batch, at the reader, at the feeder
      or still in the watch. */
  ghost predicate Conserved<T>(s: State<T>) {
    s.arrived == Flatten(s.batches) + (Read(s.reader) + (Fed(s.feeder) + s.watch))
  }

  ghost predicate Inv<T>(s: State<T>) {
    Phases(s) && Conserved(s) && EmptyWhenDone(s.batches, s.feeder.Finished?, s.arrived)
  }

  lemma NoneEmptyYet<T>(batches: seq<seq<T>>, arrived: seq<T>, finished: bool, later: seq<T>)
    requires EmptyWhenDone(batches, false, arrived)
    ensures EmptyWhenDone(batches, finished, later)
  {
  }

  lemma {:induction false} OneMoreBatch<T>(batches: seq<seq<T>>, batch: seq<T>, finished: bool, arrived: seq<T>)
    requires EmptyWhenDone(batches, finished, arrived)
    requires batch == [] ==> finished && Flatten(batches) == arrived
    ensures EmptyWhenDone(batches + [batch], finished, arrived)
  {
    var next := batches + [batch];
    assert next[..|batches|] == batches;
    assert forall i :: 0 <= i < |batches| ==> next[..i] == batches[..i];
  }

  lemma ReturnKeepsInv<T>(s: State<T>, batch: seq<T>)
    requires Phases(s) && EmptyWhenDone(s.batches, s.feeder.Finished?, s.arrived)
    requires s.arrived == Flatten(s.batches) + (batch + (Fed(s.feeder) + s.watch))
    requires batch == [] ==> s.feeder.Finished?
    ensures Inv(Return(s, batch))
  {
    hide EmptyWhenDone, Flatten;
    FlattenAppend(s.batches, batch);
    var flat, rest := Flatten(s.batches), Fed(s.feeder) + s.watch;
    assert flat + (batch + rest) == (flat + batch) + ([] + rest);
    if batch == [] {
      assert rest == [] && flat + (batch + rest) == flat;
    }
    OneMoreBatch(s.batches, batch, s.feeder.Finished?, s.arrived);
  }

  lemma ReceiveKeepsInv<T>(s: State<T>, item: T)
    requires Receive(s, item).Stepped? && Phases(s) && !s.feeder.Finished?
    requires EmptyWhenDone(s.batches, false, s.arrived)
    requires s.arrived == Flatten(s.batches) + (Read(s.reader) + ([item] + (Fed(s.feeder) + s.watch)))
    ensures Inv(Receive(s, item).next)
  {
    hide EmptyWhenDone, Flatten;
    if s.reader.Waiting? {
      ReturnKeepsInv(s, [item]);
    } else {
      assert Read(s.reader) + ([item] + (Fed(s.feeder) + s.watch))
          == (Read(s.reader) + [item]) + (Fed(s.feeder) + s.watch);
    }
  }

  lemma HandKeepsInv<T>(s: State<T>)
    requires Inv(s) && HandStep(s).Stepped?
    ensures Inv(HandStep(s).next)
  {
    hide EmptyWhenDone, Flatten;
    var pending := s.feeder.pending;
    assert pending + s.watch == [pending[0]] + (pending[1..] + s.watch);
    var f := if s.feeder.Flushing? then Flushing(pending[1..])
             else if pending[1..] == [] then Idle else Holding(pending[1..]);
    assert Fed(f) == pending[1..];
    ReceiveKeepsInv(s.(feeder := f), pending[0]);
  }

  lemma TakeKeepsInv<T>(s: State<T>)
    requires Inv(s) && TakeStep(s).Stepped?
    ensures Inv(TakeStep(s).next)
  {
    hide EmptyWhenDone, Flatten;
    var next := TakeStep(s).next;
    NoneEmptyYet(s.batches, s.arrived, next.feeder.Finished?, s.arrived);
    assert Fed(s.feeder) + s.watch == Fed(next.feeder) + next.watch;
  }

  lemma ArriveKeepsInv<T>(s: State<T>, item: T)
    requires Inv(s) && !s.watchClosed
    ensures Inv(Step(s, Arrive(item)).next)
  {
    hide EmptyWhenDone, Flatten;
    NoneEmptyYet(s.batches, s.arrived, false, s.arrived + [item]);
    var flat, read, fed := Flatten(s.batches), Read(s.reader), Fed(s.feeder);
    assert flat + (read + (fed + s.watch)) + [item] == flat + (read + (fed + (s.watch + [item])));
  }

  lemma ReaderKeepsInv<T>(s: State<T>, a: Action<T>)
    requires Inv(s) && Step(s, a).Stepped? && (a.PollMiss? || a.SeeClosed? || a.Call?)
    ensures Inv(Step(s, a).next)
  {
    hide EmptyWhenDone, Flatten;
    if a.SeeClosed? || (a.PollMiss? && s.reader.got != []) {
      ReturnKeepsInv(s, Read(s.reader));
    }
  }

  lemma StepKeepsInv<T>(s: State<T>, a: Action<T>)
    requires Inv(s) && Step(s, a).Stepped?
    ensures Inv(Step(s, a).next)
  {
    hide EmptyWhenDone, Flatten;
    if a.PollMiss? || a.SeeClosed? || a.Call? {
      ReaderKeepsInv(s, a);
    } else if a.Hand? {
      HandKeepsInv(s);
    } else if a.Take? {
      TakeKeepsInv(s);
    } else if a.Arrive? {
      ArriveKeepsInv(s, a.item);
    } else if a.TryHand? {
      var f: Feeder<T> := Idle;
      assert [s.feeder.item] + s.watch == [s.feeder.item] + (Fed(f) + s.watch);
      ReceiveKeepsInv(s.(feeder := f), s.feeder.item);
    } else if a.CloseOut? {
      NoneEmptyYet(s.batches, s.arrived, true, s.arrived);
    }
  }

  lemma {:induction false} RunKeepsInv<T>(s: State<T>, acts: seq<Action<T>>)
    requires Inv(s) && Run(s, acts).Stepped?
    ensures Inv(Run(s, acts).next)
    decreases |acts|
  {
    if acts != [] {
      StepKeepsInv(s, acts[0]);
      RunKeepsInv(Step(s, acts[0]).next, acts[1..]);
    }
  }

  /** In every run, the batches returned so far, put together, are a prefix of what
      the watch delivered: nothing lost, repeated or reordered. */
  lemma {:induction false} BatchesArePrefix<T>(acts: seq<Action<T>>)
    requires Run(Start<T>(), acts).Stepped?
    ensures var s := Run(Start<T>(), acts).next; Flatten(s.batches) <= s.arrived
  {
    RunKeepsInv(Start<T>(), acts);
  }

  /** In every run, an empty batch is returned only after the watch was closed and
      every item it delivered was in an earlier batch. */
  lemma {:induction false} EmptyBatchMeansDone<T>(acts: seq<Action<T>>, i: nat)
    requires Run(Start<T>(), acts).Stepped?
    requires i < |Run(Start<T>(), acts).next.batches| && Run(Start<T>(), acts).next.batches[i] == []
    ensures var s := Run(Start<T>(), acts).next; s.watchClosed && Flatten(s.batches[..i]) == s.arrived
  {
    RunKeepsInv(Start<T>(), acts);
  }

  // ---------------------------------------------------------------- every call returns

  /** A step of one of the two goroutines. */
  predicate Internal<T>(a: Action<T>) { !a.Arrive? && !a.CloseWatch? && !a.Call? }

  /** A call waits only for the watch: if no goroutine can move, the watch is open
      and everything it delivered has been returned. */
  lemma {:induction false} CallWaitsOnlyForTheWatch<T>(acts: seq<Action<T>>)
    requires Run(Start<T>(), acts).Stepped? && !Run(Start<T>(), acts).next.reader.Away?
    ensures var s := Run(Start<T>(), acts).next;
            || (exists a: Action<T> :: Internal(a) && Step(s, a).Stepped?)
            || (s.reader.Waiting? && !s.watchClosed && Flatten(s.batches) == s.arrived)
  {
    hide EmptyWhenDone, Run;
    RunKeepsInv(Start<T>(), acts);
    var s := Run(Start<T>(), acts).next;
    SomeMove(s);
  }

  lemma SomeMove<T>(s: State<T>)
    requires Inv(s) && !s.reader.Away?
    ensures || (exists a: Action<T> :: Internal(a) && Step(s, a).Stepped?)
            || (s.reader.Waiting? && !s.watchClosed && Flatten(s.batches) == s.arrived)
  {
    hide EmptyWhenDone, Flatten;
    match s.feeder
    case Trying(_) => assert Step(s, TryMiss).Stepped?;
    case Holding(_) => assert Step(s, Hand).Stepped?;
    case Flushing(pending) =>
      if pending == [] {
        assert Step(s, CloseOut).Stepped?;
      } else {
        assert Step(s, Hand).Stepped?;
      }
    case Finished => assert Step(s, SeeClosed).Stepped?;
    case Idle =>
      if s.watch != [] || s.watchClosed {
        assert Step(s, Take).Stepped?;
      } else if s.reader.Polling? {
        assert Step(s, PollMiss).Stepped?;
      }
  }

  /** The steps that goroutines can still take without new items or calls. */
  function Work<T>(s: State<T>): nat {
    4 * |s.watch|
    + (match s.feeder
       case Idle => 2
       case Trying(_) => 5
       case Holding(pending) => 2 * |pending| + 2
       case Flushing(pending) => 2 * |pending| + 1
       case Finished => 0)
    + (match s.reader case Away => 0 case Polling(_) => 2 case Waiting => 1)
  }

  lemma {:induction false} RunsAreBounded<T>(s: State<T>, acts: seq<Action<T>>)
    requires Run(s, acts).Stepped? && forall i :: 0 <= i < |acts| ==> Internal(acts[i])
    ensures |acts| + Work(Run(s, acts).next) <= Work(s)
    decreases |acts|
  {
    if acts != [] {
      assert Internal(acts[0]);
      var next := Step(s, acts[0]).next;
      StepWorks(s, acts[0]);
      RunsAreBounded(next, acts[1..]);
    }
  }

  lemma StepWorks<T>(s: State<T>, a: Action<T>)
    requires Internal(a) && Step(s, a).Stepped?
    ensures Work(Step(s, a).next) < Work(s)
  {
  }
}
