/** The parts of Go's concurrency that the protocol models share: buffered
    channels, the outcome of one step of a goroutine, and the sums that tie a
    sync.WaitGroup counter to the goroutines it counts. */
module GoSync {

  /** What happens when a goroutine tries its next step: it waits, the program
      panics (send or close on a closed channel, negative WaitGroup counter), or
      the step is taken. */
  datatype Outcome<+S> = Blocked | Panicked | Stepped(next: S) {
    predicate IsFailure() { !Stepped? }

    function PropagateFailure<T>(): Outcome<T>
      requires IsFailure()
    {
      if Panicked? then Panicked else Blocked
    }

    function Extract(): S
      requires Stepped?
    {
      next
    }
  }

  datatype Channel<T> = Channel(cap: nat, items: seq<T>, closed: bool)

  function Send<T>(c: Channel<T>, x: T): Outcome<Channel<T>> {
    if c.closed then Panicked
    else if |c.items| >= c.cap then Blocked
    else Stepped(c.(items := c.items + [x]))
  }

  function Close<T>(c: Channel<T>): Outcome<Channel<T>> {
    if c.closed then Panicked else Stepped(c.(closed := true))
  }

  /** A receive that yields an item. */
  predicate CanReceive<T>(c: Channel<T>) { c.items != [] }

  /** A receive that yields "not ok", which ends a range loop. */
  predicate Drained<T>(c: Channel<T>) { c.closed && c.items == [] }

  function Done(counter: int): Outcome<int> {
    if counter <= 0 then Panicked else Stepped(counter - 1)
  }

  function Total<T>(ts: seq<T>, w: T -> nat): nat {
    if ts == [] then 0 else w(ts[0]) + Total(ts[1..], w)
  }

  lemma {:induction false} TotalAppend<T>(ts: seq<T>, t: T, w: T -> nat)
    ensures Total(ts + [t], w) == Total(ts, w) + w(t)
  {
    if ts == [] {
      assert [t][1..] == [];
    } else {
      assert (ts + [t])[1..] == ts[1..] + [t];
      TotalAppend(ts[1..], t, w);
    }
  }

  lemma TotalUpdate<T>(ts: seq<T>, i: nat, t: T, w: T -> nat)
    requires i < |ts|
    ensures Total(ts[i := t], w) + w(ts[i]) == Total(ts, w) + w(t)
  {
    if i > 0 {
      assert ts[i := t][1..] == ts[1..][i - 1 := t];
      TotalUpdate(ts[1..], i - 1, t, w);
    }
  }

  lemma {:induction false} TotalAtLeast<T>(ts: seq<T>, i: nat, w: T -> nat)
    requires i < |ts|
    ensures w(ts[i]) <= Total(ts, w)
  {
    if i > 0 {
      TotalAtLeast(ts[1..], i - 1, w);
    }
  }

  lemma TotalPositive<T>(ts: seq<T>, w: T -> nat) returns (i: nat)
    requires Total(ts, w) > 0
    ensures i < |ts| && w(ts[i]) > 0
  {
    if w(ts[0]) > 0 {
      i := 0;
    } else {
      var j := TotalPositive(ts[1..], w);
      i := j + 1;
    }
  }

  lemma {:induction false} TotalUniform<T>(ts: seq<T>, w: T -> nat, c: nat)
    requires forall i :: 0 <= i < |ts| ==> w(ts[i]) == c
    ensures Total(ts, w) == c * |ts|
  {
    if ts != [] {
      TotalUniform(ts[1..], w, c);
    }
  }
}
