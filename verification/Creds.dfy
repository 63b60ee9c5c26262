/** The chain of credential helpers with its cache (creds/creds.go). */
module Creds {
  import opened Options

  type Credentials = map<string, string>

  function Field(c: Credentials, name: string): string { if name in c then c[name] else "" }

  /** credCacheKey. */
  function CacheKey(c: Credentials): string {
    Field(c, "protocol") + "//" + Field(c, "host") + "//" + Field(c, "path")
  }

  datatype Op = Fill | Approve | Reject

  /** What a helper answers: credentials (or just success), nothing to say, or an error. */
  datatype Answer = Success(creds: Option<Credentials>) | NoOp | Failure

  /** One call of the helper at an index of the chain. */
  datatype Call = Call(helper: nat, op: Op, what: Credentials, answer: Answer)

  /** The chain: the number of helpers, and the cache's place among them. */
  datatype Chain = Chain(helpers: nat, cacher: nat)

  /** Trace records every call that reached a helper. */
  datatype State = State(skipped: set<nat>, cache: map<string, Credentials>, trace: seq<Call>)

  const START := State({}, map[], [])

  /** What the other helpers answer during one request. */
  type Answers = (nat, Op) -> Answer

  datatype Result = Found(creds: Credentials) | Done | Nothing | Error

  // ---------------------------------------------------------------- one helper

  /** credentialCacher's answer and its map afterwards. */
  function CacheAnswer(cache: map<string, Credentials>, op: Op, what: Credentials): Answer {
    match op
    case Fill => if CacheKey(what) in cache then Success(Some(cache[CacheKey(what)])) else NoOp
    case Approve => if CacheKey(what) in cache then Success(None) else NoOp
    case Reject => NoOp
  }

  function CacheAfter(cache: map<string, Credentials>, op: Op, what: Credentials): map<string, Credentials> {
    match op
    case Fill => cache
    case Approve => if CacheKey(what) in cache then cache else cache[CacheKey(what) := what]
    case Reject => cache - {CacheKey(what)}
  }

  function AnswerOf(c: Chain, s: State, i: nat, op: Op, what: Credentials, others: Answers): Answer {
    if i == c.cacher then CacheAnswer(s.cache, op, what) else others(i, op)
  }

  function AfterCall(c: Chain, s: State, i: nat, op: Op, what: Credentials, others: Answers): State {
    s.(cache := if i == c.cacher then CacheAfter(s.cache, op, what) else s.cache,
       trace := s.trace + [Call(i, op, what, AnswerOf(c, s, i, op, what, others))])
  }

  // ---------------------------------------------------------------- the chain

  function FillFrom(c: Chain, s: State, what: Credentials, others: Answers, i: nat, failed: bool): (State, Result)
    decreases c.helpers - i
  {
    if i >= c.helpers then (s, if failed then Error else Nothing)
    else if i in s.skipped then FillFrom(c, s, what, others, i + 1, failed)
    else
      var next := AfterCall(c, s, i, Fill, what, others);
      match AnswerOf(c, s, i, Fill, what, others)
      case NoOp => FillFrom(c, next, what, others, i + 1, failed)
      case Failure => FillFrom(c, next.(skipped := s.skipped + {i}), what, others, i + 1, true)
      case Success(creds) =>
        if creds.Some? then (next, Found(creds.value)) else FillFrom(c, next, what, others, i + 1, failed)
  }

  function RejectFrom(c: Chain, s: State, what: Credentials, others: Answers, i: nat): (State, Result)
    decreases c.helpers - i
  {
    if i >= c.helpers then (s, Error)
    else if i in s.skipped then RejectFrom(c, s, what, others, i + 1)
    else
      var next := AfterCall(c, s, i, Reject, what, others);
      match AnswerOf(c, s, i, Reject, what, others)
      case NoOp => RejectFrom(c, next, what, others, i + 1)
      case Failure => (next, Error)
      case Success(_) => (next, Done)
  }

  /** Undo an approval at the helpers from j up to i that took part in it. */
  function RollBack(c: Chain, s: State, what: Credentials, others: Answers, j: nat, i: nat): State
    decreases i - j
  {
    if j >= i then s
    else if j in s.skipped then RollBack(c, s, what, others, j + 1, i)
    else RollBack(c, AfterCall(c, s, j, Reject, what, others), what, others, j + 1, i)
  }

  function ApproveFrom(c: Chain, s: State, what: Credentials, others: Answers, i: nat): (State, Result)
    decreases c.helpers - i
  {
    if i >= c.helpers then (s, Error)
    else if i in s.skipped then ApproveFrom(c, s, what, others, i + 1)
    else
      var next := AfterCall(c, s, i, Approve, what, others);
      match AnswerOf(c, s, i, Approve, what, others)
      case NoOp => ApproveFrom(c, next, what, others, i + 1)
      case Failure => (RollBack(c, next, what, others, 0, i), Error)
      case Success(_) => (next, Done)
  }

  datatype Request = Request(op: Op, what: Credentials, others: Answers)

  function Serve(c: Chain, s: State, r: Request): (State, Result) {
    match r.op
    case Fill => FillFrom(c, s, r.what, r.others, 0, false)
    case Approve => ApproveFrom(c, s, r.what, r.others, 0)
    case Reject => RejectFrom(c, s, r.what, r.others, 0)
  }

  function Run(c: Chain, s: State, rs: seq<Request>): State
    decreases |rs|
  {
    if rs == [] then s else Run(c, Serve(c, s, rs[0]).0, rs[1..])
  }

  // ---------------------------------------------------------------- the object

  class CredentialHelpers {
    const chain: Chain
    var skippedHelpers: set<nat>
    var cache: map<string, Credentials>
    var trace: seq<Call>

    ghost function Value(): State reads this { State(skippedHelpers, cache, trace) }

    constructor (c: Chain)
      ensures chain == c && Value() == START
    {
      chain, skippedHelpers, cache, trace := c, {}, map[], [];
    }

    /** One helper's Fill, Approve or Reject. */
    method Ask(i: nat, op: Op, what: Credentials, others: Answers) returns (answer: Answer)
      modifies this`cache, this`trace
      ensures answer == AnswerOf(chain, old(Value()), i, op, what, others)
      ensures Value() == AfterCall(chain, old(Value()), i, op, what, others)
    {
      answer := if i == chain.cacher then CacheAnswer(cache, op, what) else others(i, op);
      if i == chain.cacher {
        cache := CacheAfter(cache, op, what);
      }
      trace := trace + [Call(i, op, what, answer)];
    }

    method FillCredentials(what: Credentials, others: Answers) returns (r: Result)
      modifies this
      ensures (Value(), r) == FillFrom(chain, old(Value()), what, others, 0, false)
    {
      var failed := false;
      var i := 0;
      while i < chain.helpers
        invariant 0 <= i <= chain.helpers
        invariant FillFrom(chain, Value(), what, others, i, failed)
               == FillFrom(chain, old(Value()), what, others, 0, false)
      {
        if i in skippedHelpers {
          i := i + 1;
          continue;
        }
        var answer := Ask(i, Fill, what, others);
        if answer.Failure? {
          skippedHelpers := skippedHelpers + {i};
          failed := true;
        } else if answer.Success? && answer.creds.Some? {
          return Found(answer.creds.value);
        }
        i := i + 1;
      }
      r := if failed then Error else Nothing;
    }

    method RejectCredentials(what: Credentials, others: Answers) returns (r: Result)
      modifies this
      ensures (Value(), r) == RejectFrom(chain, old(Value()), what, others, 0)
    {
      var i := 0;
      while i < chain.helpers
        invariant 0 <= i <= chain.helpers
        invariant RejectFrom(chain, Value(), what, others, i) == RejectFrom(chain, old(Value()), what, others, 0)
      {
        if i !in skippedHelpers {
          var answer := Ask(i, Reject, what, others);
          if !answer.NoOp? {
            return if answer.Failure? then Error else Done;
          }
        }
        i := i + 1;
      }
      r := Error;
    }

    method ApproveCredentials(what: Credentials, others: Answers) returns (r: Result)
      modifies this
      ensures (Value(), r) == ApproveFrom(chain, old(Value()), what, others, 0)
    {
      var skipped: set<nat> := {};
      var i := 0;
      while i < chain.helpers
        invariant 0 <= i <= chain.helpers
        invariant skipped <= skippedHelpers
        invariant forall j :: 0 <= j < i ==> (j in skipped <==> j in skippedHelpers)
        invariant ApproveFrom(chain, Value(), what, others, i) == ApproveFrom(chain, old(Value()), what, others, 0)
      {
        if i in skippedHelpers {
          skipped := skipped + {i};
          i := i + 1;
          continue;
        }
        var answer := Ask(i, Approve, what, others);
        if !answer.NoOp? {
          if answer.Failure? {
            UndoApproval(what, others, i, skipped);
            return Error;
          }
          return Done;
        }
        i := i + 1;
      }
      r := Error;
    }

    method UndoApproval(what: Credentials, others: Answers, i: nat, skipped: set<nat>)
      requires forall j :: 0 <= j < i ==> (j in skipped <==> j in skippedHelpers)
      modifies this`cache, this`trace
      ensures Value() == RollBack(chain, old(Value()), what, others, 0, i)
    {
      for j := 0 to i
        invariant skippedHelpers == old(skippedHelpers)
        invariant RollBack(chain, Value(), what, others, j, i) == RollBack(chain, old(Value()), what, others, 0, i)
      {
        if j !in skipped {
          var _ := Ask(j, Reject, what, others);
        }
      }
    }
  }
}
