/** What holds over every sequence of requests to one credential helper chain. */
module CredsHistory {
  import opened Options
  import opened Creds

  // ---------------------------------------------------------------- helpers that failed

  predicate FailedFill(call: Call) { call.op.Fill? && call.answer.Failure? }

  /** A helper that failed to fill is skipped, and no later call went to it. */
  ghost predicate Silenced(s: State) {
    && (forall p :: 0 <= p < |s.trace| && FailedFill(s.trace[p]) ==> s.trace[p].helper in s.skipped)
    && (forall p, q :: 0 <= p < q < |s.trace| && FailedFill(s.trace[p]) ==> s.trace[q].helper != s.trace[p].helper)
  }

  // ---------------------------------------------------------------- what the cache holds

  predicate Touches(c: Chain, call: Call, op: Op, key: string) {
    call.helper == c.cacher && call.op == op && CacheKey(call.what) == key
  }

  /** Call p is the first approval of the key that the cache saw since it last saw
      the key rejected. */
  ghost predicate FirstApproval(c: Chain, trace: seq<Call>, key: string, p: nat) {
    && p < |trace|
    && Touches(c, trace[p], Approve, key)
    && (forall q :: p < q < |trace| ==> !Touches(c, trace[q], Reject, key))
    && (forall q :: 0 <= q < p && Touches(c, trace[q], Approve, key) ==>
          exists r :: q < r < p && Touches(c, trace[r], Reject, key))
  }

  /** The cache's entry for one key follows the history of that key. */
  ghost predicate Follows(c: Chain, cache: map<string, Credentials>, trace: seq<Call>, key: string) {
    && (key in cache ==> exists p: nat :: FirstApproval(c, trace, key, p) && trace[p].what == cache[key])
    && (forall p: nat :: FirstApproval(c, trace, key, p) ==> key in cache && cache[key] == trace[p].what)
  }

  ghost predicate CacheIsHistory(c: Chain, s: State) {
    forall key :: Follows(c, s.cache, s.trace, key)
  }

  ghost predicate Inv(c: Chain, s: State) {
    Silenced(s) && c.cacher !in s.skipped && CacheIsHistory(c, s)
  }

  // ---------------------------------------------------------------- one more call

  lemma OthersKeepFirst(c: Chain, trace: seq<Call>, call: Call, key: string, p: nat)
    requires !Touches(c, call, Approve, key) && !Touches(c, call, Reject, key)
    ensures FirstApproval(c, trace, key, p) <==> FirstApproval(c, trace + [call], key, p)
  {
    var now := trace + [call];
    assert forall q :: 0 <= q < |trace| ==> now[q] == trace[q];
  }

  lemma RejectEndsAll(c: Chain, trace: seq<Call>, call: Call, key: string, p: nat)
    requires Touches(c, call, Reject, key)
    ensures !FirstApproval(c, trace + [call], key, p)
  {
    assert (trace + [call])[|trace|] == call;
  }

  /** A further approval changes nothing when one already holds. */
  lemma LaterApproval(c: Chain, trace: seq<Call>, call: Call, key: string, p: nat)
    requires FirstApproval(c, trace, key, p) && Touches(c, call, Approve, key)
    ensures FirstApproval(c, trace + [call], key, p)
  {
    var now := trace + [call];
    assert forall q :: 0 <= q < |trace| ==> now[q] == trace[q];
    forall q | 0 <= q < p && Touches(c, now[q], Approve, key)
      ensures exists r :: q < r < p && Touches(c, now[r], Reject, key)
    {
      var r :| q < r < p && Touches(c, trace[r], Reject, key);
      assert Touches(c, now[r], Reject, key);
    }
  }

  /** There is only one first approval. */
  lemma FirstIsUnique(c: Chain, trace: seq<Call>, key: string, p: nat, q: nat)
    requires FirstApproval(c, trace, key, p) && FirstApproval(c, trace, key, q)
    ensures p == q
  {
  }

  /** An approval is the first one when none held before. */
  lemma FreshApproval(c: Chain, trace: seq<Call>, call: Call, key: string)
    requires Touches(c, call, Approve, key) && forall p: nat :: !FirstApproval(c, trace, key, p)
    ensures FirstApproval(c, trace + [call], key, |trace|)
  {
    var now := trace + [call];
    forall q | 0 <= q < |trace| && Touches(c, now[q], Approve, key)
      ensures exists r :: q < r < |trace| && Touches(c, now[r], Reject, key)
    {
      var r := RejectedAfter(c, trace, key, q);
      assert now[r] == trace[r];
    }
  }

  /** Without a first approval, every approval was followed by a rejection. */
  lemma RejectedAfter(c: Chain, trace: seq<Call>, key: string, q: nat) returns (r: nat)
    requires q < |trace| && Touches(c, trace[q], Approve, key) && forall p: nat :: !FirstApproval(c, trace, key, p)
    ensures q < r < |trace| && Touches(c, trace[r], Reject, key)
    decreases q
  {
    if r' :| q < r' < |trace| && Touches(c, trace[r'], Reject, key) {
      return r';
    }
    assert !FirstApproval(c, trace, key, q);
    var q' :| 0 <= q' < q && Touches(c, trace[q'], Approve, key)
              && forall r :: q' < r < q ==> !Touches(c, trace[r], Reject, key);
    r := RejectedAfter(c, trace, key, q');
  }

  lemma Untouched(c: Chain, cache: map<string, Credentials>, after: map<string, Credentials>, trace: seq<Call>,
                  call: Call, key: string)
    requires Follows(c, cache, trace, key) && !Touches(c, call, Approve, key) && !Touches(c, call, Reject, key)
    requires key in cache <==> key in after
    requires key in cache ==> cache[key] == after[key]
    ensures Follows(c, after, trace + [call], key)
  {
    var now := trace + [call];
    forall p: nat
      ensures FirstApproval(c, trace, key, p) <==> FirstApproval(c, now, key, p)
      ensures FirstApproval(c, now, key, p) ==> p < |trace| && now[p] == trace[p]
    {
      OthersKeepFirst(c, trace, call, key, p);
    }
  }

  lemma Rejected(c: Chain, after: map<string, Credentials>, trace: seq<Call>, call: Call, key: string)
    requires Touches(c, call, Reject, key) && key !in after
    ensures Follows(c, after, trace + [call], key)
  {
    forall p: nat
      ensures !FirstApproval(c, trace + [call], key, p)
    {
      RejectEndsAll(c, trace, call, key, p);
    }
  }

  lemma Approved(c: Chain, cache: map<string, Credentials>, trace: seq<Call>, call: Call, key: string)
    requires Follows(c, cache, trace, key) && Touches(c, call, Approve, key)
    ensures Follows(c, CacheAfter(cache, Approve, call.what), trace + [call], key)
  {
    var now := trace + [call];
    ghost var p: nat := |trace|;
    if key in cache {
      p :| FirstApproval(c, trace, key, p) && trace[p].what == cache[key];
      LaterApproval(c, trace, call, key, p);
      assert now[p] == trace[p];
    } else {
      FreshApproval(c, trace, call, key);
      assert now[p] == call;
    }
    forall q: nat | FirstApproval(c, now, key, q)
      ensures q == p
    {
      FirstIsUnique(c, now, key, p, q);
    }
  }

  lemma CallKeepsHistory(c: Chain, s: State, i: nat, op: Op, what: Credentials, others: Answers)
    requires CacheIsHistory(c, s)
    ensures CacheIsHistory(c, AfterCall(c, s, i, op, what, others))
  {
    hide FirstApproval, CacheKey;
    var next := AfterCall(c, s, i, op, what, others);
    var call := Call(i, op, what, AnswerOf(c, s, i, op, what, others));
    forall key
      ensures Follows(c, next.cache, next.trace, key)
    {
      assert Follows(c, s.cache, s.trace, key);
      if Touches(c, call, Approve, key) {
        Approved(c, s.cache, s.trace, call, key);
      } else if Touches(c, call, Reject, key) {
        Rejected(c, next.cache, s.trace, call, key);
      } else {
        Untouched(c, s.cache, next.cache, s.trace, call, key);
      }
    }
  }

  lemma CallKeepsSilence(c: Chain, s: State, i: nat, op: Op, what: Credentials, others: Answers)
    requires Silenced(s) && i !in s.skipped
    ensures var failed := op.Fill? && AnswerOf(c, s, i, op, what, others).Failure?;
            Silenced(AfterCall(c, s, i, op, what, others).(skipped := if failed then s.skipped + {i} else s.skipped))
  {
    hide AnswerOf;
    var next := AfterCall(c, s, i, op, what, others);
    assert forall p :: 0 <= p < |s.trace| ==> next.trace[p] == s.trace[p];
  }

  lemma CallKeepsInv(c: Chain, s: State, i: nat, op: Op, what: Credentials, others: Answers)
    requires Inv(c, s) && i !in s.skipped
    ensures var failed := op.Fill? && AnswerOf(c, s, i, op, what, others).Failure?;
            Inv(c, AfterCall(c, s, i, op, what, others).(skipped := if failed then s.skipped + {i} else s.skipped))
  {
    hide Silenced, CacheIsHistory, CacheKey;
    CallKeepsHistory(c, s, i, op, what, others);
    CallKeepsSilence(c, s, i, op, what, others);
    var next := AfterCall(c, s, i, op, what, others);
    HistoryIgnoresSkips(c, next, s.skipped + {i});
    assert next.(skipped := s.skipped) == next;
  }

  lemma HistoryIgnoresSkips(c: Chain, s: State, skipped: set<nat>)
    requires CacheIsHistory(c, s)
    ensures CacheIsHistory(c, s.(skipped := skipped))
  {
  }

  // ---------------------------------------------------------------- every request

  lemma {:induction false} FillKeepsInv(c: Chain, s: State, what: Credentials, others: Answers, i: nat, failed: bool)
    requires Inv(c, s)
    ensures Inv(c, FillFrom(c, s, what, others, i, failed).0)
    decreases c.helpers - i
  {
    hide Inv, AfterCall;
    if i < c.helpers {
      if i in s.skipped {
        FillKeepsInv(c, s, what, others, i + 1, failed);
      } else {
        CallKeepsInv(c, s, i, Fill, what, others);
        var next := AfterCall(c, s, i, Fill, what, others);
        SkipsUnchanged(c, s, i, Fill, what, others);
        match AnswerOf(c, s, i, Fill, what, others)
        case NoOp => FillKeepsInv(c, next, what, others, i + 1, failed);
        case Failure => FillKeepsInv(c, next.(skipped := s.skipped + {i}), what, others, i + 1, true);
        case Success(creds) => if creds.None? { FillKeepsInv(c, next, what, others, i + 1, failed); }
      }
    }
  }

  lemma SkipsUnchanged(c: Chain, s: State, i: nat, op: Op, what: Credentials, others: Answers)
    ensures var next := AfterCall(c, s, i, op, what, others);
            next.skipped == s.skipped && next.(skipped := s.skipped) == next
  {
  }

  lemma {:induction false} RejectKeepsInv(c: Chain, s: State, what: Credentials, others: Answers, i: nat)
    requires Inv(c, s)
    ensures Inv(c, RejectFrom(c, s, what, others, i).0)
    decreases c.helpers - i
  {
    hide Inv, AfterCall, AnswerOf;
    if i < c.helpers {
      if i in s.skipped {
        RejectKeepsInv(c, s, what, others, i + 1);
      } else {
        CallKeepsInv(c, s, i, Reject, what, others);
        SkipsUnchanged(c, s, i, Reject, what, others);
        RejectKeepsInv(c, AfterCall(c, s, i, Reject, what, others), what, others, i + 1);
      }
    }
  }

  lemma {:induction false} RollBackKeepsInv(c: Chain, s: State, what: Credentials, others: Answers, j: nat, i: nat)
    requires Inv(c, s)
    ensures Inv(c, RollBack(c, s, what, others, j, i))
    decreases i - j
  {
    hide Inv, AfterCall, AnswerOf;
    if j < i {
      if j in s.skipped {
        RollBackKeepsInv(c, s, what, others, j + 1, i);
      } else {
        CallKeepsInv(c, s, j, Reject, what, others);
        SkipsUnchanged(c, s, j, Reject, what, others);
        RollBackKeepsInv(c, AfterCall(c, s, j, Reject, what, others), what, others, j + 1, i);
      }
    }
  }

  lemma {:induction false} ApproveKeepsInv(c: Chain, s: State, what: Credentials, others: Answers, i: nat)
    requires Inv(c, s)
    ensures Inv(c, ApproveFrom(c, s, what, others, i).0)
    decreases c.helpers - i
  {
    hide Inv, AfterCall, AnswerOf;
    if i < c.helpers {
      if i in s.skipped {
        ApproveKeepsInv(c, s, what, others, i + 1);
      } else {
        CallKeepsInv(c, s, i, Approve, what, others);
        SkipsUnchanged(c, s, i, Approve, what, others);
        var next := AfterCall(c, s, i, Approve, what, others);
        ApproveKeepsInv(c, next, what, others, i + 1);
        RollBackKeepsInv(c, next, what, others, 0, i);
      }
    }
  }

  lemma StartInv(c: Chain)
    ensures Inv(c, START)
  {
  }

  lemma {:induction false} RunKeepsInv(c: Chain, s: State, rs: seq<Request>)
    requires Inv(c, s)
    ensures Inv(c, Run(c, s, rs))
    decreases |rs|
  {
    hide Inv, FillFrom, ApproveFrom, RejectFrom;
    if rs != [] {
      FillKeepsInv(c, s, rs[0].what, rs[0].others, 0, false);
      ApproveKeepsInv(c, s, rs[0].what, rs[0].others, 0);
      RejectKeepsInv(c, s, rs[0].what, rs[0].others, 0);
      RunKeepsInv(c, Serve(c, s, rs[0]).0, rs[1..]);
    }
  }

  // ---------------------------------------------------------------- over every sequence of requests

  /** A helper that failed in Fill with a real error is never called again, by any
      request, not even to take an approval back. */
  lemma {:induction false} FailedHelperIsNeverCalledAgain(c: Chain, rs: seq<Request>, p: nat, q: nat)
    requires p < q < |Run(c, START, rs).trace| && FailedFill(Run(c, START, rs).trace[p])
    ensures var trace := Run(c, START, rs).trace; trace[q].helper != trace[p].helper
  {
    hide Run;
    StartInv(c);
    RunKeepsInv(c, START, rs);
  }

  /** The cache holds an entry for a key exactly when the key was approved since its
      last rejection, and then the first credentials so approved. */
  lemma {:induction false} CacheHoldsTheFirstApproved(c: Chain, rs: seq<Request>, key: string)
    ensures var s := Run(c, START, rs);
            && (key in s.cache <==> exists p: nat :: FirstApproval(c, s.trace, key, p))
            && (forall p: nat :: FirstApproval(c, s.trace, key, p) ==>
                  key in s.cache && s.cache[key] == s.trace[p].what)
  {
    hide Run;
    StartInv(c);
    RunKeepsInv(c, START, rs);
    assert Follows(c, Run(c, START, rs).cache, Run(c, START, rs).trace, key);
  }

  // ---------------------------------------------------------------- a failing approval

  lemma {:induction false} RollBackForgets(c: Chain, s: State, what: Credentials, others: Answers, j: nat, i: nat)
    requires c.cacher !in s.skipped && c.cacher < i
    requires j <= c.cacher || CacheKey(what) !in s.cache
    ensures CacheKey(what) !in RollBack(c, s, what, others, j, i).cache
    decreases i - j
  {
    hide CacheKey, AnswerOf;
    if j < i {
      var next := if j in s.skipped then s else AfterCall(c, s, j, Reject, what, others);
      RollBackForgets(c, next, what, others, j + 1, i);
    }
  }

  lemma {:induction false} RollBackBefore(c: Chain, s: State, what: Credentials, others: Answers, j: nat, i: nat)
    requires i <= c.cacher
    ensures RollBack(c, s, what, others, j, i).cache == s.cache
    decreases i - j
  {
    if j < i {
      RollBackBefore(c, if j in s.skipped then s else AfterCall(c, s, j, Reject, what, others), what, others, j + 1, i);
    }
  }

  /** From i on, every helper in use besides the cache passes an approval on. */
  predicate AllPass(c: Chain, skipped: set<nat>, others: Answers, i: nat) {
    forall j :: i <= j < c.helpers && j != c.cacher ==> j in skipped || others(j, Approve).NoOp?
  }

  /** The first helper in use from i on that does not pass an approval on stands before
      the cache and fails. */
  predicate FailsBefore(c: Chain, skipped: set<nat>, others: Answers, i: nat) {
    exists f :: i <= f < c.cacher && f !in skipped && others(f, Approve).Failure?
             && forall j :: i <= j < f ==> j in skipped || others(j, Approve).NoOp?
  }

  /** Past the cache: the entry is there, and stays exactly when every helper passes. */
  lemma {:induction false} ApproveBehind(c: Chain, s: State, what: Credentials, others: Answers, i: nat)
    requires c.cacher !in s.skipped && c.cacher < i <= c.helpers && CacheKey(what) in s.cache
    ensures var (after, r) := ApproveFrom(c, s, what, others, i);
            r.Error? && CacheKey(what) in after.cache <==> AllPass(c, s.skipped, others, i)
    decreases c.helpers - i
  {
    hide CacheKey;
    if i < c.helpers {
      if i in s.skipped {
        ApproveBehind(c, s, what, others, i + 1);
      } else {
        var next := AfterCall(c, s, i, Approve, what, others);
        if others(i, Approve).NoOp? {
          ApproveBehind(c, next, what, others, i + 1);
        } else if others(i, Approve).Failure? {
          RollBackForgets(c, next, what, others, 0, i);
        }
      }
    }
  }

  lemma {:induction false} ApproveUpTo(c: Chain, s: State, what: Credentials, others: Answers, i: nat)
    requires c.cacher !in s.skipped && i <= c.cacher < c.helpers
    ensures var (after, r) := ApproveFrom(c, s, what, others, i);
            r.Error? && CacheKey(what) in after.cache
            <==> if CacheKey(what) in s.cache then FailsBefore(c, s.skipped, others, i)
                 else AllPass(c, s.skipped, others, i)
    decreases c.helpers - i
  {
    hide CacheKey;
    if i == c.cacher {
      if CacheKey(what) !in s.cache {
        ApproveBehind(c, AfterCall(c, s, i, Approve, what, others), what, others, i + 1);
      }
    } else {
      PassOne(c, s.skipped, others, i);
      if i in s.skipped {
        ApproveUpTo(c, s, what, others, i + 1);
      } else {
        var next := AfterCall(c, s, i, Approve, what, others);
        if others(i, Approve).NoOp? {
          ApproveUpTo(c, next, what, others, i + 1);
        } else if others(i, Approve).Failure? {
          RollBackBefore(c, next, what, others, 0, i);
        }
      }
    }
  }

  lemma PassOne(c: Chain, skipped: set<nat>, others: Answers, i: nat)
    requires i < c.cacher < c.helpers
    ensures i in skipped || others(i, Approve).NoOp? ==>
              && (AllPass(c, skipped, others, i) <==> AllPass(c, skipped, others, i + 1))
              && (FailsBefore(c, skipped, others, i) <==> FailsBefore(c, skipped, others, i + 1))
    ensures i !in skipped && !others(i, Approve).NoOp? ==>
              !AllPass(c, skipped, others, i) && (FailsBefore(c, skipped, others, i) <==> others(i, Approve).Failure?)
  {
    if i in skipped || others(i, Approve).NoOp? {
      if f :| i + 1 <= f < c.cacher && f !in skipped && others(f, Approve).Failure?
              && forall j :: i + 1 <= j < f ==> j in skipped || others(j, Approve).NoOp? {
        assert FailsBefore(c, skipped, others, i);
      }
    }
  }

  /** After any sequence of requests, an approval ends in an error and yet leaves the
      cache with an entry for the key exactly when no entry was there and every helper
      in use besides the cache passes the approval on, or an entry was there and the
      first helper in use that does not pass it on stands before the cache and fails.
      In particular none remains when a helper behind the cache failed. */
  lemma {:induction false} FailedApprovalLeavesAnEntryIff(c: Chain, rs: seq<Request>, what: Credentials,
                                                          others: Answers)
    requires c.cacher < c.helpers
    ensures var s := Run(c, START, rs);
            var (after, r) := ApproveFrom(c, s, what, others, 0);
            r.Error? && CacheKey(what) in after.cache
            <==> if CacheKey(what) in s.cache then FailsBefore(c, s.skipped, others, 0)
                 else AllPass(c, s.skipped, others, 0)
  {
    hide Run, CacheKey, CacheIsHistory, Silenced;
    StartInv(c);
    RunKeepsInv(c, START, rs);
    ApproveUpTo(c, Run(c, START, rs), what, others, 0);
  }

  /** A chain of the cache and one helper that passes: approving is reported as an
      error, but the next fill finds the credentials. */
  lemma {:induction false} UntakenApprovalIsServed(what: Credentials)
    ensures var c, pass := Chain(2, 0), (i: nat, op: Op) => NoOp;
            var (after, r) := ApproveFrom(c, START, what, pass, 0);
            r == Error && FillFrom(c, after, what, pass, 0, false).1 == Found(what)
  {
    hide CacheKey;
    var c, pass := Chain(2, 0), (i: nat, op: Op) => NoOp;
    var s1 := AfterCall(c, START, 0, Approve, what, pass);
    var s2 := AfterCall(c, s1, 1, Approve, what, pass);
    assert ApproveFrom(c, START, what, pass, 0) == ApproveFrom(c, s1, what, pass, 1);
    assert ApproveFrom(c, s1, what, pass, 1) == ApproveFrom(c, s2, what, pass, 2) == (s2, Error);
    FillFromCache(c, s2, what, pass, 0);
  }

  /** A cached key is filled from the cache when no helper before it answers. */
  lemma {:induction false} FillFromCache(c: Chain, s: State, what: Credentials, others: Answers, i: nat)
    requires c.cacher !in s.skipped && i <= c.cacher < c.helpers && CacheKey(what) in s.cache
    requires forall j :: i <= j < c.cacher ==> j in s.skipped || others(j, Fill).NoOp?
    ensures FillFrom(c, s, what, others, i, false).1 == Found(s.cache[CacheKey(what)])
    decreases c.cacher - i
  {
    hide CacheKey;
    if i < c.cacher {
      FillFromCache(c, if i in s.skipped then s else AfterCall(c, s, i, Fill, what, others), what, others, i + 1);
    }
  }
}
