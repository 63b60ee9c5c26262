/** The auth callback of the transfer adapters is called at most once per job, which
    is what the worker pool's gate rests on: the reply loop of custom adapters
    (tq/custom.go) and the first-read callback of uploads (tq/basic_upload.go). */
module AdapterAuth {

  /** A reply of the external process. Settled says that the hash check and move of
      a download, or the verification of an upload, succeeded. */
  datatype Reply =
    | Unreadable
    | Progress(oid: string, soFar: int)
    | Complete(oid: string, failed: bool, settled: bool)
    | Unknown

  /** How many replies from the start are progress reports for the object. */
  function Leading(replies: seq<Reply>, oid: string): (k: nat)
    ensures k <= |replies|
    ensures forall i :: 0 <= i < k ==> replies[i].Progress? && replies[i].oid == oid
    ensures k < |replies| ==> !(replies[k].Progress? && replies[k].oid == oid)
  {
    if replies == [] || !(replies[0].Progress? && replies[0].oid == oid) then 0
    else 1 + Leading(replies[1..], oid)
  }

  lemma {:induction false} LeadingIs(replies: seq<Reply>, oid: string, k: nat)
    requires k <= |replies|
    requires forall i :: 0 <= i < k ==> replies[i].Progress? && replies[i].oid == oid
    requires k < |replies| ==> !(replies[k].Progress? && replies[k].oid == oid)
    ensures Leading(replies, oid) == k
  {
  }

  /** The reply loop: it succeeds exactly on a good completion after progress reports
      only, and calls auth once, when bytes moved or the transfer completed. */
  method AwaitCompletion(oid: string, replies: seq<Reply>, hasAuth: bool) returns (ok: bool, auths: nat)
    ensures var k := Leading(replies, oid);
            ok <==> k < |replies| && replies[k] == Complete(oid, false, true)
    ensures auths == if hasAuth && (ok || exists i :: 0 <= i < Leading(replies, oid) && replies[i].soFar > 0)
                     then 1 else 0
  {
    var complete, authCalled, i := false, false, 0;
    auths, ok := 0, false;
    while !complete
      invariant 0 <= i <= |replies|
      invariant complete ==>
        && 0 < i && replies[i - 1] == Complete(oid, false, true)
        && (forall j :: 0 <= j < i - 1 ==> replies[j].Progress? && replies[j].oid == oid)
        && auths == if hasAuth then 1 else 0
      invariant !complete ==> forall j :: 0 <= j < i ==> replies[j].Progress? && replies[j].oid == oid
      invariant !complete ==> authCalled == (hasAuth && exists j :: 0 <= j < i && replies[j].soFar > 0)
      invariant auths == if authCalled then 1 else 0
      decreases |replies| - i, !complete
    {
      if i == |replies| {
        LeadingIs(replies, oid, i);
        return;
      }
      var wasAuthOk := false;
      match replies[i] {
        case Progress(o, soFar) =>
          if o != oid {
            LeadingIs(replies, oid, i);
            return;
          }
          wasAuthOk := soFar > 0;
        case Complete(o, failed, settled) =>
          if o != oid || failed || !settled {
            LeadingIs(replies, oid, i);
            return;
          }
          wasAuthOk, complete := true, true;
        case _ =>
          LeadingIs(replies, oid, i);
          return;
      }
      if wasAuthOk && hasAuth && !authCalled {
        auths := auths + 1;
        authCalled := true;
      }
      i := i + 1;
    }
    LeadingIs(replies, oid, i - 1);
    ok := true;
  }

  /** startCallbackReader: calls back before the first read. */
  class StartCallbackReader {
    const hasCallback: bool
    var done: bool
    var calls: nat  // how often the callback ran

    constructor (hasCallback: bool)
      ensures this.hasCallback == hasCallback && !done && calls == 0
    {
      this.hasCallback := hasCallback;
      done, calls := false, 0;
    }

    /** fails says whether the callback, if it runs, returns an error; then nothing
        is read and the next read calls it again. */
    method Read(fails: bool) returns (ok: bool)
      modifies this
      ensures (done, calls, ok) == NextRead(hasCallback, old(done), old(calls), fails)
    {
      if !done && hasCallback {
        calls := calls + 1;
        if fails {
          return false;
        }
        done := true;
      }
      ok := true;
    }

    /** A body read to its end, and again after a rewind. */
    method ReadMany(fails: seq<bool>)
      modifies this
      ensures calls == CallsAfter(hasCallback, old(done), old(calls), fails)
    {
      var i := 0;
      while i < |fails|
        invariant 0 <= i <= |fails|
        invariant CallsAfter(hasCallback, done, calls, fails[i..])
               == CallsAfter(hasCallback, old(done), old(calls), fails)
      {
        var _ := Read(fails[i]);
        assert fails[i..][1..] == fails[i + 1..];
        i := i + 1;
      }
    }
  }

  function NextRead(hasCallback: bool, done: bool, calls: nat, fails: bool): (bool, nat, bool) {
    if !done && hasCallback then (!fails, calls + 1, !fails) else (done, calls, true)
  }

  function CallsAfter(hasCallback: bool, done: bool, calls: nat, fails: seq<bool>): nat
    decreases |fails|
  {
    if fails == [] then calls
    else
      var r := NextRead(hasCallback, done, calls, fails[0]);
      CallsAfter(hasCallback, r.0, r.1, fails[1..])
  }

  /** A callback that never fails, as the upload's, runs exactly once however often
      the body is read, and not at all if it is never read. */
  lemma {:induction false} CallbackRunsOnce(done: bool, calls: nat, fails: seq<bool>)
    requires forall i :: 0 <= i < |fails| ==> !fails[i]
    ensures CallsAfter(true, done, calls, fails) == if done || fails == [] then calls else calls + 1
    decreases |fails|
  {
    if fails != [] {
      CallbackRunsOnce(true, if done then calls else calls + 1, fails[1..]);
    }
  }
}
