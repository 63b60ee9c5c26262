/** The resumable download (tq/basic_download.go): a temporary file, a running hash
    and a byte offset that stay in step through every fallback. HTTP servers, disk
    faults and SHA-256 are parameters; the hash state is the bytes it has absorbed. */
module Download {
  import opened Options

  type Byte = bv8
  type Bytes = seq<Byte>

  /** A response body: reads without error, then a last read that ends the stream
      (io.EOF) or breaks it. Either may carry data. */
  datatype Body = Body(chunks: seq<Bytes>, last: Bytes, complete: bool)

  datatype ContentRange = Missing | Malformed | StartsAt(start: nat)

  datatype Response =
    | NoResponse
    | Refused(status: nat)
    | Answer(status: nat, range: ContentRange, body: Body)

  /** Which disk operations succeed, and after how many bytes, if ever, a write fails.
      At most one truncation and one copy of a body happen per attempt. */
  datatype Disk = Disk(create: bool, takePart: bool, open: bool, read: bool, truncate: bool, room: Option<nat>,
                       close: bool, intoStore: bool, backToPart: bool)

  /** One transfer: what is asked for, and the answers to its requests. The n-th
      request carries "Range: bytes=from-" exactly when from > 0. */
  datatype Job = Job(oid: string, size: int, action: bool, sha: Bytes -> string,
                     serve: (nat, nat) -> Response, disk: Disk)

  /** The files that outlive an attempt: the partial download and the object. */
  datatype Files = Files(part: Option<Bytes>, stored: Option<Bytes>)

  function Joined(chunks: seq<Bytes>): Bytes {
    if chunks == [] then [] else chunks[0] + Joined(chunks[1..])
  }

  function Data(b: Body): Bytes { Joined(b.chunks) + b.last }

  /** The result of the request part of an attempt: whether the file passed the hash
      check, its content, and how many requests and auth callbacks were made. */
  datatype Fetched = Fetched(ok: bool, content: Bytes, requests: nat, auths: nat)

  predicate Resumed(r: Response, from: nat) {
    r.Answer? && r.status == 206 && r.range == StartsAt(from)
  }

  predicate Fits(room: Option<nat>, data: Bytes) { room.Some? ==> |data| <= room.value }

  /** What is written before a write fails. */
  function Written(room: Option<nat>, data: Bytes): Bytes {
    if Fits(room, data) then data else data[..room.value]
  }

  /** Copies a body to the file and checks the hash of what the hasher saw. */
  function Received(job: Job, content: Bytes, hashed: Bytes, body: Body): Fetched {
    var room, data := job.disk.room, Data(body);
    Fetched(body.complete && Fits(room, data) && job.sha(hashed + data) == job.oid, content + Written(room, data), 1, 1)
  }

  /** download: one request, and after a failed resume at most one more. */
  function Fetch(job: Job, n: nat, content: Bytes, hash: Option<Bytes>, from: nat): Fetched
    decreases from
  {
    if !job.action then Fetched(false, content, 0, 0)
    else
      var failed := Fetched(false, content, 1, 0);
      match job.serve(n, from)
      case NoResponse => failed
      case Refused(status) =>
        if from > 0 && status == 416 && job.disk.truncate then Restarted(job, n, from) else failed
      case Answer(status, range, body) =>
        if from == 0 || Resumed(job.serve(n, from), from) then
          Received(job, content, if from > 0 && hash.Some? then hash.value else [], body)
        else if !job.disk.truncate then failed
        else if status == 200 then Received(job, [], [], body)
        else Restarted(job, n, from)
  }

  /** The self-call after the file was emptied. */
  function Restarted(job: Job, n: nat, from: nat): Fetched
    requires from > 0
    decreases from, 0
  {
    var again := Fetch(job, n + 1, [], None, 0);
    again.(requests := again.requests + 1)
  }

  /** The outcome of DoTransfer. */
  datatype Attempt = Attempt(ok: bool, files: Files, requests: nat, auths: nat)

  /** The partial file a new attempt starts from: none if it is empty, or if it is
      not at least two bytes short of the object. */
  predicate Usable(p: Bytes, size: int) { 0 < |p| < size - 1 }

  function TakenPart(job: Job, files: Files): Bytes {
    if files.part.Some? && job.disk.takePart then files.part.value else []
  }

  function LeftPart(job: Job, files: Files): Option<Bytes> {
    if job.disk.takePart then None else files.part
  }

  function DoTransfer(job: Job, files: Files): Attempt {
    var taken := TakenPart(job, files);
    var lost := Attempt(false, files.(part := LeftPart(job, files)), 0, 0);
    if !job.disk.create then Attempt(false, files, 0, 0)
    else if !job.disk.open || !job.disk.read then lost
    else if taken != [] && !Usable(taken, job.size) && !job.disk.truncate then lost
    else
      var got := if Usable(taken, job.size) then Fetch(job, 0, taken, Some(taken), |taken|)
                 else Fetch(job, 0, [], None, 0);
      Settled(job, files, got)
  }

  /** Moves the file into the store, or back to the partial file for a later resume. */
  function Settled(job: Job, files: Files, got: Fetched): Attempt {
    var left := LeftPart(job, files);
    if got.ok && job.disk.close && job.disk.intoStore then
      Attempt(true, Files(left, Some(got.content)), got.requests, got.auths)
    else if got.ok && job.disk.close && files.stored.Some? then
      Attempt(true, files.(part := left), got.requests, got.auths)
    else
      Attempt(false, files.(part := if job.disk.backToPart then Some(got.content) else left),
              got.requests, got.auths)
  }

  // ---------------------------------------------------------------- the code

  /** The temporary file. */
  class TempFile {
    var content: Bytes
    var pos: nat

    constructor (c: Bytes)
      ensures content == c && pos == 0
    {
      content, pos := c, 0;
    }

    ghost predicate AtEnd() reads this { pos == |content| }

    /** io.Copy(hash, f): reads to the end. */
    method ReadAll() returns (data: Bytes)
      requires pos == 0
      modifies this
      ensures content == old(content) && data == content && AtEnd()
    {
      data := content;
      pos := |content|;
    }

    method Write(data: Bytes)
      requires pos <= |content|
      modifies this
      ensures content == old(content[..pos]) + data
                         + old(if pos + |data| < |content| then content[pos + |data|..] else [])
      ensures pos == old(pos) + |data|
    {
      content := content[..pos] + data + if pos + |data| < |content| then content[pos + |data|..] else [];
      pos := pos + |data|;
    }

    /** Writes as much as there is room for. */
    method Append(data: Bytes, room: Option<nat>) returns (ok: bool)
      requires AtEnd()
      modifies this
      ensures ok == Fits(room, data)
      ensures content == old(content) + Written(room, data) && AtEnd()
    {
      ok := Fits(room, data);
      Write(if ok then data else data[..room.value]);
    }

    /** Seek(0) then Truncate(0). */
    method Reset(truncates: bool) returns (ok: bool)
      modifies this
      ensures ok == truncates
      ensures ok ==> content == [] && AtEnd()
      ensures !ok ==> content == old(content)
    {
      pos := 0;
      if truncates {
        content := [];
      }
      ok := truncates;
    }
  }

  lemma {:induction false} JoinedAppend(chunks: seq<Bytes>, c: Bytes)
    ensures Joined(chunks + [c]) == Joined(chunks) + c
  {
    if chunks != [] {
      assert (chunks + [c])[1..] == chunks[1..] + [c];
      JoinedAppend(chunks[1..], c);
    }
  }

  lemma {:induction false} PieceOfBody(body: Body, i: nat)
    requires i < |body.chunks|
    ensures Joined(body.chunks[..i + 1]) == Joined(body.chunks[..i]) + body.chunks[i]
    ensures Joined(body.chunks[..i]) + body.chunks[i] <= Joined(body.chunks) <= Data(body)
  {
    var next := body.chunks[..i + 1];
    assert next == body.chunks[..i] + [body.chunks[i]];
    JoinedAppend(body.chunks[..i], body.chunks[i]);
    JoinedPrefix(body.chunks, i + 1);
  }

  lemma {:induction false} JoinedPrefix(chunks: seq<Bytes>, i: nat)
    requires i <= |chunks|
    ensures Joined(chunks[..i]) <= Joined(chunks)
  {
    if i > 0 {
      JoinedPrefix(chunks[1..], i - 1);
      assert chunks[..i][1..] == chunks[1..][..i - 1];
    }
  }

  /** The chunks before the last read. */
  method CopyChunks(f: TempFile, body: Body, preload: Bytes, room: Option<nat>)
    returns (ok: bool, hashed: Bytes, left: Option<nat>)
    requires f.AtEnd()
    modifies f
    ensures f.AtEnd() && (ok <==> Fits(room, Joined(body.chunks)))
    ensures ok ==> f.content == old(f.content) + Joined(body.chunks) && hashed == preload + Joined(body.chunks)
    ensures ok ==> left == Left(room, Joined(body.chunks))
    ensures !ok ==> f.content == old(f.content) + Written(room, Data(body)) && !Fits(room, Data(body))
  {
    hide Joined, Data, Written;
    NoChunks(room);
    hashed, left := preload, room;
    ghost var done: Bytes := [];
    for i := 0 to |body.chunks|
      invariant f.AtEnd() && done == Joined(body.chunks[..i]) && Fits(room, done) && left == Left(room, done)
      invariant f.content == old(f.content) + done && hashed == preload + done
    {
      var chunk := body.chunks[i];
      PieceOfBody(body, i);
      ok := f.Append(chunk, left);
      if !ok {
        CutShort(room, done, chunk, Data(body));
        CutShort(room, done, chunk, Joined(body.chunks));
        assert old(f.content) + done + Written(left, chunk) == old(f.content) + (done + Written(left, chunk));
        return;
      }
      NextChunk(room, done, chunk);
      hashed, left := hashed + chunk, Left(left, chunk);
      done := done + chunk;
    }
    assert body.chunks[..|body.chunks|] == body.chunks;
    ok := true;
  }

  lemma NoChunks(room: Option<nat>)
    ensures Joined([]) == [] && Fits(room, []) && Left(room, []) == room
  {
  }

  lemma NextChunk(room: Option<nat>, done: Bytes, chunk: Bytes)
    requires Fits(room, done) && Fits(Left(room, done), chunk)
    ensures Written(Left(room, done), chunk) == chunk
    ensures Fits(room, done + chunk) && Left(room, done + chunk) == Left(Left(room, done), chunk)
  {
  }

  /** io.Copy from a HashingReader: every chunk goes to the file until a write fails;
      the hash absorbs it unless the read failed. */
  method CopyBody(f: TempFile, body: Body, preload: Bytes, room: Option<nat>) returns (ok: bool, hashed: Bytes)
    requires f.AtEnd()
    modifies f
    ensures f.content == old(f.content) + Written(room, Data(body)) && f.AtEnd()
    ensures ok <==> body.complete && Fits(room, Data(body))
    ensures ok ==> hashed == preload + Data(body)
  {
    var left;
    ok, hashed, left := CopyChunks(f, body, preload, room);
    if !ok {
      return;
    }
    ok := f.Append(body.last, left);
    if !ok {
      CutShort(room, Joined(body.chunks), body.last, Data(body));
      return;
    }
    if body.complete {
      hashed := hashed + body.last;
    }
    ok := body.complete;
  }

  function Left(room: Option<nat>, data: Bytes): Option<nat>
    requires Fits(room, data)
  {
    if room.Some? then Some(room.value - |data|) else None
  }

  /** A chunk that does not fit ends the copy where the room ends. */
  lemma CutShort(room: Option<nat>, done: Bytes, chunk: Bytes, data: Bytes)
    requires Fits(room, done) && !Fits(Left(room, done), chunk) && done + chunk <= data
    ensures !Fits(room, data) && Written(room, data) == done + Written(Left(room, done), chunk)
  {
    assert data[..room.value] == (done + chunk)[..room.value];
  }

  /** download, on the file. */
  method FetchInto(job: Job, n: nat, f: TempFile, hash: Option<Bytes>, from: nat) returns (got: Fetched)
    requires f.AtEnd()
    modifies f
    ensures got == Fetch(job, n, old(f.content), hash, from)
    ensures f.content == got.content
    decreases from
  {
    if !job.action {
      return Fetched(false, f.content, 0, 0);
    }
    var res := job.serve(n, from);
    if res.NoResponse? || (res.Refused? && !(from > 0 && res.status == 416)) {
      return Fetched(false, f.content, 1, 0);
    }
    var fromByte, preload := from, hash;
    if from > 0 && !Resumed(res, from) {
      var ok := f.Reset(job.disk.truncate);
      if !ok {
        return Fetched(false, f.content, 1, 0);
      }
      fromByte, preload := 0, None;
      if res.Refused? || res.status != 200 {
        got := FetchInto(job, n + 1, f, preload, fromByte);
        return got.(requests := got.requests + 1);
      }
    }
    var start := if fromByte > 0 && preload.Some? then preload.value else [];
    var copied, hashed := CopyBody(f, res.body, start, job.disk.room);
    got := Fetched(copied && job.sha(hashed) == job.oid, f.content, 1, 1);
  }

  /** DoTransfer, on the files. */
  method Transfer(job: Job, files: Files) returns (a: Attempt)
    ensures a == DoTransfer(job, files)
  {
    if !job.disk.create {
      return Attempt(false, files, 0, 0);
    }
    var f := new TempFile(TakenPart(job, files));
    if !job.disk.open || !job.disk.read {
      return Attempt(false, files.(part := LeftPart(job, files)), 0, 0);
    }
    var existing := f.ReadAll();
    var fromByte, hash := |existing|, Some(existing);
    if fromByte > 0 && !(fromByte < job.size - 1) {
      var ok := f.Reset(job.disk.truncate);
      if !ok {
        return Attempt(false, files.(part := LeftPart(job, files)), 0, 0);
      }
      fromByte, hash := 0, None;
    }
    EmptyHashIsNoHash(job, f.content, hash, fromByte);
    var got := FetchInto(job, 0, f, hash, fromByte);
    a := Settled(job, files, got);
  }

  /** With nothing on disk the preloaded hash plays no part. */
  lemma {:induction false} EmptyHashIsNoHash(job: Job, content: Bytes, hash: Option<Bytes>, from: nat)
    ensures from == 0 ==> Fetch(job, 0, content, hash, 0) == Fetch(job, 0, content, None, 0)
  {
  }

  // ---------------------------------------------------------------- whatever the server answers

  /** The hasher holds what the file holds, or the file is empty and it starts anew. */
  ghost predicate InStep(content: Bytes, hash: Option<Bytes>, from: nat) {
    if from > 0 then hash == Some(content) && from == |content| else content == []
  }

  /** Whatever the server answers, a file that passes the check hashes to the OID:
      the hasher saw exactly the bytes in the file. At most two requests and one
      auth callback are made. */
  lemma {:induction false} FetchIsSound(job: Job, n: nat, content: Bytes, hash: Option<Bytes>, from: nat)
    requires InStep(content, hash, from)
    ensures var got := Fetch(job, n, content, hash, from);
            && (got.ok ==> job.sha(got.content) == job.oid)
            && got.requests <= (if from > 0 then 2 else 1)
            && got.auths <= 1
    decreases from
  {
    if from > 0 {
      FetchIsSound(job, n + 1, [], None, 0);
    }
  }

  /** An attempt changes the object only to content that hashes to the OID, and
      reports success only with an object in place. */
  lemma StoreHoldsOnlyTheOid(job: Job, files: Files)
    ensures var a := DoTransfer(job, files);
            && (a.files.stored != files.stored ==>
                  a.ok && a.files.stored.Some? && job.sha(a.files.stored.value) == job.oid)
            && (a.ok ==> a.files.stored.Some?)
            && a.requests <= 2 && a.auths <= 1
  {
    var taken := TakenPart(job, files);
    if Usable(taken, job.size) {
      FetchIsSound(job, 0, taken, Some(taken), |taken|);
    } else {
      FetchIsSound(job, 0, [], None, 0);
    }
  }

  // ---------------------------------------------------------------- a truthful server

  /** Every body that the client would write is a prefix of the bytes it stands for,
      and all of them if the body is complete. Range may be honoured, ignored,
      refused or answered with another range. */
  ghost predicate Truthful(job: Job, data: Bytes) {
    && |data| == job.size
    && forall n, from :: TruthfulAnswer(job.serve(n, from), from, data)
  }

  ghost predicate TruthfulAnswer(r: Response, from: nat, data: Bytes) {
    r.Answer? ==>
      if from > 0 && Resumed(r, from) then from <= |data| && Carries(r.body, data[from..])
      else if from == 0 || r.status == 200 then Carries(r.body, data)
      else true
  }

  ghost predicate Carries(b: Body, data: Bytes) {
    Data(b) <= data && (b.complete ==> Data(b) == data)
  }

  /** Each request is answered, completely; only a range request may be refused,
      with 416. */
  ghost predicate Uninterrupted(job: Job) {
    && job.action
    && job.disk == Disk(true, true, true, true, true, None, true, true, true)
    && forall n, from :: AnsweredInFull(job.serve(n, from), from)
  }

  ghost predicate AnsweredInFull(r: Response, from: nat) {
    match r
    case NoResponse => false
    case Refused(status) => from > 0 && status == 416
    case Answer(_, _, body) => body.complete
  }

  /** From the start, an uninterrupted request fetches the object. */
  lemma {:induction false} FreshFetchSucceeds(job: Job, n: nat, data: Bytes, hash: Option<Bytes>)
    requires Truthful(job, data) && Uninterrupted(job) && job.sha(data) == job.oid
    ensures var got := Fetch(job, n, [], hash, 0); got.ok && got.content == data
  {
    assert TruthfulAnswer(job.serve(n, 0), 0, data) && AnsweredInFull(job.serve(n, 0), 0);
    assert [] + Data(job.serve(n, 0).body) == data;
  }

  /** What the first request of an attempt does with a usable partial file. */
  lemma {:induction false} ResumeFetches(job: Job, p: Bytes, data: Bytes)
    requires Truthful(job, data) && Uninterrupted(job) && job.sha(data) == job.oid && Usable(p, job.size)
    ensures var got := Fetch(job, 0, p, Some(p), |p|);
            if Resumed(job.serve(0, |p|), |p|)
            then got.content == p + data[|p|..] && (got.ok <==> job.sha(p + data[|p|..]) == job.oid)
            else got.ok && got.content == data
  {
    assert TruthfulAnswer(job.serve(0, |p|), |p|, data) && AnsweredInFull(job.serve(0, |p|), |p|);
    FreshFetchSucceeds(job, 1, data, None);
  }

  /** An uninterrupted attempt fails exactly when the server resumes from a partial
      file whose completion does not hash to the OID. */
  lemma FirstAttempt(job: Job, files: Files, data: Bytes)
    requires Truthful(job, data) && Uninterrupted(job) && job.sha(data) == job.oid
    ensures var a := DoTransfer(job, files);
            var p := TakenPart(job, files);
            var spoiled := Usable(p, job.size) && Resumed(job.serve(0, |p|), |p|)
                           && job.sha(p + data[|p|..]) != job.oid;
            && (a.ok <==> !spoiled)
            && (a.ok ==> a.files.stored.Some? && job.sha(a.files.stored.value) == job.oid)
            && (!a.ok ==> a.files.part.Some? && |a.files.part.value| == job.size)
  {
    var p := TakenPart(job, files);
    if Usable(p, job.size) {
      ResumeFetches(job, p, data);
    } else {
      FreshFetchSucceeds(job, 0, data, None);
    }
  }

  /** From any leftover partial file, even garbage, the object is in place after at
      most two uninterrupted attempts against a truthful server, whose answers to
      the second attempt may differ from those to the first. */
  lemma TwoAttemptsSuffice(job: Job, later: Job, files: Files, data: Bytes)
    requires Truthful(job, data) && Uninterrupted(job) && job.sha(data) == job.oid
    requires later == job.(serve := later.serve) && Truthful(later, data) && Uninterrupted(later)
    ensures var a := DoTransfer(job, files);
            var b := DoTransfer(later, a.files);
            var end := if a.ok then a else b;
            && end.ok && end.files.stored.Some? && job.sha(end.files.stored.value) == job.oid
            && (!a.ok ==> end.files.stored.value == data)
  {
    FirstAttempt(job, files, data);
    var a := DoTransfer(job, files);
    if !a.ok {
      FirstAttempt(later, a.files, data);
      assert !Usable(TakenPart(later, a.files), job.size);
      FreshFetchSucceeds(later, 0, data, None);
    }
  }

  lemma {:induction false} FreshFetchKeepsPrefix(job: Job, n: nat, data: Bytes, hash: Option<Bytes>)
    requires Truthful(job, data)
    ensures var got := Fetch(job, n, [], hash, 0);
            got.content <= data && (got.ok ==> got.content == data)
  {
    assert TruthfulAnswer(job.serve(n, 0), 0, data);
    if job.serve(n, 0).Answer? {
      var d := Written(job.disk.room, Data(job.serve(n, 0).body));
      assert [] + d == d && d <= Data(job.serve(n, 0).body);
    }
  }

  lemma ExtendPrefix(p: Bytes, d: Bytes, data: Bytes)
    requires p <= data && d <= data[|p|..]
    ensures p + d <= data && (d == data[|p|..] ==> p + d == data)
  {
    assert p + d == data[..|p| + |d|];
  }

  lemma {:induction false} FetchKeepsPrefix(job: Job, p: Bytes, data: Bytes)
    requires Truthful(job, data) && p <= data && p != []
    ensures var got := Fetch(job, 0, p, Some(p), |p|);
            got.content <= data && (got.ok ==> got.content == data)
  {
    hide Received;
    FreshFetchKeepsPrefix(job, 1, data, None);
    var r := job.serve(0, |p|);
    assert TruthfulAnswer(r, |p|, data);
    if Resumed(r, |p|) {
      ReceivedKeepsPrefix(job, p, p, r.body, data);
    } else if r.Answer? && r.status == 200 {
      assert data[0..] == data;
      ReceivedKeepsPrefix(job, [], [], r.body, data);
    }
  }

  lemma ReceivedKeepsPrefix(job: Job, p: Bytes, hashed: Bytes, body: Body, data: Bytes)
    requires p <= data && Carries(body, data[|p|..])
    ensures var got := Received(job, p, hashed, body);
            got.content <= data && (got.ok ==> got.content == data)
  {
    var d := Written(job.disk.room, Data(body));
    assert d <= Data(body);
    ExtendPrefix(p, d, data);
  }

  /** A partial file that is a true prefix stays one however an attempt is
      interrupted, whichever of the modelled disk operations fails and after however
      many bytes writing does, and an attempt that succeeds stores the
      object itself. */
  lemma PrefixStaysPrefix(job: Job, files: Files, data: Bytes)
    requires Truthful(job, data)
    requires files.part.Some? ==> files.part.value <= data
    ensures var a := DoTransfer(job, files);
            && (a.files.part.Some? ==> a.files.part.value <= data)
            && (a.files.stored != files.stored ==> a.files.stored == Some(data))
  {
    var p := TakenPart(job, files);
    if p != [] {
      FetchKeepsPrefix(job, p, data);
    }
    FreshFetchKeepsPrefix(job, 0, data, None);
  }
}
