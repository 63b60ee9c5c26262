/** The long-running filter and Git's delay protocol
    (commands/command_filter_process.go, commands/command_smudge.go). */
module FilterProcess {
  import opened Options
  import opened Extensions
  import opened ExtensionPipe
  import opened Filters
  import P = Pointer

  /** Configuration that does not change while the process runs. */
  datatype Config = Config(w: World, reg: Registry, supportsDelay: bool, skip: bool, allows: string -> bool,
                           skipDownloadErrors: bool)

  /** The transfer queue: the paths added to it that its watch has not reported. */
  datatype Queue = Queue(unreported: set<string>)

  /** Ptrs holds the pointer of each path whose checkout was delayed. */
  datatype State = State(ptrs: map<string, P.Pointer>, queue: Option<Queue>)

  /** The local object and the transfer that a request meets. */
  datatype Env = Env(stored: Option<string>, transfer: Transfer)

  datatype Status = Success | Delayed | Error

  /** Exited: the process ends after a failed download. Crashed: nil dereference. */
  datatype Reply = Answer(status: Status, content: string) | Paths(paths: set<string>) | Exited | Crashed

  datatype Smudged = Smudged(ok: bool, content: string, exit: bool)

  /** smudge: on failure the pointer text is written instead of the content. */
  ghost function SmudgeNow(c: Config, path: string, from: string, env: Env): Smudged {
    match P.Decode(from)
    case Err(_) => Smudged(false, from, false)  // not a pointer, passed on as it is
    case Ok(p) =>
      var download := !c.skip && c.allows(path);
      var r := SmudgeWith(c.w, c.reg, p, env.stored, if download then env.transfer else NotAllowed);
      if r.Wrote? then Smudged(true, r.content, false)
      else Smudged(true, P.Encoded(p), !(r.Declined? && !download) && !c.skipDownloadErrors)
  }

  /** incomingOrCached: the request's content, or the delayed pointer's text when
      Git sends none. */
  function IncomingOrCached(content: string, cached: Option<P.Pointer>): string {
    if content == [] && cached.Some? then P.Encoded(cached.value) else content
  }

  function CachedPointer(ptrs: map<string, P.Pointer>, path: string): Option<P.Pointer> {
    if path in ptrs then Some(ptrs[path]) else None
  }

  /** The queue after the check at the head of the smudge command. */
  function Opened(c: Config, q: Option<Queue>): Option<Queue> {
    if q.None? && c.supportsDelay then Some(Queue({})) else q
  }

  /** A smudge request without can-delay. */
  ghost function HandleSmudge(c: Config, s: State, path: string, content: string, env: Env): (State, Reply) {
    var s := s.(queue := Opened(c, s.queue));
    var r := SmudgeNow(c, path, IncomingOrCached(content, CachedPointer(s.ptrs, path)), env);
    if r.exit then (s, Exited)
    else if r.ok then (s.(ptrs := s.ptrs - {path}), Answer(Success, r.content))
    else (s, Answer(Success, r.content))
  }

  /** A smudge request that Git allows to be delayed: delayedSmudge. */
  ghost function HandleDelayable(c: Config, s: State, path: string, content: string, env: Env): (State, Reply) {
    var s := s.(queue := Opened(c, s.queue));
    match P.Decode(content)
    case Err(_) => (s, Answer(Success, content))
    case Ok(p) =>
      if c.skip || !c.allows(path) then (s, Answer(Success, P.Encoded(p)))
      else if env.stored.None? && p.size != 0 then
        if s.queue.None? then (s, Crashed)
        else
          (State(s.ptrs[path := p], Some(Queue(s.queue.value.unreported + {path}))), Answer(Delayed, ""))
      else
        var r := SmudgeWith(c.w, c.reg, p, env.stored, NotAllowed);
        (s, if r.Wrote? then Answer(Success, r.content) else Answer(Error, ""))
  }

  /** A list_available_blobs request whose readAvailable returns the given batch. */
  function HandleList(s: State, batch: set<string>): (State, Reply) {
    if s.queue.None? then (s, Crashed)
    else if batch != {} then
      (s.(queue := Some(Queue(s.queue.value.unreported - batch))), Paths(batch))
    else (s.(queue := None), Paths(s.ptrs.Keys))
  }

  // ---------------------------------------------------------------- the process itself

  /** filterCommand's variables and the arms of its request loop. */
  class Process {
    var ptrs: map<string, P.Pointer>
    var queue: Option<Queue>
    const config: Config

    ghost function Value(): State reads this { State(ptrs, queue) }

    constructor (c: Config)
      ensures config == c && Value() == State(map[], None)
    {
      config, ptrs, queue := c, map[], None;
    }

    method OpenQueue()
      modifies this`queue
      ensures queue == Opened(config, old(queue))
    {
      if queue.None? && config.supportsDelay {
        queue := Some(Queue({}));
      }
    }

    method Smudge(path: string, content: string, env: Env) returns (reply: Reply)
      requires WellNamed(config.reg)
      modifies this
      ensures (Value(), reply) == HandleSmudge(config, old(Value()), path, content, env)
    {
      hide P.Decode, P.Encoded, SmudgeWith;
      OpenQueue();
      var from := content;
      if content == [] && path in ptrs {
        from := P.Encoded(ptrs[path]);
      }
      var decoded := P.Decode(from);
      if decoded.Err? {
        return Answer(Success, from);
      }
      var download := !config.skip && config.allows(path);
      var transfer := if download then env.transfer else NotAllowed;
      var r, left := SmudgePointer(config.w, config.reg, decoded.value, env.stored, transfer);
      if r.Wrote? {
        ptrs := ptrs - {path};
        return Answer(Success, r.content);
      }
      if !(r.Declined? && !download) && !config.skipDownloadErrors {
        return Exited;
      }
      ptrs := ptrs - {path};
      reply := Answer(Success, P.Encoded(decoded.value));
    }

    method SmudgeDelayable(path: string, content: string, env: Env) returns (reply: Reply)
      requires WellNamed(config.reg)
      modifies this
      ensures (Value(), reply) == HandleDelayable(config, old(Value()), path, content, env)
    {
      hide P.Decode, P.Encoded, SmudgeWith;
      OpenQueue();
      var decoded := P.Decode(content);
      if decoded.Err? {
        return Answer(Success, content);
      }
      var p := decoded.value;
      if config.skip || !config.allows(path) {
        return Answer(Success, P.Encoded(p));
      }
      if env.stored.None? && p.size != 0 {
        if queue.None? {
          return Crashed;
        }
        queue := Some(Queue(queue.value.unreported + {path}));
        ptrs := ptrs[path := p];
        return Answer(Delayed, "");
      }
      var r, left := SmudgePointer(config.w, config.reg, p, env.stored, NotAllowed);
      reply := if r.Wrote? then Answer(Success, r.content) else Answer(Error, "");
    }

    method List(batch: set<string>) returns (reply: Reply)
      modifies this
      ensures (Value(), reply) == HandleList(old(Value()), batch)
    {
      if queue.None? {
        return Crashed;
      }
      var paths := batch;
      queue := Some(Queue(queue.value.unreported - batch));
      if paths == {} {
        paths := ptrs.Keys;
        queue := None;
      }
      reply := Paths(paths);
    }
  }
}
