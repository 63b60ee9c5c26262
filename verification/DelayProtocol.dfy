/** The filter process against a Git that follows the delay protocol of
    gitattributes(5): a path answered "delayed" is asked for again, without content,
    once the filter lists it, and Git keeps asking for lists until one is empty. */
module DelayProtocol {
  import opened Options
  import opened Extensions
  import opened Filters
  import opened FilterProcess
  import P = Pointer

  /** Checkout: sending files. Retrieving: asking for the listed paths still in todo. */
  datatype Round = Checkout | Retrieving(todo: set<string>)

  /** Outstanding maps each delayed path that was not handed over to the content Git
      sent for it. */
  datatype Git = Git(outstanding: map<string, string>, round: Round)

  datatype Session = Session(git: Git, filter: State)

  datatype Request =
    | Smudge(path: string, content: string, canDelay: bool, env: Env)
    | List(batch: set<string>)
    | Retry(path: string, retryEnv: Env)

  function Start(): Session { Session(Git(map[], Checkout), State(map[], None)) }

  /** What Git may ask for, and what the queue may report: only paths added to it. */
  predicate Legal(c: Config, s: Session, r: Request) {
    match r
    case Smudge(path, _, canDelay, _) =>
      && s.git.round.Checkout?
      && path !in s.git.outstanding
      && (canDelay ==> c.supportsDelay)
    case List(batch) =>
      && (s.git.round.Checkout? ==> s.git.outstanding != map[])
      && (s.git.round.Retrieving? ==> s.git.round.todo == {})
      && (s.filter.queue.Some? ==> batch <= s.filter.queue.value.unreported)
    case Retry(path, _) => s.git.round.Retrieving? && path in s.git.round.todo
  }

  /** The filter's side of a request. */
  ghost function Handle(c: Config, f: State, r: Request): (State, Reply) {
    match r
    case Smudge(path, content, canDelay, env) =>
      if canDelay then HandleDelayable(c, f, path, content, env) else HandleSmudge(c, f, path, content, env)
    case List(batch) => HandleList(f, batch)
    case Retry(path, env) => HandleSmudge(c, f, path, "", env)
  }

  /** Git's side of the reply. */
  function Note(g: Git, r: Request, reply: Reply): Git {
    match r
    case Smudge(path, content, _, _) =>
      if reply.Answer? && reply.status.Delayed? then g.(outstanding := g.outstanding[path := content]) else g
    case List(_) =>
      if !reply.Paths? then g
      else g.(round := if reply.paths == {} then Checkout else Retrieving(reply.paths))
    case Retry(path, _) =>
      if reply.Answer? && g.round.Retrieving?
      then Git(g.outstanding - {path}, Retrieving(g.round.todo - {path}))
      else g
  }

  ghost function Reply(c: Config, s: Session, r: Request): FilterProcess.Reply { Handle(c, s.filter, r).1 }

  ghost function Next(c: Config, s: Session, r: Request): Session {
    var (f, reply) := Handle(c, s.filter, r);
    Session(Note(s.git, r, reply), f)
  }

  /** Every request is legal, and the process was still running when it came. */
  ghost predicate LegalRun(c: Config, s: Session, rs: seq<Request>)
    decreases |rs|
  {
    rs != [] ==>
      && Legal(c, s, rs[0])
      && (Reply(c, s, rs[0]).Exited? ==> |rs| == 1)
      && LegalRun(c, Next(c, s, rs[0]), rs[1..])
  }

  ghost function Run(c: Config, s: Session, rs: seq<Request>): Session
    decreases |rs|
  {
    if rs == [] then s else Run(c, Next(c, s, rs[0]), rs[1..])
  }

  // ---------------------------------------------------------------- invariant

  /** The filter remembers every outstanding path with the pointer that Git's own
      content decodes to. Only paths that may be downloaded are delayed. */
  ghost predicate Remembers(c: Config, outstanding: map<string, string>, ptrs: map<string, P.Pointer>) {
    forall path :: path in outstanding ==>
      && path in ptrs && P.Decode(outstanding[path]) == P.Ok(ptrs[path]) && ptrs[path].size != 0
      && !c.skip && c.allows(path)
  }

  /** A queue is open whenever Git may ask for a list. */
  ghost predicate QueueOpen(c: Config, g: Git, ptrs: map<string, P.Pointer>, q: Option<Queue>) {
    && (ptrs != map[] || g.round.Retrieving? ==> c.supportsDelay)
    && (g.round.Checkout? && g.outstanding != map[] ==> q.Some?)
    && (g.round.Retrieving? && q.None? ==> g.round.todo != {})
  }

  ghost predicate Inv(c: Config, s: Session) {
    && Remembers(c, s.git.outstanding, s.filter.ptrs)
    && QueueOpen(c, s.git, s.filter.ptrs, s.filter.queue)
  }

  lemma SmudgeKeepsInv(c: Config, s: Session, r: Request)
    requires Inv(c, s) && Legal(c, s, r) && r.Smudge?
    ensures Inv(c, Next(c, s, r))
    ensures !Reply(c, s, r).Crashed?
  {
    hide P.Decode, P.Encoded, SmudgeWith, SmudgeNow;
  }

  lemma ListKeepsInv(c: Config, s: Session, r: Request)
    requires Inv(c, s) && Legal(c, s, r) && r.List?
    ensures Inv(c, Next(c, s, r))
    ensures var reply := Reply(c, s, r); reply.Paths? && (reply.paths == {} ==> s.git.outstanding == map[])
  {
    hide P.Decode, P.Encoded;
    if s.filter.ptrs.Keys == {} {
      assert forall path :: path !in s.git.outstanding;
      assert s.git.outstanding == map[];
    }
  }

  lemma RetryKeepsInv(c: Config, s: Session, r: Request)
    requires Inv(c, s) && Legal(c, s, r) && r.Retry?
    ensures Inv(c, Next(c, s, r))
    ensures !Reply(c, s, r).Crashed? && !Reply(c, s, r).Paths?
  {
    hide P.Decode, P.Encoded, SmudgeWith, SmudgeNow;
  }

  lemma StepKeepsInv(c: Config, s: Session, r: Request)
    requires Inv(c, s) && Legal(c, s, r)
    ensures Inv(c, Next(c, s, r)) && !Reply(c, s, r).Crashed?
  {
    hide Inv, Legal, Next, Reply;
    match r
    case Smudge(_, _, _, _) => SmudgeKeepsInv(c, s, r);
    case List(_) => ListKeepsInv(c, s, r);
    case Retry(_, _) => RetryKeepsInv(c, s, r);
  }

  lemma {:induction false} RunKeepsInv(c: Config, s: Session, rs: seq<Request>)
    requires Inv(c, s) && LegalRun(c, s, rs)
    ensures Inv(c, Run(c, s, rs))
    decreases |rs|
  {
    hide Inv, Legal, Next, Reply;
    if rs != [] {
      StepKeepsInv(c, s, rs[0]);
      RunKeepsInv(c, Next(c, s, rs[0]), rs[1..]);
    }
  }

  lemma StartInv(c: Config)
    ensures Inv(c, Start())
  {
  }

  lemma {:induction false} ReachableInv(c: Config, rs: seq<Request>)
    requires LegalRun(c, Start(), rs)
    ensures Inv(c, Run(c, Start(), rs))
  {
    hide Inv, Run, LegalRun;
    StartInv(c);
    RunKeepsInv(c, Start(), rs);
  }

  // ---------------------------------------------------------------- over every run

  /** No request of a protocol-abiding Git meets a missing queue: whenever a list is
      asked for, or a path is delayed, a live transfer queue exists. */
  lemma {:induction false} NeverCrashes(c: Config, rs: seq<Request>, r: Request)
    requires LegalRun(c, Start(), rs) && Legal(c, Run(c, Start(), rs), r)
    ensures !Reply(c, Run(c, Start(), rs), r).Crashed?
  {
    hide Inv, Legal, Next, Reply, Run, LegalRun;
    ReachableInv(c, rs);
    StepKeepsInv(c, Run(c, Start(), rs), r);
  }

  /** A list request is answered with a list, and the empty list that ends the
      retrieval is sent only when nothing is outstanding. */
  lemma {:induction false} EmptyListMeansDone(c: Config, rs: seq<Request>, r: Request)
    requires LegalRun(c, Start(), rs) && Legal(c, Run(c, Start(), rs), r) && r.List?
    ensures var reply := Reply(c, Run(c, Start(), rs), r);
            reply.Paths? && (reply.paths == {} ==> Run(c, Start(), rs).git.outstanding == map[])
  {
    hide Inv, Legal, Next, Reply, Run, LegalRun;
    ReachableInv(c, rs);
    ListKeepsInv(c, Run(c, Start(), rs), r);
  }
}
