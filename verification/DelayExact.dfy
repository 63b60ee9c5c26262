/** When the delay protocol does all it promises. A delayed pointer is kept decoded and
    its text is written out again for the retry, so everything depends on what the
    read buffer makes of that text (PointerCut). */
module DelayExact {
  import opened Options
  import opened Filters
  import opened FilterProcess
  import opened DelayProtocol
  import FilterRoundTrip
  import P = Pointer
  import PointerCut
  import Text

  /** The text of the pointer in the content decodes again: the read buffer holds at
      least one digit of the size. */
  predicate Rereadable(content: string) {
    var d := P.Decode(content);
    d.Ok? && d.value.size != 0 ==> |P.Encoded(d.value)| <= P.CUTOFF + |Text.PrintNat(d.value.size)|
  }

  /** It decodes to the same pointer: the read buffer holds the whole size. */
  predicate RereadWhole(content: string) {
    var d := P.Decode(content);
    d.Ok? && d.value.size != 0 ==> |P.Encoded(d.value)| <= P.CUTOFF + 1
  }

  lemma WholeIsRereadable(content: string)
    requires RereadWhole(content)
    ensures Rereadable(content)
  {
    hide P.Decode, P.Encoded;
  }

  /** Pointer text as git-lfs writes it is read again whole. */
  lemma CanonicalIsWhole(content: string)
    requires P.Decode(content).Ok? && P.Decode(content).value.canonical
    ensures RereadWhole(content) && Rereadable(content)
  {
    hide P.DecodeKV, Rereadable;
    var buf := if |content| <= P.CUTOFF then content else content[..P.CUTOFF];
    if buf != [] {
      P.EncodedIgnoresCanonical(P.DecodeKV(Text.TrimSpace(buf)).value);
    }
    WholeIsRereadable(content);
  }

  // ---------------------------------------------------------------- one retried path

  lemma DecodedPointer(content: string, p: P.Pointer)
    requires P.Decode(content) == P.Ok(p) && p.size != 0
    ensures P.WellFormed(p) && P.Encoded(p) != []
  {
    hide P.DecodeBuffer, P.Encoded, P.WellFormed;
    var buf := if |content| <= P.CUTOFF then content else content[..P.CUTOFF];
    if buf == [] {
      EmptyHasNoSize();
    } else {
      P.DecodedIsWellFormed(buf);
    }
    P.EncodedNotEmpty(p);
  }

  lemma EmptyHasNoSize()
    ensures P.DecodeBuffer([]) == P.Ok(P.EmptyPointer()) && P.EmptyPointer().size == 0
  {
  }

  /** What a request without content smudges for a path with this pointer. */
  ghost function Resmudge(c: Config, path: string, p: P.Pointer, env: Env): Smudged {
    SmudgeNow(c, path, IncomingOrCached("", Some(p)), env)
  }

  /** The path is forgotten exactly when its text decodes again. */
  lemma ForgottenIff(c: Config, path: string, content: string, p: P.Pointer, env: Env)
    requires P.Decode(content) == P.Ok(p) && p.size != 0
    ensures Resmudge(c, path, p, env).ok <==> Rereadable(content)
    ensures !Rereadable(content) ==> Resmudge(c, path, p, env) == Smudged(false, P.Encoded(p), false)
  {
    hide P.Decode, P.Encoded, SmudgeWith;
    DecodedPointer(content, p);
    PointerCut.CutTextDecodesIff(p);
  }

  lemma TextIgnoresCanonical(p: P.Pointer, b: bool)
    ensures P.Encoded(p.(canonical := b)) == P.Encoded(p)
  {
  }

  lemma SameSmudge(c: Config, path: string, content: string, p: P.Pointer, env: Env)
    requires P.Decode(content) == P.Ok(p) && p.size != 0 && RereadWhole(content)
    ensures Resmudge(c, path, p, env) == SmudgeNow(c, path, content, env)
  {
    hide P.Decode, P.Encoded, SmudgeWith;
    DecodedPointer(content, p);
    PointerCut.CutTextIsWholeIff(p);
    var q := P.Decode(P.Encoded(p)).value;
    assert q == p.(canonical := q.canonical);
    TextIgnoresCanonical(p, q.canonical);
    var t := if !c.skip && c.allows(path) then env.transfer else NotAllowed;
    FilterRoundTrip.SmudgeIgnoresCanonical(c.w, c.reg, p, q.canonical, env.stored, t);
  }

  /** When the object is missing and cannot be fetched, a text cut short shows. */
  const NOTHING_THERE := Env(None, Broken)

  lemma OtherSmudge(c: Config, path: string, content: string, p: P.Pointer)
    requires P.Decode(content) == P.Ok(p) && p.size != 0 && !RereadWhole(content)
    ensures Resmudge(c, path, p, NOTHING_THERE) != SmudgeNow(c, path, content, NOTHING_THERE)
  {
    hide P.Decode, P.Encoded, Text.PrintNat;
    DecodedPointer(content, p);
    if |P.Encoded(p)| <= P.CUTOFF + |Text.PrintNat(p.size)| {
      PointerCut.DigitsLeft(p);
      var q := P.Decode(P.Encoded(p)).value;
      PointerCut.ShortenedIsLess(p.size, |P.Encoded(p)| - P.CUTOFF - 1);
      OtherSizeOtherText(p, q);
    } else {
      PointerCut.NoDigitLeft(p);
    }
  }

  lemma OtherSizeOtherText(p: P.Pointer, q: P.Pointer)
    requires p.size > 0 && q.size > 0 && q.size != p.size && q.extensions == p.extensions && q.oid == p.oid
    ensures P.Encoded(p) != P.Encoded(q)
  {
    hide Text.Unlines, P.ExtensionLines;
    PointerCut.HeadAndSize(p);
    PointerCut.HeadAndSize(q);
    var head := Text.Unlines(PointerCut.Head(p));
    var a, b := Text.PrintNat(p.size), Text.PrintNat(q.size);
    assert P.Encoded(p)[|head| + 5..|P.Encoded(p)| - 1] == a;
    assert P.Encoded(q)[|head| + 5..|P.Encoded(q)| - 1] == b;
    assert Text.Value(a) != Text.Value(b);
  }

  /** Whatever the object's state, a retry smudges what the first content would smudge
      now exactly when the text is read again whole. */
  lemma RetryIsTheDelayedSmudgeIff(c: Config, path: string, content: string, p: P.Pointer)
    requires P.Decode(content) == P.Ok(p) && p.size != 0
    ensures (forall env :: Resmudge(c, path, p, env) == SmudgeNow(c, path, content, env)) <==> RereadWhole(content)
  {
    hide P.Decode, P.Encoded, RereadWhole, Resmudge, SmudgeNow;
    if RereadWhole(content) {
      forall env
        ensures Resmudge(c, path, p, env) == SmudgeNow(c, path, content, env)
      {
        SameSmudge(c, path, content, p, env);
      }
    } else {
      OtherSmudge(c, path, content, p);
    }
  }

  // ---------------------------------------------------------------- runs that delay only some contents

  /** Git lets only contents in k be delayed. */
  ghost predicate Offers(rs: seq<Request>, k: iset<string>) {
    forall i :: 0 <= i < |rs| && rs[i].Smudge? && rs[i].canDelay ==> rs[i].content in k
  }

  ghost predicate OffersOne(r: Request, k: iset<string>) { r.Smudge? && r.canDelay ==> r.content in k }

  /** The configuration lets some path be delayed. */
  ghost predicate CanDelay(c: Config) { c.supportsDelay && !c.skip && exists path :: c.allows(path) }

  /** Everything outstanding was offered. */
  ghost predicate Offered(outstanding: map<string, string>, k: iset<string>) {
    forall path :: path in outstanding ==> outstanding[path] in k
  }

  lemma StepKeepsOffered(c: Config, s: Session, r: Request, k: iset<string>)
    requires Offered(s.git.outstanding, k) && Legal(c, s, r) && OffersOne(r, k)
    ensures Offered(Next(c, s, r).git.outstanding, k)
  {
    hide P.Decode, P.Encoded, SmudgeWith, SmudgeNow;
  }

  lemma {:induction false} RunKeepsOffered(c: Config, s: Session, rs: seq<Request>, k: iset<string>)
    requires Offered(s.git.outstanding, k) && LegalRun(c, s, rs) && Offers(rs, k)
    ensures Offered(Run(c, s, rs).git.outstanding, k)
    decreases |rs|
  {
    hide Legal, Next, DelayProtocol.Reply, Offered;
    if rs != [] {
      assert OffersOne(rs[0], k);
      StepKeepsOffered(c, s, rs[0], k);
      RunKeepsOffered(c, Next(c, s, rs[0]), rs[1..], k);
    }
  }

  // ---------------------------------------------------------------- exact lists

  /** The filter remembers the outstanding paths and no others, and can read them all
      again; the queue reports only what Git waits for. */
  ghost predicate Exact(s: Session) {
    && s.filter.ptrs.Keys == s.git.outstanding.Keys
    && (forall path :: path in s.git.outstanding ==> Rereadable(s.git.outstanding[path]))
    && (s.git.round.Retrieving? ==> s.git.round.todo <= s.git.outstanding.Keys)
    && (s.filter.queue.Some? ==> s.filter.queue.value.unreported <= s.git.outstanding.Keys)
    && (s.filter.queue.Some? && s.git.round.Retrieving? ==> s.filter.queue.value.unreported !! s.git.round.todo)
  }

  lemma SmudgeKeepsExact(c: Config, s: Session, r: Request)
    requires Inv(c, s) && Exact(s) && Legal(c, s, r) && r.Smudge? && (r.canDelay ==> Rereadable(r.content))
    ensures Exact(Next(c, s, r))
  {
    hide P.Decode, P.Encoded, SmudgeWith, SmudgeNow, Rereadable;
    assert s.filter.ptrs - {r.path} == s.filter.ptrs;
  }

  lemma ListKeepsExact(c: Config, s: Session, r: Request)
    requires Inv(c, s) && Exact(s) && Legal(c, s, r) && r.List?
    ensures Exact(Next(c, s, r))
    ensures DelayProtocol.Reply(c, s, r).Paths? && DelayProtocol.Reply(c, s, r).paths <= s.git.outstanding.Keys
  {
    hide P.Decode, P.Encoded, Rereadable;
  }

  lemma RetryKeepsExact(c: Config, s: Session, r: Request)
    requires Inv(c, s) && Exact(s) && Legal(c, s, r) && r.Retry?
    ensures Exact(Next(c, s, r)) && Next(c, s, r).git.round.Retrieving?
    ensures !DelayProtocol.Reply(c, s, r).Paths?
    ensures DelayProtocol.Reply(c, s, r).Answer? ==>
              Next(c, s, r).git == Git(s.git.outstanding - {r.path}, Retrieving(s.git.round.todo - {r.path}))
  {
    hide P.Decode, P.Encoded, SmudgeWith, SmudgeNow, Rereadable;
    ForgottenIff(c, r.path, s.git.outstanding[r.path], s.filter.ptrs[r.path], r.retryEnv);
  }

  lemma StepKeepsExact(c: Config, s: Session, r: Request)
    requires Inv(c, s) && Exact(s) && Legal(c, s, r) && (r.Smudge? && r.canDelay ==> Rereadable(r.content))
    ensures Exact(Next(c, s, r))
  {
    hide Inv, Exact, Legal, Next, Rereadable;
    match r
    case Smudge(_, _, _, _) => SmudgeKeepsExact(c, s, r);
    case List(_) => ListKeepsExact(c, s, r);
    case Retry(_, _) => RetryKeepsExact(c, s, r);
  }

  lemma {:induction false} RunKeepsExact(c: Config, s: Session, rs: seq<Request>, k: iset<string>)
    requires Inv(c, s) && Exact(s) && LegalRun(c, s, rs) && Offers(rs, k) && forall x :: x in k ==> Rereadable(x)
    ensures Exact(Run(c, s, rs))
    decreases |rs|
  {
    hide Inv, Exact, Legal, Next, DelayProtocol.Reply, Rereadable;
    if rs != [] {
      assert OffersOne(rs[0], k);
      StepKeepsInv(c, s, rs[0]);
      StepKeepsExact(c, s, rs[0]);
      RunKeepsExact(c, Next(c, s, rs[0]), rs[1..], k);
    }
  }

  lemma {:induction false} ReachableExact(c: Config, rs: seq<Request>, k: iset<string>)
    requires LegalRun(c, Start(), rs) && Offers(rs, k) && (CanDelay(c) ==> forall x :: x in k ==> Rereadable(x))
    ensures Exact(Run(c, Start(), rs))
  {
    hide Inv, Run, LegalRun, Rereadable;
    StartInv(c);
    if CanDelay(c) {
      RunKeepsExact(c, Start(), rs, k);
    } else {
      NeverDelays(c, Start(), rs);
    }
  }

  /** Nothing was ever delayed. */
  predicate Untouched(s: Session) {
    && s.git == Git(map[], Checkout) && s.filter.ptrs == map[]
    && (s.filter.queue.Some? ==> s.filter.queue.value.unreported == {})
  }

  lemma {:induction false} NeverDelays(c: Config, s: Session, rs: seq<Request>)
    requires !CanDelay(c) && Untouched(s) && LegalRun(c, s, rs)
    ensures Untouched(Run(c, s, rs))
    decreases |rs|
  {
    hide DelayProtocol.Reply, Next, CanDelay;
    if rs != [] {
      StaysUntouched(c, s, rs[0]);
      NeverDelays(c, Next(c, s, rs[0]), rs[1..]);
    }
  }

  lemma StaysUntouched(c: Config, s: Session, r: Request)
    requires !CanDelay(c) && Untouched(s) && Legal(c, s, r)
    ensures Untouched(Next(c, s, r))
  {
    hide P.Decode, P.Encoded, SmudgeWith, SmudgeNow;
    assert s.filter.ptrs - {""} == s.filter.ptrs;
    if r.Smudge? {
      assert s.filter.ptrs - {r.path} == s.filter.ptrs;
    }
  }

  // ---------------------------------------------------------------- a session that goes wrong

  lemma {:induction false} Prepend(c: Config, s: Session, r: Request, rs: seq<Request>)
    requires Legal(c, s, r) && !DelayProtocol.Reply(c, s, r).Exited? && LegalRun(c, Next(c, s, r), rs)
    ensures LegalRun(c, s, [r] + rs) && Run(c, s, [r] + rs) == Run(c, Next(c, s, r), rs)
  {
    hide Legal, Next, DelayProtocol.Reply;
    assert ([r] + rs)[1..] == rs;
  }

  lemma {:induction false} Nothing(c: Config, s: Session)
    ensures LegalRun(c, s, []) && Run(c, s, []) == s
  {
  }

  /** The path was delayed and is listed. */
  function Asked(path: string, content: string, p: P.Pointer): Session {
    Session(Git(map[path := content], Retrieving({path})), State(map[path := p], Some(Queue({}))))
  }

  /** The path was delayed. */
  function JustDelayed(path: string, content: string, p: P.Pointer): Session {
    Session(Git(map[path := content], Checkout), State(map[path := p], Some(Queue({path}))))
  }

  lemma DelaysThenLists(c: Config, path: string, content: string, p: P.Pointer)
    requires c.supportsDelay && !c.skip && c.allows(path) && P.Decode(content) == P.Ok(p) && p.size != 0
    ensures var r := Smudge(path, content, true, NOTHING_THERE);
            && Legal(c, Start(), r) && DelayProtocol.Reply(c, Start(), r).Answer?
            && Next(c, Start(), r) == JustDelayed(path, content, p)
    ensures var s, r := JustDelayed(path, content, p), List({path});
            && Legal(c, s, r) && DelayProtocol.Reply(c, s, r).Paths?
            && Next(c, s, r) == Asked(path, content, p)
  {
    hide P.Decode, SmudgeWith;
    var empty: set<string> := {};
    assert empty + {path} == {path} && {path} - {path} == empty;
    assert path in map[path := content];
  }

  function Delaying(path: string, content: string): seq<Request> {
    [Smudge(path, content, true, NOTHING_THERE)] + ([List({path})] + [])
  }

  lemma {:induction false} DelayingIsLegal(c: Config, path: string, content: string, p: P.Pointer)
    requires c.supportsDelay && !c.skip && c.allows(path) && P.Decode(content) == P.Ok(p) && p.size != 0
    ensures LegalRun(c, Start(), Delaying(path, content))
    ensures Run(c, Start(), Delaying(path, content)) == Asked(path, content, p)
  {
    hide P.Decode, LegalRun, Run, Legal, Next, DelayProtocol.Reply;
    var r1, r2 := Smudge(path, content, true, NOTHING_THERE), List({path});
    DelaysThenLists(c, path, content, p);
    Nothing(c, Asked(path, content, p));
    Prepend(c, JustDelayed(path, content, p), r2, []);
    Prepend(c, Start(), r1, [r2] + []);
  }

  /** The path was answered, but the filter still remembers it. */
  function Stuck(path: string, p: P.Pointer): Session {
    Session(Git(map[], Retrieving({})), State(map[path := p], Some(Queue({}))))
  }

  lemma GetsStuck(c: Config, path: string, content: string, p: P.Pointer, s: Session)
    requires c.supportsDelay && P.Decode(content) == P.Ok(p) && p.size != 0 && !Rereadable(content)
    requires s == Asked(path, content, p) || s == Session(Git(map[], Retrieving({path})), State(map[path := p], None))
    ensures var r := Retry(path, NOTHING_THERE);
            Legal(c, s, r) && DelayProtocol.Reply(c, s, r).Answer? && Next(c, s, r) == Stuck(path, p)
  {
    hide P.Decode, P.Encoded, Rereadable;
    ForgottenIff(c, path, content, p, NOTHING_THERE);
    var r := Retry(path, NOTHING_THERE);
    assert s.git.outstanding - {path} == map[] && {path} - {path} == {};
    assert CachedPointer(s.filter.ptrs, path) == Some(p);
    assert Handle(c, s.filter, r) == (State(map[path := p], Some(Queue({}))), Answer(Success, P.Encoded(p)));
  }

  lemma ListsThePathAgain(c: Config, path: string, p: P.Pointer)
    ensures var s, r := Stuck(path, p), List({});
            && Legal(c, s, r) && DelayProtocol.Reply(c, s, r) == Paths({path})
            && Next(c, s, r) == Session(Git(map[], Retrieving({path})), State(map[path := p], None))
  {
    assert map[path := p].Keys == {path};
  }

  /** From there Git can be kept asking for ever. */
  lemma {:induction false} AsksForEver(c: Config, path: string, content: string, p: P.Pointer, n: nat)
    returns (tail: seq<Request>)
    requires c.supportsDelay && P.Decode(content) == P.Ok(p) && p.size != 0 && !Rereadable(content)
    ensures |tail| == 2 * n && LegalRun(c, Stuck(path, p), tail)
    ensures forall i :: 0 <= i < |tail| ==> !tail[i].Smudge?
    decreases n
  {
    hide P.Decode, LegalRun, Run, Legal, Next, DelayProtocol.Reply, Rereadable;
    if n == 0 {
      tail := [];
      Nothing(c, Stuck(path, p));
    } else {
      var rest := AsksForEver(c, path, content, p, n - 1);
      var list, retry := List({}), Retry(path, NOTHING_THERE);
      ListsThePathAgain(c, path, p);
      var s := Next(c, Stuck(path, p), list);
      GetsStuck(c, path, content, p, s);
      Prepend(c, s, retry, rest);
      Prepend(c, Stuck(path, p), list, [retry] + rest);
      tail := [list] + ([retry] + rest);
    }
  }

  function Sticking(path: string, content: string): seq<Request> {
    [Smudge(path, content, true, NOTHING_THERE)] + ([List({path})] + ([Retry(path, NOTHING_THERE)] + []))
  }

  lemma {:induction false} StickingIsLegal(c: Config, path: string, content: string, p: P.Pointer)
    requires c.supportsDelay && !c.skip && c.allows(path)
    requires P.Decode(content) == P.Ok(p) && p.size != 0 && !Rereadable(content)
    ensures LegalRun(c, Start(), Sticking(path, content))
    ensures Run(c, Start(), Sticking(path, content)) == Stuck(path, p)
  {
    hide P.Decode, LegalRun, Run, Legal, Next, DelayProtocol.Reply, Rereadable;
    var r1, r2, r3 := Smudge(path, content, true, NOTHING_THERE), List({path}), Retry(path, NOTHING_THERE);
    DelaysThenLists(c, path, content, p);
    GetsStuck(c, path, content, p, Asked(path, content, p));
    Nothing(c, Stuck(path, p));
    Prepend(c, Asked(path, content, p), r3, []);
    Prepend(c, JustDelayed(path, content, p), r2, [r3] + []);
    Prepend(c, Start(), r1, [r2] + ([r3] + []));
  }

  // ---------------------------------------------------------------- exactly when

  /** In every run that lets only contents in k be delayed, each list names only paths
      that Git is waiting for. */
  ghost predicate ListsNameOnlyOutstanding(c: Config, k: iset<string>) {
    forall rs, r :: LegalRun(c, Start(), rs) && Offers(rs, k) && Legal(c, Run(c, Start(), rs), r) && r.List? ==>
      var reply := DelayProtocol.Reply(c, Run(c, Start(), rs), r);
      reply.Paths? && reply.paths <= Run(c, Start(), rs).git.outstanding.Keys
  }

  lemma {:induction false} ExactWhenRereadable(c: Config, k: iset<string>)
    requires CanDelay(c) ==> forall x :: x in k ==> Rereadable(x)
    ensures ListsNameOnlyOutstanding(c, k)
  {
    hide Rereadable, Legal, LegalRun, Run, DelayProtocol.Reply, Inv, Exact, Offers;
    forall rs, r | LegalRun(c, Start(), rs) && Offers(rs, k) && Legal(c, Run(c, Start(), rs), r) && r.List?
      ensures var reply := DelayProtocol.Reply(c, Run(c, Start(), rs), r);
              reply.Paths? && reply.paths <= Run(c, Start(), rs).git.outstanding.Keys
    {
      ReachableInv(c, rs);
      ReachableExact(c, rs, k);
      ListKeepsExact(c, Run(c, Start(), rs), r);
    }
  }

  lemma {:induction false} InexactOtherwise(c: Config, k: iset<string>, content: string, path: string)
    requires c.supportsDelay && !c.skip && c.allows(path) && content in k && !Rereadable(content)
    ensures !ListsNameOnlyOutstanding(c, k)
  {
    hide Rereadable, Legal, LegalRun, Run, DelayProtocol.Reply;
    var p := Unreadable(content);
    var rs := Sticking(path, content);
    StickingIsLegal(c, path, content, p);
    ListsThePathAgain(c, path, p);
    assert Offers(rs, k);
    assert Run(c, Start(), rs).git.outstanding == map[];
    assert path in DelayProtocol.Reply(c, Run(c, Start(), rs), List({})).paths;
  }

  lemma ListsAreExactIff(c: Config, k: iset<string>)
    ensures ListsNameOnlyOutstanding(c, k) <==> (CanDelay(c) ==> forall x :: x in k ==> Rereadable(x))
  {
    hide Rereadable, ListsNameOnlyOutstanding;
    if CanDelay(c) ==> forall x :: x in k ==> Rereadable(x) {
      ExactWhenRereadable(c, k);
    } else {
      var content :| content in k && !Rereadable(content);
      var path :| c.allows(path);
      InexactOtherwise(c, k, content, path);
    }
  }

  lemma Unreadable(content: string) returns (p: P.Pointer)
    requires !Rereadable(content)
    ensures P.Decode(content) == P.Ok(p) && p.size != 0
  {
    hide P.Decode;
    p := P.Decode(content).value;
  }

  // ---------------------------------------------------------------- retrieval ends

  /** How many more requests a retrieval can take. */
  function Work(g: Git): nat {
    if g.round.Checkout? then (if g.outstanding == map[] then 0 else 2 * |g.outstanding| + 2)
    else 2 * |g.outstanding| + (if g.round.todo == {} then 1 else 0)
  }

  lemma ListShrinks(c: Config, s: Session, r: Request)
    requires Inv(c, s) && Exact(s) && Legal(c, s, r) && r.List?
    ensures Work(Next(c, s, r).git) < Work(s.git)
  {
    ListKeepsInv(c, s, r);
    ListKeepsExact(c, s, r);
  }

  lemma RetryShrinks(c: Config, s: Session, r: Request)
    requires Inv(c, s) && Exact(s) && Legal(c, s, r) && r.Retry? && !DelayProtocol.Reply(c, s, r).Exited?
    ensures Work(Next(c, s, r).git) < Work(s.git)
  {
    hide P.Decode, P.Encoded, SmudgeWith, SmudgeNow, Rereadable, Next, DelayProtocol.Reply;
    RetryKeepsInv(c, s, r);
    RetryKeepsExact(c, s, r);
    assert r.path in s.git.outstanding;
    assert (s.git.outstanding - {r.path}).Keys == s.git.outstanding.Keys - {r.path};
    assert |s.git.outstanding - {r.path}| == |(s.git.outstanding - {r.path}).Keys|;
  }

  predicate NoSmudge(rs: seq<Request>) { forall i :: 0 <= i < |rs| ==> !rs[i].Smudge? }

  lemma {:induction false} RetrievalSteps(c: Config, s: Session, rs: seq<Request>)
    requires Inv(c, s) && Exact(s) && LegalRun(c, s, rs) && NoSmudge(rs)
    ensures |rs| <= Work(s.git) + 1
    decreases |rs|
  {
    hide Inv, Exact, Legal, Next, DelayProtocol.Reply, Work;
    if rs != [] && !DelayProtocol.Reply(c, s, rs[0]).Exited? {
      assert !rs[0].Smudge?;
      StepKeepsInv(c, s, rs[0]);
      StepKeepsExact(c, s, rs[0]);
      if rs[0].List? {
        ListShrinks(c, s, rs[0]);
      } else {
        RetryShrinks(c, s, rs[0]);
      }
      RetrievalSteps(c, Next(c, s, rs[0]), rs[1..]);
    }
  }

  /** From here Git asks at most n more times before it sends another file. */
  ghost predicate Within(c: Config, s: Session, n: nat) {
    forall rs :: LegalRun(c, s, rs) && NoSmudge(rs) ==> |rs| <= n
  }

  /** In every run that lets only contents in k be delayed, every retrieval ends. */
  ghost predicate RetrievalsEnd(c: Config, k: iset<string>) {
    forall rs :: LegalRun(c, Start(), rs) && Offers(rs, k) ==> exists n: nat :: Within(c, Run(c, Start(), rs), n)
  }

  ghost predicate RetrievalsEndInTime(c: Config, k: iset<string>) {
    forall rs :: LegalRun(c, Start(), rs) && Offers(rs, k) ==>
      Within(c, Run(c, Start(), rs), 2 * |Run(c, Start(), rs).git.outstanding| + 3)
  }

  lemma {:induction false} EndsWhenRereadable(c: Config, k: iset<string>)
    requires CanDelay(c) ==> forall x :: x in k ==> Rereadable(x)
    ensures RetrievalsEnd(c, k) && RetrievalsEndInTime(c, k)
  {
    hide Rereadable, LegalRun, Run, Within, Offers;
    forall rs | LegalRun(c, Start(), rs) && Offers(rs, k)
      ensures Within(c, Run(c, Start(), rs), 2 * |Run(c, Start(), rs).git.outstanding| + 3)
    {
      RetrievalIsBounded(c, rs, k);
    }
  }

  lemma {:induction false} NeverEndsOtherwise(c: Config, k: iset<string>, content: string, path: string)
    requires c.supportsDelay && !c.skip && c.allows(path) && content in k && !Rereadable(content)
    ensures !RetrievalsEnd(c, k)
  {
    hide Rereadable, LegalRun, Run, Within;
    var p := Unreadable(content);
    var rs := Sticking(path, content);
    StickingIsLegal(c, path, content, p);
    assert Offers(rs, k);
    forall n: nat
      ensures !Within(c, Stuck(path, p), n)
    {
      NeverWithin(c, path, content, p, n);
    }
  }

  /** Retrievals end exactly when every content that may be delayed can be read again.
      Then they take at most two requests for each outstanding path and three more,
      whatever the queue reports and when. */
  lemma RetrievalEndsIff(c: Config, k: iset<string>)
    ensures RetrievalsEnd(c, k) <==> (CanDelay(c) ==> forall x :: x in k ==> Rereadable(x))
    ensures RetrievalsEnd(c, k) ==> RetrievalsEndInTime(c, k)
  {
    hide Rereadable, RetrievalsEnd, RetrievalsEndInTime;
    if CanDelay(c) ==> forall x :: x in k ==> Rereadable(x) {
      EndsWhenRereadable(c, k);
    } else {
      var content :| content in k && !Rereadable(content);
      var path :| c.allows(path);
      NeverEndsOtherwise(c, k, content, path);
    }
  }

  lemma {:induction false} RetrievalIsBounded(c: Config, rs: seq<Request>, k: iset<string>)
    requires LegalRun(c, Start(), rs) && Offers(rs, k) && (CanDelay(c) ==> forall x :: x in k ==> Rereadable(x))
    ensures Within(c, Run(c, Start(), rs), 2 * |Run(c, Start(), rs).git.outstanding| + 3)
  {
    hide Inv, Exact, Run, LegalRun, Rereadable;
    ReachableInv(c, rs);
    ReachableExact(c, rs, k);
    var s := Run(c, Start(), rs);
    forall tail | LegalRun(c, s, tail) && NoSmudge(tail)
      ensures |tail| <= 2 * |s.git.outstanding| + 3
    {
      RetrievalSteps(c, s, tail);
    }
  }

  lemma {:induction false} NeverWithin(c: Config, path: string, content: string, p: P.Pointer, n: nat)
    requires c.supportsDelay && P.Decode(content) == P.Ok(p) && p.size != 0 && !Rereadable(content)
    ensures !Within(c, Stuck(path, p), n)
  {
    hide P.Decode, LegalRun, Rereadable;
    var tail := AsksForEver(c, path, content, p, n + 1);
    assert NoSmudge(tail);
  }

  // ---------------------------------------------------------------- the first content is answered

  /** In every run that lets only contents in k be delayed, a retried outstanding path
      smudges what the content Git first sent for it would smudge now. */
  ghost predicate RetriesAnswerTheFirstContent(c: Config, k: iset<string>) {
    forall rs, path, env ::
      && LegalRun(c, Start(), rs) && Offers(rs, k)
      && Legal(c, Run(c, Start(), rs), Retry(path, env)) && path in Run(c, Start(), rs).git.outstanding ==>
      AnswersFirst(c, Run(c, Start(), rs), path, env)
  }

  ghost predicate AnswersFirst(c: Config, s: Session, path: string, env: Env)
    requires path in s.git.outstanding
  {
    && path in s.filter.ptrs
    && Resmudge(c, path, s.filter.ptrs[path], env) == SmudgeNow(c, path, s.git.outstanding[path], env)
  }

  lemma {:induction false} AnswersWhenWhole(c: Config, k: iset<string>)
    requires CanDelay(c) ==> forall x :: x in k ==> RereadWhole(x)
    ensures RetriesAnswerTheFirstContent(c, k)
  {
    hide RereadWhole, Legal, LegalRun, Run, AnswersFirst, Offers;
    forall rs, path, env |
      && LegalRun(c, Start(), rs) && Offers(rs, k)
      && Legal(c, Run(c, Start(), rs), Retry(path, env)) && path in Run(c, Start(), rs).git.outstanding
      ensures AnswersFirst(c, Run(c, Start(), rs), path, env)
    {
      FirstContentAnswered(c, rs, k, path, env);
    }
  }

  lemma {:induction false} AnswersOtherOtherwise(c: Config, k: iset<string>, content: string, path: string)
    requires c.supportsDelay && !c.skip && c.allows(path) && content in k && !RereadWhole(content)
    ensures !RetriesAnswerTheFirstContent(c, k)
  {
    hide RereadWhole, Legal, LegalRun, Run, AnswersFirst;
    var p := NotWhole(content);
    var rs := Delaying(path, content);
    DelayingIsLegal(c, path, content, p);
    assert Offers(rs, k);
    OtherAnswer(c, path, content, p);
  }

  lemma RetryAnswersTheFirstContentIff(c: Config, k: iset<string>)
    ensures RetriesAnswerTheFirstContent(c, k) <==> (CanDelay(c) ==> forall x :: x in k ==> RereadWhole(x))
  {
    hide RereadWhole, RetriesAnswerTheFirstContent;
    if CanDelay(c) ==> forall x :: x in k ==> RereadWhole(x) {
      AnswersWhenWhole(c, k);
    } else {
      var content :| content in k && !RereadWhole(content);
      var path :| c.allows(path);
      AnswersOtherOtherwise(c, k, content, path);
    }
  }

  lemma {:induction false} FirstContentAnswered(c: Config, rs: seq<Request>, k: iset<string>, path: string, env: Env)
    requires LegalRun(c, Start(), rs) && Offers(rs, k) && path in Run(c, Start(), rs).git.outstanding
    requires CanDelay(c) ==> forall x :: x in k ==> RereadWhole(x)
    ensures AnswersFirst(c, Run(c, Start(), rs), path, env)
  {
    hide RereadWhole, LegalRun, Run, Resmudge, SmudgeNow, P.Decode;
    var s := Run(c, Start(), rs);
    ReachableInv(c, rs);
    RunKeepsOffered(c, Start(), rs, k);
    SameSmudge(c, path, s.git.outstanding[path], s.filter.ptrs[path], env);
  }

  lemma NotWhole(content: string) returns (p: P.Pointer)
    requires !RereadWhole(content)
    ensures P.Decode(content) == P.Ok(p) && p.size != 0
  {
    hide P.Decode;
    p := P.Decode(content).value;
  }

  lemma OtherAnswer(c: Config, path: string, content: string, p: P.Pointer)
    requires P.Decode(content) == P.Ok(p) && p.size != 0 && !RereadWhole(content)
    ensures var s := Asked(path, content, p);
            Legal(c, s, Retry(path, NOTHING_THERE)) && !AnswersFirst(c, s, path, NOTHING_THERE)
  {
    hide RereadWhole, Resmudge, SmudgeNow, P.Decode;
    OtherSmudge(c, path, content, p);
  }

  // ---------------------------------------------------------------- what a retry hands over

  /** A retried path whose text is read again whole is answered with the smudged object
      exactly when smudging succeeds; otherwise with the pointer text when download
      errors are skipped, and then forgotten all the same; otherwise the process ends
      and the path stays outstanding. */
  lemma {:induction false} RetryHandsOver(c: Config, rs: seq<Request>, path: string, env: Env)
    requires LegalRun(c, Start(), rs) && path in Run(c, Start(), rs).git.outstanding
    requires Legal(c, Run(c, Start(), rs), Retry(path, env)) && RereadWhole(Run(c, Start(), rs).git.outstanding[path])
    ensures var s := Run(c, Start(), rs);
            && P.Decode(s.git.outstanding[path]).Ok?
            && var p := P.Decode(s.git.outstanding[path]).value;
               var r := SmudgeWith(c.w, c.reg, p, env.stored, env.transfer);
               && DelayProtocol.Reply(c, s, Retry(path, env))
                  == (if r.Wrote? then Answer(Success, r.content)
                      else if c.skipDownloadErrors then Answer(Success, P.Encoded(p))
                      else Exited)
               && (path in Next(c, s, Retry(path, env)).git.outstanding <==> !r.Wrote? && !c.skipDownloadErrors)
               && (path in Next(c, s, Retry(path, env)).filter.ptrs <==> !r.Wrote? && !c.skipDownloadErrors)
  {
    hide LegalRun, Run, RereadWhole, P.Decode, P.Encoded, SmudgeWith;
    var s := Run(c, Start(), rs);
    ReachableInv(c, rs);
    HandsOver(c, s, path, env);
  }

  lemma HandsOver(c: Config, s: Session, path: string, env: Env)
    requires Inv(c, s) && path in s.git.outstanding && Legal(c, s, Retry(path, env))
    requires RereadWhole(s.git.outstanding[path])
    ensures P.Decode(s.git.outstanding[path]).Ok?
    ensures var p := P.Decode(s.git.outstanding[path]).value;
            var r := SmudgeWith(c.w, c.reg, p, env.stored, env.transfer);
            && DelayProtocol.Reply(c, s, Retry(path, env))
               == (if r.Wrote? then Answer(Success, r.content)
                   else if c.skipDownloadErrors then Answer(Success, P.Encoded(p))
                   else Exited)
            && (path in Next(c, s, Retry(path, env)).git.outstanding <==> !r.Wrote? && !c.skipDownloadErrors)
            && (path in Next(c, s, Retry(path, env)).filter.ptrs <==> !r.Wrote? && !c.skipDownloadErrors)
  {
    hide RereadWhole, P.Decode, P.Encoded, SmudgeWith;
    SameSmudge(c, path, s.git.outstanding[path], s.filter.ptrs[path], env);
  }

  // ---------------------------------------------------------------- an input

  /** A delayed pointer file of 1024 bytes under the oldest version alias is never
      forgotten: its path is listed although nothing is outstanding, for ever. */
  lemma {:induction false} OverlongPointerIsListedForEver(c: Config, path: string, n: nat) returns (tail: seq<Request>)
    requires c.supportsDelay && !c.skip && c.allows(path)
    ensures var rs := Sticking(path, PointerCut.Overlong());
            && LegalRun(c, Start(), rs)
            && Run(c, Start(), rs).git.outstanding == map[]
            && DelayProtocol.Reply(c, Run(c, Start(), rs), List({})) == Paths({path})
            && LegalRun(c, Run(c, Start(), rs), tail) && NoSmudge(tail) && |tail| == 2 * n
  {
    hide LegalRun, Run, DelayProtocol.Reply, Legal, Next, P.Decode;
    var content, p := PointerCut.Overlong(), PointerCut.Sample(830).(canonical := false);
    OverlongIsUnreadable();
    StickingIsLegal(c, path, content, p);
    ListsThePathAgain(c, path, p);
    tail := AsksForEver(c, path, content, p, n);
  }

  lemma OverlongIsUnreadable()
    ensures !Rereadable(PointerCut.Overlong())
    ensures P.Decode(PointerCut.Overlong()) == P.Ok(PointerCut.Sample(830).(canonical := false))
    ensures PointerCut.Sample(830).size != 0
  {
    hide P.Decode, P.Encoded, PointerCut.Overlong, PointerCut.Sample;
    PointerCut.OverlongDecodes();
    PointerCut.SampleSize(830);
    TextIgnoresCanonical(PointerCut.Sample(830), false);
  }
}
