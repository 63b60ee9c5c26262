/** The local object store under any sequence of adds and checkouts
    (commands/command_clean.go, lfs/gitfilter_smudge.go). */
module ObjectStore {
  import opened Options
  import opened Extensions
  import opened ExtensionPipe
  import opened Filters
  import opened FilterRoundTrip
  import P = Pointer

  /** Objects under their IDs. */
  type Store = map<string, string>

  datatype Op =
    | Add(content: string, first: nat, fileSize: int)
    | Checkout(pointer: P.Pointer, transfer: Transfer)

  function Stored(s: Store, oid: string): Option<string> { if oid in s then Some(s[oid]) else None }

  function Put(s: Store, oid: string, data: Option<string>): Store {
    match data
    case Some(d) => s[oid := d]
    case None => s - {oid}
  }

  /** The clean command keeps an object that is there already. */
  function AfterAdd(w: World, exts: seq<Extension>, s: Store, content: string, first: nat, fileSize: int): Store
    requires FirstRead(content, first)
  {
    var c := CleanWith(w, exts, content, first, fileSize);
    if c.Cleaned? && c.pointer.oid !in s then s[c.pointer.oid := c.data] else s
  }

  function Apply(w: World, exts: seq<Extension>, s: Store, op: Op): Store
    requires Possible(w, op)
  {
    match op
    case Add(content, first, fileSize) => AfterAdd(w, exts, s, content, first, fileSize)
    case Checkout(p, t) => Put(s, p.oid, LeftBehind(p, Stored(s, p.oid), t))
  }

  /** Transfers bring only what hashes to the requested OID (Download.StoreHoldsOnlyTheOid). */
  predicate Possible(w: World, op: Op) {
    match op
    case Add(content, first, _) => FirstRead(content, first)
    case Checkout(p, t) => t.Arrived? ==> w.sha(t.content) == p.oid
  }

  function Run(w: World, exts: seq<Extension>, s: Store, ops: seq<Op>): Store
    requires forall i :: 0 <= i < |ops| ==> Possible(w, ops[i])
    decreases |ops|
  {
    if ops == [] then s
    else
      assert Possible(w, ops[0]);
      Run(w, exts, Apply(w, exts, s, ops[0]), ops[1..])
  }

  /** The object that a smudge reads, if any. */
  function ObjectRead(p: P.Pointer, stored: Option<string>, t: Transfer): Option<string> {
    if p.size == 0 then None else LeftBehind(p, stored, t)
  }

  /** Every object but an empty one hashes to its name; empty ones are never read. */
  ghost predicate Sound(w: World, s: Store) {
    forall oid :: oid in s ==> s[oid] == "" || w.sha(s[oid]) == oid
  }

  lemma AddKeepsSound(w: World, exts: seq<Extension>, s: Store, content: string, first: nat, fileSize: int)
    requires Sound(w, s) && FirstRead(content, first)
    ensures Sound(w, AfterAdd(w, exts, s, content, first, fileSize))
  {
    hide P.DecodeBuffer, Piped, LooksLikePointer, Recorded;
  }

  lemma StepKeepsSound(w: World, exts: seq<Extension>, s: Store, op: Op)
    requires Sound(w, s) && Possible(w, op)
    ensures Sound(w, Apply(w, exts, s, op))
  {
    hide AfterAdd;
    if op.Add? {
      AddKeepsSound(w, exts, s, op.content, op.first, op.fileSize);
    }
  }

  lemma {:induction false} RunKeepsSound(w: World, exts: seq<Extension>, s: Store, ops: seq<Op>)
    requires Sound(w, s) && forall i :: 0 <= i < |ops| ==> Possible(w, ops[i])
    ensures Sound(w, Run(w, exts, s, ops))
    decreases |ops|
  {
    hide Apply, Sound, Possible;
    if ops != [] {
      assert Possible(w, ops[0]);
      StepKeepsSound(w, exts, s, ops[0]);
      RunKeepsSound(w, exts, Apply(w, exts, s, ops[0]), ops[1..]);
    }
  }

  /** The content written by a checkout was read from an object with the pointer's OID. */
  ghost predicate Vouched(w: World, reg: Registry, s: Store, p: P.Pointer, t: Transfer) {
    var stored := Stored(s, p.oid);
    SmudgeWith(w, reg, p, stored, t).Wrote? && ObjectRead(p, stored, t).Some? ==>
      w.sha(ObjectRead(p, stored, t).value) == p.oid
  }

  /** After any adds and checkouts from this store, every checkout is vouched for. */
  ghost predicate EveryCheckoutIsVouched(w: World, reg: Registry, exts: seq<Extension>, s: Store) {
    forall ops: seq<Op>, p, t ::
      (forall i :: 0 <= i < |ops| ==> Possible(w, ops[i])) && Possible(w, Checkout(p, t)) ==>
      Vouched(w, reg, Run(w, exts, s, ops), p, t)
  }

  lemma VouchedFromSound(w: World, reg: Registry, s: Store, p: P.Pointer, t: Transfer)
    requires Sound(w, s) && Possible(w, Checkout(p, t))
    ensures Vouched(w, reg, s, p, t)
  {
    hide SmudgeWith;
  }

  /** A stored object is checked by its size alone when the pointer has no extensions,
      so over every sequence of adds and checkouts, with whatever pointers, each content
      written comes from an object with the pointer's OID exactly when every non-empty
      object in the store to begin with hashes to its name. */
  lemma {:induction false} CheckoutsAreVouchedIff(w: World, reg: Registry, exts: seq<Extension>, s: Store)
    ensures EveryCheckoutIsVouched(w, reg, exts, s) <==> Sound(w, s)
  {
    hide Run, Vouched, Possible;
    if Sound(w, s) {
      forall ops: seq<Op>, p, t | (forall i :: 0 <= i < |ops| ==> Possible(w, ops[i])) && Possible(w, Checkout(p, t))
        ensures Vouched(w, reg, Run(w, exts, s, ops), p, t)
      {
        RunKeepsSound(w, exts, s, ops);
        VouchedFromSound(w, reg, Run(w, exts, s, ops), p, t);
      }
    } else {
      var oid :| oid in s && s[oid] != "" && w.sha(s[oid]) != oid;
      var p := P.Pointer(oid, |s[oid]|, [], true);
      BadObjectIsServed(w, reg, s, oid);
      NoOps(w, exts, s);
      assert !Vouched(w, reg, Run(w, exts, s, []), p, NotAllowed);
    }
  }

  lemma {:induction false} NoOps(w: World, exts: seq<Extension>, s: Store)
    ensures Run(w, exts, s, []) == s
  {
  }

  lemma BadObjectIsServed(w: World, reg: Registry, s: Store, oid: string)
    requires oid in s && s[oid] != "" && w.sha(s[oid]) != oid
    ensures var p := P.Pointer(oid, |s[oid]|, [], true);
            Possible(w, Checkout(p, NotAllowed)) && !Vouched(w, reg, s, p, NotAllowed)
  {
  }

  // ---------------------------------------------------------------- what was added comes back

  /** Checking out a pointer with the OID but another size removes the object. */
  predicate Removes(op: Op, oid: string, size: nat) {
    op.Checkout? && op.pointer.oid == oid && op.pointer.size != size
  }

  lemma StepKeepsObject(w: World, exts: seq<Extension>, s: Store, op: Op, oid: string)
    requires Possible(w, op) && oid in s && !Removes(op, oid, |s[oid]|)
    ensures oid in Apply(w, exts, s, op) && Apply(w, exts, s, op)[oid] == s[oid]
  {
    hide CleanWith;
  }

  lemma {:induction false} RunKeepsObject(w: World, exts: seq<Extension>, s: Store, ops: seq<Op>, oid: string)
    requires oid in s && forall i :: 0 <= i < |ops| ==> Possible(w, ops[i])
    requires forall i :: 0 <= i < |ops| ==> !Removes(ops[i], oid, |s[oid]|)
    ensures var after := Run(w, exts, s, ops); oid in after && after[oid] == s[oid]
    decreases |ops|
  {
    hide Apply, Possible;
    if ops != [] {
      assert Possible(w, ops[0]) && !Removes(ops[0], oid, |s[oid]|);
      StepKeepsObject(w, exts, s, ops[0], oid);
      RunKeepsObject(w, exts, Apply(w, exts, s, ops[0]), ops[1..], oid);
    }
  }

  /** A file that was added, any adds and checkouts later, is restored by checking out
      what Git stored for it, unless a pointer with its OID and another size was checked
      out meanwhile. */
  lemma {:induction false} AddedContentComesBack(w: World, reg: Registry, exts: seq<Extension>, s: Store,
                                                 add: Op, ops: seq<Op>, t: Transfer)
    requires add.Add? && Possible(w, add) && forall i :: 0 <= i < |ops| ==> Possible(w, ops[i])
    requires WellNamed(reg) && Lists(reg, exts) && Invertible(w, exts, add.content)
    requires exts == [] ==> !LooksLikePointer(add.content[..add.first])
    requires exts == [] ==> add.fileSize < 0 || add.first < add.fileSize || add.first == |add.content|
    requires var c := CleanWith(w, exts, add.content, add.first, add.fileSize);
             && (c.Cleaned? ==> c.data != [] && P.WellFormed(c.pointer) && |P.Encoded(c.pointer)| <= P.CUTOFF + 1)
             && (c.Cleaned? && c.pointer.oid in s ==> s[c.pointer.oid] == c.data)
             && (c.Cleaned? ==> forall i :: 0 <= i < |ops| ==> !Removes(ops[i], c.pointer.oid, |c.data|))
    ensures var c := CleanWith(w, exts, add.content, add.first, add.fileSize);
            var after := Run(w, exts, Apply(w, exts, s, add), ops);
            && c.Cleaned? && P.Decode(Blob(c)).Ok?
            && SmudgeWith(w, reg, P.Decode(Blob(c)).value, Stored(after, c.pointer.oid), t) == Wrote(add.content)
  {
    hide P.WellFormed, P.Encoded, P.Decode, Invertible, Lists, CleanWith, SmudgeWith, LooksLikePointer, Run, Removes;
    CheckoutRestores(w, reg, exts, add.content, add.first, add.fileSize, t);
    var c := CleanWith(w, exts, add.content, add.first, add.fileSize);
    RunKeepsObject(w, exts, Apply(w, exts, s, add), ops, c.pointer.oid);
  }
}
