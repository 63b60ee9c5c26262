/** The clean and smudge filters (lfs/gitfilter_clean.go, lfs/gitfilter_smudge.go). */
module Filters {
  import opened Options
  import opened Extensions
  import opened ExtensionPipe
  import P = Pointer

  /** The listing of a registry, which SortExtensions computes. */
  ghost function Listing(m: Registry): seq<Extension> {
    if exists s :: Lists(m, s) then
      var s :| Lists(m, s);
      s
    else []
  }

  lemma ListingIs(m: Registry, s: seq<Extension>)
    requires Lists(m, s)
    ensures Listing(m) == s
  {
    ListingIsUnique(m, Listing(m), s);
  }

  // ---------------------------------------------------------------- clean

  datatype CleanResult =
    | Cleaned(pointer: P.Pointer, data: string)
    | AlreadyPointer(bytes: string)
    | CleanFailed

  /** The number of bytes the reader's first Read returns: any positive number of
      those available, up to the buffer's size. */
  predicate FirstRead(content: string, n: nat) {
    n <= |content| && n <= P.CUTOFF && (content != [] ==> n > 0)
  }

  /** Pointer extensions for the stages that changed the hash, numbered from n. */
  function Recorded(results: seq<StageResult>, n: nat): seq<P.Extension> {
    if results == [] then []
    else if results[0].oidIn == results[0].oidOut then Recorded(results[1..], n)
    else [P.Extension(results[0].name, n, results[0].oidIn)] + Recorded(results[1..], n + 1)
  }

  /** What copyToTemp takes for a pointer that is clean already. */
  predicate LooksLikePointer(head: string) { head == [] || (P.DecodeBuffer(head).Ok? && |head| < P.CUTOFF) }

  /** copyToTemp. */
  function Copy(w: World, content: string, first: nat, fileSize: int): CleanResult
    requires FirstRead(content, first)
  {
    var head := content[..first];
    if LooksLikePointer(head) then AlreadyPointer(head)
    else
      var data := if fileSize < 0 || first < fileSize then content else head;
      Cleaned(P.Pointer(w.sha(data), |data|, [], true), data)
  }

  function CleanWith(w: World, exts: seq<Extension>, content: string, first: nat, fileSize: int): CleanResult
    requires FirstRead(content, first)
  {
    if exts == [] then Copy(w, content, first, fileSize)
    else
      match Piped(w, Clean, exts, content)
      case None => CleanFailed
      case Some(r) => Cleaned(P.Pointer(w.sha(r.output), |r.output|, Recorded(r.results, 0), true), r.output)
  }

  /** Clean. */
  method CleanContent(w: World, reg: Registry, content: string, first: nat, fileSize: int)
    returns (result: CleanResult)
    requires FirstRead(content, first)
    ensures result == if DistinctPriorities(reg) then CleanWith(w, Listing(reg), content, first, fileSize)
                      else CleanFailed
  {
    var sorted := SortExtensions(reg);
    if sorted.None? {
      return CleanFailed;
    }
    ListingIs(reg, sorted.value);
    if sorted.value == [] {
      result := CopyToTemp(w, content, first, fileSize);
      return;
    }
    var piped := PipeExtensions(w, Clean, sorted.value, content);
    if piped.None? {
      return CleanFailed;
    }
    var r := piped.value;
    PipedResults(w, Clean, sorted.value, content);
    var recorded := RecordChanges(r.results);
    result := Cleaned(P.Pointer(r.results[|r.results| - 1].oidOut, |r.output|, recorded, true), r.output);
  }

  method RecordChanges(results: seq<StageResult>) returns (exts: seq<P.Extension>)
    ensures exts == Recorded(results, 0)
  {
    exts := [];
    for i := 0 to |results|
      invariant exts + Recorded(results[i..], |exts|) == Recorded(results, 0)
    {
      assert results[i..][1..] == results[i + 1..];
      var result := results[i];
      if result.oidIn != result.oidOut {
        ghost var rest := Recorded(results[i + 1..], |exts| + 1);
        var ext := P.Extension(result.name, |exts|, result.oidIn);
        assert exts + ([ext] + rest) == (exts + [ext]) + rest;
        exts := exts + [ext];
      }
    }
  }

  method CopyToTemp(w: World, content: string, first: nat, fileSize: int) returns (result: CleanResult)
    requires FirstRead(content, first)
    ensures result == Copy(w, content, first, fileSize)
  {
    hide P.DecodeBuffer;
    var head, rest := content[..first], content[first..];
    if head == [] || (P.DecodeBuffer(head).Ok? && |head| < P.CUTOFF) {
      return AlreadyPointer(head);
    }
    var data := head;
    if fileSize < 0 || |head| < fileSize {
      data := data + rest;
      assert data == content;
    }
    result := Cleaned(P.Pointer(w.sha(data), |data|, [], true), data);
  }

  // ---------------------------------------------------------------- smudge

  datatype SmudgeResult = Wrote(content: string) | SmudgeFailed | Declined

  /** How the transfer of a missing object ends. */
  datatype Transfer = NotAllowed | Broken | Arrived(content: string)

  /** The registered extensions a pointer names, under the pointer's priorities. */
  function Configured(reg: Registry, exts: seq<P.Extension>): (r: Option<Registry>)
    ensures r.Some? <==> forall i :: 0 <= i < |exts| ==> exts[i].name in reg
  {
    if exts == [] then Some(map[])
    else
      var last := exts[|exts| - 1];
      match Configured(reg, exts[..|exts| - 1])
      case None => None
      case Some(m) =>
        if last.name !in reg then None
        else
          var ext := reg[last.name].(priority := last.priority);
          Some(m[ext.name := ext])
  }

  predicate Produced(results: seq<StageResult>, e: P.Extension) {
    exists j :: 0 <= j < |results| && results[j].name == e.name && results[j].oidOut == e.oid
  }

  /** readLocalFile on an object's data. */
  ghost function ReadLocal(w: World, reg: Registry, p: P.Pointer, data: string): SmudgeResult {
    if p.extensions == [] then Wrote(data)
    else
      match Configured(reg, p.extensions)
      case None => SmudgeFailed
      case Some(m) =>
        if !DistinctPriorities(m) then SmudgeFailed
        else
          match Piped(w, Smudge, Reverse(Listing(m)), data)
          case None => SmudgeFailed
          case Some(r) =>
            if w.sha(data) == p.oid && forall i :: 0 <= i < |p.extensions| ==> Produced(r.results, p.extensions[i])
            then Wrote(r.output)
            else SmudgeFailed
  }

  /** Smudge, given the object in the local store, if any. */
  ghost function SmudgeWith(w: World, reg: Registry, p: P.Pointer, stored: Option<string>, t: Transfer): SmudgeResult
  {
    if p.size == 0 then Wrote("")
    else if stored.Some? && |stored.value| == p.size then ReadLocal(w, reg, p, stored.value)
    else
      match t
      case NotAllowed => Declined
      case Broken => SmudgeFailed
      case Arrived(data) => ReadLocal(w, reg, p, data)
  }

  /** Registered names are the keys, as the configuration reader files them. */
  ghost predicate WellNamed(reg: Registry) { forall k :: k in reg ==> reg[k].name == k }

  predicate DistinctNames(exts: seq<P.Extension>) {
    forall i, j :: 0 <= i < j < |exts| ==> exts[i].name != exts[j].name
  }

  /** What Configured holds under each name. */
  lemma {:induction false} ConfiguredNames(reg: Registry, exts: seq<P.Extension>)
    requires WellNamed(reg) && Configured(reg, exts).Some?
    ensures var m := Configured(reg, exts).value;
            && WellNamed(m)
            && (forall i :: 0 <= i < |exts| ==> exts[i].name in m)
            && (forall k :: k in m ==> exists i :: 0 <= i < |exts| && exts[i].name == k)
  {
    if exts != [] {
      var n := |exts| - 1;
      ConfiguredNames(reg, exts[..n]);
      var m := Configured(reg, exts).value;
      forall k | k in m
        ensures exists i :: 0 <= i < |exts| && exts[i].name == k
      {
        if k == exts[n].name {
          assert exts[n].name == k;
        } else {
          var i :| 0 <= i < n && exts[..n][i].name == k;
          assert exts[i].name == k;
        }
      }
    }
  }

  lemma {:induction false} ConfiguredEntries(reg: Registry, exts: seq<P.Extension>, i: nat)
    requires WellNamed(reg) && Configured(reg, exts).Some? && DistinctNames(exts) && i < |exts|
    ensures var m := Configured(reg, exts).value;
            exts[i].name in m && m[exts[i].name] == reg[exts[i].name].(priority := exts[i].priority)
  {
    var n := |exts| - 1;
    if i < n {
      assert exts[..n][i] == exts[i];
      ConfiguredEntries(reg, exts[..n], i);
    }
  }

  // The loops of readLocalFile

  method Configure(reg: Registry, exts: seq<P.Extension>) returns (r: Option<Registry>)
    ensures r == Configured(reg, exts)
  {
    var m: Registry := map[];
    for i := 0 to |exts|
      invariant Configured(reg, exts[..i]) == Some(m)
    {
      assert exts[..i + 1][..i] == exts[..i];
      if exts[i].name !in reg {
        return None;
      }
      var ext := reg[exts[i].name].(priority := exts[i].priority);
      m := m[ext.name := ext];
    }
    assert exts[..|exts|] == exts;
    r := Some(m);
  }

  method ReverseList(exts: seq<Extension>) returns (r: seq<Extension>)
    ensures r == Reverse(exts)
  {
    r := [];
    for i := 0 to |exts|
      invariant |r| == i && forall k :: 0 <= k < i ==> r[k] == exts[|exts| - 1 - k]
    {
      r := r + [exts[|exts| - 1 - i]];
    }
  }

  ghost predicate Indexed(results: seq<StageResult>, m: map<string, StageResult>) {
    && (forall j :: 0 <= j < |results| ==> results[j].name in m && m[results[j].name] == results[j])
    && (forall k :: k in m ==> exists j :: 0 <= j < |results| && results[j] == m[k] && results[j].name == k)
  }

  method IndexResults(results: seq<StageResult>) returns (m: map<string, StageResult>)
    requires forall i, j :: 0 <= i < j < |results| ==> results[i].name != results[j].name
    ensures Indexed(results, m)
  {
    m := map[];
    for i := 0 to |results|
      invariant Indexed(results[..i], m)
    {
      ghost var before, now := m, results[..i + 1];
      m := m[results[i].name := results[i]];
      assert forall j :: 0 <= j < i ==> now[j] == results[..i][j];
      forall k | k in m
        ensures exists j :: 0 <= j < |now| && now[j] == m[k] && now[j].name == k
      {
        if k == results[i].name {
          assert now[i] == m[k];
        } else {
          var j :| 0 <= j < i && results[..i][j] == before[k] && results[..i][j].name == k;
          assert now[j] == m[k];
        }
      }
    }
    assert results[..|results|] == results;
  }

  /** Every name the pointer records has a stage, so looking it up never misses. */
  method VerifyStages(results: seq<StageResult>, exts: seq<P.Extension>) returns (ok: bool)
    requires forall i, j :: 0 <= i < j < |results| ==> results[i].name != results[j].name
    requires forall i :: 0 <= i < |exts| ==> exists j :: 0 <= j < |results| && results[j].name == exts[i].name
    ensures ok <==> forall i :: 0 <= i < |exts| ==> Produced(results, exts[i])
  {
    var actual := IndexResults(results);
    for i := 0 to |exts|
      invariant forall k :: 0 <= k < i ==> Produced(results, exts[k])
    {
      ghost var j :| 0 <= j < |results| && results[j].name == exts[i].name;
      assert actual[exts[i].name] == results[j];
      if actual[exts[i].name].oidOut != exts[i].oid {
        assert !Produced(results, exts[i]);
        return false;
      }
    }
    ok := true;
  }

  /** The stages of a smudge bear distinct names, and cover the pointer's. */
  lemma {:induction false} StageNames(w: World, reg: Registry, exts: seq<P.Extension>, list: seq<Extension>,
                                      data: string)
    requires WellNamed(reg) && Configured(reg, exts).Some? && Lists(Configured(reg, exts).value, list)
    requires Piped(w, Smudge, Reverse(list), data).Some?
    ensures var rs := Piped(w, Smudge, Reverse(list), data).value.results;
            && |rs| == |list|
            && (forall i, j :: 0 <= i < j < |rs| ==> rs[i].name != rs[j].name)
            && (forall i :: 0 <= i < |exts| ==> exists j :: 0 <= j < |rs| && rs[j].name == exts[i].name)
  {
    ConfiguredNames(reg, exts);
    var m := Configured(reg, exts).value;
    PipedResults(w, Smudge, Reverse(list), data);
    var rs := Piped(w, Smudge, Reverse(list), data).value.results;
    forall i, j | 0 <= i < j < |rs|
      ensures rs[i].name != rs[j].name
    {
      NamesDiffer(m, list, |list| - 1 - j, |list| - 1 - i);
    }
    forall i | 0 <= i < |exts|
      ensures exists j :: 0 <= j < |rs| && rs[j].name == exts[i].name
    {
      assert m[exts[i].name] in list;
      var k :| 0 <= k < |list| && list[k] == m[exts[i].name];
      assert rs[|list| - 1 - k].name == exts[i].name;
    }
  }

  lemma NamesDiffer(m: Registry, list: seq<Extension>, i: nat, j: nat)
    requires WellNamed(m) && Lists(m, list) && i < j < |list|
    ensures list[i].name != list[j].name
  {
    assert Registered(m, list[i]) && Registered(m, list[j]);
    var k :| k in m && m[k] == list[i];
    var l :| l in m && m[l] == list[j];
  }

  /** readLocalFile. */
  method ReadLocalFile(w: World, reg: Registry, p: P.Pointer, data: string) returns (r: SmudgeResult)
    requires WellNamed(reg)
    ensures r == ReadLocal(w, reg, p, data)
  {
    if p.extensions == [] {
      return Wrote(data);
    }
    var configured := Configure(reg, p.extensions);
    if configured.None? {
      return SmudgeFailed;
    }
    var sorted := SortExtensions(configured.value);
    if sorted.None? {
      return SmudgeFailed;
    }
    ListingIs(configured.value, sorted.value);
    NotEmpty(reg, p.extensions, sorted.value);
    var reversed := ReverseList(sorted.value);
    var piped := PipeExtensions(w, Smudge, reversed, data);
    if piped.None? {
      return SmudgeFailed;
    }
    var results := piped.value.results;
    PipedResults(w, Smudge, reversed, data);
    StageNames(w, reg, p.extensions, sorted.value, data);
    if results[0].oidIn != p.oid {
      return SmudgeFailed;
    }
    var ok := VerifyStages(results, p.extensions);
    r := if ok then Wrote(piped.value.output) else SmudgeFailed;
  }

  lemma {:induction false} NotEmpty(reg: Registry, exts: seq<P.Extension>, list: seq<Extension>)
    requires WellNamed(reg) && exts != [] && Configured(reg, exts).Some?
    requires Lists(Configured(reg, exts).value, list)
    ensures list != []
  {
    ConfiguredNames(reg, exts);
    assert Configured(reg, exts).value[exts[0].name] in list;
  }

  /** What Smudge leaves in the store: an object of the wrong size is removed, and a
      missing one may arrive. */
  function LeftBehind(p: P.Pointer, stored: Option<string>, t: Transfer): Option<string> {
    if stored.Some? && |stored.value| == p.size then stored
    else if p.size != 0 && t.Arrived? then Some(t.content)
    else None
  }

  /** Smudge. */
  method SmudgePointer(w: World, reg: Registry, p: P.Pointer, stored: Option<string>, t: Transfer)
    returns (r: SmudgeResult, left: Option<string>)
    requires WellNamed(reg)
    ensures r == SmudgeWith(w, reg, p, stored, t)
    ensures left == LeftBehind(p, stored, t)
  {
    left := stored;
    if stored.Some? && |stored.value| != p.size {
      left := None;
    }
    if p.size == 0 {
      return Wrote(""), left;
    }
    if left.Some? {
      r := ReadLocalFile(w, reg, p, left.value);
      return;
    }
    match t
    case NotAllowed => r := Declined;
    case Broken => r := SmudgeFailed;
    case Arrived(data) =>
      left := Some(data);
      r := ReadLocalFile(w, reg, p, data);
  }
}
