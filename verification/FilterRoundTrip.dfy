/** What clean and smudge are for: smudging what was cleaned gives it back, and
    smudging never hands out content the pointer does not vouch for. */
module FilterRoundTrip {
  import opened Options
  import opened Extensions
  import opened ExtensionPipe
  import opened Filters
  import P = Pointer
  import PointerCut
  import Text

  // ---------------------------------------------------------------- shapes of what clean records

  /** The recorded and the kept entry stem from one extension. */
  ghost predicate Renumbers(exts: seq<Extension>, rec: P.Extension, kept: Extension) {
    exists j :: 0 <= j < |exts| && rec.name == exts[j].name && kept == exts[j].(priority := rec.priority)
  }

  /** The recorded extensions number the changed stages upward and name them in order. */
  lemma {:induction false} RecordedShape(exts: seq<Extension>, results: seq<StageResult>, n: nat)
    requires |exts| == |results| && forall i :: 0 <= i < |exts| ==> results[i].name == exts[i].name
    ensures var rec, kept := Recorded(results, n), Kept(exts, results, n);
            && |rec| == |kept|
            && (forall i :: 0 <= i < |rec| ==> rec[i].priority == n + i)
            && (forall i :: 0 <= i < |rec| ==> Renumbers(exts, rec[i], kept[i]))
  {
    if exts != [] {
      var changed := results[0].oidIn != results[0].oidOut;
      var n' := if changed then n + 1 else n;
      assert forall i :: 0 <= i < |exts[1..]| ==> results[1..][i].name == exts[1..][i].name;
      RecordedShape(exts[1..], results[1..], n');
      var rec, kept := Recorded(results, n), Kept(exts, results, n);
      var rec', kept' := Recorded(results[1..], n'), Kept(exts[1..], results[1..], n');
      var d := if changed then 1 else 0;
      forall i | d <= i < |rec|
        ensures rec[i].priority == n + i
        ensures Renumbers(exts, rec[i], kept[i])
      {
        assert rec[i] == rec'[i - d] && kept[i] == kept'[i - d];
        assert Renumbers(exts[1..], rec[i], kept[i]);
        var j :| 0 <= j < |exts[1..]| && rec[i].name == exts[1..][j].name
                 && kept[i] == exts[1..][j].(priority := rec[i].priority);
        assert exts[j + 1] == exts[1..][j];
      }
    }
  }

  lemma RecordedStage(results: seq<StageResult>, n: nat, i: nat) returns (j: nat)
    requires i < |Recorded(results, n)|
    ensures j < |results| && Recorded(results, n)[i].name == results[j].name
    decreases |results|
  {
    if results[0].oidIn == results[0].oidOut {
      j := RecordedStage(results[1..], n, i);
      j := j + 1;
    } else if i == 0 {
      j := 0;
    } else {
      j := RecordedStage(results[1..], n + 1, i - 1);
      j := j + 1;
    }
  }

  predicate NamesApart(results: seq<StageResult>) {
    forall i, j :: 0 <= i < j < |results| ==> results[i].name != results[j].name
  }

  lemma {:induction false} RecordedNamesDiffer(results: seq<StageResult>, n: nat)
    requires NamesApart(results)
    ensures DistinctNames(Recorded(results, n))
    decreases |results|
  {
    if results != [] {
      var changed := results[0].oidIn != results[0].oidOut;
      var n' := if changed then n + 1 else n;
      var rest := Recorded(results[1..], n');
      RecordedNamesDiffer(results[1..], n');
      forall i | 0 <= i < |rest|
        ensures rest[i].name != results[0].name
      {
        var j := RecordedStage(results[1..], n', i);
        assert results[1..][j] == results[j + 1];
      }
    }
  }

  /** Every recorded extension is what some stage of the way back produces. */
  lemma {:induction false} BackProduces(results: seq<StageResult>, n: nat, i: nat)
    requires i < |Recorded(results, n)|
    ensures Produced(Back(results), Recorded(results, n)[i])
  {
    var changed := results[0].oidIn != results[0].oidOut;
    var n' := if changed then n + 1 else n;
    var back := Back(results[1..]);
    if changed && i == 0 {
      assert Back(results)[|back|].oidOut == results[0].oidIn;
    } else {
      var i' := if changed then i - 1 else i;
      var e := Recorded(results[1..], n')[i'];
      assert e == Recorded(results, n)[i];
      BackProduces(results[1..], n', i');
      var j :| 0 <= j < |back| && back[j].name == e.name && back[j].oidOut == e.oid;
      assert Back(results)[j] == back[j];
    }
  }

  // ---------------------------------------------------------------- the way back

  /** Looking the recorded extensions up and sorting them lists the kept ones. */
  lemma {:induction false} KeptIsListed(reg: Registry, exts: seq<Extension>, results: seq<StageResult>)
    requires WellNamed(reg) && Lists(reg, exts)
    requires |exts| == |results| && forall i :: 0 <= i < |exts| ==> results[i].name == exts[i].name
    ensures Configured(reg, Recorded(results, 0)).Some?
    ensures Lists(Configured(reg, Recorded(results, 0)).value, Kept(exts, results, 0))
    ensures DistinctPriorities(Configured(reg, Recorded(results, 0)).value)
  {
    var rec, kept := Recorded(results, 0), Kept(exts, results, 0);
    RecordedShape(exts, results, 0);
    forall i, j | 0 <= i < j < |results|
      ensures results[i].name != results[j].name
    {
      NamesDiffer(reg, exts, i, j);
    }
    RecordedNamesDiffer(results, 0);
    forall i | 0 <= i < |rec|
      ensures rec[i].name in reg && kept[i] == reg[rec[i].name].(priority := rec[i].priority)
    {
      assert Renumbers(exts, rec[i], kept[i]);
      var j :| 0 <= j < |exts| && rec[i].name == exts[j].name && kept[i] == exts[j].(priority := rec[i].priority);
      RegisteredUnderName(reg, exts, j);
    }
    KeptIsConfigured(reg, rec, kept);
  }

  lemma RegisteredUnderName(reg: Registry, exts: seq<Extension>, j: nat)
    requires WellNamed(reg) && Lists(reg, exts) && j < |exts|
    ensures exts[j].name in reg && reg[exts[j].name] == exts[j]
  {
    assert Registered(reg, exts[j]);
  }

  lemma {:induction false} KeptIsConfigured(reg: Registry, rec: seq<P.Extension>, kept: seq<Extension>)
    requires WellNamed(reg) && DistinctNames(rec) && |rec| == |kept| && P.Ascending(rec)
    requires forall i :: 0 <= i < |rec| ==>
               rec[i].name in reg && kept[i] == reg[rec[i].name].(priority := rec[i].priority)
    ensures Configured(reg, rec).Some?
    ensures Lists(Configured(reg, rec).value, kept)
    ensures DistinctPriorities(Configured(reg, rec).value)
  {
    ConfiguredNames(reg, rec);
    var m := Configured(reg, rec).value;
    forall i | 0 <= i < |rec|
      ensures rec[i].name in m && m[rec[i].name] == kept[i]
    {
      ConfiguredEntries(reg, rec, i);
    }
    forall i | 0 <= i < |kept|
      ensures Registered(m, kept[i])
    {
      assert rec[i].name in m && m[rec[i].name] == kept[i];
    }
    forall k | k in m
      ensures m[k] in kept
    {
      var i :| 0 <= i < |rec| && rec[i].name == k;
    }
    forall k, l | k in m && l in m && k != l
      ensures m[k].priority != m[l].priority
    {
      var i :| 0 <= i < |rec| && rec[i].name == k;
      var j :| 0 <= j < |rec| && rec[j].name == l;
      assert i < j || j < i;
    }
  }

  /** With extensions, reading back what a clean stored restores the content: only
      the extensions that changed something are run, in reverse, and every recorded
      object ID checks out. */
  lemma {:induction false} ExtensionsUndone(w: World, reg: Registry, exts: seq<Extension>, content: string)
    requires WellNamed(reg) && Lists(reg, exts) && Invertible(w, exts, content) && Piped(w, Clean, exts, content).Some?
    ensures var r := Piped(w, Clean, exts, content).value;
            ReadLocal(w, reg, P.Pointer(w.sha(r.output), |r.output|, Recorded(r.results, 0), true), r.output)
            == Wrote(content)
  {
    hide Piped, Invertible, Recorded, Kept, Back, Configured, Lists, Produced, Listing;
    var r := Piped(w, Clean, exts, content).value;
    PipedResults(w, Clean, exts, content);
    Unwind(w, exts, content, 0);
    RecordedShape(exts, r.results, 0);
    var rec, kept := Recorded(r.results, 0), Kept(exts, r.results, 0);
    if rec == [] {
      assert Reverse(kept) == [];
      PipedNothing(w, Smudge, r.output);
    } else {
      KeptIsListed(reg, exts, r.results);
      ListingIs(Configured(reg, rec).value, kept);
      forall i | 0 <= i < |rec|
        ensures Produced(Back(r.results), rec[i])
      {
        BackProduces(r.results, 0, i);
      }
    }
  }

  lemma {:induction false} PipedNothing(w: World, way: Way, content: string)
    ensures Piped(w, way, [], content) == Some(Response(content, []))
  {
  }

  /** Without extensions the whole content is stored exactly when the announced
      size is unknown or reaches past the first read, or there is nothing more to read. */
  lemma WholeCopyIff(w: World, content: string, first: nat, fileSize: int)
    requires FirstRead(content, first) && Copy(w, content, first, fileSize).Cleaned?
    ensures Copy(w, content, first, fileSize).data == content
            <==> fileSize < 0 || first < fileSize || first == |content|
  {
    hide P.DecodeBuffer;
    assert |content[..first]| == first;
    assert content[..|content|] == content;
  }

  /** Reading back what clean stored restores the content. */
  lemma {:induction false} CleanThenRead(w: World, reg: Registry, exts: seq<Extension>, content: string, first: nat,
                                         fileSize: int)
    requires WellNamed(reg) && Lists(reg, exts) && Invertible(w, exts, content) && FirstRead(content, first)
    requires exts == [] ==> fileSize < 0 || first < fileSize || first == |content|
    requires CleanWith(w, exts, content, first, fileSize).Cleaned?
    ensures var c := CleanWith(w, exts, content, first, fileSize);
            ReadLocal(w, reg, c.pointer, c.data) == Wrote(content)
  {
    hide P.DecodeBuffer, Invertible, Piped, Lists;
    if exts == [] {
      WholeCopyIff(w, content, first, fileSize);
    } else {
      ExtensionsUndone(w, reg, exts, content);
    }
  }

  // ---------------------------------------------------------------- through Git

  ghost predicate HashesAreOids(w: World) { forall s :: P.IsOid(w.sha(s)) }

  /** A cleaned pointer is well formed exactly when at most ten extensions changed
      something and their names survive the line format. */
  lemma CleanedWellFormedIff(w: World, exts: seq<Extension>, content: string, first: nat, fileSize: int)
    requires FirstRead(content, first) && CleanWith(w, exts, content, first, fileSize).Cleaned?
    requires HashesAreOids(w)
    ensures var p := CleanWith(w, exts, content, first, fileSize).pointer;
            P.WellFormed(p)
            <==> p.size <= Text.MAX_INT64 && |p.extensions| <= 10
                 && forall i :: 0 <= i < |p.extensions| ==> P.GoodName(p.extensions[i].name)
  {
    hide P.DecodeBuffer, Piped;
    var p := CleanWith(w, exts, content, first, fileSize).pointer;
    assert P.IsOid(p.oid);
    if exts != [] {
      RecordedOids(w, exts, content);
      assert p.extensions == Recorded(Piped(w, Clean, exts, content).value.results, 0);
      if |p.extensions| > 10 {
        assert p.extensions[10].priority == 10 && !P.GoodExtension(p.extensions[10]);
      }
    }
  }

  lemma {:induction false} RecordedOids(w: World, exts: seq<Extension>, content: string)
    requires Piped(w, Clean, exts, content).Some? && HashesAreOids(w)
    ensures var rec := Recorded(Piped(w, Clean, exts, content).value.results, 0);
            forall i :: 0 <= i < |rec| ==> rec[i].priority == i && P.IsOid(rec[i].oid)
  {
    var rs := Piped(w, Clean, exts, content).value.results;
    PipedResults(w, Clean, exts, content);
    RecordedShape(exts, rs, 0);
    StageOids(w, exts, content);
    forall i | 0 <= i < |Recorded(rs, 0)|
      ensures P.IsOid(Recorded(rs, 0)[i].oid)
    {
      RecordedFromStages(rs, 0, i);
    }
  }

  lemma {:induction false} StageOids(w: World, exts: seq<Extension>, content: string)
    requires Piped(w, Clean, exts, content).Some? && HashesAreOids(w)
    ensures forall r :: r in Piped(w, Clean, exts, content).value.results ==> P.IsOid(r.oidIn)
  {
    if exts != [] {
      StageOids(w, exts[1..], w.exec(exts[0].clean, content).value);
    }
  }

  lemma {:induction false} RecordedFromStages(results: seq<StageResult>, n: nat, i: nat)
    requires i < |Recorded(results, n)| && forall r :: r in results ==> P.IsOid(r.oidIn)
    ensures P.IsOid(Recorded(results, n)[i].oid)
  {
    assert results[0] in results && forall r :: r in results[1..] ==> r in results;
    if results[0].oidIn == results[0].oidOut {
      RecordedFromStages(results[1..], n, i);
    } else if i > 0 {
      RecordedFromStages(results[1..], n + 1, i - 1);
    }
  }

  /** The pointer text decodes to the very pointer that was cleaned exactly when it
      is well formed and fits the read buffer. */
  lemma PointerSurvivesIff(p: P.Pointer)
    requires p.size > 0 && p.canonical
    ensures P.Decode(P.Encoded(p)) == P.Ok(p) <==> P.WellFormed(p) && |P.Encoded(p)| <= P.CUTOFF
  {
    hide P.WellFormed, P.Encoded, P.DecodeKV;
    assert p.(canonical := true) == p;
    if |P.Encoded(p)| <= P.CUTOFF {
      hide P.Decode;
      P.RoundTripIffWellFormed(p);
    } else {
      var buf := P.Encoded(p)[..P.CUTOFF];
      assert |buf| == P.CUTOFF;
      var decoded := P.DecodeKV(Text.TrimSpace(buf));
      if decoded.Ok? && decoded.value.(canonical := true) == p {
        P.EncodedIgnoresCanonical(decoded.value);
      }
    }
  }

  /** What Git stores for a cleaned file. */
  function Blob(c: CleanResult): string
    requires !c.CleanFailed?
  {
    if c.Cleaned? then P.Encoded(c.pointer) else c.bytes
  }

  /** Checking out what was added: with commands that undo each other, a well-formed
      pointer whose size the read buffer holds, and the object at hand, the content
      comes back exactly when the cleaned object is not empty or the content was empty
      to begin with. */
  lemma {:induction false} CheckoutRestores(w: World, reg: Registry, exts: seq<Extension>, content: string,
                                            first: nat, fileSize: int, t: Transfer)
    requires WellNamed(reg) && Lists(reg, exts) && Invertible(w, exts, content) && FirstRead(content, first)
    requires exts == [] ==> !LooksLikePointer(content[..first])
    requires exts == [] ==> fileSize < 0 || first < fileSize || first == |content|
    requires var c := CleanWith(w, exts, content, first, fileSize);
             c.Cleaned? ==> P.WellFormed(c.pointer) && |P.Encoded(c.pointer)| <= P.CUTOFF + 1
    ensures var c := CleanWith(w, exts, content, first, fileSize);
            && c.Cleaned?
            && P.Decode(Blob(c)).Ok?
            && (SmudgeWith(w, reg, P.Decode(Blob(c)).value, Some(c.data), t) == Wrote(content)
                <==> c.data != [] || content == [])
  {
    hide P.WellFormed, P.Encoded, P.Decode, Invertible, Lists, ReadLocal, P.DecodeBuffer, Recorded, LooksLikePointer;
    InvertibleCleans(w, exts, content);
    var c := CleanWith(w, exts, content, first, fileSize);
    if c.data == [] {
      EmptyDecodes(c.pointer);
    } else {
      PointerCut.CutTextIsWholeIff(c.pointer);
      var q := P.Decode(Blob(c)).value;
      assert q == c.pointer.(canonical := q.canonical);
      SmudgeIgnoresCanonical(w, reg, c.pointer, q.canonical, Some(c.data), t);
      CleanThenRead(w, reg, exts, content, first, fileSize);
    }
  }

  lemma SmudgeIgnoresCanonical(w: World, reg: Registry, p: P.Pointer, b: bool, stored: Option<string>, t: Transfer)
    ensures SmudgeWith(w, reg, p.(canonical := b), stored, t) == SmudgeWith(w, reg, p, stored, t)
  {
    forall data
      ensures ReadLocal(w, reg, p.(canonical := b), data) == ReadLocal(w, reg, p, data)
    {
    }
  }

  /** A clean command that empties a file: the pointer of size zero is all that is
      kept, and checking out leaves the file empty although the smudge command would
      restore it. */
  lemma EmptiedContentIsLost(t: Transfer)
    ensures var e := Extension("e", "empty", "fill", 0);
            var w := Emptying();
            && Lists(map["e" := e], [e]) && Invertible(w, [e], "x")
            && CleanWith(w, [e], "x", 1, -1).Cleaned?
            && var c := CleanWith(w, [e], "x", 1, -1);
               c.data == "" && P.Decode(Blob(c)).Ok?
               && SmudgeWith(w, map["e" := e], P.Decode(Blob(c)).value, Some(c.data), t) == Wrote("")
  {
    hide P.Decode, P.DecodeBuffer;
    var e := Extension("e", "empty", "fill", 0);
    var reg: Registry := map["e" := e];
    var w := Emptying();
    assert Registered(reg, e) by { assert "e" in reg && reg["e"] == e; }
    EmptyingRuns(e);
    var c := CleanWith(w, [e], "x", 1, -1);
    EmptyDecodes(c.pointer);
  }

  /** A world whose clean command empties every file and whose smudge command fills
      it with one character. */
  function Emptying(): World {
    World((s: string) => seq(64, _ => if s == "" then 'a' else 'b'),
          (cmd: string, s: string) => Some(if cmd == "empty" then "" else "x"))
  }

  lemma EmptyingRuns(e: Extension)
    requires e.clean == "empty" && e.smudge == "fill"
    ensures Invertible(Emptying(), [e], "x") && Piped(Emptying(), Clean, [e], "x").Some?
    ensures Piped(Emptying(), Clean, [e], "x").value.output == ""
  {
    var w := Emptying();
    assert "fill" != "empty" by { assert |"fill"| != |"empty"|; }
    assert w.sha("")[0] == 'a' && w.sha("x")[0] == 'b';
    assert [e][1..] == [];
    assert Invertible(w, [], "");
    assert Piped(w, Clean, [], "") == Some(Response("", []));
  }

  lemma EmptyDecodes(p: P.Pointer)
    requires p.size == 0
    ensures P.Decode(P.Encoded(p)) == P.Ok(P.EmptyPointer())
  {
    hide P.DecodeKV;
  }

  // ---------------------------------------------------------------- cleaning a pointer again

  /** Without extensions, text that decodes as a pointer, canonical or not and however
      it is read, passes through clean unchanged exactly when it is read in one piece
      and is shorter than the read buffer. */
  lemma CleanLeavesPointersAloneIff(w: World, text: string, first: nat, fileSize: int)
    requires P.DecodeBuffer(text).Ok? && FirstRead(text, first)
    ensures CleanWith(w, [], text, first, fileSize) == AlreadyPointer(text) <==> first == |text| < P.CUTOFF
  {
    hide P.DecodeBuffer;
    assert text[..|text|] == text;
    assert |text[..first]| == first;
  }

  /** So does what encoding writes for a well-formed pointer; a pointer file of exactly
      1024 bytes is cleaned again. */
  lemma FullPointerIsCleanedAgain(w: World, fileSize: int)
    ensures P.WellFormed(PointerCut.Sample(819)) && |P.Encoded(PointerCut.Sample(819))| == P.CUTOFF
    ensures CleanWith(w, [], P.Encoded(PointerCut.Sample(819)), P.CUTOFF, fileSize).Cleaned?
  {
    hide P.WellFormed, P.Encoded, P.DecodeBuffer, PointerCut.Sample;
    var p := PointerCut.Sample(819);
    PointerCut.SampleIsWellFormed(819);
    PointerCut.SampleSize(819);
    PointerCut.SampleEncodedLength(819);
    P.EncodeThenDecode(p);
    CleanLeavesPointersAloneIff(w, P.Encoded(p), P.CUTOFF, fileSize);
    assert P.Encoded(p)[..P.CUTOFF] == P.Encoded(p);
  }

  /** The bytes of a file that survive in what clean returns or stores. */
  function Surviving(c: CleanResult): string
    requires !c.CleanFailed?
  {
    if c.Cleaned? then c.data else c.bytes
  }

  /** Without extensions no byte is lost exactly when the first read was everything, or
      it does not look like a pointer and the announced size is unknown or exceeds it.
      A first read that looks like a pointer loses the rest of the file. */
  lemma NoByteIsLostIff(w: World, content: string, first: nat, fileSize: int)
    requires FirstRead(content, first)
    ensures var c := CleanWith(w, [], content, first, fileSize);
            && !c.CleanFailed?
            && (Surviving(c) == content
                <==> first == |content|
                     || (!LooksLikePointer(content[..first]) && (fileSize < 0 || first < fileSize)))
  {
    hide P.DecodeBuffer, LooksLikePointer;
    assert |content[..first]| == first;
    assert content[..|content|] == content;
  }

  // ---------------------------------------------------------------- what smudge vouches for

  /** The registered extensions of a pointer, with the pointer's priorities. */
  function LookedUp(reg: Registry, exts: seq<P.Extension>): (r: seq<Extension>)
    requires forall i :: 0 <= i < |exts| ==> exts[i].name in reg
    ensures |r| == |exts|
    ensures forall i :: 0 <= i < |exts| ==> r[i] == reg[exts[i].name].(priority := exts[i].priority)
  {
    seq(|exts|, i requires 0 <= i < |exts| => reg[exts[i].name].(priority := exts[i].priority))
  }

  /** The last stage of a pipe is the only one of its name, so what is recorded under
      that name is the output's hash. */
  lemma {:induction false} LastStageIsOutput(w: World, list: seq<Extension>, data: string, e: P.Extension)
    requires list != [] && Piped(w, Smudge, Reverse(list), data).Some? && list[0].name == e.name
    requires var rs := Piped(w, Smudge, Reverse(list), data).value.results; NamesApart(rs) && Produced(rs, e)
    ensures w.sha(Piped(w, Smudge, Reverse(list), data).value.output) == e.oid
  {
    hide Piped;
    PipedResults(w, Smudge, Reverse(list), data);
    var rs := Piped(w, Smudge, Reverse(list), data).value.results;
    var last := |rs| - 1;
    assert rs[last].name == e.name;
    var j :| 0 <= j < |rs| && rs[j].name == e.name && rs[j].oidOut == e.oid;
    assert j == last;
  }

  /** A pointer with extensions: whatever is written was made from an object with
      the pointer's OID, and hashes to the OID of the extension applied first when
      cleaning. */
  lemma SmudgeVouches(w: World, reg: Registry, p: P.Pointer, data: string)
    requires WellNamed(reg) && p.extensions != [] && P.Ascending(p.extensions) && DistinctNames(p.extensions)
    requires ReadLocal(w, reg, p, data).Wrote?
    ensures w.sha(data) == p.oid
    ensures w.sha(ReadLocal(w, reg, p, data).content) == p.extensions[0].oid
  {
    hide Piped, Configured, Lists, Listing, Produced, WellNamed, P.Ascending, DistinctNames;
    var list := LookedUp(reg, p.extensions);
    KeptIsConfigured(reg, p.extensions, list);
    ListingIs(Configured(reg, p.extensions).value, list);
    StageNames(w, reg, p.extensions, list, data);
    NameKept(reg, p.extensions, list);
    LastStageIsOutput(w, list, data, p.extensions[0]);
  }

  lemma NameKept(reg: Registry, exts: seq<P.Extension>, list: seq<Extension>)
    requires WellNamed(reg) && exts != [] && forall i :: 0 <= i < |exts| ==> exts[i].name in reg
    requires list == LookedUp(reg, exts)
    ensures list != [] && list[0].name == exts[0].name
  {
  }
}
