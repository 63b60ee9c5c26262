/** Piping content through filter extensions (lfs/extension.go). */
module ExtensionPipe {
  import opened Options
  import opened Extensions

  datatype Way = Clean | Smudge

  /** What lies outside: the content hash, and each command line's effect on its
      input (None when the command fails). The command sees the file name through
      the %f placeholder, which the exec function may take into account. */
  datatype World = World(sha: string -> string, exec: (string, string) -> Option<string>)

  datatype StageResult = StageResult(name: string, oidIn: string, oidOut: string)

  datatype Response = Response(output: string, results: seq<StageResult>)

  function Command(e: Extension, way: Way): string { if way.Clean? then e.clean else e.smudge }

  function Piped(w: World, way: Way, exts: seq<Extension>, content: string): Option<Response> {
    if exts == [] then Some(Response(content, []))
    else
      match w.exec(Command(exts[0], way), content)
      case None => None
      case Some(next) =>
        match Piped(w, way, exts[1..], next)
        case None => None
        case Some(r) =>
          Some(r.(results := [StageResult(exts[0].name, w.sha(content), w.sha(next))] + r.results))
  }

  /** Each stage is named after its extension and takes the previous one's output. */
  lemma {:induction false} PipedResults(w: World, way: Way, exts: seq<Extension>, content: string)
    requires Piped(w, way, exts, content).Some?
    ensures var rs := Piped(w, way, exts, content).value.results;
            && |rs| == |exts|
            && (forall i :: 0 <= i < |rs| ==> rs[i].name == exts[i].name)
            && (rs != [] ==> rs[0].oidIn == w.sha(content))
            && (rs != [] ==> rs[|rs| - 1].oidOut == w.sha(Piped(w, way, exts, content).value.output))
            && (forall i :: 0 <= i < |rs| - 1 ==> rs[i].oidOut == rs[i + 1].oidIn)
  {
    if exts != [] {
      var next := w.exec(Command(exts[0], way), content).value;
      PipedResults(w, way, exts[1..], next);
      var rest := Piped(w, way, exts[1..], next).value.results;
      var rs := Piped(w, way, exts, content).value.results;
      assert rs[1..] == rest;
      assert forall i :: 0 < i < |rs| ==> rs[i] == rest[i - 1] && exts[i] == exts[1..][i - 1];
      if rest == [] {
        assert exts[1..] == [];
      }
    }
  }

  lemma {:induction false} PipedAppend(w: World, way: Way, exts: seq<Extension>, last: Extension, content: string)
    requires Piped(w, way, exts, content).Some?
    requires w.exec(Command(last, way), Piped(w, way, exts, content).value.output).Some?
    ensures var r := Piped(w, way, exts, content).value;
            var next := w.exec(Command(last, way), r.output).value;
            Piped(w, way, exts + [last], content)
            == Some(Response(next, r.results + [StageResult(last.name, w.sha(r.output), w.sha(next))]))
  {
    if exts == [] {
      assert exts + [last] == [last] && [last][1..] == [];
      var next := w.exec(Command(last, way), content).value;
      var stage := StageResult(last.name, w.sha(content), w.sha(next));
      assert Piped(w, way, [], next) == Some(Response(next, []));
      assert [] + [stage] == [stage] + [];
    } else {
      var next := w.exec(Command(exts[0], way), content).value;
      PipedAppend(w, way, exts[1..], last, next);
      assert (exts + [last])[1..] == exts[1..] + [last];
      var r := Piped(w, way, exts, content).value;
      var rest := Piped(w, way, exts[1..], next).value;
      var add := StageResult(last.name, w.sha(r.output), w.sha(w.exec(Command(last, way), r.output).value));
      assert [r.results[0]] + (rest.results + [add]) == r.results + [add];
    }
  }

  /** The content and each stage's hash once every command has finished. */
  method RunCommands(w: World, way: Way, exts: seq<Extension>, content: string)
    returns (ok: bool, output: string, hashes: seq<string>)
    ensures ok <==> Piped(w, way, exts, content).Some?
    ensures ok ==> output == Piped(w, way, exts, content).value.output && |hashes| == |exts|
    ensures ok ==> var rs := Piped(w, way, exts, content).value.results;
                   |rs| == |exts| && forall k :: 0 <= k < |exts| ==> hashes[k] == rs[k].oidOut
  {
    output, hashes := content, [];
    for i := 0 to |exts|
      invariant |hashes| == i
      invariant Piped(w, way, exts[..i], content).Some?
      invariant output == Piped(w, way, exts[..i], content).value.output
      invariant var rs := Piped(w, way, exts[..i], content).value.results;
                |rs| == i && forall k :: 0 <= k < i ==> hashes[k] == rs[k].oidOut
    {
      var next := w.exec(Command(exts[i], way), output);
      if next.None? {
        PipedFails(w, way, exts, i, content);
        return false, output, hashes;
      }
      PipedAppend(w, way, exts[..i], exts[i], content);
      assert exts[..i + 1] == exts[..i] + [exts[i]];
      output, hashes := next.value, hashes + [w.sha(next.value)];
    }
    assert exts[..|exts|] == exts;
    ok := true;
  }

  /** pipeExtensions: run the commands one into the next, then thread the object
      IDs through the stages. */
  method PipeExtensions(w: World, way: Way, exts: seq<Extension>, content: string)
    returns (r: Option<Response>)
    requires exts != []
    ensures r == Piped(w, way, exts, content)
  {
    var ok, output, hashes := RunCommands(w, way, exts, content);
    if !ok {
      return None;
    }
    PipedResults(w, way, exts, content);
    ghost var want := Piped(w, way, exts, content).value.results;
    var oid := w.sha(content);
    var results: seq<StageResult> := [];
    for i := 0 to |exts|
      invariant results == want[..i]
      invariant oid == if i == 0 then w.sha(content) else hashes[i - 1]
    {
      results := results + [StageResult(exts[i].name, oid, hashes[i])];
      oid := hashes[i];
      assert want[..i + 1] == want[..i] + [want[i]];
    }
    assert want[..|exts|] == want;
    r := Some(Response(output, results));
  }

  lemma {:induction false} PipedFails(w: World, way: Way, exts: seq<Extension>, i: nat, content: string)
    requires i < |exts| && Piped(w, way, exts[..i], content).Some?
    requires w.exec(Command(exts[i], way), Piped(w, way, exts[..i], content).value.output).None?
    ensures Piped(w, way, exts, content).None?
  {
    if i > 0 {
      var next := w.exec(Command(exts[0], way), content).value;
      assert exts[..i][1..] == exts[1..][..i - 1];
      PipedFails(w, way, exts[1..], i - 1, next);
    }
  }

  // ---------------------------------------------------------------- undoing a clean

  /** The extensions whose stage changed the content's hash, numbered from n. */
  function Kept(exts: seq<Extension>, results: seq<StageResult>, n: nat): (r: seq<Extension>)
    requires |exts| == |results|
  {
    if exts == [] then []
    else if results[0].oidIn == results[0].oidOut then Kept(exts[1..], results[1..], n)
    else [exts[0].(priority := n)] + Kept(exts[1..], results[1..], n + 1)
  }

  function Reverse<T>(s: seq<T>): (r: seq<T>)
    ensures |r| == |s| && forall i :: 0 <= i < |s| ==> r[i] == s[|s| - 1 - i]
  {
    seq(|s|, i requires 0 <= i < |s| => s[|s| - 1 - i])
  }

  /** The stages a smudge of the kept extensions goes through. */
  function Back(results: seq<StageResult>): seq<StageResult> {
    if results == [] then []
    else if results[0].oidIn == results[0].oidOut then Back(results[1..])
    else Back(results[1..]) + [StageResult(results[0].name, results[0].oidOut, results[0].oidIn)]
  }

  /** On the contents that cleaning goes through, each smudge command undoes its
      clean command and equal hashes mean equal contents. */
  ghost predicate Invertible(w: World, exts: seq<Extension>, content: string) {
    exts != [] ==>
      var next := w.exec(exts[0].clean, content);
      && next.Some?
      && w.exec(exts[0].smudge, next.value) == Some(content)
      && (w.sha(content) == w.sha(next.value) ==> content == next.value)
      && Invertible(w, exts[1..], next.value)
  }

  lemma {:induction false} InvertibleCleans(w: World, exts: seq<Extension>, content: string)
    requires Invertible(w, exts, content)
    ensures Piped(w, Clean, exts, content).Some?
  {
    if exts != [] {
      InvertibleCleans(w, exts[1..], w.exec(exts[0].clean, content).value);
    }
  }

  /** Smudging only the extensions that changed something, in reverse order, gives
      the original content back through the recorded object IDs. */
  lemma {:induction false} Unwind(w: World, exts: seq<Extension>, content: string, n: nat)
    requires Invertible(w, exts, content) && Piped(w, Clean, exts, content).Some?
    requires |Piped(w, Clean, exts, content).value.results| == |exts|
    ensures var r := Piped(w, Clean, exts, content).value;
            Piped(w, Smudge, Reverse(Kept(exts, r.results, n)), r.output)
            == Some(Response(content, Back(r.results)))
  {
    if exts != [] {
      var next := w.exec(exts[0].clean, content).value;
      var r := Piped(w, Clean, exts, content).value;
      var rest := Piped(w, Clean, exts[1..], next).value;
      assert r.results[1..] == rest.results && r.output == rest.output;
      if r.results[0].oidIn == r.results[0].oidOut {
        Unwind(w, exts[1..], next, n);
      } else {
        Unwind(w, exts[1..], next, n + 1);
        var kept := Kept(exts[1..], rest.results, n + 1);
        var e := exts[0].(priority := n);
        assert Reverse([e] + kept) == Reverse(kept) + [e];
        PipedAppend(w, Smudge, Reverse(kept), e, r.output);
      }
    }
  }
}
