/** The pointer file format (lfs/pointer.go): encoding, and the decoder with its
    version aliases, extension lines and size spellings. */
module Pointer {
  import opened Options
  import opened Text
  import Sorting

  const LATEST := "https://git-lfs.github.com/spec/v1"
  const ALIASES: seq<string> := ["http://git-media.io/v/2", "https://hawser.github.com/spec/v1", LATEST]
  const KEYS: seq<string> := ["version", "oid", "size"]
  const OID_TYPE := "sha256"
  /** blobSizeCutoff: what one read of a pointer takes in at most. */
  const CUTOFF: nat := 1024
  const EMPTY_OID := "e3b0c44298fc1c149afbf4c8996fb92427ae41e4649b934ca495991b7852b855"

  datatype Extension = Extension(name: string, priority: nat, oid: string)

  /** The version and the hash type of a pointer are constants. */
  datatype Pointer = Pointer(oid: string, size: nat, extensions: seq<Extension>, canonical: bool)

  datatype Error = NotAPointer | BadPointer

  datatype Result<+T> = Ok(value: T) | Err(error: Error) {
    predicate IsFailure() { Err? }

    function PropagateFailure<U>(): Result<U>
      requires Err?
    {
      Err(error)
    }

    function Extract(): T
      requires Ok?
    {
      value
    }
  }

  function EmptyPointer(): Pointer { Pointer(EMPTY_OID, 0, [], true) }

  // ---------------------------------------------------------------- encoding

  function ExtensionKey(e: Extension): string { "ext-" + PrintNat(e.priority) + "-" + e.name }

  function ExtensionLine(e: Extension): string { ExtensionKey(e) + " " + (OID_TYPE + ":" + e.oid) }

  function ExtensionLines(exts: seq<Extension>): (r: seq<string>)
    ensures |r| == |exts| && forall i :: 0 <= i < |exts| ==> r[i] == ExtensionLine(exts[i])
  {
    seq(|exts|, i requires 0 <= i < |exts| => ExtensionLine(exts[i]))
  }

  /** The lines of a pointer under some version. */
  function LinesAs(v: string, p: Pointer): seq<string> {
    ["version " + v] + ExtensionLines(p.extensions)
    + ["oid " + (OID_TYPE + ":" + p.oid), "size " + PrintNat(p.size)]
  }

  function PointerLines(p: Pointer): seq<string> { LinesAs(LATEST, p) }

  function Encoded(p: Pointer): string {
    if p.size == 0 then "" else Unlines(PointerLines(p))
  }

  method Encode(p: Pointer) returns (text: string)
    ensures text == Encoded(p)
  {
    if p.size == 0 {
      return "";
    }
    hide Unlines, ExtensionLine, PrintNat;
    var version := "version " + LATEST;
    text := version + "\n";
    OneLine(version);
    ghost var lines := [version];
    for i := 0 to |p.extensions|
      invariant lines == [version] + ExtensionLines(p.extensions)[..i] && text == Unlines(lines)
    {
      var line := ExtensionLine(p.extensions[i]);
      OneMoreLine(lines, line);
      text, lines := text + (line + "\n"), lines + [line];
    }
    var oid, size := "oid " + (OID_TYPE + ":" + p.oid), "size " + PrintNat(p.size);
    OneMoreLine(lines, oid);
    OneMoreLine(lines + [oid], size);
    text := text + (oid + "\n") + (size + "\n");
    assert PointerLines(p) == lines + [oid] + [size];
  }

  lemma {:induction false} OneLine(line: string)
    ensures Unlines([line]) == line + "\n"
  {
    assert [line][1..] == [];
  }

  lemma {:induction false} OneMoreLine(lines: seq<string>, line: string)
    ensures Unlines(lines + [line]) == Unlines(lines) + (line + "\n")
  {
    UnlinesAppend(lines, [line]);
    OneLine(line);
  }

  // ---------------------------------------------------------------- decoding

  predicate Contains(s: string, sub: string) {
    sub <= s || (s != [] && Contains(s[1..], sub))
  }

  /** git-media|hawser|git-lfs */
  predicate HasHeader(data: string) {
    Contains(data, "git-media") || Contains(data, "hawser") || Contains(data, "git-lfs")
  }

  predicate IsWord(c: char) { IsDigit(c) || 'a' <= c <= 'z' || 'A' <= c <= 'Z' || c == '_' }

  /** \Aext-\d{1}-\w+ */
  predicate IsExtensionKey(key: string) {
    |key| >= 7 && key[..4] == "ext-" && IsDigit(key[4]) && key[5] == '-' && IsWord(key[6])
  }

  predicate IsHex(c: char) { IsDigit(c) || 'a' <= c <= 'f' }

  predicate IsOid(s: string) { |s| == 64 && forall i :: 0 <= i < |s| ==> IsHex(s[i]) }

  /** The lines seen so far: how many of the three keys, their values, and the
      extension entries in the order of their first occurrence. */
  datatype Entries = Entries(line: nat, values: map<string, string>, exts: seq<(string, string)>)

  /** Assignment to a Go map, kept as a list of entries with distinct keys. */
  function Assign(exts: seq<(string, string)>, key: string, value: string): seq<(string, string)> {
    if exts == [] then [(key, value)]
    else if exts[0].0 == key then [(key, value)] + exts[1..]
    else [exts[0]] + Assign(exts[1..], key, value)
  }

  function ScanLine(e: Entries, text: string): Result<Entries> {
    if text == [] then Ok(e)
    else match Cut(text, ' ')
      case None => Err(NotAPointer)
      case Some((key, value)) =>
        if e.line >= |KEYS| then Err(NotAPointer)
        else if key == KEYS[e.line] then Ok(e.(line := e.line + 1, values := e.values[key := value]))
        else if IsExtensionKey(key) then Ok(e.(exts := Assign(e.exts, key, value)))
        else Err(if e.line == 0 then NotAPointer else BadPointer)
  }

  function ScanLines(e: Entries, lines: seq<string>): Result<Entries>
    decreases |lines|
  {
    if lines == [] then Ok(e)
    else
      var e1 :- ScanLine(e, lines[0]);
      ScanLines(e1, lines[1..])
  }

  const NO_ENTRIES := Entries(0, map[], [])

  function DecodeEntries(data: string): Result<Entries> {
    if HasHeader(data) then ScanLines(NO_ENTRIES, Lines(data)) else Err(NotAPointer)
  }

  function ParseOid(value: string): (r: Result<string>)
    ensures r.Ok? ==> IsOid(r.value)
    ensures r.Err? ==> r.error == BadPointer
  {
    match Cut(value, ':')
    case None => Err(BadPointer)
    case Some((kind, oid)) => if kind == OID_TYPE && IsOid(oid) then Ok(oid) else Err(BadPointer)
  }

  /** strings.SplitN(key, "-", 3), then strconv.Atoi of the middle part. */
  function ParseExtension(key: string, value: string): (r: Result<Extension>)
    ensures r.Err? ==> r.error == BadPointer
  {
    match Cut(key, '-')
    case None => Err(BadPointer)
    case Some((ext, rest)) =>
      match Cut(rest, '-')
      case None => Err(BadPointer)
      case Some((priority, name)) =>
        var p := ParseInt64(priority);
        if ext != "ext" || p.None? || p.value < 0 then Err(BadPointer)
        else
          var oid :- ParseOid(value);
          Ok(Extension(name, p.value, oid))
  }

  function ParseExtensions(exts: seq<(string, string)>): (r: Result<seq<Extension>>)
    ensures r.Ok? ==> |r.value| == |exts|
    ensures r.Ok? ==> forall i :: 0 <= i < |exts| ==> ParseExtension(exts[i].0, exts[i].1) == Ok(r.value[i])
    ensures r.Err? ==> r.error == BadPointer
    ensures r.Err? ==> exists i :: 0 <= i < |exts| && ParseExtension(exts[i].0, exts[i].1).Err?
  {
    if exts == [] then Ok([])
    else
      var e :- ParseExtension(exts[0].0, exts[0].1);
      var rest := ParseExtensions(exts[1..]);
      if rest.Err? then
        assert exists i :: 0 <= i < |exts[1..]| && ParseExtension(exts[1..][i].0, exts[1..][i].1).Err?;
        Err(rest.error)
      else Ok([e] + rest.value)
  }

  predicate DistinctPriorities(exts: seq<Extension>) {
    forall i, j :: 0 <= i < j < |exts| ==> exts[i].priority != exts[j].priority
  }

  predicate Ascending(exts: seq<Extension>) {
    forall i, j :: 0 <= i < j < |exts| ==> exts[i].priority < exts[j].priority
  }

  function Priority(e: Extension): int { e.priority }

  /** sort.Sort(ByPriority(exts)), once the priorities are known to differ. */
  function SortExtensions(exts: seq<Extension>): (r: seq<Extension>)
    requires DistinctPriorities(exts)
    ensures Ascending(r) && |r| == |exts|
    ensures forall x :: x in r <==> x in exts
  {
    Sorting.Sort(exts, Priority)
  }

  function DecodeExtensions(entries: seq<(string, string)>): Result<seq<Extension>> {
    var exts :- ParseExtensions(entries);
    if DistinctPriorities(exts) then Ok(SortExtensions(exts)) else Err(BadPointer)
  }

  function Get(m: map<string, string>, key: string): string { if key in m then m[key] else "" }

  function DecodeKV(data: string): Result<Pointer> {
    var e :- DecodeEntries(data);
    DecodeWith(e)
  }

  function DecodeWith(e: Entries): Result<Pointer> {
    var version := Get(e.values, "version");
    if version == "" then Err(NotAPointer)
    else if version !in ALIASES || "oid" !in e.values then Err(BadPointer)
    else
      var oid :- ParseOid(e.values["oid"]);
      var size := ParseInt64(Get(e.values, "size"));
      if size.None? || size.value < 0 then Err(BadPointer)
      else
        var exts :- DecodeExtensions(e.exts);
        Ok(Pointer(oid, size.value, exts, true))
  }

  /** DecodeFrom, on what the first read returned. */
  function DecodeBuffer(buf: string): Result<Pointer> {
    if buf == [] then Ok(EmptyPointer())
    else
      var p :- DecodeKV(TrimSpace(buf));
      Ok(p.(canonical := Encoded(p) == buf))
  }

  /** DecodePointer on a reader whose first read fills the buffer. */
  function Decode(content: string): Result<Pointer> {
    DecodeBuffer(if |content| <= CUTOFF then content else content[..CUTOFF])
  }

  /** decodeKVData's loop. */
  method ScanData(data: string) returns (r: Result<Entries>)
    ensures r == DecodeEntries(data)
  {
    if !HasHeader(data) {
      return Err(NotAPointer);
    }
    var lines := Lines(data);
    var line, values, exts := 0, map[], [];
    var i := 0;
    while i < |lines|
      invariant 0 <= i <= |lines|
      invariant ScanLines(NO_ENTRIES, lines) == ScanLines(Entries(line, values, exts), lines[i..])
    {
      var text := lines[i];
      ghost var before := Entries(line, values, exts);
      assert lines[i..][0] == text && lines[i..][1..] == lines[i + 1..];
      i := i + 1;
      if text == [] {
        continue;
      }
      var parts := Cut(text, ' ');
      if parts.None? {
        return Err(NotAPointer);
      }
      var (key, value) := parts.value;
      if |KEYS| <= line {
        return Err(NotAPointer);
      }
      if key != KEYS[line] {
        if !IsExtensionKey(key) {
          return Err(if line == 0 then NotAPointer else BadPointer);
        }
        exts := Assign(exts, key, value);
        assert ScanLine(before, text) == Ok(Entries(line, values, exts));
        continue;
      }
      line, values := line + 1, values[key := value];
      assert ScanLine(before, text) == Ok(Entries(line, values, exts));
    }
    r := Ok(Entries(line, values, exts));
  }

  // ---------------------------------------------------------------- what decodes

  /** An extension name that survives the line format. */
  predicate GoodName(name: string) {
    name != [] && IsWord(name[0]) && ' ' !in name && '\n' !in name
  }

  predicate GoodExtension(e: Extension) { e.priority <= 9 && GoodName(e.name) && IsOid(e.oid) }

  predicate WellFormed(p: Pointer) {
    && IsOid(p.oid)
    && p.size <= MAX_INT64
    && Ascending(p.extensions)
    && forall i :: 0 <= i < |p.extensions| ==> GoodExtension(p.extensions[i])
  }

  /** Extension keys as the line scanner lets them through. */
  predicate GoodKey(key: string) { IsExtensionKey(key) && ' ' !in key && '\n' !in key }

  predicate GoodKeys(exts: seq<(string, string)>) {
    forall i :: 0 <= i < |exts| ==> GoodKey(exts[i].0)
  }

  lemma {:induction false} AssignKeepsKeys(exts: seq<(string, string)>, key: string, value: string)
    requires GoodKeys(exts) && GoodKey(key)
    ensures GoodKeys(Assign(exts, key, value))
  {
    if exts != [] && exts[0].0 != key {
      assert GoodKeys(exts[1..]);
      AssignKeepsKeys(exts[1..], key, value);
    }
  }

  lemma {:induction false} ScanKeepsKeys(e: Entries, lines: seq<string>)
    requires GoodKeys(e.exts) && forall i :: 0 <= i < |lines| ==> '\n' !in lines[i]
    ensures ScanLines(e, lines).Ok? ==> GoodKeys(ScanLines(e, lines).value.exts)
    decreases |lines|
  {
    if lines != [] && ScanLine(e, lines[0]).Ok? {
      var text := lines[0];
      if text != [] && Cut(text, ' ').Some? {
        var (key, value) := Cut(text, ' ').value;
        if IsExtensionKey(key) {
          AssignKeepsKeys(e.exts, key, value);
        }
      }
      ScanKeepsKeys(ScanLine(e, lines[0]).value, lines[1..]);
    }
  }

  /** A key the scanner accepts names a single-digit priority and a good name. */
  lemma GoodKeyParses(key: string, value: string)
    requires GoodKey(key)
    ensures ParseExtension(key, value).Ok? <==> ParseOid(value).Ok?
    ensures ParseExtension(key, value).Ok? ==>
      var e := ParseExtension(key, value).value; GoodExtension(e) && key == ExtensionKey(e)
  {
    var digit, name := key[4..5], key[6..];
    assert key == "ext" + ['-'] + key[4..];
    CutAt("ext", '-', key[4..]);
    assert key[4..] == digit + ['-'] + name;
    CutAt(digit, '-', name);
    assert AllDigits(digit) && digit[..0] == [];
    assert Value(digit) == DigitValue(key[4]);
    assert PrintNat(DigitValue(key[4])) == digit;
    assert name[0] == key[6];
    assert ParseInt64(digit) == Some(DigitValue(key[4]));
  }

  lemma DecodedExtensionsAreGood(entries: seq<(string, string)>)
    requires GoodKeys(entries) && DecodeExtensions(entries).Ok?
    ensures var exts := DecodeExtensions(entries).value;
            Ascending(exts) && forall i :: 0 <= i < |exts| ==> GoodExtension(exts[i])
  {
    var parsed := ParseExtensions(entries).value;
    var exts := SortExtensions(parsed);
    forall i | 0 <= i < |exts|
      ensures GoodExtension(exts[i])
    {
      assert exts[i] in exts;
      var j :| 0 <= j < |parsed| && parsed[j] == exts[i];
      GoodKeyParses(entries[j].0, entries[j].1);
    }
  }

  /** Everything that decodes from a non-empty buffer is well formed. */
  lemma DecodedIsWellFormed(buf: string)
    requires buf != [] && DecodeBuffer(buf).Ok?
    ensures WellFormed(DecodeBuffer(buf).value)
  {
    hide TrimSpace, Lines, HasHeader, ScanLines, DecodeExtensions, Encoded, GoodExtension, Ascending, GoodKey;
    var data := TrimSpace(buf);
    ScanKeepsKeys(NO_ENTRIES, Lines(data));
    DecodedExtensionsAreGood(DecodeEntries(data).value.exts);
  }

  // ---------------------------------------------------------------- round trip

  function EntryOf(e: Extension): (string, string) { (ExtensionKey(e), OID_TYPE + ":" + e.oid) }

  function EntriesOf(exts: seq<Extension>): (r: seq<(string, string)>)
    ensures |r| == |exts| && forall i :: 0 <= i < |exts| ==> r[i] == EntryOf(exts[i])
  {
    seq(|exts|, i requires 0 <= i < |exts| => EntryOf(exts[i]))
  }

  lemma GoodExtensionKey(e: Extension)
    requires GoodExtension(e)
    ensures GoodKey(ExtensionKey(e)) && Solid(ExtensionLine(e))
    ensures ExtensionKey(e)[4] == Digit(e.priority)
  {
    assert PrintNat(e.priority) == [Digit(e.priority)];
    var key := ExtensionKey(e);
    assert key == "ext-" + [Digit(e.priority)] + "-" + e.name;
    assert key[6] == e.name[0];
    assert ExtensionLine(e)[|ExtensionLine(e)| - 1] == e.oid[63];
  }

  lemma ParsePrintedOid(oid: string)
    requires IsOid(oid)
    ensures ParseOid(OID_TYPE + ":" + oid) == Ok(oid)
  {
    CutAt(OID_TYPE, ':', oid);
    assert OID_TYPE + ":" + oid == OID_TYPE + [':'] + oid;
  }

  lemma {:induction false} AssignAppends(exts: seq<(string, string)>, key: string, value: string)
    requires forall i :: 0 <= i < |exts| ==> exts[i].0 != key
    ensures Assign(exts, key, value) == exts + [(key, value)]
  {
    if exts != [] {
      AssignAppends(exts[1..], key, value);
    }
  }

  /** Scanning one printed extension line adds its entry. */
  lemma ScanExtensionLine(e: Entries, x: Extension)
    requires GoodExtension(x) && e.line < |KEYS|
    requires forall i :: 0 <= i < |e.exts| ==> e.exts[i].0 != ExtensionKey(x)
    ensures ScanLine(e, ExtensionLine(x)) == Ok(e.(exts := e.exts + [EntryOf(x)]))
  {
    GoodExtensionKey(x);
    var key, value := ExtensionKey(x), OID_TYPE + ":" + x.oid;
    CutAt(key, ' ', value);
    assert ExtensionLine(x) == key + [' '] + value;
    assert key[0] == 'e' && KEYS[0][0] == 'v' && KEYS[1][0] == 'o' && KEYS[2][0] == 's';
    AssignAppends(e.exts, key, value);
  }

  /** Ascending priorities make the next key different from all before it. */
  lemma KeyIsNew(done: seq<Extension>, exts: seq<Extension>)
    requires exts != [] && Ascending(done + exts) && AllGood(done + exts)
    ensures GoodExtension(exts[0])
    ensures forall i :: 0 <= i < |done| ==> EntriesOf(done)[i].0 != ExtensionKey(exts[0])
  {
    var x := exts[0];
    assert (done + exts)[|done|] == x;
    forall i | 0 <= i < |done|
      ensures EntriesOf(done)[i].0 != ExtensionKey(x)
    {
      assert (done + exts)[i] == done[i];
      GoodExtensionKey(done[i]);
      GoodExtensionKey(x);
    }
  }

  lemma PrintedSplit(exts: seq<Extension>, rest: seq<string>)
    requires exts != []
    ensures var lines := ExtensionLines(exts) + rest;
            lines != [] && lines[0] == ExtensionLine(exts[0]) && lines[1..] == ExtensionLines(exts[1..]) + rest
  {
    hide ExtensionLine;
  }

  lemma EntriesOneMore(done: seq<Extension>, exts: seq<Extension>)
    requires exts != []
    ensures done + exts == done + [exts[0]] + exts[1..]
    ensures EntriesOf(done + [exts[0]]) == EntriesOf(done) + [EntryOf(exts[0])]
  {
    hide EntryOf;
  }

  predicate AllGood(exts: seq<Extension>) { forall i :: 0 <= i < |exts| ==> GoodExtension(exts[i]) }

  lemma {:induction false} ScanExtensionLines(e: Entries, done: seq<Extension>, exts: seq<Extension>, rest: seq<string>)
    requires e.line < |KEYS| && e.exts == EntriesOf(done)
    requires Ascending(done + exts) && AllGood(done + exts)
    ensures ScanLines(e, ExtensionLines(exts) + rest)
         == ScanLines(e.(exts := EntriesOf(done + exts)), rest)
    decreases |exts|
  {
    hide ScanLine, Ascending, AllGood, GoodExtension, ExtensionLine, ExtensionKey, ExtensionLines, EntriesOf, EntryOf;
    if exts == [] {
      NothingPrinted(exts, rest);
      assert done + exts == done;
    } else {
      var x := exts[0];
      KeyIsNew(done, exts);
      ScanExtensionLine(e, x);
      PrintedSplit(exts, rest);
      EntriesOneMore(done, exts);
      ScanExtensionLines(e.(exts := e.exts + [EntryOf(x)]), done + [x], exts[1..], rest);
    }
  }

  lemma NothingPrinted(exts: seq<Extension>, rest: seq<string>)
    requires exts == []
    ensures ExtensionLines(exts) + rest == rest
  {
  }

  lemma {:induction false} HeaderInside(a: string, sub: string, b: string)
    ensures Contains(a + sub + b, sub)
  {
    if a == [] {
      assert a + sub + b == sub + b;
    } else {
      HeaderInside(a[1..], sub, b);
      assert (a + sub + b)[1..] == a[1..] + sub + b;
    }
  }

  /** The text of a pointer under some version, without the final newline. */
  function BodyAs(v: string, p: Pointer): string {
    Unlines(["version " + v] + ExtensionLines(p.extensions) + ["oid " + (OID_TYPE + ":" + p.oid)])
    + ("size " + PrintNat(p.size))
  }

  lemma TextIsBody(v: string, p: Pointer)
    ensures Unlines(LinesAs(v, p)) == BodyAs(v, p) + ['\n']
  {
    hide PrintNat, ExtensionLines;
    var a := ["version " + v] + ExtensionLines(p.extensions) + ["oid " + (OID_TYPE + ":" + p.oid)];
    var size := "size " + PrintNat(p.size);
    assert LinesAs(v, p) == a + [size];
    UnlinesAppend(a, [size]);
    assert Unlines([size]) == size + ['\n'] by { assert [size][1..] == []; }
  }

  lemma AliasHasHeader(v: string, rest: string)
    requires v in ALIASES
    ensures HasHeader("version " + v + rest)
  {
    hide Contains;
    if v == ALIASES[0] {
      GitMediaInside(rest);
    } else if v == ALIASES[1] {
      HawserInside(rest);
    } else {
      GitLfsInside(rest);
    }
  }

  lemma {:induction false} GitMediaInside(rest: string)
    ensures Contains("version " + ALIASES[0] + rest, "git-media")
  {
    hide Contains;
    NameInside("version http://", "git-media", ".io/v/2", "version " + ALIASES[0], rest);
  }

  lemma {:induction false} HawserInside(rest: string)
    ensures Contains("version " + ALIASES[1] + rest, "hawser")
  {
    hide Contains;
    NameInside("version https://", "hawser", ".github.com/spec/v1", "version " + ALIASES[1], rest);
  }

  lemma {:induction false} GitLfsInside(rest: string)
    ensures Contains("version " + ALIASES[2] + rest, "git-lfs")
  {
    hide Contains;
    NameInside("version https://", "git-lfs", ".github.com/spec/v1", "version " + ALIASES[2], rest);
  }

  lemma {:induction false} NameInside(start: string, name: string, end: string, line: string, rest: string)
    requires line == start + name + end
    ensures Contains(line + rest, name)
  {
    HeaderInside(start, name, end + rest);
    assert start + name + end + rest == start + name + (end + rest);
  }

  lemma BodyStartsWithVersion(v: string, p: Pointer) returns (rest: string)
    ensures BodyAs(v, p) == "version " + v + rest
  {
    hide ExtensionLines, PrintNat;
    var version := "version " + v;
    var others := ExtensionLines(p.extensions) + ["oid " + (OID_TYPE + ":" + p.oid)];
    var lines := [version] + ExtensionLines(p.extensions) + ["oid " + (OID_TYPE + ":" + p.oid)];
    assert lines == [version] + others;
    assert lines[0] == version && lines[1..] == others;
    rest := ['\n'] + Unlines(others) + ("size " + PrintNat(p.size));
    assert BodyAs(v, p) == version + rest;
  }

  lemma BodyIsPlain(v: string, p: Pointer)
    requires v in ALIASES
    ensures var b := BodyAs(v, p);
            b != [] && Plain(b[0]) && Plain(b[|b| - 1]) && b[|b| - 1] != '\n' && HasHeader(b)
  {
    hide ExtensionLines, HasHeader, Unlines;
    var rest := BodyStartsWithVersion(v, p);
    AliasHasHeader(v, rest);
    assert BodyAs(v, p)[0] == 'v';
    var size := PrintNat(p.size);
    assert BodyAs(v, p)[|BodyAs(v, p)| - 1] == size[|size| - 1];
  }

  lemma VersionIsSolid(v: string)
    requires v in ALIASES
    ensures Solid("version " + v)
  {
    assert v == ALIASES[0] || v == ALIASES[1] || v == ALIASES[2];
  }

  lemma LinesAreSolid(v: string, p: Pointer)
    requires v in ALIASES && WellFormed(p)
    ensures forall i :: 0 <= i < |LinesAs(v, p)| ==> Solid(LinesAs(v, p)[i])
  {
    var lines := LinesAs(v, p);
    forall i | 0 <= i < |lines|
      ensures Solid(lines[i])
    {
      if i == 0 {
        VersionIsSolid(v);
      } else if i <= |p.extensions| {
        assert lines[i] == ExtensionLine(p.extensions[i - 1]);
        GoodExtensionKey(p.extensions[i - 1]);
      } else if i == |p.extensions| + 1 {
        assert lines[i] == "oid " + (OID_TYPE + ":" + p.oid);
        assert lines[i][|lines[i]| - 1] == p.oid[63];
      } else {
        var size := PrintNat(p.size);
        assert lines[i] == "size " + size;
        assert lines[i][|lines[i]| - 1] == size[|size| - 1];
      }
    }
  }

  lemma BodyScansTo(v: string, p: Pointer)
    requires v in ALIASES && WellFormed(p)
    ensures TrimSpace(BodyAs(v, p) + ['\n']) == BodyAs(v, p) && HasHeader(BodyAs(v, p))
    ensures TrimSpace(BodyAs(v, p)) == BodyAs(v, p)
    ensures Lines(BodyAs(v, p)) == LinesAs(v, p)
  {
    hide BodyAs, LinesAs, HasHeader, TrimSpace, Lines, WellFormed;
    TextIsBody(v, p);
    BodyIsPlain(v, p);
    TrimPlain(BodyAs(v, p));
    LinesAreSolid(v, p);
    LinesOfUnlines(LinesAs(v, p));
    LinesWithoutFinalNewline(BodyAs(v, p));
  }

  lemma ScanKeyLine(e: Entries, value: string)
    requires e.line < |KEYS|
    ensures ScanLine(e, KEYS[e.line] + " " + value)
         == Ok(e.(line := e.line + 1, values := e.values[KEYS[e.line] := value]))
  {
    var key := KEYS[e.line];
    assert ' ' !in key;
    CutAt(key, ' ', value);
    assert key + " " + value == key + [' '] + value;
  }

  function EntriesAs(v: string, p: Pointer): Entries {
    Entries(3, map["version" := v, "oid" := OID_TYPE + ":" + p.oid, "size" := PrintNat(p.size)],
            EntriesOf(p.extensions))
  }

  lemma {:induction false} ScanTwo(e: Entries, a: string, b: string)
    requires ScanLine(e, a).Ok? && ScanLine(ScanLine(e, a).value, b).Ok?
    ensures ScanLines(e, [a, b]) == ScanLine(ScanLine(e, a).value, b)
  {
    hide ScanLine;
    var e1 := ScanLine(e, a).value;
    assert [a, b][1..] == [b] && [b][1..] == [];
    assert ScanLines(e1, [b]) == ScanLines(ScanLine(e1, b).value, []);
  }

  lemma LinesScan(v: string, p: Pointer)
    requires WellFormed(p)
    ensures ScanLines(NO_ENTRIES, LinesAs(v, p)) == Ok(EntriesAs(v, p))
  {
    hide ScanLine, GoodExtension, Ascending, ExtensionLines, PrintNat;
    var oid, size := OID_TYPE + ":" + p.oid, PrintNat(p.size);
    var lines := LinesAs(v, p);
    var tail := ["oid " + oid, "size " + size];
    ScanKeyLine(NO_ENTRIES, v);
    var e1 := Entries(1, map["version" := v], []);
    assert ScanLine(NO_ENTRIES, "version " + v) == Ok(e1) by {
      assert "version" + " " + v == "version " + v;
    }
    assert lines[0] == "version " + v && lines[1..] == ExtensionLines(p.extensions) + tail;
    assert [] + p.extensions == p.extensions;
    ScanExtensionLines(e1, [], p.extensions, tail);
    var e2 := e1.(exts := EntriesOf(p.extensions));
    ScanKeyLine(e2, oid);
    var e3 := e2.(line := 2, values := e2.values["oid" := oid]);
    assert ScanLine(e2, "oid " + oid) == Ok(e3) by { assert "oid" + " " + oid == "oid " + oid; }
    ScanKeyLine(e3, size);
    assert ScanLine(e3, "size " + size) == Ok(e3.(line := 3, values := e3.values["size" := size])) by {
      assert "size" + " " + size == "size " + size;
    }
    ScanTwo(e2, "oid " + oid, "size " + size);
  }

  lemma ParsePrintedExtensions(exts: seq<Extension>)
    requires forall i :: 0 <= i < |exts| ==> GoodExtension(exts[i])
    ensures ParseExtensions(EntriesOf(exts)) == Ok(exts)
  {
    forall i | 0 <= i < |exts|
      ensures ParseExtension(EntriesOf(exts)[i].0, EntriesOf(exts)[i].1) == Ok(exts[i])
    {
      ParsePrintedExtension(exts[i]);
    }
    if ParseExtensions(EntriesOf(exts)).Ok? {
      assert ParseExtensions(EntriesOf(exts)).value == exts;
    }
  }

  lemma ParsePrintedExtension(e: Extension)
    requires GoodExtension(e)
    ensures ParseExtension(ExtensionKey(e), OID_TYPE + ":" + e.oid) == Ok(e)
  {
    GoodExtensionKey(e);
    ParsePrintedOid(e.oid);
    var key := ExtensionKey(e);
    GoodKeyParses(key, OID_TYPE + ":" + e.oid);
    var x := ParseExtension(key, OID_TYPE + ":" + e.oid).value;
    assert x.oid == e.oid;
    GoodExtensionKey(x);
    assert key == "ext-" + [Digit(e.priority)] + "-" + e.name by {
      assert PrintNat(e.priority) == [Digit(e.priority)];
    }
    assert key == "ext-" + [Digit(x.priority)] + "-" + x.name by {
      assert PrintNat(x.priority) == [Digit(x.priority)];
    }
    assert key[6..] == e.name && key[6..] == x.name;
  }

  /** The text of a well-formed pointer decodes to it under every version alias. */
  lemma BodyDecodes(v: string, p: Pointer)
    requires v in ALIASES && WellFormed(p)
    ensures DecodeKV(BodyAs(v, p)) == Ok(p.(canonical := true))
  {
    hide LinesAs, BodyAs, Lines, HasHeader, ScanLines, ParseExtensions, PrintNat,
         ParseInt64, Ascending, GoodExtension, ParseOid, SortExtensions;
    BodyScansTo(v, p);
    LinesScan(v, p);
    ParsePrintedOid(p.oid);
    ParsePrinted(p.size);
    PrintedExtensionsDecode(p.extensions);
    AliasNotEmpty(v);
  }

  lemma AliasNotEmpty(v: string)
    requires v in ALIASES
    ensures v != ""
  {
  }

  /** The text of a well-formed pointer under any version alias decodes to it, and is
      canonical only if it is the text that encoding writes. */
  lemma AliasTextDecodes(v: string, p: Pointer)
    requires v in ALIASES && WellFormed(p) && p.size > 0
    ensures var text := Unlines(LinesAs(v, p));
            DecodeBuffer(text) == Ok(p.(canonical := Encoded(p) == text))
  {
    hide PointerLines, LinesAs, BodyAs, TrimSpace, WellFormed, DecodeKV;
    TextIsBody(v, p);
    BodyScansTo(v, p);
    BodyDecodes(v, p);
    EncodedIgnoresCanonical(p);
  }

  /** Encoding a well-formed pointer and decoding the text gives the pointer back,
      marked canonical. */
  lemma EncodeThenDecode(p: Pointer)
    requires WellFormed(p) && p.size > 0
    ensures DecodeBuffer(Encoded(p)) == Ok(p.(canonical := true))
  {
    hide LinesAs, DecodeBuffer, WellFormed;
    AliasTextDecodes(LATEST, p);
  }

  lemma EncodedIsBody(p: Pointer)
    requires p.size > 0
    ensures Encoded(p) == BodyAs(LATEST, p) + ['\n']
  {
    TextIsBody(LATEST, p);
  }

  lemma PrintedExtensionsDecode(exts: seq<Extension>)
    requires Ascending(exts) && forall i :: 0 <= i < |exts| ==> GoodExtension(exts[i])
    ensures DecodeExtensions(EntriesOf(exts)) == Ok(exts)
  {
    ParsePrintedExtensions(exts);
    Sorting.SortedStaysSorted(exts, Priority);
  }

  lemma EncodedNotEmpty(p: Pointer)
    requires p.size > 0
    ensures Encoded(p) != []
  {
  }

  lemma EncodedIgnoresCanonical(p: Pointer)
    ensures Encoded(p.(canonical := true)) == Encoded(p)
  {
  }

  /** A pointer that fits the read buffer survives the file exactly when it is well
      formed: at most priority 9, names that start with a word character and hold
      neither space nor newline, ascending priorities, a 64-digit OID, a 63-bit
      size. */
  lemma RoundTripIffWellFormed(p: Pointer)
    requires p.size > 0 && |Encoded(p)| <= CUTOFF
    ensures Decode(Encoded(p)) == Ok(p.(canonical := true)) <==> WellFormed(p)
  {
    hide Encoded, DecodeBuffer, WellFormed;
    EncodedNotEmpty(p);
    if WellFormed(p) {
      EncodeThenDecode(p);
    } else if DecodeBuffer(Encoded(p)).Ok? {
      DecodedIsWellFormed(Encoded(p));
      WellFormedIgnoresCanonical(p);
    }
  }

  lemma WellFormedIgnoresCanonical(p: Pointer)
    ensures WellFormed(p) == WellFormed(p.(canonical := true))
  {
  }

  /** Whatever version alias, extension order or size spelling an input used, what
      it decodes to re-encodes to canonical text for the same pointer. */
  lemma ReencodingIsCanonical(buf: string)
    requires buf != [] && DecodeBuffer(buf).Ok? && DecodeBuffer(buf).value.size > 0
    requires |Encoded(DecodeBuffer(buf).value)| <= CUTOFF
    ensures var p := DecodeBuffer(buf).value; Decode(Encoded(p)) == Ok(p.(canonical := true))
  {
    hide Encoded, DecodeBuffer, WellFormed;
    DecodedIsWellFormed(buf);
    RoundTripIffWellFormed(DecodeBuffer(buf).value);
  }

  // ---------------------------------------------------------------- map iteration order

  predicate DistinctKeys(exts: seq<(string, string)>) {
    forall i, j :: 0 <= i < j < |exts| ==> exts[i].0 != exts[j].0
  }

  /** Two listings of the same Go map. */
  ghost predicate SameMap(a: seq<(string, string)>, b: seq<(string, string)>) {
    DistinctKeys(a) && DistinctKeys(b) && forall e :: e in a <==> e in b
  }

  lemma {:induction false} ParseInAnyOrder(a: seq<(string, string)>, b: seq<(string, string)>)
    requires SameMap(a, b) && ParseExtensions(a).Ok?
    ensures ParseExtensions(b).Ok?
    ensures forall x :: x in ParseExtensions(a).value ==> x in ParseExtensions(b).value
    ensures DistinctPriorities(ParseExtensions(a).value) ==> DistinctPriorities(ParseExtensions(b).value)
  {
    hide ParseExtension;
    forall i | 0 <= i < |b|
      ensures ParseExtension(b[i].0, b[i].1).Ok?
    {
      assert b[i] in a;
    }
    var pa, pb := ParseExtensions(a).value, ParseExtensions(b).value;
    forall x | x in pa
      ensures x in pb
    {
      var i :| 0 <= i < |pa| && pa[i] == x;
      assert a[i] in b;
      var j :| 0 <= j < |b| && b[j] == a[i];
      assert pb[j] == x;
    }
    forall i, j | DistinctPriorities(pa) && 0 <= i < j < |pb|
      ensures pb[i].priority != pb[j].priority
    {
      assert b[i] in a && b[j] in a && b[i] != b[j];
      var i' :| 0 <= i' < |a| && a[i'] == b[i];
      var j' :| 0 <= j' < |a| && a[j'] == b[j];
      assert pa[i'] == pb[i] && pa[j'] == pb[j];
    }
  }

  /** Go iterates over the extension map in any order; neither the extensions nor
      whether they are accepted depend on it. */
  lemma ExtensionOrderIsIrrelevant(a: seq<(string, string)>, b: seq<(string, string)>)
    requires SameMap(a, b)
    ensures DecodeExtensions(a) == DecodeExtensions(b)
  {
    hide ParseExtension;
    if ParseExtensions(a).Ok? {
      ParseInAnyOrder(a, b);
    }
    if ParseExtensions(b).Ok? {
      ParseInAnyOrder(b, a);
    }
    if DecodeExtensions(a).Ok? {
      var x, y := SortExtensions(ParseExtensions(a).value), SortExtensions(ParseExtensions(b).value);
      Sorting.AscendingIsUnique(x, y, Priority);
    }
  }

  lemma {:induction false} AssignKeepsDistinctKeys(exts: seq<(string, string)>, key: string, value: string)
    requires DistinctKeys(exts)
    ensures DistinctKeys(Assign(exts, key, value))
    ensures forall e :: e in Assign(exts, key, value) <==> e == (key, value) || (e in exts && e.0 != key)
  {
    if exts != [] && exts[0].0 != key {
      AssignKeepsDistinctKeys(exts[1..], key, value);
      var rest := Assign(exts[1..], key, value);
      assert forall i :: 0 <= i < |rest| ==> rest[i] in rest && rest[i].0 != exts[0].0;
    }
  }

  lemma {:induction false} ScanKeepsDistinctKeys(e: Entries, lines: seq<string>)
    requires DistinctKeys(e.exts) && ScanLines(e, lines).Ok?
    ensures DistinctKeys(ScanLines(e, lines).value.exts)
    decreases |lines|
  {
    hide DistinctKeys;
    if lines != [] {
      if lines[0] != [] {
        var (key, value) := Cut(lines[0], ' ').value;
        AssignKeepsDistinctKeys(e.exts, key, value);
      }
      ScanKeepsDistinctKeys(ScanLine(e, lines[0]).value, lines[1..]);
    }
  }

  /** A decoder that walks its extension map in another order. */
  ghost predicate DecodesInSomeOrder(data: string, r: Result<Pointer>) {
    exists entries ::
      && DecodeEntries(data).Ok? && SameMap(DecodeEntries(data).value.exts, entries)
      && r == DecodeWith(DecodeEntries(data).value.(exts := entries))
  }

  /** Whatever order Go walks the scanned extension map in, decoding gives the same
      pointer or fails all the same. */
  lemma {:induction false} DecodingIsOrderIndependent(data: string, r: Result<Pointer>)
    requires DecodesInSomeOrder(data, r)
    ensures r == DecodeKV(data)
  {
    hide DecodeExtensions, Lines, HasHeader, ParseOid;
    var e := DecodeEntries(data).value;
    var entries :| SameMap(e.exts, entries) && r == DecodeWith(e.(exts := entries));
    ExtensionOrderIsIrrelevant(e.exts, entries);
  }

  /** The scanned extension keys are distinct, so the entries are a listing of a map. */
  lemma ScannedKeysAreDistinct(data: string)
    requires DecodeEntries(data).Ok?
    ensures DistinctKeys(DecodeEntries(data).value.exts)
    ensures DecodesInSomeOrder(data, DecodeKV(data))
  {
    hide Lines, HasHeader, ScanLines, DecodeWith;
    ScanKeepsDistinctKeys(NO_ENTRIES, Lines(data));
    var e := DecodeEntries(data).value;
    assert SameMap(e.exts, e.exts) && e.(exts := e.exts) == e;
  }
}
