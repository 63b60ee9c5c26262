/** Reading pointers out of `git log -p` (lfs/gitscanner_log.go). */
module LogScanner {
  import opened Options
  import P = Pointer

  /** A line of the log, as the scanner's regular expressions class it. A data line
      is one that looks like part of a pointer, after its diff marker. */
  datatype Line =
    | Commit
    | File(from: string, to: string)
    | Merge(name: string)
    | Data(marker: char, text: string)
    | Other

  /** Which side of a diff to read, and which paths. */
  datatype Config = Config(dir: char, allows: string -> bool)

  datatype Found = Found(name: string, pointer: P.Pointer)

  const ADDITIONS := '+'

  predicate IsHeader(line: Line) { line.Commit? || line.File? || line.Merge? }

  /** The file a header introduces; a commit header introduces none. */
  function HeaderName(c: Config, line: Line): Option<string> {
    match line
    case File(from, to) => Some(if c.dir == ADDITIONS then to else from)
    case Merge(name) => Some(name)
    case _ => None
  }

  // ---------------------------------------------------------------- the specification

  /** The lines between two headers, and the file they belong to. */
  datatype Section = Section(name: string, included: bool, body: seq<Line>)

  predicate Chosen(c: Config, line: Line) { line.Data? && (line.marker == c.dir || line.marker == ' ') }

  /** The chosen side of a section with its context lines. */
  function SideText(c: Config, body: seq<Line>): string {
    if body == [] then ""
    else (if Chosen(c, body[0]) then body[0].text + "\n" else "") + SideText(c, body[1..])
  }

  function BodyLength(lines: seq<Line>): (n: nat)
    ensures n <= |lines| && (n < |lines| ==> IsHeader(lines[n]))
    ensures forall i :: 0 <= i < n ==> !IsHeader(lines[i])
  {
    if lines == [] || IsHeader(lines[0]) then 0 else 1 + BodyLength(lines[1..])
  }

  /** Cut the log at every header. Lines after a commit header still belong to the
      last file named. */
  function Sections(c: Config, name: string, included: bool, lines: seq<Line>): seq<Section>
    decreases |lines|
  {
    var n := BodyLength(lines);
    [Section(name, included, lines[..n])] +
    (if n == |lines| then []
     else
       match HeaderName(c, lines[n])
       case None => Sections(c, name, included, lines[n + 1..])
       case Some(next) => Sections(c, next, c.allows(next), lines[n + 1..]))
  }

  /** What decodes from a file's data, if anything. */
  function Decoded(name: string, data: string): seq<Found> {
    if data == [] then []
    else
      match P.Decode(data)
      case Ok(p) => [Found(name, p)]
      case Err(_) => []
  }

  function FoundIn(c: Config, s: Section): seq<Found> {
    if s.included then Decoded(s.name, SideText(c, s.body)) else []
  }

  function FoundInAll(c: Config, sections: seq<Section>): seq<Found> {
    if sections == [] then [] else FoundIn(c, sections[0]) + FoundInAll(c, sections[1..])
  }

  /** The pointers of a log. Before the first file header every line is read. */
  function PointersOf(c: Config, lines: seq<Line>): seq<Found> {
    FoundInAll(c, Sections(c, "", true, lines))
  }

  // ---------------------------------------------------------------- the streaming form

  /** What remains to be found with some data already buffered. */
  function Streamed(c: Config, name: string, included: bool, data: string, lines: seq<Line>): seq<Found>
    decreases |lines|
  {
    if lines == [] then (if included then Decoded(name, data) else [])
    else if IsHeader(lines[0]) then
      (if included then Decoded(name, data) else []) +
      (match HeaderName(c, lines[0])
       case None => Streamed(c, name, included, "", lines[1..])
       case Some(next) => Streamed(c, next, c.allows(next), "", lines[1..]))
    else if included && Chosen(c, lines[0]) then
      Streamed(c, name, included, data + (lines[0].text + "\n"), lines[1..])
    else Streamed(c, name, included, data, lines[1..])
  }

  /** Streaming with data buffered from a section finds what cutting finds, the
      buffered data put before the rest of its section. */
  lemma {:induction false} StreamedIsCut(c: Config, name: string, included: bool, data: string, lines: seq<Line>)
    ensures var sections := Sections(c, name, included, lines);
            Streamed(c, name, included, data, lines)
            == (if included then Decoded(name, data + SideText(c, sections[0].body)) else [])
               + FoundInAll(c, sections[1..])
    decreases |lines|, 0
  {
    hide Decoded;
    var n := BodyLength(lines);
    if lines == [] {
      assert data + "" == data;
    } else if IsHeader(lines[0]) {
      assert lines[..0] == [] && data + "" == data;
      HeaderCuts(c, name, included, lines);
      match HeaderName(c, lines[0])
      case None => Fresh(c, name, included, lines[1..]);
      case Some(next) => Fresh(c, next, c.allows(next), lines[1..]);
    } else {
      var text := if Chosen(c, lines[0]) then lines[0].text + "\n" else "";
      var rest := lines[1..];
      StreamedIsCut(c, name, included, if included then data + text else data, rest);
      BodyGoesOn(c, name, included, lines);
      var tail := SideText(c, Sections(c, name, included, rest)[0].body);
      assert (data + text) + tail == data + (text + tail);
      assert data + "" == data;
    }
  }

  lemma {:induction false} HeaderCuts(c: Config, name: string, included: bool, lines: seq<Line>)
    requires lines != [] && IsHeader(lines[0])
    ensures var sections := Sections(c, name, included, lines);
            && sections[0].body == []
            && sections[1..] == match HeaderName(c, lines[0])
                                case None => Sections(c, name, included, lines[1..])
                                case Some(next) => Sections(c, next, c.allows(next), lines[1..])
  {
  }

  lemma {:induction false} BodyGoesOn(c: Config, name: string, included: bool, lines: seq<Line>)
    requires lines != [] && !IsHeader(lines[0])
    ensures var sections, rest := Sections(c, name, included, lines), Sections(c, name, included, lines[1..]);
            && sections[1..] == rest[1..]
            && sections[0].body == [lines[0]] + rest[0].body
  {
    var n := BodyLength(lines);
    assert lines[..n] == [lines[0]] + lines[1..][..n - 1];
    if n < |lines| {
      assert lines[n + 1..] == lines[1..][n..];
    }
  }

  /** Nothing buffered: the streaming form finds exactly what the sections hold. */
  lemma {:induction false} Fresh(c: Config, name: string, included: bool, lines: seq<Line>)
    ensures Streamed(c, name, included, "", lines) == FoundInAll(c, Sections(c, name, included, lines))
    decreases |lines|, 1
  {
    hide Decoded;
    StreamedIsCut(c, name, included, "", lines);
    var sections := Sections(c, name, included, lines);
    assert "" + SideText(c, sections[0].body) == SideText(c, sections[0].body);
  }

  // ---------------------------------------------------------------- the scanner

  class Scanner {
    const config: Config
    const lines: seq<Line>
    var pos: nat
    var pointerData: string
    var currentFilename: string
    var currentFileIncluded: bool
    var pointer: Option<Found>

    /** Data is buffered only while the current file is included. */
    predicate Valid()
      reads this
    {
      pos <= |lines| && (!currentFileIncluded ==> pointerData == [])
    }

    /** What the scanner has yet to yield. */
    ghost function Remaining(): seq<Found>
      requires Valid()
      reads this
    {
      Streamed(config, currentFilename, currentFileIncluded, pointerData, lines[pos..])
    }

    constructor (c: Config, log: seq<Line>)
      ensures Valid() && config == c && lines == log && Remaining() == PointersOf(c, log)
    {
      config, lines := c, log;
      pos, pointerData, currentFilename, currentFileIncluded, pointer := 0, "", "", true, None;
      new;
      assert log[0..] == log;
      Fresh(c, "", true, log);
    }

    /** finishLastPointer. */
    method FinishLastPointer() returns (p: Option<Found>)
      requires Valid()
      modifies this`pointerData
      ensures Valid() && pointerData == []
      ensures (if p.Some? then [p.value] else [])
           == (if currentFileIncluded then Decoded(currentFilename, old(pointerData)) else [])
    {
      if pointerData == [] || !currentFileIncluded {
        return None;
      }
      var decoded := P.Decode(pointerData);
      pointerData := [];
      p := if decoded.Ok? then Some(Found(currentFilename, decoded.value)) else None;
    }

    method SetFilename(name: string)
      requires Valid() && pointerData == []
      modifies this`currentFilename, this`currentFileIncluded
      ensures Valid() && currentFilename == name && currentFileIncluded == config.allows(name)
    {
      currentFilename, currentFileIncluded := name, config.allows(name);
    }

    /** Scan: moves to the next pointer, or reports that there is none left. */
    method Scan() returns (more: bool)
      requires Valid()
      modifies this
      ensures Valid() && more == pointer.Some?
      ensures old(Remaining()) == (if more then [pointer.value] else []) + Remaining()
      ensures !more ==> pos == |lines| && Remaining() == []
    {
      hide Decoded;
      pointer := None;
      while pos < |lines|
        invariant Valid() && pointer.None? && Remaining() == old(Remaining())
      {
        var line := lines[pos];
        assert lines[pos..][0] == line && lines[pos..][1..] == lines[pos + 1..];
        if IsHeader(line) {
          var p := FinishLastPointer();
          var name := HeaderName(config, line);
          if name.Some? {
            SetFilename(name.value);
          }
          pos := pos + 1;
          if p.Some? {
            pointer := p;
            return true;
          }
        } else {
          if currentFileIncluded && Chosen(config, line) {
            pointerData := pointerData + (line.text + "\n");
          }
          pos := pos + 1;
        }
      }
      assert lines[pos..] == [];
      pointer := FinishLastPointer();
      NothingLeft(config, currentFilename, currentFileIncluded);
      more := pointer.Some?;
    }
  }

  lemma {:induction false} NothingLeft(c: Config, name: string, included: bool)
    ensures Streamed(c, name, included, "", []) == []
  {
  }

  /** The callers' loop: the log's pointers, in order and under the right names. */
  method ScanAll(c: Config, lines: seq<Line>) returns (found: seq<Found>)
    ensures found == PointersOf(c, lines)
  {
    hide PointersOf, Streamed, Decoded;
    var scanner := new Scanner(c, lines);
    found := [];
    var more := scanner.Scan();
    ghost var ahead := scanner.Remaining();
    while more
      invariant scanner.Valid() && more == scanner.pointer.Some?
      invariant ahead == scanner.Remaining() && (!more ==> ahead == [])
      invariant PointersOf(c, lines) == if more then found + ([scanner.pointer.value] + ahead) else found
      decreases |ahead|, more
    {
      var p := scanner.pointer.value;
      assert found + ([p] + ahead) == (found + [p]) + ahead;
      found := found + [p];
      more := scanner.Scan();
      ahead := scanner.Remaining();
    }
  }
}
