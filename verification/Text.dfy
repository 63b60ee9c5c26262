/** The string operations of the Go standard library that the parsers use. A string
    is a sequence of bytes, one char per byte. */
module Text {
  import opened Options

  /** The first position of c, or |s|. */
  function Find(s: string, c: char): (i: nat)
    ensures i <= |s|
    ensures i < |s| ==> s[i] == c
    ensures forall j :: 0 <= j < i ==> s[j] != c
  {
    if s == [] || s[0] == c then 0 else 1 + Find(s[1..], c)
  }

  /** strings.SplitN(s, c, 2): the two parts, or None if c does not occur. */
  function Cut(s: string, c: char): (r: Option<(string, string)>)
    ensures r.Some? ==> s == r.value.0 + [c] + r.value.1 && c !in r.value.0
    ensures r.None? ==> c !in s
  {
    var i := Find(s, c);
    if i == |s| then None else Some((s[..i], s[i + 1..]))
  }

  lemma CutAt(a: string, c: char, b: string)
    requires c !in a
    ensures Cut(a + [c] + b, c) == Some((a, b))
  {
    var s := a + [c] + b;
    assert s[|a|] == c;
    assert Find(s, c) == |a|;
    assert s[..|a|] == a && s[|a| + 1..] == b;
  }

  lemma CutNone(s: string, c: char)
    requires c !in s
    ensures Cut(s, c) == None
  {
  }

  function DropCR(s: string): string {
    if s != [] && s[|s| - 1] == '\r' then s[..|s| - 1] else s
  }

  /** bufio.ScanLines over a whole buffer. */
  function Lines(s: string): (r: seq<string>)
    ensures forall i :: 0 <= i < |r| ==> '\n' !in r[i]
    decreases |s|
  {
    if s == [] then []
    else match Cut(s, '\n')
      case None => [DropCR(s)]
      case Some(p) => [DropCR(p.0)] + Lines(p.1)
  }

  /** A line that survives being written and scanned. */
  predicate Solid(line: string) {
    line != [] && '\n' !in line && line[|line| - 1] != '\r'
  }

  function Unlines(lines: seq<string>): string {
    if lines == [] then [] else lines[0] + ['\n'] + Unlines(lines[1..])
  }

  lemma {:induction false} UnlinesAppend(a: seq<string>, b: seq<string>)
    ensures Unlines(a + b) == Unlines(a) + Unlines(b)
  {
    if a == [] {
      assert a + b == b;
    } else {
      assert (a + b)[1..] == a[1..] + b;
      UnlinesAppend(a[1..], b);
    }
  }

  lemma {:induction false} LinesOfUnlines(lines: seq<string>)
    requires forall i :: 0 <= i < |lines| ==> Solid(lines[i])
    ensures Lines(Unlines(lines)) == lines
  {
    if lines != [] {
      CutAt(lines[0], '\n', Unlines(lines[1..]));
      LinesOfUnlines(lines[1..]);
    }
  }

  /** A final newline makes no difference to the lines. */
  lemma {:induction false} LinesWithoutFinalNewline(s: string)
    requires s != [] && s[|s| - 1] != '\n'
    ensures Lines(s + ['\n']) == Lines(s)
    decreases |s|
  {
    match Cut(s, '\n')
    case None =>
      CutAt(s, '\n', []);
      assert s + ['\n'] == s + ['\n'] + [];
    case Some(p) =>
      assert s + ['\n'] == p.0 + ['\n'] + (p.1 + ['\n']);
      CutAt(p.0, '\n', p.1 + ['\n']);
      LinesWithoutFinalNewline(p.1);
  }

  // ---------------------------------------------------------------- bytes.TrimSpace

  predicate AsciiSpace(c: char) { c in {'\t', '\n', 11 as char, 12 as char, '\r', ' '} }

  /** The UTF-8 encodings of the Unicode white space outside ASCII. */
  predicate WideSpace(s: string) {
    || (|s| == 2 && s[0] == 0xC2 as char && s[1] in {0x85 as char, 0xA0 as char})
    || (|s| == 3 && s[0] == 0xE1 as char && s[1] == 0x9A as char && s[2] == 0x80 as char)
    || (|s| == 3 && s[0] == 0xE2 as char && s[1] == 0x80 as char
        && (0x80 as char <= s[2] <= 0x8A as char || s[2] in {0xA8 as char, 0xA9 as char, 0xAF as char}))
    || (|s| == 3 && s[0] == 0xE2 as char && s[1] == 0x81 as char && s[2] == 0x9F as char)
    || (|s| == 3 && s[0] == 0xE3 as char && s[1] == 0x80 as char && s[2] == 0x80 as char)
  }

  /** The length of the white space character that s starts, or ends, with. */
  function SpaceAtStart(s: string): (n: nat)
    ensures n <= |s|
  {
    if s != [] && AsciiSpace(s[0]) then 1
    else if |s| >= 2 && WideSpace(s[..2]) then 2
    else if |s| >= 3 && WideSpace(s[..3]) then 3
    else 0
  }

  function SpaceAtEnd(s: string): (n: nat)
    ensures n <= |s|
  {
    if s != [] && AsciiSpace(s[|s| - 1]) then 1
    else if |s| >= 2 && WideSpace(s[|s| - 2..]) then 2
    else if |s| >= 3 && WideSpace(s[|s| - 3..]) then 3
    else 0
  }

  function TrimStart(s: string): string
    decreases |s|
  {
    if SpaceAtStart(s) == 0 then s else TrimStart(s[SpaceAtStart(s)..])
  }

  function TrimEnd(s: string): string
    decreases |s|
  {
    if SpaceAtEnd(s) == 0 then s else TrimEnd(s[..|s| - SpaceAtEnd(s)])
  }

  function TrimSpace(s: string): string { TrimEnd(TrimStart(s)) }

  predicate Plain(c: char) { '!' <= c <= '~' }

  lemma {:induction false} NoSpaceAtStart(s: string)
    requires s != [] && Plain(s[0])
    ensures SpaceAtStart(s) == 0 && TrimStart(s) == s
  {
    assert |s| >= 2 ==> s[..2][0] == s[0];
    assert |s| >= 3 ==> s[..3][0] == s[0];
  }

  lemma {:induction false} NoSpaceAtEnd(s: string)
    requires s != [] && Plain(s[|s| - 1])
    ensures SpaceAtEnd(s) == 0 && TrimEnd(s) == s
  {
    hide WideSpace;
    if |s| >= 2 && WideSpace(s[|s| - 2..]) {
      WideIsNotPlain(s[|s| - 2..]);
    }
    if |s| >= 3 && WideSpace(s[|s| - 3..]) {
      WideIsNotPlain(s[|s| - 3..]);
    }
  }

  lemma WideIsNotPlain(s: string)
    requires WideSpace(s)
    ensures s != [] && !Plain(s[|s| - 1])
  {
  }

  /** Text between two visible ASCII characters stays as it is, and loses a final
      newline. */
  lemma TrimPlain(s: string)
    requires s != [] && Plain(s[0]) && Plain(s[|s| - 1])
    ensures TrimSpace(s) == s && TrimSpace(s + ['\n']) == s
  {
    hide SpaceAtStart, SpaceAtEnd, TrimStart, TrimEnd;
    var t := s + ['\n'];
    assert t[0] == s[0];
    NoSpaceAtStart(s);
    NoSpaceAtStart(t);
    NoSpaceAtEnd(s);
    TrimNewline(s);
  }

  lemma {:induction false} TrimNewline(s: string)
    ensures TrimEnd(s + ['\n']) == TrimEnd(s)
  {
    var t := s + ['\n'];
    assert SpaceAtEnd(t) == 1 && t[..|t| - 1] == s;
  }

  lemma {:induction false} TrimEndIsPrefix(s: string)
    ensures TrimEnd(s) <= s
    decreases |s|
  {
    hide SpaceAtEnd;
    var n := SpaceAtEnd(s);
    if n > 0 {
      TrimEndIsPrefix(s[..|s| - n]);
    }
  }

  // ---------------------------------------------------------------- numbers

  const MAX_INT64: int := 0x7FFF_FFFF_FFFF_FFFF

  predicate IsDigit(c: char) { '0' <= c <= '9' }

  predicate AllDigits(s: string) { forall i :: 0 <= i < |s| ==> IsDigit(s[i]) }

  function DigitValue(c: char): nat
    requires IsDigit(c)
  {
    (c - '0') as nat
  }

  function Digit(d: nat): (c: char)
    requires d < 10
    ensures IsDigit(c) && DigitValue(c) == d
  {
    d as char + '0'
  }

  function Value(s: string): nat
    requires AllDigits(s)
  {
    if s == [] then 0 else Value(s[..|s| - 1]) * 10 + DigitValue(s[|s| - 1])
  }

  /** fmt's %d for a natural number. */
  function PrintNat(n: nat): (s: string)
    ensures s != [] && AllDigits(s) && Value(s) == n
  {
    if n < 10 then [Digit(n)] else PrintNat(n / 10) + [Digit(n % 10)]
  }

  /** strconv.ParseInt(s, 10, 64): an optional sign, digits, and the range check. */
  function ParseInt64(s: string): Option<int> {
    var signed := s != [] && (s[0] == '+' || s[0] == '-');
    var digits := if signed then s[1..] else s;
    if digits == [] || !AllDigits(digits) then None
    else
      var v: int := Value(digits);
      if signed && s[0] == '-' then (if v <= MAX_INT64 + 1 then Some(-v) else None)
      else if v <= MAX_INT64 then Some(v) else None
  }

  lemma {:induction false} ParsePrinted(n: nat)
    requires n <= MAX_INT64
    ensures ParseInt64(PrintNat(n)) == Some(n)
  {
  }
}
