/** What the read buffer makes of a pointer text longer than it (lfs/pointer.go): the
    text is cut after 1024 bytes, before or within the size line. */
module PointerCut {
  import opened Options
  import opened Text
  import opened Pointer

  // ---------------------------------------------------------------- cutting a number

  /** A number without its last k digits. */
  function Shortened(n: nat, k: nat): nat { if k == 0 then n else Shortened(n / 10, k - 1) }

  lemma {:induction false} PrintedPrefix(n: nat, k: nat)
    requires k < |PrintNat(n)|
    ensures PrintNat(n)[..|PrintNat(n)| - k] == PrintNat(Shortened(n, k))
    ensures Shortened(n, k) <= n && (n > 0 ==> Shortened(n, k) > 0)
    decreases k
  {
    if k == 0 {
      assert PrintNat(n)[..|PrintNat(n)|] == PrintNat(n);
    } else {
      assert PrintNat(n) == PrintNat(n / 10) + [Digit(n % 10)];
      PrintedPrefix(n / 10, k - 1);
      assert PrintNat(n)[..|PrintNat(n)| - k] == PrintNat(n / 10)[..|PrintNat(n / 10)| - (k - 1)];
    }
  }

  // ---------------------------------------------------------------- cutting lines

  /** Line i of a cut text: a prefix of the full line that ends within the cut. */
  predicate CutLine(lines: seq<string>, i: nat, line: string, cut: nat)
    requires i < |lines|
  {
    line <= lines[i] && |Unlines(lines[..i])| + |line| <= cut
  }

  ghost predicate CutLines(lines: seq<string>, s: string) {
    |Lines(s)| <= |lines| && forall i :: 0 <= i < |Lines(s)| ==> CutLine(lines, i, Lines(s)[i], |s|)
  }

  /** The lines of a prefix are prefixes of the lines. */
  lemma {:induction false} LinesOfPrefix(lines: seq<string>, s: string)
    requires s <= Unlines(lines) && forall i :: 0 <= i < |lines| ==> '\n' !in lines[i]
    ensures CutLines(lines, s)
    decreases |lines|
  {
    if s != [] {
      hide Lines, CutLine;
      var first := lines[0];
      if |s| <= |first| {
        assert s == first[..|s|];
        WithinFirst(lines, s);
      } else {
        var s' := s[|first| + 1..];
        assert s == first + ['\n'] + s' && s' <= Unlines(lines[1..]);
        LinesOfPrefix(lines[1..], s');
        PastFirst(lines, s');
      }
    } else {
      assert Lines(s) == [];
    }
  }

  lemma WithinFirst(lines: seq<string>, s: string)
    requires lines != [] && s <= lines[0] && s != [] && '\n' !in lines[0]
    ensures CutLines(lines, s)
  {
    CutNone(s, '\n');
    assert lines[..0] == [];
  }

  lemma PastFirst(lines: seq<string>, s: string)
    requires lines != [] && '\n' !in lines[0] && CutLines(lines[1..], s)
    ensures CutLines(lines, lines[0] + ['\n'] + s)
  {
    var first, all := lines[0], lines[0] + ['\n'] + s;
    CutAt(first, '\n', s);
    assert Lines(all) == [DropCR(first)] + Lines(s);
    assert lines[..0] == [];
    forall i | 0 < i < |Lines(all)|
      ensures CutLine(lines, i, Lines(all)[i], |all|)
    {
      assert CutLine(lines[1..], i - 1, Lines(s)[i - 1], |s|);
      assert lines[..i][0] == first && lines[..i][1..] == lines[1..][..i - 1];
    }
  }

  predicate SizeLine(line: string, value: string) { Cut(line, ' ') == Some(("size", value)) }

  /** A scanned size comes from a line of its own. */
  lemma {:induction false} ScannedSize(e: Entries, lines: seq<string>)
    requires ScanLines(e, lines).Ok?
    ensures var values := ScanLines(e, lines).value.values;
            "size" in values ==>
              || (exists i :: 0 <= i < |lines| && SizeLine(lines[i], values["size"]))
              || ("size" in e.values && e.values["size"] == values["size"])
    decreases |lines|
  {
    if lines != [] {
      var e1 := ScanLine(e, lines[0]).value;
      ScannedSize(e1, lines[1..]);
      var values := ScanLines(e, lines).value.values;
      if "size" in values {
        if i :| 0 <= i < |lines[1..]| && SizeLine(lines[1..][i], values["size"]) {
          assert SizeLine(lines[i + 1], values["size"]);
        } else if !("size" in e.values && e.values["size"] == values["size"]) {
          assert SizeLine(lines[0], values["size"]);
        }
      }
    }
  }

  // ---------------------------------------------------------------- cutting a pointer

  /** The lines before the size line. */
  function Head(p: Pointer): seq<string> {
    ["version " + LATEST] + ExtensionLines(p.extensions) + ["oid " + (OID_TYPE + ":" + p.oid)]
  }

  lemma HeadAndSize(p: Pointer)
    ensures PointerLines(p) == Head(p) + ["size " + PrintNat(p.size)]
    ensures p.size > 0 ==> Encoded(p) == Unlines(Head(p)) + ("size " + PrintNat(p.size)) + ['\n']
  {
    hide PrintNat, ExtensionLines, Unlines;
    if p.size > 0 {
      EncodedIsBody(p);
    }
  }

  lemma HeadLinesAreOthers(p: Pointer, i: nat)
    requires i < |Head(p)|
    ensures Head(p)[i] != [] && Head(p)[i][0] != 's'
  {
    hide PrintNat, ExtensionLine;
    if i == 0 {
    } else if i <= |p.extensions| {
      assert Head(p)[i] == ExtensionLine(p.extensions[i - 1]);
      ExtensionLineStarts(p.extensions[i - 1]);
    } else {
      assert Head(p)[i] == "oid " + (OID_TYPE + ":" + p.oid);
    }
  }

  lemma ExtensionLineStarts(e: Extension)
    ensures ExtensionLine(e) != [] && ExtensionLine(e)[0] == 'e'
  {
  }

  /** A size line in a cut text is what is left of the pointer's own, so its value has
      no more characters than the cut leaves. */
  lemma {:induction false} SizeLeft(p: Pointer, s: string, i: nat, value: string)
    requires p.size > 0 && CutLines(PointerLines(p), s) && i < |Lines(s)| && SizeLine(Lines(s)[i], value)
    ensures |Encoded(p)| + |value| <= |s| + |PrintNat(p.size)| + 1
  {
    hide PointerLines, Encoded, Head, Unlines, Lines;
    HeadAndSize(p);
    var line := Lines(s)[i];
    assert CutLine(PointerLines(p), i, line, |s|);
    assert line == "size" + [' '] + value && line[0] == 's';
    if i < |Head(p)| {
      HeadLinesAreOthers(p, i);
    }
    assert i == |Head(p)| && PointerLines(p)[..i] == Head(p);
  }

  /** When the cut leaves no digit of the size, the text does not decode. */
  lemma NoDigitLeft(p: Pointer)
    requires WellFormed(p) && p.size > 0 && |Encoded(p)| > CUTOFF + |PrintNat(p.size)|
    ensures Decode(Encoded(p)).Err?
  {
    hide Encoded, TrimSpace, PointerLines, Lines, ScanLines, WellFormed, PrintNat, ParseInt64;
    var buf := Encoded(p)[..CUTOFF];
    var s := TrimSpace(buf);
    CutTextTrims(p, buf);
    if DecodeEntries(s).Ok? {
      var values := DecodeEntries(s).value.values;
      ScannedSize(NO_ENTRIES, Lines(s));
      if "size" in values {
        var i :| 0 <= i < |Lines(s)| && SizeLine(Lines(s)[i], values["size"]);
        SizeLeft(p, s, i, values["size"]);
        assert values["size"] == "";
      }
      assert Get(values, "size") == "";
      NoNumber();
    }
  }

  lemma NoNumber()
    ensures ParseInt64("").None?
  {
  }

  lemma CutTextTrims(p: Pointer, buf: string)
    requires WellFormed(p) && p.size > 0 && buf <= Encoded(p) && buf != []
    ensures CutLines(PointerLines(p), TrimSpace(buf)) && |TrimSpace(buf)| <= |buf|
  {
    hide TrimEnd, TrimStart, WellFormed, CutLines, LinesAs, Solid;
    EncodedStarts(p);
    assert buf[0] == Encoded(p)[0];
    NoSpaceAtStart(buf);
    TrimEndIsPrefix(buf);
    LinesAreSolid(LATEST, p);
    SolidHasNoNewline(PointerLines(p));
    assert TrimSpace(buf) <= Encoded(p);
    LinesOfPrefix(PointerLines(p), TrimSpace(buf));
  }

  lemma EncodedStarts(p: Pointer)
    requires p.size > 0
    ensures Encoded(p) != [] && Plain(Encoded(p)[0])
  {
    hide BodyAs;
    EncodedIsBody(p);
    BodyIsPlain(LATEST, p);
  }

  lemma SolidHasNoNewline(lines: seq<string>)
    requires forall i :: 0 <= i < |lines| ==> Solid(lines[i])
    ensures forall i :: 0 <= i < |lines| ==> '\n' !in lines[i]
  {
  }

  /** When the cut leaves digits, the text decodes to the pointer with those digits as
      its size. */
  lemma DigitsLeft(p: Pointer)
    requires WellFormed(p) && p.size > 0 && CUTOFF < |Encoded(p)| <= CUTOFF + |PrintNat(p.size)|
    ensures var q := p.(size := Shortened(p.size, |Encoded(p)| - CUTOFF - 1));
            q.size > 0 && Decode(Encoded(p)) == Ok(q.(canonical := false))
  {
    hide Encoded, TrimSpace, DecodeKV, PrintNat, BodyAs, Unlines, ExtensionLines, Shortened;
    var k := |Encoded(p)| - CUTOFF - 1;
    var q := p.(size := Shortened(p.size, k));
    var digits := PrintNat(p.size);
    PrintedPrefix(p.size, k);
    var buf := Encoded(p)[..CUTOFF];
    HeadAndSize(p);
    assert buf == Unlines(Head(p)) + ("size " + digits[..|digits| - k]);
    BodyIsHead(q);
    assert buf == BodyAs(LATEST, q);
    BodyScansTo(LATEST, q);
    BodyDecodes(LATEST, q);
    EncodedIsBody(q);
    EncodedIgnoresCanonical(q);
  }

  lemma BodyIsHead(p: Pointer)
    ensures BodyAs(LATEST, p) == Unlines(Head(p)) + ("size " + PrintNat(p.size))
  {
  }

  // ---------------------------------------------------------------- exactly

  /** The text of a well-formed pointer decodes through the read buffer exactly when
      the buffer holds some digit of the size. */
  lemma CutTextDecodesIff(p: Pointer)
    requires WellFormed(p) && p.size > 0
    ensures Decode(Encoded(p)).Ok? <==> |Encoded(p)| <= CUTOFF + |PrintNat(p.size)|
  {
    hide Encoded, DecodeBuffer, WellFormed, PrintNat, Decode;
    if |Encoded(p)| <= CUTOFF {
      RoundTripIffWellFormed(p);
    } else if |Encoded(p)| <= CUTOFF + |PrintNat(p.size)| {
      DigitsLeft(p);
    } else {
      NoDigitLeft(p);
    }
  }

  /** It decodes to the same pointer exactly when the buffer holds the whole size. */
  lemma CutTextIsWholeIff(p: Pointer)
    requires WellFormed(p) && p.size > 0
    ensures (Decode(Encoded(p)).Ok? && Decode(Encoded(p)).value.(canonical := true) == p.(canonical := true))
            <==> |Encoded(p)| <= CUTOFF + 1
  {
    hide Encoded, DecodeBuffer, WellFormed, PrintNat, Decode;
    if |Encoded(p)| <= CUTOFF {
      RoundTripIffWellFormed(p);
    } else if |Encoded(p)| <= CUTOFF + |PrintNat(p.size)| {
      DigitsLeft(p);
      ShortenedIsLess(p.size, |Encoded(p)| - CUTOFF - 1);
    } else {
      NoDigitLeft(p);
    }
  }

  lemma {:induction false} ShortenedIsLess(n: nat, k: nat)
    ensures Shortened(n, k) <= n && (n > 0 && k > 0 ==> Shortened(n, k) < n)
    decreases k
  {
    if k > 0 {
      ShortenedIsLess(n / 10, k - 1);
    }
  }

  // ---------------------------------------------------------------- a pointer of any length

  /** A pointer with one extension whose name has n characters. */
  function Sample(n: nat): Pointer
    requires n > 0
  {
    var oid := seq(64, _ => 'a');
    Pointer(oid, 5, [Extension(seq(n, _ => 'x'), 0, oid)], true)
  }

  lemma SampleIsWellFormed(n: nat)
    requires n > 0
    ensures WellFormed(Sample(n))
  {
    var e := Sample(n).extensions[0];
    assert GoodName(e.name) by {
      assert forall i :: 0 <= i < |e.name| ==> e.name[i] == 'x';
    }
    assert IsOid(e.oid);
  }

  /** Its text has 171 characters besides the name and the version. */
  lemma SampleLength(v: string, n: nat)
    requires n > 0
    ensures |Unlines(LinesAs(v, Sample(n)))| == 171 + |v| + n
  {
    var p := Sample(n);
    var lines := LinesAs(v, p);
    var e := p.extensions[0];
    assert PrintNat(0) == [Digit(0)] && PrintNat(5) == [Digit(5)];
    assert lines[0] == "version " + v && |lines[0]| == 8 + |v|;
    assert lines[1] == ExtensionLine(e) && |lines[1]| == 6 + n + 1 + 7 + 64;
    assert lines[2] == "oid " + (OID_TYPE + ":" + p.oid) && |lines[2]| == 4 + 7 + 64;
    assert lines[3] == "size " + PrintNat(5) && |lines[3]| == 6;
    FourLines(lines);
  }

  lemma SampleEncodedLength(n: nat)
    requires n > 0
    ensures |Encoded(Sample(n))| == 205 + n
  {
    hide LinesAs, Unlines;
    AliasLengths();
    SampleLength(LATEST, n);
  }

  lemma {:induction false} FourLines(lines: seq<string>)
    requires |lines| == 4
    ensures |Unlines(lines)| == |lines[0]| + |lines[1]| + |lines[2]| + |lines[3]| + 4
  {
    UnlinesFrom(lines, 3);
    UnlinesFrom(lines, 2);
    UnlinesFrom(lines, 1);
    UnlinesFrom(lines, 0);
    assert lines[0..] == lines && lines[4..] == [];
  }

  lemma {:induction false} UnlinesFrom(lines: seq<string>, i: nat)
    requires i < |lines|
    ensures |Unlines(lines[i..])| == |lines[i]| + 1 + |Unlines(lines[i + 1..])|
  {
    assert lines[i..][1..] == lines[i + 1..];
  }

  /** Under the oldest alias a pointer of 1024 bytes decodes, but its own text is 11
      bytes longer and does not decode. */
  function Overlong(): string { Unlines(LinesAs(ALIASES[0], Sample(830))) }

  lemma OverlongDecodes()
    ensures |Overlong()| == CUTOFF && |Encoded(Sample(830))| == CUTOFF + 11
    ensures Decode(Overlong()) == Ok(Sample(830).(canonical := false))
    ensures Decode(Encoded(Sample(830))).Err?
  {
    hide LinesAs, Unlines, DecodeBuffer, Sample;
    SampleSize(830);
    SampleIsWellFormed(830);
    AliasLengths();
    SampleLength(ALIASES[0], 830);
    SampleEncodedLength(830);
    AliasTextDecodes(ALIASES[0], Sample(830));
    CutTextDecodesIff(Sample(830));
  }

  lemma AliasLengths()
    ensures |ALIASES[0]| == 23 && |LATEST| == 34 && ALIASES[0] in ALIASES
  {
  }

  lemma SampleSize(n: nat)
    requires n > 0
    ensures Sample(n).size == 5 && |PrintNat(5)| == 1 && Sample(n).canonical
  {
  }
}
