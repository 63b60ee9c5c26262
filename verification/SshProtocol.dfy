/** Message framing of the SSH protocol (ssh/protocol.go). */
module SshProtocol {
  import opened Options
  import T = Text

  /** A packet of the pkt-line format. Text packets carry the text without the final
      newline that the writer adds and the reader removes. */
  datatype Packet = Text(text: string) | Delim | Flush

  datatype Message = Message(status: int, args: seq<string>, lines: seq<string>)

  /** ProtocolError covers malformed messages and a stream that ends early. */
  datatype Outcome = Received(message: Message, rest: seq<Packet>) | ProtocolError

  // ---------------------------------------------------------------- sending

  function Texts(ss: seq<string>): (r: seq<Packet>)
    ensures |r| == |ss| && forall i :: 0 <= i < |ss| ==> r[i] == Text(ss[i])
  {
    seq(|ss|, i requires 0 <= i < |ss| => Text(ss[i]))
  }

  function Sent(command: string, args: seq<string>): seq<Packet> {
    [Text(command)] + Texts(args) + [Flush]
  }

  function SentWithLines(command: string, args: seq<string>, lines: seq<string>): seq<Packet> {
    [Text(command)] + Texts(args) + [Delim] + Texts(lines) + [Flush]
  }

  // ---------------------------------------------------------------- receiving

  const STATUS := "status "

  function ParseStatus(s: string): Option<int> {
    if STATUS <= s then T.ParseInt64(s[7..]) else None
  }

  /** The variables of the reading loop. */
  datatype Reading = Reading(status: Option<int>, seenDelim: bool, args: seq<string>, lines: seq<string>)

  const NOTHING_READ := Reading(None, false, [], [])

  function TextOf(p: Packet): string { if p.Text? then p.text else "" }

  function ReadFrom(r: Reading, packets: seq<Packet>): Outcome
    decreases |packets|
  {
    if packets == [] then ProtocolError
    else
      var p, rest := packets[0], packets[1..];
      if p.Flush? then
        if r.status.None? then ProtocolError else Received(Message(r.status.value, r.args, r.lines), rest)
      else if r.seenDelim then ReadFrom(r.(lines := r.lines + [TextOf(p)]), rest)
      else if r.status.None? then
        var status := ParseStatus(TextOf(p));
        if status.None? then ProtocolError else ReadFrom(r.(status := status), rest)
      else if p.Delim? then ReadFrom(r.(seenDelim := true), rest)
      else ReadFrom(r.(args := r.args + [p.text]), rest)
  }

  class Connection {
    var incoming: seq<Packet>
    var outgoing: seq<Packet>

    method WriteTexts(ss: seq<string>)
      modifies this`outgoing
      ensures outgoing == old(outgoing) + Texts(ss)
    {
      for i := 0 to |ss|
        invariant outgoing == old(outgoing) + Texts(ss[..i])
      {
        assert Texts(ss[..i + 1]) == Texts(ss[..i]) + [Text(ss[i])];
        outgoing := outgoing + [Text(ss[i])];
      }
      assert ss[..|ss|] == ss;
    }

    method SendMessage(command: string, args: seq<string>)
      modifies this`outgoing
      ensures outgoing == old(outgoing) + Sent(command, args)
    {
      outgoing := outgoing + [Text(command)];
      WriteTexts(args);
      outgoing := outgoing + [Flush];
    }

    method SendMessageWithLines(command: string, args: seq<string>, lines: seq<string>)
      modifies this`outgoing
      ensures outgoing == old(outgoing) + SentWithLines(command, args, lines)
    {
      outgoing := outgoing + [Text(command)];
      WriteTexts(args);
      outgoing := outgoing + [Delim];
      WriteTexts(lines);
      outgoing := outgoing + [Flush];
    }

    /** Reads up to and including the message's flush packet. */
    method ReadStatusWithLines() returns (message: Option<Message>)
      modifies this`incoming
      ensures match ReadFrom(NOTHING_READ, old(incoming))
              case Received(m, rest) => message == Some(m) && incoming == rest
              case ProtocolError => message == None
    {
      var args, lines, status, seenDelim, seenStatus := [], [], 0, false, false;
      while incoming != []
        invariant ReadFrom(NOTHING_READ, old(incoming))
               == ReadFrom(Reading(if seenStatus then Some(status) else None, seenDelim, args, lines), incoming)
        decreases |incoming|
      {
        var packet := incoming[0];
        incoming := incoming[1..];
        var s := TextOf(packet);
        if packet.Flush? {
          return if seenStatus then Some(Message(status, args, lines)) else None;
        } else if seenDelim {
          lines := lines + [s];
        } else if !seenStatus {
          var parsed := ParseStatus(s);
          if parsed.None? {
            return None;
          }
          status, seenStatus := parsed.value, true;
        } else if packet.Delim? {
          seenDelim := true;
        } else {
          args := args + [s];
        }
      }
      message := None;
    }
  }

  // ---------------------------------------------------------------- round trips

  lemma {:induction false} ReadArgs(r: Reading, args: seq<string>, rest: seq<Packet>)
    requires r.status.Some? && !r.seenDelim
    ensures ReadFrom(r, Texts(args) + rest) == ReadFrom(r.(args := r.args + args), rest)
    decreases |args|
  {
    if args == [] {
      assert Texts(args) + rest == rest && r.args + args == r.args;
    } else {
      var packets := Texts(args) + rest;
      assert packets[1..] == Texts(args[1..]) + rest && packets[0] == Text(args[0]);
      ReadArgs(r.(args := r.args + [args[0]]), args[1..], rest);
      assert r.args + [args[0]] + args[1..] == r.args + args;
    }
  }

  lemma {:induction false} ReadLines(r: Reading, lines: seq<string>, rest: seq<Packet>)
    requires r.status.Some? && r.seenDelim
    ensures ReadFrom(r, Texts(lines) + rest) == ReadFrom(r.(lines := r.lines + lines), rest)
    decreases |lines|
  {
    if lines == [] {
      assert Texts(lines) + rest == rest && r.lines + lines == r.lines;
    } else {
      var packets := Texts(lines) + rest;
      assert packets[1..] == Texts(lines[1..]) + rest && packets[0] == Text(lines[0]);
      ReadLines(r.(lines := r.lines + [lines[0]]), lines[1..], rest);
      assert r.lines + [lines[0]] + lines[1..] == r.lines + lines;
    }
  }

  function StatusLine(status: nat): string { STATUS + T.PrintNat(status) }

  lemma StatusParses(status: nat)
    requires status <= T.MAX_INT64
    ensures ParseStatus(StatusLine(status)) == Some(status)
  {
    assert |STATUS| == 7;
    assert StatusLine(status)[..7] == STATUS && StatusLine(status)[7..] == T.PrintNat(status);
    T.ParsePrinted(status);
  }

  lemma {:induction false} ReadStatusLine(status: nat, rest: seq<Packet>)
    requires status <= T.MAX_INT64
    ensures ReadFrom(NOTHING_READ, [Text(StatusLine(status))] + rest)
         == ReadFrom(Reading(Some(status), false, [], []), rest)
  {
    StatusParses(status);
    var packets := [Text(StatusLine(status))] + rest;
    assert packets[1..] == rest && packets[0] == Text(StatusLine(status));
  }

  lemma {:induction false} ReadFlush(r: Reading, rest: seq<Packet>)
    requires r.status.Some?
    ensures ReadFrom(r, [Flush] + rest) == Received(Message(r.status.value, r.args, r.lines), rest)
  {
    assert ([Flush] + rest)[1..] == rest;
  }

  lemma {:induction false} ReadDelim(r: Reading, rest: seq<Packet>)
    requires r.status.Some? && !r.seenDelim
    ensures ReadFrom(r, [Delim] + rest) == ReadFrom(r.(seenDelim := true), rest)
  {
    assert ([Delim] + rest)[1..] == rest;
  }

  lemma SentIsNested(command: string, args: seq<string>, lines: seq<string>, rest: seq<Packet>)
    ensures SentWithLines(command, args, lines) + rest
            == [Text(command)] + (Texts(args) + ([Delim] + (Texts(lines) + ([Flush] + rest))))
  {
  }

  /** A message with lines is read back as sent, and what follows it is left alone. */
  lemma {:induction false} SendThenRead(status: nat, args: seq<string>, lines: seq<string>, rest: seq<Packet>)
    requires status <= T.MAX_INT64
    ensures ReadFrom(NOTHING_READ, SentWithLines(StatusLine(status), args, lines) + rest)
            == Received(Message(status, args, lines), rest)
  {
    hide ReadFrom, StatusLine, SentWithLines;
    var afterLines := [Flush] + rest;
    var afterArgs := [Delim] + (Texts(lines) + afterLines);
    SentIsNested(StatusLine(status), args, lines, rest);
    ReadStatusLine(status, Texts(args) + afterArgs);
    var r := Reading(Some(status), false, [], []);
    ReadArgs(r, args, afterArgs);
    assert [] + args == args && [] + lines == lines;
    ReadDelim(r.(args := args), Texts(lines) + afterLines);
    ReadLines(Reading(Some(status), true, args, []), lines, afterLines);
    ReadFlush(Reading(Some(status), true, args, lines), rest);
  }

  /** A message without lines reads as one with no lines. */
  lemma {:induction false} SendPlainThenRead(status: nat, args: seq<string>, rest: seq<Packet>)
    requires status <= T.MAX_INT64
    ensures ReadFrom(NOTHING_READ, Sent(StatusLine(status), args) + rest) == Received(Message(status, args, []), rest)
  {
    hide ReadFrom, StatusLine;
    var after := [Flush] + rest;
    assert Sent(StatusLine(status), args) + rest == [Text(StatusLine(status))] + (Texts(args) + after);
    ReadStatusLine(status, Texts(args) + after);
    ReadArgs(Reading(Some(status), false, [], []), args, after);
    assert [] + args == args;
    ReadFlush(Reading(Some(status), false, args, []), rest);
  }

  // ---------------------------------------------------------------- a whole conversation

  predicate Sendable(m: Message) { 0 <= m.status <= T.MAX_INT64 }

  function SentAll(ms: seq<Message>): seq<Packet>
    requires forall i :: 0 <= i < |ms| ==> Sendable(ms[i])
  {
    if ms == [] then []
    else
      assert Sendable(ms[0]);
      SentWithLines(StatusLine(ms[0].status), ms[0].args, ms[0].lines) + SentAll(ms[1..])
  }

  /** Reading n messages one after the other. */
  function ReadMany(packets: seq<Packet>, n: nat): Option<seq<Message>>
    decreases n
  {
    if n == 0 then Some([])
    else
      match ReadFrom(NOTHING_READ, packets)
      case ProtocolError => None
      case Received(m, rest) =>
        match ReadMany(rest, n - 1)
        case None => None
        case Some(ms) => Some([m] + ms)
  }

  /** A stream of messages is read back message by message: the framing keeps them apart. */
  lemma {:induction false} ConversationIsReadBack(ms: seq<Message>)
    requires forall i :: 0 <= i < |ms| ==> Sendable(ms[i])
    ensures ReadMany(SentAll(ms), |ms|) == Some(ms)
  {
    hide ReadFrom, SentWithLines, StatusLine;
    if ms != [] {
      SendThenRead(ms[0].status, ms[0].args, ms[0].lines, SentAll(ms[1..]));
      ConversationIsReadBack(ms[1..]);
      assert [ms[0]] + ms[1..] == ms;
    }
  }

  // ---------------------------------------------------------------- what is read, in closed form

  /** The place of the first flush packet, or the length. */
  function FlushAt(packets: seq<Packet>): (n: nat)
    ensures n <= |packets| && (n < |packets| ==> packets[n].Flush?)
    ensures forall i :: 0 <= i < n ==> !packets[i].Flush?
  {
    if packets == [] || packets[0].Flush? then 0 else 1 + FlushAt(packets[1..])
  }

  /** The place of the first delimiter packet, or the length. */
  function DelimAt(packets: seq<Packet>): (n: nat)
    ensures n <= |packets| && (n < |packets| ==> packets[n].Delim?)
    ensures forall i :: 0 <= i < n ==> !packets[i].Delim?
  {
    if packets == [] || packets[0].Delim? then 0 else 1 + DelimAt(packets[1..])
  }

  function TextsOf(packets: seq<Packet>): (r: seq<string>)
    ensures |r| == |packets| && forall i :: 0 <= i < |r| ==> r[i] == TextOf(packets[i])
  {
    seq(|packets|, i requires 0 <= i < |packets| => TextOf(packets[i]))
  }

  /** The texts up to the first delimiter, and all those after it. */
  function ArgsOf(body: seq<Packet>): seq<string> { TextsOf(body[..DelimAt(body)]) }

  function LinesOf(body: seq<Packet>): seq<string> {
    if DelimAt(body) == |body| then [] else TextsOf(body[DelimAt(body) + 1..])
  }

  lemma {:induction false} NoBody()
    ensures ArgsOf([]) == [] && LinesOf([]) == []
  {
  }

  lemma {:induction false} DelimFirst(body: seq<Packet>)
    requires body != [] && body[0].Delim?
    ensures ArgsOf(body) == [] && LinesOf(body) == TextsOf(body[1..])
  {
  }

  lemma {:induction false} TextFirst(body: seq<Packet>)
    requires body != [] && body[0].Text?
    ensures ArgsOf(body) == [body[0].text] + ArgsOf(body[1..]) && LinesOf(body) == LinesOf(body[1..])
  {
    var d := DelimAt(body);
    assert d == 1 + DelimAt(body[1..]);
    assert body[..d] == [body[0]] + body[1..][..d - 1];
  }

  lemma LinesGoOn(lines: seq<string>, packets: seq<Packet>, n: nat)
    requires 0 < n <= |packets|
    ensures lines + [TextOf(packets[0])] + TextsOf(packets[1..][..n - 1]) == lines + TextsOf(packets[..n])
    ensures n < |packets| ==> packets[1..][n..] == packets[n + 1..]
  {
    hide TextOf;
    assert [TextOf(packets[0])] + TextsOf(packets[1..][..n - 1]) == TextsOf(packets[..n]);
  }

  lemma {:induction false} ReadsLines(r: Reading, packets: seq<Packet>)
    requires r.status.Some? && r.seenDelim
    ensures var n := FlushAt(packets);
            ReadFrom(r, packets)
            == if n == |packets| then ProtocolError
               else Received(Message(r.status.value, r.args, r.lines + TextsOf(packets[..n])), packets[n + 1..])
    decreases |packets|
  {
    if packets != [] && !packets[0].Flush? {
      var rest, n := packets[1..], FlushAt(packets);
      ReadsLines(r.(lines := r.lines + [TextOf(packets[0])]), rest);
      LinesGoOn(r.lines, packets, n);
    } else if packets != [] {
      assert r.lines + TextsOf(packets[..0]) == r.lines;
    }
  }

  lemma {:induction false} ReadsArgs(r: Reading, packets: seq<Packet>)
    requires r.status.Some? && !r.seenDelim && r.lines == []
    ensures var n := FlushAt(packets);
            ReadFrom(r, packets)
            == if n == |packets| then ProtocolError
               else Received(Message(r.status.value, r.args + ArgsOf(packets[..n]), LinesOf(packets[..n])),
                             packets[n + 1..])
    decreases |packets|
  {
    hide ArgsOf, LinesOf, TextsOf;
    var n := FlushAt(packets);
    var body := packets[..n];
    if packets == [] || packets[0].Flush? {
      assert body == [];
      NoBody();
      assert r.args + [] == r.args;
    } else {
      var rest := packets[1..];
      assert body[1..] == rest[..n - 1] && body[0] == packets[0];
      assert n < |packets| ==> rest[n..] == packets[n + 1..];
      if packets[0].Delim? {
        ReadsLines(r.(seenDelim := true), rest);
        DelimFirst(body);
        assert r.args + [] == r.args && [] + TextsOf(rest[..n - 1]) == TextsOf(rest[..n - 1]);
      } else {
        var text := packets[0].text;
        ReadsArgs(r.(args := r.args + [text]), rest);
        TextFirst(body);
        assert r.args + [text] + ArgsOf(body[1..]) == r.args + ([text] + ArgsOf(body[1..]));
      }
    }
  }

  /** The whole reading loop in closed form. A message is rejected exactly when no
      flush packet comes, or the packet before everything else is no status line;
      otherwise the arguments are the packets up to the first delimiter and the lines
      are all packets after it, later delimiters as empty lines. */
  lemma {:induction false} ReadIs(packets: seq<Packet>)
    ensures var n := FlushAt(packets);
            ReadFrom(NOTHING_READ, packets)
            == if n == |packets| || n == 0 || ParseStatus(TextOf(packets[0])).None? then ProtocolError
               else
                 var status := ParseStatus(TextOf(packets[0])).value;
                 Received(Message(status, ArgsOf(packets[1..n]), LinesOf(packets[1..n])), packets[n + 1..])
  {
    hide ParseStatus, ArgsOf, LinesOf;
    var n := FlushAt(packets);
    if packets != [] && !packets[0].Flush? {
      var status, rest := ParseStatus(TextOf(packets[0])), packets[1..];
      if status.Some? {
        ReadsArgs(NOTHING_READ.(status := status), rest);
        assert rest[..n - 1] == packets[1..n];
        assert n < |packets| ==> rest[n..] == packets[n + 1..];
        assert [] + ArgsOf(packets[1..n]) == ArgsOf(packets[1..n]);
      }
    }
  }

  // ---------------------------------------------------------------- several delimiters

  /** Groups of lines, each after a delimiter of its own. */
  function Grouped(groups: seq<seq<string>>): seq<Packet> {
    if groups == [] then [] else [Delim] + Texts(groups[0]) + Grouped(groups[1..])
  }

  /** The groups with an empty line between each two. */
  function Joined(groups: seq<seq<string>>): seq<string> {
    if groups == [] then [] else groups[0] + JoinedRest(groups[1..])
  }

  function JoinedRest(groups: seq<seq<string>>): seq<string> {
    if groups == [] then [] else [""] + groups[0] + JoinedRest(groups[1..])
  }

  lemma {:induction false} ReadGroups(r: Reading, groups: seq<seq<string>>, rest: seq<Packet>)
    requires r.status.Some? && r.seenDelim
    ensures ReadFrom(r, Grouped(groups) + rest) == ReadFrom(r.(lines := r.lines + JoinedRest(groups)), rest)
    decreases |groups|
  {
    hide ReadFrom, Texts;
    if groups == [] {
      assert Grouped(groups) + rest == rest && r.(lines := r.lines + []) == r;
    } else {
      var later := Grouped(groups[1..]) + rest;
      GroupedSplits(groups, rest);
      DelimIsEmptyLine(r, Texts(groups[0]) + later);
      var r1 := r.(lines := r.lines + [""]);
      ReadLines(r1, groups[0], later);
      ReadGroups(r1.(lines := r1.lines + groups[0]), groups[1..], rest);
      JoinedSplits(r.lines, groups);
    }
  }

  lemma {:induction false} GroupedSplits(groups: seq<seq<string>>, rest: seq<Packet>)
    requires groups != []
    ensures Grouped(groups) + rest == [Delim] + (Texts(groups[0]) + (Grouped(groups[1..]) + rest))
  {
  }

  lemma {:induction false} JoinedSplits(lines: seq<string>, groups: seq<seq<string>>)
    requires groups != []
    ensures lines + [""] + groups[0] + JoinedRest(groups[1..]) == lines + JoinedRest(groups)
  {
  }

  lemma {:induction false} DelimIsEmptyLine(r: Reading, rest: seq<Packet>)
    requires r.status.Some? && r.seenDelim
    ensures ReadFrom(r, [Delim] + rest) == ReadFrom(r.(lines := r.lines + [""]), rest)
  {
    assert ([Delim] + rest)[1..] == rest;
  }

  function SentInGroups(command: string, args: seq<string>, groups: seq<seq<string>>): seq<Packet> {
    [Text(command)] + Texts(args) + Grouped(groups) + [Flush]
  }

  /** A message with any number of delimiters is read as its groups joined by empty
      lines, exactly as if those had been sent as lines: the reader cannot tell a later
      delimiter from an empty line, although it has an error for a second one. */
  lemma {:induction false} GroupsReadAsLines(status: nat, args: seq<string>, groups: seq<seq<string>>,
                                             rest: seq<Packet>)
    requires status <= T.MAX_INT64 && groups != []
    ensures ReadFrom(NOTHING_READ, SentInGroups(StatusLine(status), args, groups) + rest)
            == Received(Message(status, args, Joined(groups)), rest)
            == ReadFrom(NOTHING_READ, SentWithLines(StatusLine(status), args, Joined(groups)) + rest)
  {
    hide ReadFrom, StatusLine, SentWithLines, JoinedRest;
    SendThenRead(status, args, Joined(groups), rest);
    var end := [Flush] + rest;
    var later := Grouped(groups[1..]) + end;
    var afterArgs := [Delim] + (Texts(groups[0]) + later);
    assert SentInGroups(StatusLine(status), args, groups) + rest
        == [Text(StatusLine(status))] + (Texts(args) + afterArgs);
    ReadStatusLine(status, Texts(args) + afterArgs);
    var r := Reading(Some(status), false, [], []);
    ReadArgs(r, args, afterArgs);
    assert [] + args == args && [] + groups[0] == groups[0];
    ReadDelim(r.(args := args), Texts(groups[0]) + later);
    ReadLines(Reading(Some(status), true, args, []), groups[0], later);
    ReadGroups(Reading(Some(status), true, args, groups[0]), groups[1..], end);
    ReadFlush(Reading(Some(status), true, args, Joined(groups)), rest);
  }
}
