/** Quoting arguments for sh (subprocess/subprocess.go). */
module ShellQuote {
  import opened Options
  import opened Text

  // ---------------------------------------------------------------- the quoting

  predicate IsPlain(c: char) {
    'A' <= c <= 'Z' || 'a' <= c <= 'z' || '0' <= c <= '9' || c == '_' || c == '@' || c == '/' || c == '.' || c == '-'
  }

  /** A word that needs no quotes. */
  predicate IsShellWord(s: string) { s != [] && forall i :: 0 <= i < |s| ==> IsPlain(s[i]) }

  /** Each single quote leaves the quotes, adds an escaped quote and opens them again. */
  function Escaped(s: string): string {
    if s == [] then ""
    else (if s[0] == '\'' then "'\\''" else [s[0]]) + Escaped(s[1..])
  }

  function QuoteSingle(s: string): string {
    if IsShellWord(s) then s else "'" + Escaped(s) + "'"
  }

  function QuoteAll(args: seq<string>): seq<string> {
    seq(|args|, i requires 0 <= i < |args| => QuoteSingle(args[i]))
  }

  /** ShellQuote. */
  method Quote(args: seq<string>) returns (dup: seq<string>)
    ensures dup == QuoteAll(args)
  {
    dup := [];
    for i := 0 to |args|
      invariant |dup| == i && forall k :: 0 <= k < i ==> dup[k] == QuoteSingle(args[k])
    {
      dup := dup + [QuoteSingle(args[i])];
    }
  }

  function JoinSpaces(words: seq<string>): string {
    if words == [] then ""
    else if |words| == 1 then words[0]
    else words[0] + " " + JoinSpaces(words[1..])
  }

  // ---------------------------------------------------------------- the shell's side

  /** Characters that mean something to the shell unless quoted (section 2.2 of the
      POSIX.1-2017 Shell Command Language); quote, backslash and blanks apart. */
  predicate IsSpecial(c: char) { c in "|&;<>()$`\"\n*?[#~=%!{}" }

  /** Field splitting with single quotes and backslashes. None when a quote is left
      open or the shell would do more than split: expand, redirect, end the command. */
  function Split(s: string, word: Option<string>): Option<seq<string>>
    decreases |s|
  {
    var text := if word.Some? then word.value else "";
    if s == [] then Some(if word.Some? then [word.value] else [])
    else if s[0] == ' ' || s[0] == '\t' then
      match Split(s[1..], None)
      case None => None
      case Some(rest) => Some((if word.Some? then [word.value] else []) + rest)
    else if s[0] == '\'' then
      var n := Find(s[1..], '\'');
      if n == |s| - 1 then None else Split(s[n + 2..], Some(text + s[1..n + 1]))
    else if s[0] == '\\' then
      if |s| == 1 then None
      else if s[1] == '\n' then Split(s[2..], word)
      else Split(s[2..], Some(text + [s[1]]))
    else if IsSpecial(s[0]) then None
    else Split(s[1..], Some(text + [s[0]]))
  }

  // ---------------------------------------------------------------- one quoted word

  function TextOf(word: Option<string>): string { if word.Some? then word.value else "" }

  lemma {:induction false} EscapedUpToQuote(s: string)
    ensures var n := Find(s, '\'');
            Escaped(s) == if n == |s| then s else s[..n] + ("'\\''" + Escaped(s[n + 1..]))
  {
    if s != [] && s[0] != '\'' {
      EscapedUpToQuote(s[1..]);
      var n := Find(s, '\'');
      assert s == [s[0]] + s[1..];
      if n < |s| {
        assert s[..n] == [s[0]] + s[1..][..n - 1] && s[n + 1..] == s[1..][n..];
      }
    }
  }

  /** What is between two single quotes is taken as it is. */
  lemma {:induction false} QuotedRun(a: string, rest: string, word: Option<string>)
    requires '\'' !in a
    ensures Split("'" + (a + ("'" + rest)), word) == Split(rest, Some(TextOf(word) + a))
  {
    var s := "'" + (a + ("'" + rest));
    assert s[1..] == a + ("'" + rest);
    assert s[1..][|a|] == '\'' && Find(s[1..], '\'') == |a|;
    assert s[1..|a| + 1] == a && s[|a| + 2..] == rest;
  }

  lemma {:induction false} EscapedChar(c: char, rest: string, word: Option<string>)
    requires c != '\n'
    ensures Split("\\" + ([c] + rest), word) == Split(rest, Some(TextOf(word) + [c]))
  {
    var s := "\\" + ([c] + rest);
    assert s[1] == c && s[2..] == rest;
  }

  lemma {:induction false} QuotedWord(s: string, rest: string, word: Option<string>)
    ensures Split("'" + (Escaped(s) + ("'" + rest)), word) == Split(rest, Some(TextOf(word) + s))
    decreases |s|
  {
    hide Split, Escaped, Find;
    var n := Find(s, '\'');
    EscapedUpToQuote(s);
    if n == |s| {
      QuotedRun(s, rest, word);
    } else {
      var a, b, text := s[..n], s[n + 1..], TextOf(word);
      var tail := "'" + (Escaped(b) + ("'" + rest));
      Regroup(a, Escaped(b), "'" + rest);
      QuotedRun(a, "\\" + ("'" + tail), word);
      EscapedChar('\'', tail, Some(text + a));
      QuotedWord(b, rest, Some(text + a + "'"));
      Around(text, s, n);
    }
  }

  lemma Around(text: string, s: string, n: nat)
    requires n < |s| && s[n] == '\''
    ensures text + s[..n] + "'" + s[n + 1..] == text + s
  {
  }

  lemma Regroup(a: string, b: string, rest: string)
    ensures (a + ("'\\''" + b)) + rest == a + ("'" + ("\\" + ("'" + ("'" + (b + rest)))))
  {
    assert "'\\''" == "'" + ("\\" + ("'" + "'"));
  }

  lemma {:induction false} PlainWord(s: string, rest: string, word: Option<string>)
    requires forall i :: 0 <= i < |s| ==> IsPlain(s[i])
    requires s != [] || word.Some?
    ensures Split(s + rest, word) == Split(rest, Some(TextOf(word) + s))
  {
    if s == [] {
      assert s + rest == rest && TextOf(word) + s == TextOf(word);
    } else {
      var next := Some(TextOf(word) + [s[0]]);
      assert (s + rest)[1..] == s[1..] + rest && (s + rest)[0] == s[0];
      PlainIsNotSpecial(s[0]);
      assert Split(s + rest, word) == Split(s[1..] + rest, next);
      PlainWord(s[1..], rest, next);
      assert TextOf(word) + [s[0]] + s[1..] == TextOf(word) + s;
    }
  }

  lemma PlainIsNotSpecial(c: char)
    requires IsPlain(c)
    ensures !IsSpecial(c) && c != ' ' && c != '\t' && c != '\'' && c != '\\'
  {
  }

  lemma {:induction false} QuoteSplits(s: string, rest: string)
    ensures Split(QuoteSingle(s) + rest, None) == Split(rest, Some(s))
  {
    hide Split, Escaped;
    assert TextOf(None) + s == s;
    if IsShellWord(s) {
      PlainWord(s, rest, None);
    } else {
      QuotedWord(s, rest, None);
      assert QuoteSingle(s) + rest == "'" + (Escaped(s) + ("'" + rest));
    }
  }

  // ---------------------------------------------------------------- the whole argument string

  /** A blank ends the word before it. */
  lemma {:induction false} BlankEndsWord(word: string, rest: string)
    requires Split(rest, None).Some?
    ensures Split(" " + rest, Some(word)) == Some([word] + Split(rest, None).value)
  {
    assert (" " + rest)[0] == ' ' && (" " + rest)[1..] == rest;
  }

  lemma EndEndsWord(word: string)
    ensures Split("", Some(word)) == Some([word])
  {
  }

  lemma NoWords()
    ensures Split("", None) == Some([])
  {
  }

  lemma {:induction false} JoinFirst(words: seq<string>)
    requires |words| > 1
    ensures JoinSpaces(words) == words[0] + (" " + JoinSpaces(words[1..]))
  {
  }

  /** The shell splits the quoted, space-joined arguments back into exactly the
      original list, whatever they contain, and expands nothing. */
  lemma {:induction false} ShellSeesTheArguments(args: seq<string>)
    ensures Split(JoinSpaces(QuoteAll(args)), None) == Some(args)
  {
    hide Split, QuoteSingle;
    var words := QuoteAll(args);
    if args == [] {
      NoWords();
    } else if |args| == 1 {
      assert words[0] + "" == words[0];
      QuoteSplits(args[0], "");
      EndEndsWord(args[0]);
      assert args == [args[0]];
    } else {
      assert words[1..] == QuoteAll(args[1..]);
      ShellSeesTheArguments(args[1..]);
      var rest := JoinSpaces(words[1..]);
      JoinFirst(words);
      QuoteSplits(args[0], " " + rest);
      BlankEndsWord(args[0], rest);
      assert [args[0]] + args[1..] == args;
    }
  }

  /** Text that splits is split the same before a blank and more text. */
  lemma {:induction false} SplitBefore(s: string, word: Option<string>, rest: string)
    requires Split(s, word).Some? && Split(rest, None).Some?
    ensures Split(s + (" " + rest), word) == Some(Split(s, word).value + Split(rest, None).value)
    decreases |s|
  {
    var all, after := s + (" " + rest), Split(rest, None).value;
    if s == [] {
      assert all == " " + rest;
      if word.Some? {
        BlankEndsWord(word.value, rest);
      } else {
        BlankAlone(rest);
        assert [] + after == after;
      }
    } else {
      assert all[0] == s[0] && all[1..] == s[1..] + (" " + rest);
      if s[0] == ' ' || s[0] == '\t' {
        SplitBefore(s[1..], None, rest);
        var first := if word.Some? then [word.value] else [];
        assert first + (Split(s[1..], None).value + after) == first + Split(s[1..], None).value + after;
      } else if s[0] == '\'' {
        QuoteBefore(s, word, rest);
        SplitBefore(s[Find(s[1..], '\'') + 2..], Some(TextOf(word) + s[1..Find(s[1..], '\'') + 1]), rest);
      } else if s[0] == '\\' {
        assert all[1] == s[1] && all[2..] == s[2..] + (" " + rest);
        SplitBefore(s[2..], if s[1] == '\n' then word else Some(TextOf(word) + [s[1]]), rest);
      } else {
        SplitBefore(s[1..], Some(TextOf(word) + [s[0]]), rest);
      }
    }
  }

  lemma {:induction false} BlankAlone(rest: string)
    requires Split(rest, None).Some?
    ensures Split(" " + rest, None) == Split(rest, None)
  {
    assert (" " + rest)[1..] == rest;
    assert [] + Split(rest, None).value == Split(rest, None).value;
  }

  lemma {:induction false} QuoteBefore(s: string, word: Option<string>, rest: string)
    requires s != [] && s[0] == '\'' && Split(s, word).Some?
    ensures var n, all := Find(s[1..], '\''), s + (" " + rest);
            n < |s| - 1 && Split(all, word) == Split(s[n + 2..] + (" " + rest), Some(TextOf(word) + s[1..n + 1]))
  {
    var n, all := Find(s[1..], '\''), s + (" " + rest);
    assert all[1..] == s[1..] + (" " + rest);
    assert all[1..][n] == '\'' && Find(all[1..], '\'') == n;
    assert all[1..n + 1] == s[1..n + 1] && all[n + 2..] == s[n + 2..] + (" " + rest);
  }

  /** FormatForShellQuotedArgs: the shell sees the words of the command text, which is
      not quoted, followed by exactly the arguments. */
  lemma {:induction false} ShellSeesTheCommand(name: string, args: seq<string>)
    requires Split(name, None).Some?
    ensures Split(name + " " + JoinSpaces(QuoteAll(args)), None) == Some(Split(name, None).value + args)
  {
    hide Split, JoinSpaces;
    var rest := JoinSpaces(QuoteAll(args));
    ShellSeesTheArguments(args);
    assert name + " " + rest == name + (" " + rest);
    SplitBefore(name, None, rest);
  }
}
