/** Shell quoting of orchestra/fly/fly.go against the reader it is written for: token
    recognition and quoting of the POSIX.1-2017 Shell Command Language (sections 2.2 and
    2.3), with quote removal. */
module Shell {
  import opened Runs

  // ----------------------------------------------------------------- quoting

  /** strings.ReplaceAll of one character. */
  function ReplaceAll(s: string, c: char, replacement: string): string {
    if s == "" then "" else (if s[0] == c then replacement else [s[0]]) + ReplaceAll(s[1..], c, replacement)
  }

  function ShellEscape(s: string): string { "'" + ReplaceAll(s, '\'', "'\\''") + "'" }

  /** strings.Join by one space. */
  function JoinSpaced(words: seq<string>): string {
    if words == [] then ""
    else if |words| == 1 then words[0]
    else words[0] + " " + JoinSpaced(words[1..])
  }

  function Quoted(args: seq<string>): seq<string> {
    seq(|args|, i requires 0 <= i < |args| => ShellEscape(args[i]))
  }

  function ShellJoin(args: seq<string>): string { JoinSpaced(Quoted(args)) }

  method ShellJoinInto(args: seq<string>) returns (joined: string)
    ensures joined == ShellJoin(args)
  {
    var quoted := new string[|args|];
    for i := 0 to |args|
      invariant forall k :: 0 <= k < i ==> quoted[k] == ShellEscape(args[k])
    {
      quoted[i] := ShellEscape(args[i]);
    }
    assert quoted[..] == Quoted(args);
    joined := JoinSpaced(quoted[..]);
  }

  // --------------------------------------------------------------- tokenizing

  datatype Token = Word(text: string) | Operator(text: string)

  /** Between tokens, in a comment, in an operator, in a word, in single or double quotes
      of a word, or after a backslash in either place. */
  datatype Mode = Between | Comment | InOperator | InWord | InSingle | InDouble | WordEscape | DoubleEscape

  predicate IsBlank(c: char) { c == ' ' || c == '\t' }

  const OPERATOR_CHARS := ['&', '|', ';', '<', '>', '(', ')']

  const OPERATORS := ["&", "&&", "|", "||", ";", ";;", "<", "<&", "<>", ">", ">>", ">&", ">|", "(", ")"]

  /** Expansions, patterns and here-documents are not read; quoting must keep the reader
      away from them. */
  predicate Expands(c: char) { c in ['$', '`', '*', '?', '[', '~'] }

  predicate Plain(c: char) {
    !IsBlank(c) && c !in OPERATOR_CHARS && !Expands(c) && c !in ['\n', '\'', '"', '\\', '#']
  }

  function Emit(mode: Mode, current: string, tokens: seq<Token>): seq<Token> {
    if mode.InWord? then tokens + [Word(current)]
    else if mode.InOperator? then tokens + [Operator(current)]
    else tokens
  }

  /** Reads on with `current` collected for the token at hand; None when the text ends
      inside quotes or needs an expansion. */
  function Read(s: string, mode: Mode, current: string, tokens: seq<Token>): Option<seq<Token>>
    decreases |s|, mode.InOperator?
  {
    if s == "" then
      if mode.InSingle? || mode.InDouble? || mode.WordEscape? || mode.DoubleEscape? then None
      else Some(Emit(mode, current, tokens))
    else
      var c, rest := s[0], s[1..];
      match mode
      case InSingle =>
        if c == '\'' then Read(rest, InWord, current, tokens) else Read(rest, InSingle, current + [c], tokens)
      case WordEscape =>
        if c == '\n' then Read(rest, InWord, current, tokens) else Read(rest, InWord, current + [c], tokens)
      case DoubleEscape =>
        if c == '\n' then Read(rest, InDouble, current, tokens)
        else if c in ['$', '`', '"', '\\'] then Read(rest, InDouble, current + [c], tokens)
        else Read(rest, InDouble, current + ['\\', c], tokens)
      case InDouble =>
        if c == '"' then Read(rest, InWord, current, tokens)
        else if c == '\\' then Read(rest, DoubleEscape, current, tokens)
        else if c == '$' || c == '`' then None
        else Read(rest, InDouble, current + [c], tokens)
      case Comment =>
        if c == '\n' then Read(rest, Between, "", tokens + [Operator("\n")]) else Read(rest, Comment, "", tokens)
      case InOperator =>
        if current + [c] == "<<" then None
        else if current + [c] in OPERATORS then Read(rest, InOperator, current + [c], tokens)
        else Read(s, Between, "", Emit(mode, current, tokens))
      case _ =>
        if IsBlank(c) then Read(rest, Between, "", Emit(mode, current, tokens))
        else if c == '\n' then Read(rest, Between, "", Emit(mode, current, tokens) + [Operator("\n")])
        else if c in OPERATOR_CHARS then Read(rest, InOperator, [c], Emit(mode, current, tokens))
        else if c == '#' && mode.Between? then Read(rest, Comment, "", tokens)
        else if c == '\'' then Read(rest, InSingle, current, tokens)
        else if c == '"' then Read(rest, InDouble, current, tokens)
        else if c == '\\' then Read(rest, WordEscape, current, tokens)
        else if Expands(c) then None
        else Read(rest, InWord, current + [c], tokens)
  }

  function Tokens(s: string): Option<seq<Token>> { Read(s, Between, "", []) }

  function Words(args: seq<string>): seq<Token> {
    seq(|args|, i requires 0 <= i < |args| => Word(args[i]))
  }

  // ------------------------------------------------------------- one quoted word

  /** The text between the quotes reads as itself. */
  lemma {:induction false} QuotedBody(s: string, rest: string, current: string, tokens: seq<Token>)
    ensures Read(ReplaceAll(s, '\'', "'\\''") + "'" + rest, InSingle, current, tokens) ==
            Read(rest, InWord, current + s, tokens)
    decreases |s|
  {
    var body := ReplaceAll(s, '\'', "'\\''") + "'" + rest;
    if s == "" {
      assert body == "'" + rest && body[0] == '\'' && body[1..] == rest;
      assert current + "" == current;
    } else {
      var after := ReplaceAll(s[1..], '\'', "'\\''") + "'" + rest;
      QuotedBody(s[1..], rest, current + [s[0]], tokens);
      assert current + [s[0]] + s[1..] == current + s;
      if s[0] == '\'' {
        assert body == "'\\''" + after;
        ClosedAndReopened(after, current, tokens);
      } else {
        assert body == [s[0]] + after && body[1..] == after;
      }
    }
  }

  /** An embedded quote: close, escaped quote, reopen. */
  lemma ClosedAndReopened(after: string, current: string, tokens: seq<Token>)
    ensures Read("'\\''" + after, InSingle, current, tokens) == Read(after, InSingle, current + ['\''], tokens)
  {
    var a, b, c, d := "'\\''" + after, "\\''" + after, "''" + after, "'" + after;
    assert a[0] == '\'' && a[1..] == b;
    assert Read(a, InSingle, current, tokens) == Read(b, InWord, current, tokens);
    assert b[0] == '\\' && b[1..] == c;
    assert Read(b, InWord, current, tokens) == Read(c, WordEscape, current, tokens);
    assert c[0] == '\'' && c[1..] == d;
    assert Read(c, WordEscape, current, tokens) == Read(d, InWord, current + ['\''], tokens);
    assert d[0] == '\'' && d[1..] == after;
  }

  lemma QuotedWord(s: string, rest: string, tokens: seq<Token>)
    ensures Read(ShellEscape(s) + rest, Between, "", tokens) == Read(rest, InWord, s, tokens)
  {
    var body := ReplaceAll(s, '\'', "'\\''") + "'" + rest;
    var text := ShellEscape(s) + rest;
    assert text == "'" + body && text[0] == '\'' && text[1..] == body;
    QuotedBody(s, rest, "", tokens);
    assert "" + s == s;
  }

  /** A word of plain characters reads as itself. */
  lemma {:induction false} PlainWord(s: string, rest: string, current: string, tokens: seq<Token>, mode: Mode)
    requires forall k :: 0 <= k < |s| ==> Plain(s[k])
    requires mode.InWord? || (mode.Between? && s != "")
    ensures Read(s + rest, mode, current, tokens) == Read(rest, InWord, current + s, tokens)
    decreases |s|
  {
    if s == "" {
      assert s + rest == rest && current + s == current;
    } else {
      assert (s + rest)[0] == s[0] && (s + rest)[1..] == s[1..] + rest;
      assert Plain(s[0]);
      PlainWord(s[1..], rest, current + [s[0]], tokens, InWord);
      assert current + [s[0]] + s[1..] == current + s;
    }
  }

  // ---------------------------------------------------------------- round trip

  lemma {:induction false} JoinedReads(args: seq<string>, tokens: seq<Token>)
    ensures Read(ShellJoin(args), Between, "", tokens) == Some(tokens + Words(args))
    decreases |args|
  {
    if args == [] {
      assert ShellJoin(args) == "" && tokens + Words(args) == tokens;
    } else {
      var quoted := Quoted(args);
      assert quoted[1..] == Quoted(args[1..]);
      if |args| == 1 {
        assert ShellJoin(args) == ShellEscape(args[0]) + "";
        QuotedWord(args[0], "", tokens);
        assert Words(args) == [Word(args[0])];
      } else {
        var rest := ShellJoin(args[1..]);
        assert ShellJoin(args) == ShellEscape(args[0]) + (" " + rest);
        QuotedWord(args[0], " " + rest, tokens);
        JoinedReads(args[1..], tokens + [Word(args[0])]);
        assert tokens + [Word(args[0])] + Words(args[1..]) == tokens + Words(args);
      }
    }
  }

  /** A shell reads a joined argument list back as exactly that list, whatever the
      arguments contain. */
  lemma RoundTrip(args: seq<string>)
    ensures Tokens(ShellJoin(args)) == Some(Words(args))
  {
    JoinedReads(args, []);
    assert [] + Words(args) == Words(args);
  }

  /** So different lists are never joined to the same text. */
  lemma JoinInjective(a: seq<string>, b: seq<string>)
    requires ShellJoin(a) == ShellJoin(b)
    ensures a == b
  {
    RoundTrip(a);
    RoundTrip(b);
    assert |Words(a)| == |Words(b)|;
    forall i | 0 <= i < |a| ensures a[i] == b[i] {
      assert Words(a)[i] == Words(b)[i];
    }
  }

  // ------------------------------------------------------------ nested commands

  predicate AllPlain(s: string) { forall k :: 0 <= k < |s| ==> Plain(s[k]) }

  lemma PlainThenBlank(s: string, rest: string, tokens: seq<Token>)
    requires s != "" && AllPlain(s)
    ensures Read(s + (" " + rest), Between, "", tokens) == Read(rest, Between, "", tokens + [Word(s)])
  {
    PlainWord(s, " " + rest, "", tokens, Between);
    assert "" + s == s;
  }

  /** Two plain words, each followed by a blank. */
  lemma TwoPlain(phrase: string, a: string, b: string, rest: string, tokens: seq<Token>)
    requires a != "" && b != "" && AllPlain(a) && AllPlain(b) && phrase == a + " " + b + " "
    ensures Read(phrase + rest, Between, "", tokens) == Read(rest, Between, "", tokens + [Word(a), Word(b)])
  {
    assert phrase + rest == a + (" " + (b + (" " + rest)));
    PlainThenBlank(a, b + (" " + rest), tokens);
    PlainThenBlank(b, rest, tokens + [Word(a)]);
    assert tokens + [Word(a)] + [Word(b)] == tokens + [Word(a), Word(b)];
  }

  lemma AndThenBlank(rest: string, tokens: seq<Token>)
    ensures Read("&& " + rest, Between, "", tokens) == Read(rest, Between, "", tokens + [Operator("&&")])
  {
    var a, b, c := "&& " + rest, "& " + rest, " " + rest;
    assert a[0] == '&' && a[1..] == b && OPERATOR_CHARS[0] == '&';
    assert Read(a, Between, "", tokens) == Read(b, InOperator, "&", tokens);
    assert b[0] == '&' && b[1..] == c && OPERATORS[1] == "&&" && "&" + ['&'] == "&&";
    AndIsWhole();
    assert Read(b, InOperator, "&", tokens) == Read(c, InOperator, "&&", tokens);
    assert c[0] == ' ' && c[1..] == rest;
    assert Read(c, InOperator, "&&", tokens) == Read(c, Between, "", tokens + [Operator("&&")]);
  }

  /** No operator starts with "&& ", and "&&" does not start a here-document. */
  lemma AndIsWhole()
    ensures "&&" + [' '] !in OPERATORS && "&&" != "<<" && "&&" + [' '] != "<<"
  {
    var longer := "&&" + [' '];
    assert |longer| == 3 && forall o :: o in OPERATORS ==> |o| <= 2;
    assert "&&"[0] != "<<"[0];
  }

  /** After a word, `&&` and a plain word. */
  lemma WordAndPlain(phrase: string, current: string, s: string, rest: string, tokens: seq<Token>)
    requires s != "" && AllPlain(s) && phrase == " && " + s + " "
    ensures Read(phrase + rest, InWord, current, tokens) ==
            Read(rest, Between, "", tokens + [Word(current), Operator("&&"), Word(s)])
  {
    assert phrase + rest == " " + ("&& " + (s + (" " + rest)));
    AndThenBlank(s + (" " + rest), tokens + [Word(current)]);
    PlainThenBlank(s, rest, tokens + [Word(current)] + [Operator("&&")]);
    assert tokens + [Word(current)] + [Operator("&&")] + [Word(s)] == tokens + [Word(current), Operator("&&"), Word(s)];
  }

  lemma QuotedEnds(s: string, tokens: seq<Token>)
    ensures Read(ShellEscape(s), Between, "", tokens) == Some(tokens + [Word(s)])
  {
    assert ShellEscape(s) == ShellEscape(s) + "";
    QuotedWord(s, "", tokens);
  }

  /** The remote command: one reading undoes one level of quoting and hands `/bin/sh -c`
      the script unchanged. */
  lemma ShellCommandReads(script: string)
    ensures Tokens("/bin/sh -c " + ShellEscape(script)) == Some([Word("/bin/sh"), Word("-c"), Word(script)])
  {
    assert "/bin/sh -c " == "/bin/sh" + " " + "-c" + " ";
    TwoPlain("/bin/sh -c ", "/bin/sh", "-c", ShellEscape(script), []);
    QuotedEnds(script, [] + [Word("/bin/sh"), Word("-c")]);
    assert [] + [Word("/bin/sh"), Word("-c")] + [Word(script)] == [Word("/bin/sh"), Word("-c"), Word(script)];
  }

  /** The script that creates a directory and runs tar in it. */
  function MakeAndTar(flags: string, subdir: string): string {
    "mkdir -p " + (ShellEscape(subdir) + (" && tar " + (flags + (" - -C " + ShellEscape(subdir)))))
  }

  lemma MakeReads(subdir: string, rest: string)
    ensures Read("mkdir -p " + (ShellEscape(subdir) + rest), Between, "", []) ==
            Read(rest, InWord, subdir, [Word("mkdir"), Word("-p")])
  {
    assert "mkdir -p " == "mkdir" + " " + "-p" + " ";
    TwoPlain("mkdir -p ", "mkdir", "-p", ShellEscape(subdir) + rest, []);
    assert [] + [Word("mkdir"), Word("-p")] == [Word("mkdir"), Word("-p")];
    QuotedWord(subdir, rest, [Word("mkdir"), Word("-p")]);
  }

  lemma AndTarReads(subdir: string, rest: string)
    ensures Read(" && tar " + rest, InWord, subdir, [Word("mkdir"), Word("-p")]) ==
            Read(rest, Between, "", [Word("mkdir"), Word("-p"), Word(subdir), Operator("&&"), Word("tar")])
  {
    assert " && tar " == " && " + "tar" + " ";
    WordAndPlain(" && tar ", subdir, "tar", rest, [Word("mkdir"), Word("-p")]);
    assert [Word("mkdir"), Word("-p")] + [Word(subdir), Operator("&&"), Word("tar")] ==
           [Word("mkdir"), Word("-p"), Word(subdir), Operator("&&"), Word("tar")];
  }

  /** A second reading gives two commands that both name the directory, whatever its name
      contains. */
  lemma MakeAndTarReads(flags: string, subdir: string)
    requires flags != "" && AllPlain(flags)
    ensures Tokens(MakeAndTar(flags, subdir)) ==
            Some([Word("mkdir"), Word("-p"), Word(subdir), Operator("&&"), Word("tar")]
                 + [Word(flags), Word("-"), Word("-C"), Word(subdir)])
  {
    var options := flags + (" - -C " + ShellEscape(subdir));
    MakeReads(subdir, " && tar " + options);
    AndTarReads(subdir, options);
    TarOptionsRead(flags, subdir, [Word("mkdir"), Word("-p"), Word(subdir), Operator("&&"), Word("tar")]);
  }

  lemma TarOptionsRead(flags: string, subdir: string, tokens: seq<Token>)
    requires flags != "" && AllPlain(flags)
    ensures Read(flags + (" - -C " + ShellEscape(subdir)), Between, "", tokens) ==
            Some(tokens + [Word(flags), Word("-"), Word("-C"), Word(subdir)])
  {
    var dir := ShellEscape(subdir);
    assert " - -C " == " " + "- -C " && "- -C " == "-" + " " + "-C" + " ";
    assert flags + (" - -C " + dir) == flags + (" " + ("- -C " + dir));
    PlainThenBlank(flags, "- -C " + dir, tokens);
    TwoPlain("- -C ", "-", "-C", dir, tokens + [Word(flags)]);
    QuotedEnds(subdir, tokens + [Word(flags)] + [Word("-"), Word("-C")]);
    assert tokens + [Word(flags)] + [Word("-"), Word("-C")] + [Word(subdir)]
        == tokens + [Word(flags), Word("-"), Word("-C"), Word(subdir)];
  }

  /** The start command of a machine: change directory, then run the arguments given. */
  function StartCommand(dir: string, command: seq<string>): string {
    "cd " + (ShellEscape(dir) + (" && exec " + ShellJoin(command)))
  }

  lemma StartCommandReads(dir: string, command: seq<string>)
    ensures Tokens(StartCommand(dir, command)) ==
            Some([Word("cd"), Word(dir), Operator("&&"), Word("exec")] + Words(command))
  {
    var exec := " && exec " + ShellJoin(command);
    assert "cd " + (ShellEscape(dir) + exec) == "cd" + (" " + (ShellEscape(dir) + exec));
    PlainThenBlank("cd", ShellEscape(dir) + exec, []);
    QuotedWord(dir, exec, [] + [Word("cd")]);
    assert " && exec " == " && " + "exec" + " ";
    WordAndPlain(" && exec ", dir, "exec", ShellJoin(command), [] + [Word("cd")]);
    var before := [] + [Word("cd")] + [Word(dir), Operator("&&"), Word("exec")];
    JoinedReads(command, before);
    assert before == [Word("cd"), Word(dir), Operator("&&"), Word("exec")];
  }
}
