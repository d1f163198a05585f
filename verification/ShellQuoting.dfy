/**
 * The quoting of a provider ID in the generated kubelet script, bootstrap/internal/controller/agent_controller.go,
 * read back with the quoting rules of the POSIX Shell Command Language (sections 2.2.1 to 2.2.3 and 2.3).
 */
module ShellQuoting {
  // ---------------------------------------------------------------- the shell's side

  datatype Quoting = Bare | Single | Double

  /** The text of a word with what follows it; or why the reader does not get there. */
  datatype Reading = Word(text: string, rest: string) | Expansion | Unterminated

  /** Blanks, newlines and operator characters end a word that is not quoted. */
  predicate EndsWord(c: char) {
    c == ' ' || c == '\t' || c == '\n' || c == '|' || c == '&' || c == ';' || c == '<' || c == '>' || c == '(' || c == ')'
  }

  /** Characters that mean themselves inside double quotes, single quotes among them. */
  predicate Mild(c: char) { c != '"' && c != '$' && c != '`' && c != '\\' }

  function Prepend(s: string, r: Reading): Reading {
    if r.Word? then Word(s + r.text, r.rest) else r
  }

  /** Reads the rest of a word, inside or outside quotes, and takes the quotes away. */
  function Read(q: Quoting, t: string): Reading
    decreases |t|
  {
    match q
    case Bare =>
      if t == [] || EndsWord(t[0]) then Word("", t)
      else if t[0] == '\'' then Read(Single, t[1..])
      else if t[0] == '"' then Read(Double, t[1..])
      else if t[0] == '$' || t[0] == '`' then Expansion
      else if t[0] == '\\' then
        if |t| == 1 then Unterminated
        else if t[1] == '\n' then Read(Bare, t[2..])
        else Prepend([t[1]], Read(Bare, t[2..]))
      else Prepend([t[0]], Read(Bare, t[1..]))
    case Single =>
      if t == [] then Unterminated
      else if t[0] == '\'' then Read(Bare, t[1..])
      else Prepend([t[0]], Read(Single, t[1..]))
    case Double =>
      if t == [] then Unterminated
      else if t[0] == '"' then Read(Bare, t[1..])
      else if t[0] == '$' || t[0] == '`' then Expansion
      else if t[0] == '\\' && |t| > 1 && t[1] == '\n' then Read(Double, t[2..])
      else if t[0] == '\\' && |t| > 1 && !Mild(t[1]) then Prepend([t[1]], Read(Double, t[2..]))
      else Prepend([t[0]], Read(Double, t[1..]))
  }

  // ---------------------------------------------------------------- the script's side

  const Quote: string := "'\"'\"'"

  /** Each single quote leaves the single quotes, comes back in double ones, and enters them again. */
  function Escape(s: string): string {
    if s == [] then [] else (if s[0] == '\'' then Quote else [s[0]]) + Escape(s[1..])
  }

  lemma QuoteReadsAsItself(t: string)
    ensures Read(Single, Quote + t) == Prepend("'", Read(Single, t))
  {
    var u := Quote + t;
    assert u[1..][0] == '"' && u[1..][1..][0] == '\'' && u[1..][1..][1..][0] == '"' && u[1..][1..][1..][1..][0] == '\'';
    assert u[1..][1..][1..][1..][1..] == t;
    assert Read(Bare, u[1..][1..][1..][1..]) == Read(Single, t);
    assert Read(Double, u[1..][1..]) == Prepend("'", Read(Single, t));
  }

  lemma {:induction false} EscapedReadsAsItself(s: string, t: string)
    ensures Read(Single, Escape(s) + t) == Prepend(s, Read(Single, t))
  {
    if s == [] {
      assert Escape(s) + t == t;
    } else {
      var u := Escape(s[1..]) + t;
      EscapedReadsAsItself(s[1..], t);
      assert s == [s[0]] + s[1..];
      if s[0] == '\'' {
        assert Escape(s) + t == Quote + u;
        QuoteReadsAsItself(u);
      } else {
        assert Escape(s) + t == [s[0]] + u && ([s[0]] + u)[1..] == u;
      }
    }
  }

  /** Single-quoted and escaped, every string is one word of the shell and means itself. */
  lemma SingleQuotedIsOneWord(s: string, rest: string)
    requires rest == [] || EndsWord(rest[0])
    ensures Read(Bare, "'" + Escape(s) + "'" + rest) == Word(s, rest)
  {
    var t := "'" + rest;
    assert "'" + Escape(s) + "'" + rest == "'" + (Escape(s) + t) && ("'" + (Escape(s) + t))[1..] == Escape(s) + t;
    EscapedReadsAsItself(s, t);
    assert t[1..] == rest && Read(Single, t) == Word("", rest);
  }

  /** So no two provider IDs give the same script text. */
  lemma EscapeIsInjective(s: string, s': string)
    requires Escape(s) == Escape(s')
    ensures s == s'
  {
    SingleQuotedIsOneWord(s, []);
    SingleQuotedIsOneWord(s', []);
  }

  // ---------------------------------------------------------------- whole commands

  /** Characters that mean themselves outside and inside double quotes. */
  predicate Plain(c: char) { !EndsWord(c) && c != '\'' && Mild(c) }

  lemma {:induction false} PlainReadsAsItself(s: string, t: string)
    requires forall i :: 0 <= i < |s| ==> Plain(s[i])
    ensures Read(Bare, s + t) == Prepend(s, Read(Bare, t))
  {
    if s == [] {
      assert s + t == t;
    } else {
      assert s == [s[0]] + s[1..] && (s + t)[1..] == s[1..] + t;
      PlainReadsAsItself(s[1..], t);
    }
  }

  lemma {:induction false} MildReadsAsItself(s: string, t: string)
    requires forall i :: 0 <= i < |s| ==> Mild(s[i])
    ensures Read(Double, s + t) == Prepend(s, Read(Double, t))
  {
    if s == [] {
      assert s + t == t;
    } else {
      assert s == [s[0]] + s[1..] && (s + t)[1..] == s[1..] + t;
      MildReadsAsItself(s[1..], t);
    }
  }

  /** A command given a quoted argument, its output going to a file. */
  function Redirected(command: string, arg: string, path: string): string {
    command + (" '" + Escape(arg) + "'" + (" > " + path))
  }

  lemma RedirectedReadsBack(command: string, arg: string, path: string)
    requires forall i :: 0 <= i < |command| ==> Plain(command[i])
    requires forall i :: 0 <= i < |path| ==> Plain(path[i])
    ensures var first := Read(Bare, Redirected(command, arg, path));
            && first.Word? && first.text == command && |first.rest| > 0 && first.rest[0] == ' '
            && Read(Bare, first.rest[1..]) == Word(arg, " > " + path)
    ensures Read(Bare, (" > " + path)[3..]) == Word(path, "")
  {
    var quoted := "'" + Escape(arg) + "'" + (" > " + path);
    assert Redirected(command, arg, path) == command + (" " + quoted) && (" " + quoted)[1..] == quoted;
    PlainReadsAsItself(command, " " + quoted);
    SingleQuotedIsOneWord(arg, " > " + path);
    assert (" > " + path)[3..] == path + "";
    PlainReadsAsItself(path, "");
  }

  const FilePath: string := "/run/kubelet-provider-id"

  /** The line that writes a literal provider ID to its file reads as: echo, the ID, a redirection, the path. */
  lemma FileLineEchoesTheId(id: string)
    ensures var echo := Read(Bare, Redirected("echo", id, FilePath));
            && echo.Word? && echo.text == "echo" && |echo.rest| > 0 && echo.rest[0] == ' '
            && Read(Bare, echo.rest[1..]) == Word(id, " > " + FilePath)
    ensures Read(Bare, (" > " + FilePath)[3..]) == Word(FilePath, "")
  {
    RedirectedReadsBack("echo", id, FilePath);
  }

  // ---------------------------------------------------------------- the double-quoted use

  lemma {:induction false} EscapeFirstQuote(s: string, i: nat)
    requires i <= |s| && forall k :: 0 <= k < i ==> s[k] != '\''
    ensures Escape(s) == s[..i] + Escape(s[i..])
  {
    if i > 0 {
      EscapeFirstQuote(s[1..], i - 1);
      assert s[1..][..i - 1] == s[..i][1..] && s[1..][i - 1..] == s[i..];
    } else {
      assert s[0..] == s;
    }
  }

  /** The first character that a single quote in double quotes leaves too many. */
  lemma QuoteInDoubleQuotes(t: string)
    ensures Read(Double, Quote + t) == Prepend("'\"", Read(Bare, t))
  {
    var u := Quote + t;
    assert u[1..][0] == '"' && u[1..][1..][0] == '\'' && u[1..][1..][1..][0] == '"' && u[1..][1..][1..][1..][0] == '\'';
    assert u[1..][1..][1..][1..][1..] == t;
    assert Read(Single, u[1..][1..][1..]) == Prepend("\"", Read(Bare, t));
    assert Read(Bare, u[1..][1..]) == Prepend("\"", Read(Bare, t));
  }

  /** Up to the first single quote the escaped text in double quotes means itself; a double quote too many follows it. */
  lemma DoubleQuotedPart(s: string, tail: string, i: nat)
    requires forall k :: 0 <= k < |s| ==> Mild(s[k])
    requires i <= |s| && (forall k :: 0 <= k < i ==> s[k] != '\'') && (i < |s| ==> s[i] == '\'')
    ensures i == |s| ==> Read(Double, Escape(s) + tail) == Prepend(s, Read(Double, tail))
    ensures i < |s| ==> Read(Double, Escape(s) + tail) == Prepend(s[..i] + "'\"", Read(Bare, Escape(s[i + 1..]) + tail))
  {
    EscapeFirstQuote(s, i);
    var after := Escape(s[i..]) + tail;
    assert Escape(s) + tail == s[..i] + after;
    MildReadsAsItself(s[..i], after);
    if i < |s| {
      assert after == Quote + (Escape(s[i + 1..]) + tail);
      QuoteInDoubleQuotes(Escape(s[i + 1..]) + tail);
    } else {
      assert after == tail && s[..i] == s;
    }
  }

  /**
   * The environment line puts the same escaped text between double quotes. Of the provider IDs with no character
   * that double quotes treat specially, exactly those without a single quote come out as they are.
   */
  lemma DoubleQuotedUse(pre: string, s: string, rest: string)
    requires forall i :: 0 <= i < |pre| ==> Mild(pre[i])
    requires forall i :: 0 <= i < |s| ==> Mild(s[i])
    requires rest == [] || EndsWord(rest[0])
    ensures Read(Double, pre + (Escape(s) + ("\"" + rest))) == Word(pre + s, rest) <==> '\'' !in s
  {
    var tail := "\"" + rest;
    assert tail[1..] == rest;
    MildReadsAsItself(pre, Escape(s) + tail);
    var i := FirstQuote(s);
    DoubleQuotedPart(s, tail, i);
    var r := Read(Double, Escape(s) + tail);
    if i < |s| && r.Word? {
      assert r.text[i + 1] == '"';
      assert (pre + r.text)[|pre| + (i + 1)] == '"';
    }
  }

  function FirstQuote(s: string): (i: nat)
    ensures i <= |s| && (forall k :: 0 <= k < i ==> s[k] != '\'') && (i < |s| ==> s[i] == '\'')
    ensures i < |s| <==> '\'' in s
  {
    if s == [] || s[0] == '\'' then 0 else 1 + FirstQuote(s[1..])
  }
}
