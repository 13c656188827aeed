/**
 The PHPUnit command line: the command, then `--filter` with the shell-escaped filter when
 a filter is given, then the extra arguments verbatim when there are any, joined by single
 spaces.

 `escapeshellarg` is modelled with its POSIX definition. Its partner is `Unquote`, the
 reading a POSIX shell gives a word made of single-quoted strings and backslash escapes.
 */
module PhpUnitRunner {
  import opened Wrappers
  import opened Text

  /** The inside of the quoted word: every `'` becomes `'\''` (close, escaped quote, reopen). */
  function QuoteBody(s: string): string
    decreases |s|
  {
    if s == [] then []
    else (if s[0] == '\'' then "'\\''" else [s[0]]) + QuoteBody(s[1..])
  }

  /** A string without `'` needs no change inside the quotes. */
  lemma {:induction false} QuoteBodyPlain(s: string)
    requires forall k :: 0 <= k < |s| ==> s[k] != '\''
    ensures QuoteBody(s) == s
    decreases |s|
  {
    if s != [] {
      QuoteBodyPlain(s[1..]);
      assert [s[0]] + s[1..] == s;
    }
  }

  /** `escapeshellarg` on POSIX systems, for arguments whose every character the locale accepts. */
  function EscapeShellArg(s: string): (r: string)
    ensures 2 <= |r| && r[0] == '\'' && r[|r| - 1] == '\''
  {
    "'" + QuoteBody(s) + "'"
  }

  /** A string without `'` is escaped by quoting it as is. */
  lemma EscapePlain(s: string)
    requires forall k :: 0 <= k < |s| ==> s[k] != '\''
    ensures EscapeShellArg(s) == "'" + s + "'"
  {
    QuoteBodyPlain(s);
  }

  /** Characters a POSIX shell treats specially outside quotes. */
  predicate ShellSpecial(c: char) {
    c in " \t\n|&;<>()$`\"'\\*?[]#~=%{}!"
  }

  function Prepend(c: char, r: Option<string>): Option<string> {
    match r
    case Some(t) => Some([c] + t)
    case None => None
  }

  /**
   The single word a POSIX shell reads from `w`, outside any quotes: `'` opens a quoted
   string, `\` escapes the next character, other special characters (white space, `|`, ...)
   do not belong to a plain word, and every other character stands for itself. `None` when
   `w` is not exactly one such word.
   */
  function Unquote(w: string): Option<string>
    decreases |w|
  {
    if w == [] then Some([])
    else if w[0] == '\'' then InQuotes(w[1..])
    else if w[0] == '\\' then (if |w| < 2 then None else Prepend(w[1], Unquote(w[2..])))
    else if ShellSpecial(w[0]) then None
    else Prepend(w[0], Unquote(w[1..]))
  }

  /** Inside single quotes every character stands for itself until the closing `'`. */
  function InQuotes(w: string): Option<string>
    decreases |w|
  {
    if w == [] then None
    else if w[0] == '\'' then Unquote(w[1..])
    else Prepend(w[0], InQuotes(w[1..]))
  }

  /**
   The shell reads the escaped argument back as exactly the original string. PHP's own
   `escapeshellarg` also drops bytes the locale's `mblen` rejects; that is not modelled, so
   this holds of PHP for strings the locale accepts whole, such as ASCII test identifiers.
   */
  lemma EscapeRoundTrip(s: string)
    ensures Unquote(EscapeShellArg(s)) == Some(s)
  {
    var w := EscapeShellArg(s);
    assert w[1..] == QuoteBody(s) + "'";
    SplitQuoted(s);
  }

  lemma {:induction false} SplitQuoted(s: string)
    ensures InQuotes(QuoteBody(s) + "'") == Some(s)
    decreases |s|
  {
    if s != [] {
      SplitQuoted(s[1..]);
      var rest := QuoteBody(s[1..]) + "'";
      if s[0] == '\'' {
        var w := "'\\''" + rest;
        assert QuoteBody(s) + "'" == w;
        assert w[1..] == "\\''" + rest;
        assert w[1..][2..] == "'" + rest;
        assert ("'" + rest)[1..] == rest;
        assert Unquote("'" + rest) == Some(s[1..]);
        assert Unquote(w[1..]) == Prepend('\'', Some(s[1..]));
        assert InQuotes(w) == Some([s[0]] + s[1..]);
      } else {
        var w := [s[0]] + rest;
        assert QuoteBody(s) + "'" == w;
        assert w[1..] == rest;
        assert InQuotes(w) == Some([s[0]] + s[1..]);
      }
      assert [s[0]] + s[1..] == s;
    } else {
      assert QuoteBody(s) + "'" == "'";
      assert "'"[1..] == [];
    }
  }

  /** The parts of the command line, in order: the present ones only. */
  function CommandParts(command: string, filter: string, args: string): seq<string> {
    var parts := [command];
    var parts := if filter != "" then parts + ["--filter " + EscapeShellArg(filter)] else parts;
    if args != "" then parts + [args] else parts
  }

  /**
   `buildCommand`: the command, then ` --filter ` and the escaped filter when the filter is
   not empty, then a space and the arguments verbatim when they are not empty.
   */
  function BuildCommand(command: string, filter: string, args: string): (r: string)
    ensures r == command + (if filter != "" then " --filter " + EscapeShellArg(filter) else "")
      + (if args != "" then " " + args else "")
  {
    var parts := CommandParts(command, filter, args);
    var f := "--filter " + EscapeShellArg(filter);
    assert " " + f == " --filter " + EscapeShellArg(filter);
    if filter != "" && args != "" then
      assert parts == [command, f, args];
      assert parts[1..] == [f, args] && parts[1..][1..] == [args];
      assert Implode(" ", [f, args]) == f + " " + args by {
        assert [f, args][1..] == [args];
      }
      assert Implode(" ", parts) == command + " " + (f + " " + args);
      assert command + " " + (f + " " + args) == command + (" " + f) + (" " + args);
      Implode(" ", parts)
    else if filter != "" then
      assert parts == [command, f] && parts[1..] == [f];
      assert Implode(" ", parts) == command + " " + f;
      assert command + " " + f == command + (" " + f) + "";
      Implode(" ", parts)
    else if args != "" then
      assert parts == [command, args] && parts[1..] == [args];
      assert Implode(" ", parts) == command + " " + args;
      assert command + " " + args == command + "" + (" " + args);
      Implode(" ", parts)
    else
      assert command == command + "" + "";
      Implode(" ", parts)
  }

  /**
   The command line starts with the command; with a filter, the word after ` --filter `
   reads back in the shell as exactly the filter and is followed by the end of the line or
   a space; the arguments, when present, end the line.
   */
  lemma BuildCommandLayout(command: string, filter: string, args: string)
    ensures var r := BuildCommand(command, filter, args);
      |command| <= |r| && r[..|command|] == command
      && (filter == "" && args == "" ==> r == command)
      && (args != "" ==> |args| < |r| && r[|r| - |args| - 1..] == " " + args)
      && (filter != "" ==>
            var start := |command| + |" --filter "|;
            var end := start + |EscapeShellArg(filter)|;
            end <= |r| && r[|command|..start] == " --filter " && Unquote(r[start..end]) == Some(filter)
            && (end == |r| || r[end] == ' '))
  {
    var r := BuildCommand(command, filter, args);
    var mid := if filter != "" then " --filter " + EscapeShellArg(filter) else "";
    var tail := if args != "" then " " + args else "";
    assert r == command + (mid + tail);
    assert r[..|command|] == command;
    if args != "" {
      assert r == (command + mid) + tail;
      assert r[|r| - |args| - 1..] == tail;
    }
    if filter != "" {
      FilterWord(command, filter, tail);
    }
  }

  /** The filter word sits right after ` --filter ` and reads back as the filter. */
  lemma FilterWord(command: string, filter: string, tail: string)
    requires tail == [] || tail[0] == ' '
    ensures var r := command + (" --filter " + EscapeShellArg(filter) + tail);
      var start := |command| + |" --filter "|;
      var end := start + |EscapeShellArg(filter)|;
      end <= |r| && r[|command|..start] == " --filter " && Unquote(r[start..end]) == Some(filter)
      && (end == |r| || r[end] == ' ')
  {
    Pieces(command, " --filter ", EscapeShellArg(filter), tail);
    EscapeRoundTrip(filter);
  }

  lemma Pieces(a: string, b: string, c: string, d: string)
    ensures var r := a + (b + c + d);
      r[|a|..|a| + |b|] == b && r[|a| + |b|..|a| + |b| + |c|] == c
      && (0 < |d| ==> r[|a| + |b| + |c|] == d[0])
  {
    var r := a + (b + c + d);
    assert r == a + b + c + d;
    assert r[..|a| + |b|] == a + b;
    assert r[..|a| + |b| + |c|] == a + b + c;
  }
}
