/** Windows command lines: the worker quotes each argument so that the program's own argument
parser gives it back.

The parser below follows the documented rules for parsing C command-line arguments: arguments are
separated by spaces and tabs, double quotes group, backslashes are literal unless a double quote
follows, in which case pairs stand for one and an odd one makes the quote literal, and a doubled
quote inside a group is a literal quote. The program name is read by simpler rules: quotes only
group, and backslashes are always literal. */
module WindowsQuoting {
  predicate Blank(c: char) {
    c == ' ' || c == '\t'
  }

  predicate NeedsQuotes(arg: string) {
    arg == "" || exists i | 0 <= i < |arg| :: Blank(arg[i]) || arg[i] == '"'
  }

  function Slashes(n: nat): (s: string)
    ensures |s| == n
  {
    seq(n, _ => '\\')
  }

  // ----- The parser -----

  datatype Scanned = Scanned(arg: string, rest: string)

  function Prefixed(text: string, s: Scanned): Scanned {
    Scanned(text + s.arg, s.rest)
  }

  /** One argument, read from inside or outside a quoted group after `n` pending backslashes. */
  function Scan(s: string, quoted: bool, n: nat): (r: Scanned)
    ensures |r.rest| <= |s|
    ensures s != "" && !Blank(s[0]) ==> |r.rest| < |s|
    decreases |s|
  {
    if s == "" then Scanned(Slashes(n), "")
    else if s[0] == '\\' then Scan(s[1..], quoted, n + 1)
    else if s[0] == '"' then
      if n % 2 == 1 then Prefixed(Slashes(n / 2) + "\"", Scan(s[1..], quoted, 0))
      else if quoted && |s| > 1 && s[1] == '"' then Prefixed(Slashes(n / 2) + "\"", Scan(s[2..], quoted, 0))
      else Prefixed(Slashes(n / 2), Scan(s[1..], !quoted, 0))
    else if Blank(s[0]) && !quoted then Scanned(Slashes(n), s)
    else Prefixed(Slashes(n) + [s[0]], Scan(s[1..], quoted, 0))
  }

  function Parse(s: string): seq<string>
    decreases |s|
  {
    if s == "" then []
    else if Blank(s[0]) then Parse(s[1..])
    else
      var r := Scan(s, false, 0);
      [r.arg] + Parse(r.rest)
  }

  function ScanProgram(s: string, quoted: bool): (r: Scanned)
    ensures |r.rest| <= |s|
    ensures forall i | 0 <= i < |r.arg| :: r.arg[i] != '"'
  {
    if s == "" then Scanned("", "")
    else if s[0] == '"' then ScanProgram(s[1..], !quoted)
    else if Blank(s[0]) && !quoted then Scanned("", s)
    else Prefixed([s[0]], ScanProgram(s[1..], quoted))
  }

  /** The program name followed by the arguments. */
  function ParseLine(line: string): seq<string> {
    var program := ScanProgram(line, false);
    [program.arg] + Parse(program.rest)
  }

  // ----- Quoting -----

  /** What is still to be emitted for the rest of an argument, after `n` pending backslashes. */
  function Escaped(arg: string, n: nat): string
    decreases |arg|
  {
    if arg == "" then Slashes(2 * n) + "\""
    else if arg[0] == '\\' then Escaped(arg[1..], n + 1)
    else if arg[0] == '"' then Slashes(2 * n + 1) + "\"" + Escaped(arg[1..], 0)
    else Slashes(n) + [arg[0]] + Escaped(arg[1..], 0)
  }

  function Quote(arg: string): string {
    if NeedsQuotes(arg) then "\"" + Escaped(arg, 0) else arg
  }

  /** `quote_windows_arg`. */
  method QuoteArg(arg: string) returns (quoted: string)
    ensures quoted == Quote(arg)
  {
    if arg != "" && !exists i | 0 <= i < |arg| :: Blank(arg[i]) || arg[i] == '"' {
      return arg;
    }
    quoted := "\"";
    var slashes := 0;
    for i := 0 to |arg|
      invariant slashes >= 0
      invariant quoted + Escaped(arg[i..], slashes) == "\"" + Escaped(arg, 0)
    {
      var c := arg[i];
      assert arg[i..][0] == c && arg[i..][1..] == arg[i + 1..];
      if c == '\\' {
        slashes := slashes + 1;
      } else if c == '"' {
        quoted := quoted + Slashes(slashes * 2 + 1) + "\"";
        slashes := 0;
      } else {
        quoted := quoted + Slashes(slashes) + [c];
        slashes := 0;
      }
    }
    quoted := quoted + Slashes(slashes * 2) + "\"";
  }

  /** The arguments after the program name, each after a space. */
  function Tail(args: seq<string>): string {
    if args == [] then "" else " " + Quote(args[0]) + Tail(args[1..])
  }

  /** `windows_command_line`. */
  method CommandLine(application: string, args: seq<string>) returns (line: string)
    ensures line == Quote(application) + Tail(args)
  {
    line := QuoteArg(application);
    assert args[0..] == args;
    for i := 0 to |args|
      invariant line + Tail(args[i..]) == Quote(application) + Tail(args)
    {
      assert args[i..][0] == args[i] && args[i..][1..] == args[i + 1..];
      var quoted := QuoteArg(args[i]);
      line := line + " " + quoted;
    }
  }

  // ----- Reading back -----

  lemma SlashesSplit(n: nat, m: nat)
    ensures Slashes(n) + Slashes(m) == Slashes(n + m)
    ensures n > 0 ==> Slashes(n)[0] == '\\' && Slashes(n)[1..] == Slashes(n - 1)
  {
  }

  lemma {:induction false} ScanSlashes(k: nat, t: string, quoted: bool, n: nat)
    ensures Scan(Slashes(k) + t, quoted, n) == Scan(t, quoted, n + k)
    decreases k
  {
    if k == 0 {
      assert Slashes(0) + t == t;
    } else {
      SlashesSplit(k, 0);
      assert (Slashes(k) + t)[1..] == Slashes(k - 1) + t;
      ScanSlashes(k - 1, t, quoted, n + 1);
    }
  }

  predicate Ends(rest: string) {
    rest == "" || Blank(rest[0])
  }

  lemma ScanAtEnd(rest: string, n: nat)
    requires Ends(rest)
    ensures Scan(rest, false, n) == Scanned(Slashes(n), rest)
  {
  }

  /** The escaped form, read inside a group, gives the argument back. */
  lemma {:induction false} ScanEscaped(arg: string, n: nat, rest: string)
    requires Ends(rest)
    ensures Scan(Escaped(arg, n) + rest, true, 0) == Scanned(Slashes(n) + arg, rest)
    decreases |arg|
  {
    hide Scan, Slashes, Ends;
    if arg == "" {
      ScanClosing(n, rest);
      assert Slashes(n) + arg == Slashes(n);
    } else if arg[0] == '\\' {
      ScanEscaped(arg[1..], n + 1, rest);
      SlashJoins(arg, n);
    } else {
      ScanEscaped(arg[1..], 0, rest);
      NoSlashes(arg[1..]);
      CharJoins(arg, n);
      if arg[0] == '"' {
        ScanLiteralQuote(n, Escaped(arg[1..], 0), rest);
      } else {
        ScanPlainChar(arg[0], n, Escaped(arg[1..], 0), rest);
      }
    }
  }

  lemma NoSlashes(s: string)
    ensures Slashes(0) + s == s
  {
  }

  lemma SlashJoins(arg: string, n: nat)
    requires arg != "" && arg[0] == '\\'
    ensures Slashes(n + 1) + arg[1..] == Slashes(n) + arg
  {
    assert Slashes(n + 1) == Slashes(n) + "\\";
    assert arg == "\\" + arg[1..];
  }

  lemma CharJoins(arg: string, n: nat)
    requires arg != ""
    ensures (Slashes(n) + [arg[0]]) + arg[1..] == Slashes(n) + arg
  {
    hide Slashes;
    assert arg == [arg[0]] + arg[1..];
  }

  lemma ScanClosing(n: nat, rest: string)
    requires Ends(rest)
    ensures Scan((Slashes(2 * n) + "\"") + rest, true, 0) == Scanned(Slashes(n), rest)
  {
    var s := "\"" + rest;
    assert (Slashes(2 * n) + "\"") + rest == Slashes(2 * n) + s;
    ScanSlashes(2 * n, s, true, 0);
    assert s[1..] == rest;
    ScanAtEnd(rest, 0);
    assert Slashes(n) + Slashes(0) == Slashes(n);
  }

  lemma ScanLiteralQuote(n: nat, body: string, rest: string)
    ensures Scan((Slashes(2 * n + 1) + "\"" + body) + rest, true, 0) ==
            Prefixed(Slashes(n) + "\"", Scan(body + rest, true, 0))
  {
    var s := "\"" + (body + rest);
    assert (Slashes(2 * n + 1) + "\"" + body) + rest == Slashes(2 * n + 1) + s;
    ScanSlashes(2 * n + 1, s, true, 0);
    assert s[1..] == body + rest;
  }

  lemma ScanPlainChar(c: char, n: nat, body: string, rest: string)
    requires c != '\\' && c != '"'
    ensures Scan((Slashes(n) + [c] + body) + rest, true, 0) == Prefixed(Slashes(n) + [c], Scan(body + rest, true, 0))
  {
    var s := [c] + (body + rest);
    assert (Slashes(n) + [c] + body) + rest == Slashes(n) + s;
    ScanSlashes(n, s, true, 0);
    assert s[1..] == body + rest;
  }

  /** An argument that needs no quotes is read as it stands. */
  lemma {:induction false} ScanPlain(arg: string, n: nat, rest: string)
    requires Ends(rest) && forall i | 0 <= i < |arg| :: !Blank(arg[i]) && arg[i] != '"'
    ensures Scan(arg + rest, false, n) == Scanned(Slashes(n) + arg, rest)
    decreases |arg|
  {
    hide Slashes;
    if arg == "" {
      assert arg + rest == rest && Slashes(n) + arg == Slashes(n);
      ScanAtEnd(rest, n);
    } else {
      var s := arg + rest;
      assert s[1..] == arg[1..] + rest && s[0] == arg[0];
      if arg[0] == '\\' {
        ScanPlain(arg[1..], n + 1, rest);
        SlashJoins(arg, n);
      } else {
        ScanPlain(arg[1..], 0, rest);
        NoSlashes(arg[1..]);
        CharJoins(arg, n);
      }
    }
  }

  lemma ScanQuoted(arg: string, rest: string)
    requires Ends(rest)
    ensures Scan(Quote(arg) + rest, false, 0) == Scanned(arg, rest)
    ensures Quote(arg) != "" && !Blank(Quote(arg)[0])
  {
    assert Slashes(0) + arg == arg;
    if NeedsQuotes(arg) {
      var s := Quote(arg) + rest;
      assert s[1..] == Escaped(arg, 0) + rest;
      ScanEscaped(arg, 0, rest);
      NoEmptyGroup(arg, rest);
    } else {
      ScanPlain(arg, 0, rest);
    }
  }

  /** Outside a group a quote always opens one. */
  lemma NoEmptyGroup(arg: string, rest: string)
    ensures Scan("\"" + (Escaped(arg, 0) + rest), false, 0) == Scan(Escaped(arg, 0) + rest, true, 0)
  {
    var s := "\"" + (Escaped(arg, 0) + rest);
    assert s[1..] == Escaped(arg, 0) + rest;
    var r := Scan(s[1..], true, 0);
    assert Slashes(0) + r.arg == r.arg;
  }

  lemma ParseOne(arg: string, rest: string)
    requires Ends(rest)
    ensures Parse(" " + Quote(arg) + rest) == [arg] + Parse(rest)
  {
    hide Scan, Quote;
    var s := Quote(arg) + rest;
    ScanQuoted(arg, rest);
    assert (" " + Quote(arg) + rest)[1..] == s && s[0] == Quote(arg)[0];
  }

  /** For every list of arguments, parsing the quoted list gives it back. */
  lemma {:induction false} ArgumentsRoundTrip(args: seq<string>)
    ensures Parse(Tail(args)) == args
    decreases |args|
  {
    hide Scan, Quote;
    if args != [] {
      var rest := Tail(args[1..]);
      ArgumentsRoundTrip(args[1..]);
      ParseOne(args[0], rest);
      assert Tail(args) == " " + Quote(args[0]) + rest;
      assert args == [args[0]] + args[1..];
    }
  }

  // ----- The program name -----

  predicate EndsWithSlash(s: string) {
    s != "" && s[|s| - 1] == '\\'
  }

  predicate Plain(s: string) {
    forall i | 0 <= i < |s| :: s[i] != '"'
  }

  /** How many backslashes end `arg`, after `n` pending ones. */
  function Trailing(arg: string, n: nat): nat {
    if arg == "" then n else if arg[0] == '\\' then Trailing(arg[1..], n + 1) else Trailing(arg[1..], 0)
  }

  lemma {:induction false} TrailingIsSlash(arg: string, n: nat)
    ensures Trailing(arg, n) > 0 <==> (if arg == "" then n > 0 else EndsWithSlash(arg))
  {
    if arg != "" {
      TrailingIsSlash(arg[1..], if arg[0] == '\\' then n + 1 else 0);
    }
  }

  /** Without quotes in it, a quoted argument only doubles its last backslashes. */
  lemma {:induction false} EscapedPlain(arg: string, n: nat)
    requires Plain(arg)
    ensures Escaped(arg, n) == Slashes(n) + arg + Slashes(Trailing(arg, n)) + "\""
    decreases |arg|
  {
    hide Slashes;
    if arg == "" {
      SlashesSplit(n, n);
      assert Slashes(n) + arg == Slashes(n);
    } else if arg[0] == '\\' {
      EscapedPlain(arg[1..], n + 1);
      SlashJoins(arg, n);
    } else {
      EscapedPlain(arg[1..], 0);
      NoSlashes(arg[1..]);
      CharJoins(arg, n);
    }
  }

  lemma {:induction false} ProgramInGroup(body: string, rest: string)
    requires Plain(body) && Ends(rest)
    ensures ScanProgram(body + "\"" + rest, true) == Scanned(body, rest)
  {
    var s := body + "\"" + rest;
    if body == "" {
      assert s[1..] == rest;
    } else {
      assert s[1..] == body[1..] + "\"" + rest;
      ProgramInGroup(body[1..], rest);
    }
  }

  lemma {:induction false} ProgramPlain(body: string, rest: string)
    requires Ends(rest) && forall i | 0 <= i < |body| :: !Blank(body[i]) && body[i] != '"'
    ensures ScanProgram(body + rest, false) == Scanned(body, rest)
  {
    if body == "" {
      assert body + rest == rest;
    } else {
      assert (body + rest)[1..] == body[1..] + rest;
      ProgramPlain(body[1..], rest);
    }
  }

  lemma ProgramOpens(body: string, rest: string)
    ensures ScanProgram(("\"" + (body + "\"")) + rest, false) == ScanProgram(body + "\"" + rest, true)
  {
    assert (("\"" + (body + "\"")) + rest)[1..] == body + "\"" + rest;
  }

  /** What the program rules read for a quoted program name without quotes in it. */
  lemma ProgramReads(application: string, rest: string)
    requires Plain(application) && Ends(rest)
    ensures ScanProgram(Quote(application) + rest, false) ==
            Scanned(if NeedsQuotes(application) then application + Slashes(Trailing(application, 0)) else application,
                    rest)
  {
    if NeedsQuotes(application) {
      var body := application + Slashes(Trailing(application, 0));
      EscapedPlain(application, 0);
      NoSlashes(application);
      assert Plain(body);
      hide Slashes, Trailing, Escaped;
      ProgramOpens(body, rest);
      ProgramInGroup(body, rest);
    } else {
      ProgramPlain(application, rest);
    }
  }

  /** The whole line reads back exactly when the program name holds no quote and is not a quoted
      name ending in a backslash. */
  lemma LineRoundTrips(application: string, args: seq<string>)
    ensures ParseLine(Quote(application) + Tail(args)) == [application] + args <==>
            Plain(application) && !(NeedsQuotes(application) && EndsWithSlash(application))
  {
    var line, rest := Quote(application) + Tail(args), Tail(args);
    if Plain(application) {
      ProgramReads(application, rest);
      ArgumentsRoundTrip(args);
      TrailingIsSlash(application, 0);
      var read := ScanProgram(line, false).arg;
      assert ParseLine(line) == [read] + args;
      assert |read| == |application| ==> read == application;
      assert ([read] + args)[0] == read;
    } else {
      var i :| 0 <= i < |application| && application[i] == '"';
      var read := ScanProgram(line, false).arg;
      assert read != application;
      assert ParseLine(line)[0] == read;
    }
  }
}
