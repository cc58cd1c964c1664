// The unit file written for a service: the quoted command line, and the log path read back from it.
module Systemd {
  import opened Text
  import opened Wrappers

  datatype Config = Config(serviceName: string, description: string, binary: string, args: seq<string>,
                           workingDir: string, user: Option<string>)

  // ----- Quoting ------------------------------------------------------------------------

  predicate IsPlain(c: char) {
    IsAlphanumeric(c) || c in "-_./:=@+,"
  }

  predicate NeedsQuote(arg: string) {
    arg == "" || exists c | c in arg :: !IsPlain(c)
  }

  /** Every occurrence of a character replaced by a string. */
  function Replace(s: string, c: char, with: string): string {
    if s == "" then "" else (if s[0] == c then with else [s[0]]) + Replace(s[1..], c, with)
  }

  function QuoteArg(arg: string): string {
    if !NeedsQuote(arg) then arg
    else "\"" + Replace(Replace(Replace(arg, '\\', "\\\\"), '"', "\\\""), '$', "\\$") + "\""
  }

  function Spaced(parts: seq<string>): string {
    if parts == [] then ""
    else if |parts| == 1 then parts[0]
    else parts[0] + " " + Spaced(parts[1..])
  }

  function Quoted(args: seq<string>): (parts: seq<string>)
    ensures |parts| == |args| && forall i | 0 <= i < |args| :: parts[i] == QuoteArg(args[i])
  {
    seq(|args|, i requires 0 <= i < |args| => QuoteArg(args[i]))
  }

  /** The command line splits back into exactly the binary and its arguments. */
  method BuildExecStart(binary: string, args: seq<string>) returns (line: string)
    ensures line == Spaced(Quoted([binary] + args))
    ensures Split(line) == Some([binary] + args)
  {
    var parts := [QuoteArg(binary)];
    for i := 0 to |args|
      invariant parts == Quoted([binary] + args[..i])
    {
      parts := parts + [QuoteArg(args[i])];
      assert ([binary] + args[..i + 1])[..i + 1] == [binary] + args[..i];
    }
    assert args[..|args|] == args;
    line := Spaced(parts);
    SplitsBack([binary] + args);
  }

  // ----- The quoting grammar ------------------------------------------------------------

  predicate IsSpecial(c: char) {
    c == '\\' || c == '"' || c == '$'
  }

  /** Reads a quoted argument up to its closing quote: a backslash must stand before one of \ " $. */
  function Unquote(s: string): (r: Option<(string, string)>)
    ensures r.Some? ==> |r.value.1| < |s|
  {
    if s == "" then None
    else if s[0] == '"' then Some(("", s[1..]))
    else if s[0] == '\\' then
      if |s| >= 2 && IsSpecial(s[1]) then Push(s[1], Unquote(s[2..])) else None
    else Push(s[0], Unquote(s[1..]))
  }

  function Push(c: char, r: Option<(string, string)>): Option<(string, string)> {
    match r case None => None case Some((arg, rest)) => Some(([c] + arg, rest))
  }

  /** Where an unquoted argument ends. */
  function WordEnd(s: string): (n: nat)
    ensures n <= |s|
    ensures s != "" && s[0] != ' ' ==> n > 0
  {
    if s == "" || s[0] == ' ' then 0 else 1 + WordEnd(s[1..])
  }

  /** Splits a command line at spaces and takes quoted arguments out of their quotes; an unquoted
      argument stands for itself. `None` if the line is not well formed. */
  function Split(s: string): Option<seq<string>>
    decreases |s|
  {
    if s == "" then Some([])
    else if s[0] == ' ' then Split(s[1..])
    else if s[0] == '"' then
      match Unquote(s[1..])
      case None => None
      case Some((arg, rest)) => if rest == "" || rest[0] == ' ' then Prepend(arg, Split(rest)) else None
    else
      var n := WordEnd(s);
      if exists c | c in s[..n] :: IsSpecial(c) then None else Prepend(s[..n], Split(s[n..]))
  }

  function Prepend(arg: string, r: Option<seq<string>>): Option<seq<string>> {
    match r case None => None case Some(args) => Some([arg] + args)
  }

  /** Each special character behind a backslash, in one pass. */
  function Escape(s: string): string {
    if s == "" then "" else (if IsSpecial(s[0]) then ['\\', s[0]] else [s[0]]) + Escape(s[1..])
  }

  lemma {:induction false} ReplaceConcat(a: string, b: string, c: char, with: string)
    ensures Replace(a + b, c, with) == Replace(a, c, with) + Replace(b, c, with)
  {
    if a == "" {
      assert a + b == b;
    } else {
      assert (a + b)[1..] == a[1..] + b;
      ReplaceConcat(a[1..], b, c, with);
    }
  }

  /** The three replacements, one after the other, escape each special character once. */
  lemma {:induction false} ThreePassesEscape(s: string)
    ensures Replace(Replace(Replace(s, '\\', "\\\\"), '"', "\\\""), '$', "\\$") == Escape(s)
  {
    if s != "" {
      ThreePassesEscape(s[1..]);
      var first := if s[0] == '\\' then "\\\\" else [s[0]];
      var rest := Replace(s[1..], '\\', "\\\\");
      ReplaceConcat(first, rest, '"', "\\\"");
      ReplaceConcat(Replace(first, '"', "\\\""), Replace(rest, '"', "\\\""), '$', "\\$");
      EscapeOne(s[0]);
    }
  }

  lemma EscapeOne(c: char)
    ensures var first := if c == '\\' then "\\\\" else [c];
      Replace(Replace(first, '"', "\\\""), '$', "\\$") == if IsSpecial(c) then ['\\', c] else [c]
  {
    if c == '"' {
      assert Replace([c], '"', "\\\"") == "\\\"" + Replace("", '"', "\\\"");
      ReplaceConcat("\\", "\"", '$', "\\$");
      assert "\\" + "\"" == "\\\"";
    } else {
      ReplaceNothing(if c == '\\' then "\\\\" else [c], '"', "\\\"");
      if c == '\\' {
        ReplaceNothing("\\\\", '$', "\\$");
      }
    }
  }

  lemma {:induction false} ReplaceNothing(s: string, c: char, with: string)
    requires c !in s
    ensures Replace(s, c, with) == s
  {
    if s != "" {
      ReplaceNothing(s[1..], c, with);
    }
  }

  /** An argument stands as it is exactly if it is not empty and holds only these characters. */
  lemma QuotedOnlyIfNeeded(arg: string)
    ensures QuoteArg(arg) == arg <==> arg != "" && forall c | c in arg ::
      'a' <= c <= 'z' || 'A' <= c <= 'Z' || '0' <= c <= '9' || c in "-_./:=@+,"
  {
    if NeedsQuote(arg) {
      ThreePassesEscape(arg);
      EscapeGrows(arg);
      assert |QuoteArg(arg)| > |arg|;
    }
  }

  lemma {:induction false} EscapeGrows(s: string)
    ensures |Escape(s)| >= |s|
  {
    if s != "" {
      EscapeGrows(s[1..]);
    }
  }

  lemma EscapedFront(s: string, end: string)
    requires s != ""
    ensures var front := if IsSpecial(s[0]) then ['\\', s[0]] else [s[0]];
      Escape(s) + end == front + (Escape(s[1..]) + end)
  {
  }

  /** Reading an escaped argument up to its closing quote gives the argument and stops there. */
  lemma {:induction false} UnquoteEscaped(s: string, end: string)
    requires end != "" && end[0] == '"'
    ensures Unquote(Escape(s) + end) == Some((s, end[1..]))
  {
    if s == "" {
      assert Escape(s) + end == end;
    } else {
      UnquoteEscaped(s[1..], end);
      EscapedFront(s, end);
      assert (Escape(s) + end)[if IsSpecial(s[0]) then 2 else 1..] == Escape(s[1..]) + end;
      assert [s[0]] + s[1..] == s;
    }
  }

  lemma {:induction false} WordEndPlain(arg: string, rest: string)
    requires forall c | c in arg :: IsPlain(c)
    requires rest == "" || rest[0] == ' '
    ensures WordEnd(arg + rest) == |arg|
  {
    if arg == "" {
      assert arg + rest == rest;
    } else {
      assert arg[0] in arg && (arg + rest)[1..] == arg[1..] + rest;
      WordEndPlain(arg[1..], rest);
    }
  }

  lemma SplitPlain(arg: string, rest: string)
    requires !NeedsQuote(arg) && (rest == "" || rest[0] == ' ')
    ensures Split(arg + rest) == Prepend(arg, Split(rest))
  {
    var line := arg + rest;
    WordEndPlain(arg, rest);
    assert arg[0] in arg && IsPlain(arg[0]);
    assert line[..|arg|] == arg && line[|arg|..] == rest;
    assert forall c | c in arg :: IsPlain(c) && !IsSpecial(c);
  }

  lemma QuotedFront(body: string, rest: string)
    ensures "\"" + body + "\"" + rest == "\"" + (body + ("\"" + rest))
  {
  }

  lemma SplitInQuotes(arg: string, rest: string)
    requires rest == "" || rest[0] == ' '
    ensures Split("\"" + Escape(arg) + "\"" + rest) == Prepend(arg, Split(rest))
  {
    var end := "\"" + rest;
    var line := "\"" + (Escape(arg) + end);
    QuotedFront(Escape(arg), rest);
    UnquoteEscaped(arg, end);
    assert line[1..] == Escape(arg) + end && end[1..] == rest;
  }

  lemma SplitQuoted(arg: string, rest: string)
    requires rest == "" || rest[0] == ' '
    ensures Split(QuoteArg(arg) + rest) == Prepend(arg, Split(rest))
  {
    if NeedsQuote(arg) {
      ThreePassesEscape(arg);
      SplitInQuotes(arg, rest);
    } else {
      SplitPlain(arg, rest);
    }
  }

  lemma SpacedFirst(args: seq<string>)
    requires |args| > 1
    ensures Spaced(Quoted(args)) == QuoteArg(args[0]) + (" " + Spaced(Quoted(args[1..])))
  {
    assert Quoted(args)[1..] == Quoted(args[1..]);
  }

  /** Splitting and unquoting a quoted argument list gives the list back, whatever it holds. */
  lemma {:induction false} SplitsBack(args: seq<string>)
    ensures Split(Spaced(Quoted(args))) == Some(args)
  {
    if |args| == 1 {
      SplitQuoted(args[0], "");
      assert Spaced(Quoted(args)) == QuoteArg(args[0]) + "";
      assert args == [args[0]] + [];
    } else if args != [] {
      var tail := " " + Spaced(Quoted(args[1..]));
      SplitsBack(args[1..]);
      SpacedFirst(args);
      SplitQuoted(args[0], tail);
      assert tail[1..] == Spaced(Quoted(args[1..]));
      assert args == [args[0]] + args[1..];
    }
  }

  /** Different argument lists never share a command line. */
  lemma QuotingIsInjective(args: seq<string>, others: seq<string>)
    requires Spaced(Quoted(args)) == Spaced(Quoted(others))
    ensures args == others
  {
    SplitsBack(args);
    SplitsBack(others);
  }

  // ----- The unit file ------------------------------------------------------------------

  /** Joining a path: an absolute one replaces what it is joined to. */
  function PathJoin(path: string, part: string): string {
    if "/" <= part || path == "" then part
    else if path[|path| - 1] == '/' then path + part
    else path + "/" + part
  }

  function LogPath(c: Config): string {
    PathJoin(PathJoin(c.workingDir, "log"), c.serviceName + ".log")
  }

  const OUTPUT := "StandardOutput=append:"

  function ExecStart(c: Config): string {
    Spaced(Quoted([c.binary] + c.args))
  }

  /** The parts of the file before the log path, each a few lines. */
  function HeadParts(c: Config): (parts: seq<seq<string>>)
    ensures |parts| == 7
  {
    [UnitHeader(), DescriptionLine(c), AfterNetwork(), ExecLine(c), DirectoryLine(c), UserLine(c), Restarting()]
  }

  function UnitHeader(): seq<string> { ["[Unit]"] }

  function DescriptionLine(c: Config): seq<string> { ["Description=" + c.description] }

  function AfterNetwork(): seq<string> {
    ["After=network-online.target", "Wants=network-online.target", "", "[Service]", "Type=simple"]
  }

  function ExecLine(c: Config): seq<string> { ["ExecStart=" + ExecStart(c)] }

  function DirectoryLine(c: Config): seq<string> { ["WorkingDirectory=" + c.workingDir] }

  function UserLine(c: Config): seq<string> {
    match c.user case None => [] case Some(user) => ["User=" + user]
  }

  function Restarting(): seq<string> { ["Restart=on-failure", "RestartSec=5s", "LimitNOFILE=65536"] }

  function Flat(parts: seq<seq<string>>): seq<string> {
    if parts == [] then [] else parts[0] + Flat(parts[1..])
  }

  function HeadLines(c: Config): seq<string> {
    Flat(HeadParts(c))
  }

  function UnitLines(c: Config): seq<string> {
    HeadLines(c) + [OUTPUT + LogPath(c)]
    + ["StandardError=append:" + LogPath(c), "", "[Install]", "WantedBy=multi-user.target"]
  }

  /** Each line with a newline after it. */
  function Unlines(lines: seq<string>): string {
    if lines == [] then "" else lines[0] + "\n" + Unlines(lines[1..])
  }

  function RenderUnit(c: Config): string {
    Unlines(UnitLines(c))
  }

  function FirstNewline(s: string): (n: nat)
    ensures n <= |s| && '\n' !in s[..n] && (n < |s| ==> s[n] == '\n')
  {
    if s == "" || s[0] == '\n' then 0 else 1 + FirstNewline(s[1..])
  }

  function StripCr(s: string): string {
    if s != "" && s[|s| - 1] == '\r' then s[..|s| - 1] else s
  }

  /** The lines of a text; a carriage return before a newline belongs to the line ending. */
  function Lines(s: string): seq<string>
    decreases |s|
  {
    if s == "" then []
    else
      var n := FirstNewline(s);
      if n == |s| then [s] else [StripCr(s[..n])] + Lines(s[n + 1..])
  }

  function OutputPath(line: string): Option<string> {
    if OUTPUT <= Trim(line) then Some(Trim(line)[|OUTPUT|..]) else None
  }

  function FirstPath(lines: seq<string>): Option<string> {
    if lines == [] then None else Either(OutputPath(lines[0]), FirstPath(lines[1..]))
  }

  function Either<T>(first: Option<T>, second: Option<T>): Option<T> {
    if first.Some? then first else second
  }

  function ParseUnitLogPath(content: string): Option<string> {
    FirstPath(Lines(content))
  }

  // ----- Reading the log path back ------------------------------------------------------

  lemma LinesStep(line: string, rest: string)
    requires '\n' !in line
    ensures Lines(line + "\n" + rest) == [StripCr(line)] + Lines(rest)
  {
    var s := line + "\n" + rest;
    FirstNewlineAt(line, rest);
    assert s[..|line|] == line && s[|line| + 1..] == rest;
  }

  lemma {:induction false} FirstNewlineAt(line: string, rest: string)
    requires '\n' !in line
    ensures FirstNewline(line + "\n" + rest) == |line|
  {
    var s := line + "\n" + rest;
    if line != "" {
      assert s[1..] == line[1..] + "\n" + rest;
      assert s[0] == line[0] && line[0] in line;
      FirstNewlineAt(line[1..], rest);
    }
  }

  lemma ParseStep(line: string, rest: string)
    requires '\n' !in line
    ensures ParseUnitLogPath(line + "\n" + rest) == Either(OutputPath(StripCr(line)), ParseUnitLogPath(rest))
  {
    LinesStep(line, rest);
    var lines := Lines(line + "\n" + rest);
    assert lines[0] == StripCr(line) && lines[1..] == Lines(rest);
  }

  lemma CutAt(text: string, n: nat, rest: string)
    requires n < |text| && text[n] == '\n'
    ensures text + rest == text[..n] + "\n" + (text[n + 1..] + rest)
  {
  }

  lemma CutLine(text: string, n: nat, rest: string)
    requires n < |text| && text[n] == '\n'
    ensures text + "\n" + rest == text[..n] + "\n" + (text[n + 1..] + "\n" + rest)
  {
    CutAt(text, n, "\n" + rest);
    assert text + "\n" + rest == text + ("\n" + rest);
    assert text[n + 1..] + "\n" + rest == text[n + 1..] + ("\n" + rest);
  }

  /** Text that ends a line is searched before the text after it. */
  lemma {:induction false} ParseConcat(text: string, rest: string)
    ensures ParseUnitLogPath(text + "\n" + rest) == Either(ParseUnitLogPath(text + "\n"), ParseUnitLogPath(rest))
    decreases |text|
  {
    var n := FirstNewline(text);
    if n == |text| {
      ParseStep(text, rest);
      ParseStep(text, "");
      assert text + "\n" + "" == text + "\n";
    } else {
      var line, more := text[..n], text[n + 1..];
      ParseConcat(more, rest);
      CutLine(text, n, rest);
      CutAt(text, n, "\n");
      ParseStep(line, more + "\n" + rest);
      ParseStep(line, more + "\n");
    }
  }

  function FirstIn(lines: seq<string>): Option<string> {
    if lines == [] then None else Either(ParseUnitLogPath(lines[0] + "\n"), FirstIn(lines[1..]))
  }

  lemma {:induction false} ParseUnlines(lines: seq<string>)
    ensures ParseUnitLogPath(Unlines(lines)) == FirstIn(lines)
  {
    if lines != [] {
      ParseConcat(lines[0], Unlines(lines[1..]));
      ParseUnlines(lines[1..]);
    }
  }

  lemma {:induction false} FirstInConcat(lines: seq<string>, more: seq<string>)
    ensures FirstIn(lines + more) == Either(FirstIn(lines), FirstIn(more))
  {
    if lines == [] {
      assert lines + more == more;
    } else {
      assert (lines + more)[1..] == lines[1..] + more;
      FirstInConcat(lines[1..], more);
    }
  }

  lemma {:induction false} TrimKeepsStart(key: string, value: string)
    requires key != "" && !IsWhitespace(key[0]) && !IsWhitespace(key[|key| - 1])
    ensures Trim(key + value) == key + TrimEnd(value)
    decreases |value|
  {
    var s := key + value;
    if value != "" && IsWhitespace(value[|value| - 1]) {
      var less := value[..|value| - 1];
      assert s[..|s| - 1] == key + less;
      TrimKeepsStart(key, less);
    } else {
      assert value == "" ==> s == key;
    }
  }

  lemma StripCrOfValue(key: string, value: string)
    requires key != "" && !IsWhitespace(key[|key| - 1])
    ensures StripCr(key + value) == key + StripCr(value)
  {
  }

  lemma TrimEndTakesCr(value: string)
    ensures TrimEnd(StripCr(value)) == TrimEnd(value)
  {
  }

  lemma TrimDropsCr(key: string, value: string)
    requires key != "" && !IsWhitespace(key[0]) && !IsWhitespace(key[|key| - 1])
    ensures Trim(StripCr(key + value)) == key + TrimEnd(value)
  {
    StripCrOfValue(key, value);
    TrimKeepsStart(key, StripCr(value));
    TrimEndTakesCr(value);
  }

  /** What a field can smuggle in: the path found in the lines after its first. */
  function Injected(value: string): Option<string> {
    var n := FirstNewline(value);
    if n == |value| then None else ParseUnitLogPath(value[n + 1..] + "\n")
  }

  /** A line that does not begin like the wanted one. */
  predicate IsKey(key: string) {
    key != "" && !IsWhitespace(key[0]) && !IsWhitespace(key[|key| - 1]) && key[0] != OUTPUT[0] && '\n' !in key
  }

  lemma Reassociate(key: string, value: string, first: string, rest: string)
    requires value + "\n" == first + "\n" + rest
    ensures key + value + "\n" == key + first + "\n" + rest
  {
    assert key + value + "\n" == key + (value + "\n");
    assert key + first + "\n" + rest == key + (first + "\n" + rest);
  }

  /** Of a key and a value with a newline behind them, the first line is looked at first. */
  lemma KeyLine(key: string, value: string)
    requires '\n' !in key
    ensures ParseUnitLogPath(key + value + "\n")
         == Either(OutputPath(StripCr(key + value[..FirstNewline(value)])), Injected(value))
  {
    var n := FirstNewline(value);
    var first := value[..n];
    if n == |value| {
      assert value + "\n" == first + "\n" + "";
      Reassociate(key, value, first, "");
      ParseStep(key + first, "");
    } else {
      CutAt(value, n, "\n");
      Reassociate(key, value, first, value[n + 1..] + "\n");
      ParseStep(key + first, value[n + 1..] + "\n");
    }
  }

  lemma ParseField(key: string, value: string)
    requires IsKey(key)
    ensures ParseUnitLogPath(key + value + "\n") == Injected(value)
  {
    var first := value[..FirstNewline(value)];
    KeyLine(key, value);
    TrimDropsCr(key, first);
    assert (key + TrimEnd(first))[0] == key[0];
  }

  lemma OutputLine(value: string)
    ensures OutputPath(StripCr(OUTPUT + value)) == Some(TrimEnd(value))
  {
    TrimDropsCr(OUTPUT, value);
  }

  lemma ParseOutput(path: string)
    ensures ParseUnitLogPath(OUTPUT + path + "\n") == Some(TrimEnd(path[..FirstNewline(path)]))
  {
    KeyLine(OUTPUT, path);
    OutputLine(path[..FirstNewline(path)]);
  }

  lemma FirstInOne(key: string, value: string)
    requires IsKey(key)
    ensures FirstIn([key + value]) == Injected(value)
  {
    ParseField(key, value);
  }

  lemma {:induction false} FirstInPlain(lines: seq<string>)
    requires forall i | 0 <= i < |lines| :: lines[i] == "" || IsKey(lines[i])
    ensures FirstIn(lines) == None
  {
    if lines != [] {
      FirstInPlain(lines[1..]);
      if lines[0] == "" {
        ParseStep("", "");
        assert "" + "\n" + "" == lines[0] + "\n";
      } else {
        ParseField(lines[0], "");
        assert lines[0] + "" == lines[0];
      }
    }
  }

  /** The first path smuggled in by a field, in the order of the lines. */
  function FirstInjected(c: Config): Option<string> {
    Either(Injected(c.description), Either(Injected(ExecStart(c)),
      Either(Injected(c.workingDir), if c.user.Some? then Injected(c.user.value) else None)))
  }

  lemma PlainHeader()
    ensures FirstIn(UnitHeader()) == None
  {
    FirstInPlain(UnitHeader());
  }

  lemma PlainNetwork()
    ensures FirstIn(AfterNetwork()) == None
  {
    FirstInPlain(AfterNetwork());
  }

  lemma PlainRestart()
    ensures FirstIn(Restarting()) == None
  {
    FirstInPlain(Restarting());
  }

  lemma DescriptionInjects(c: Config)
    ensures FirstIn(DescriptionLine(c)) == Injected(c.description)
  {
    FirstInOne("Description=", c.description);
  }

  lemma ExecInjects(c: Config)
    ensures FirstIn(ExecLine(c)) == Injected(ExecStart(c))
  {
    FirstInOne("ExecStart=", ExecStart(c));
  }

  lemma DirectoryInjects(c: Config)
    ensures FirstIn(DirectoryLine(c)) == Injected(c.workingDir)
  {
    FirstInOne("WorkingDirectory=", c.workingDir);
  }

  lemma UserInjects(c: Config)
    ensures FirstIn(UserLine(c)) == if c.user.Some? then Injected(c.user.value) else None
  {
    if c.user.Some? {
      FirstInOne("User=", c.user.value);
    }
  }

  function FirstInParts(parts: seq<seq<string>>): Option<string> {
    if parts == [] then None else Either(FirstIn(parts[0]), FirstInParts(parts[1..]))
  }

  lemma {:induction false} FirstInFlat(parts: seq<seq<string>>)
    ensures FirstIn(Flat(parts)) == FirstInParts(parts)
  {
    if parts != [] {
      FirstInConcat(parts[0], Flat(parts[1..]));
      FirstInFlat(parts[1..]);
    }
  }

  lemma SevenParts(parts: seq<seq<string>>)
    requires |parts| == 7
    ensures FirstInParts(parts) == Either(FirstIn(parts[0]), Either(FirstIn(parts[1]), Either(FirstIn(parts[2]),
      Either(FirstIn(parts[3]), Either(FirstIn(parts[4]), Either(FirstIn(parts[5]), FirstIn(parts[6])))))))
  {
    var a, b, c, d, e, f := parts[1..], parts[2..], parts[3..], parts[4..], parts[5..], parts[6..];
    assert a[1..] == b && b[1..] == c && c[1..] == d && d[1..] == e && e[1..] == f && f[1..] == [];
    assert FirstInParts(parts) == Either(FirstIn(parts[0]), FirstInParts(a));
    assert FirstInParts(a) == Either(FirstIn(parts[1]), FirstInParts(b));
    assert FirstInParts(b) == Either(FirstIn(parts[2]), FirstInParts(c));
    assert FirstInParts(c) == Either(FirstIn(parts[3]), FirstInParts(d));
    assert FirstInParts(d) == Either(FirstIn(parts[4]), FirstInParts(e));
    assert FirstInParts(e) == Either(FirstIn(parts[5]), FirstInParts(f));
    assert FirstInParts(f) == Either(FirstIn(parts[6]), FirstInParts([]));
  }

  lemma HeadInjects(c: Config)
    ensures FirstIn(HeadLines(c)) == FirstInjected(c)
  {
    FirstInFlat(HeadParts(c));
    SevenParts(HeadParts(c));
    PlainHeader();
    PlainNetwork();
    PlainRestart();
    DescriptionInjects(c);
    ExecInjects(c);
    DirectoryInjects(c);
    UserInjects(c);
  }

  /** For every configuration: the path read back from the unit file is the first one smuggled in by a
      field, else the first line of the log path without trailing whitespace. */
  lemma ParsedPath(c: Config)
    ensures var log := LogPath(c);
      ParseUnitLogPath(RenderUnit(c)) == Either(FirstInjected(c), Some(TrimEnd(log[..FirstNewline(log)])))
  {
    ParseUnlines(UnitLines(c));
    var output := [OUTPUT + LogPath(c)];
    FirstInConcat(HeadLines(c), output);
    FirstInConcat(HeadLines(c) + output,
      ["StandardError=append:" + LogPath(c), "", "[Install]", "WantedBy=multi-user.target"]);
    HeadInjects(c);
    ParseOutput(LogPath(c));
    assert FirstIn(output) == ParseUnitLogPath(OUTPUT + LogPath(c) + "\n");
  }

  lemma LogPathEnds(c: Config)
    ensures var log := LogPath(c); log != "" && log[|log| - 1] == 'g'
  {
  }

  lemma {:induction false} TrimEndShrinks(s: string)
    ensures |TrimEnd(s)| <= |s|
  {
    if s != "" && IsWhitespace(s[|s| - 1]) {
      TrimEndShrinks(s[..|s| - 1]);
    }
  }

  /** The log path comes back exactly if it is a single line and no field smuggles in another one. */
  lemma RoundTripExactly(c: Config)
    ensures ParseUnitLogPath(RenderUnit(c)) == Some(LogPath(c))
            <==> if FirstInjected(c).Some? then FirstInjected(c).value == LogPath(c) else '\n' !in LogPath(c)
  {
    var log := LogPath(c);
    var n := FirstNewline(log);
    ParsedPath(c);
    LogPathEnds(c);
    TrimEndShrinks(log[..n]);
    if n == |log| {
      assert log[..n] == log && TrimEnd(log) == log;
    } else {
      assert log[n] in log;
    }
  }

  lemma OneLineInjectsNothing(value: string)
    requires '\n' !in value
    ensures Injected(value) == None
  {
  }

  lemma PathJoinKeepsOneLine(path: string, part: string)
    requires '\n' !in path && '\n' !in part
    ensures '\n' !in PathJoin(path, part)
  {
  }

  /** In particular whenever no field holds a newline. */
  lemma RoundTrip(c: Config)
    requires '\n' !in c.description && '\n' !in c.binary && '\n' !in c.workingDir && '\n' !in c.serviceName
    requires forall i | 0 <= i < |c.args| :: '\n' !in c.args[i]
    requires c.user.Some? ==> '\n' !in c.user.value
    ensures ParseUnitLogPath(RenderUnit(c)) == Some(LogPath(c))
  {
    OneLineInjectsNothing(c.description);
    QuotedHasNoNewline([c.binary] + c.args);
    OneLineInjectsNothing(ExecStart(c));
    OneLineInjectsNothing(c.workingDir);
    if c.user.Some? {
      OneLineInjectsNothing(c.user.value);
    }
    PathJoinKeepsOneLine(c.workingDir, "log");
    PathJoinKeepsOneLine(PathJoin(c.workingDir, "log"), c.serviceName + ".log");
    RoundTripExactly(c);
  }

  lemma {:induction false} QuotedHasNoNewline(args: seq<string>)
    requires forall i | 0 <= i < |args| :: '\n' !in args[i]
    ensures '\n' !in Spaced(Quoted(args))
  {
    if args != [] {
      ThreePassesEscape(args[0]);
      EscapeHasNoNewline(args[0]);
      assert Quoted(args)[1..] == Quoted(args[1..]);
      QuotedHasNoNewline(args[1..]);
    }
  }

  lemma {:induction false} EscapeHasNoNewline(s: string)
    requires '\n' !in s
    ensures '\n' !in Escape(s)
  {
    if s != "" {
      assert s[0] in s;
      EscapeHasNoNewline(s[1..]);
    }
  }

  /** A description of two lines redirects the log path to wherever its second line says. */
  lemma DescriptionCanRedirect(c: Config, title: string, path: string)
    requires c.description == title + "\n" + (OUTPUT + path) && '\n' !in title
    requires '\n' !in path && path != "" && !IsWhitespace(path[|path| - 1])
    ensures ParseUnitLogPath(RenderUnit(c)) == Some(path)
  {
    FirstNewlineAt(title, OUTPUT + path);
    assert c.description[|title| + 1..] == OUTPUT + path;
    OneLineRead(path);
    ParsedPath(c);
  }

  lemma OneLineRead(path: string)
    requires '\n' !in path && path != "" && !IsWhitespace(path[|path| - 1])
    ensures ParseUnitLogPath(OUTPUT + path + "\n") == Some(path)
  {
    ParseOutput(path);
    assert path[..FirstNewline(path)] == path;
    assert TrimEnd(path) == path;
  }

  // ----- Reading every field back -------------------------------------------------------

  /** The value of the first line that starts with `key`. */
  function Setting(lines: seq<string>, key: string): Option<string> {
    if lines == [] then None
    else if key <= lines[0] then Some(lines[0][|key|..])
    else Setting(lines[1..], key)
  }

  lemma {:induction false} SettingNowhere(lines: seq<string>, key: string)
    requires forall j | 0 <= j < |lines| :: !(key <= lines[j])
    ensures Setting(lines, key) == None
  {
    if lines != [] {
      SettingNowhere(lines[1..], key);
    }
  }

  /** A single line whose end is not taken for part of the line ending. */
  predicate OneLine(s: string) {
    '\n' !in s && (s != "" ==> s[|s| - 1] != '\r')
  }

  lemma {:induction false} LinesOfUnlines(lines: seq<string>)
    requires forall i | 0 <= i < |lines| :: OneLine(lines[i])
    ensures Lines(Unlines(lines)) == lines
  {
    if lines != [] {
      LinesStep(lines[0], Unlines(lines[1..]));
      LinesOfUnlines(lines[1..]);
      assert StripCr(lines[0]) == lines[0];
    }
  }

  lemma {:induction false} SpacedIsOneLine(args: seq<string>)
    requires args != [] && forall i | 0 <= i < |args| :: '\n' !in args[i]
    ensures OneLine(Spaced(Quoted(args))) && Spaced(Quoted(args)) != ""
  {
    QuotedHasNoNewline(args);
    if |args| == 1 {
      var arg := args[0];
      if !NeedsQuote(arg) {
        assert arg[|arg| - 1] in arg;
      }
    } else {
      SpacedFirst(args);
      SpacedIsOneLine(args[1..]);
    }
  }

  ghost predicate OneLineFields(c: Config) {
    && OneLine(c.description) && OneLine(c.workingDir) && '\n' !in c.serviceName
    && (forall i | 0 <= i < |[c.binary] + c.args| :: '\n' !in ([c.binary] + c.args)[i])
    && (c.user.Some? ==> OneLine(c.user.value))
  }

  lemma LogPathIsOneLine(c: Config)
    requires OneLineFields(c)
    ensures OneLine(LogPath(c))
  {
    PathJoinKeepsOneLine(c.workingDir, "log");
    PathJoinKeepsOneLine(PathJoin(c.workingDir, "log"), c.serviceName + ".log");
    LogPathEnds(c);
  }

  ghost predicate OneLineEach(lines: seq<string>) {
    forall i | 0 <= i < |lines| :: OneLine(lines[i])
  }

  lemma {:induction false} FlatIsOneLineEach(parts: seq<seq<string>>)
    requires forall i | 0 <= i < |parts| :: OneLineEach(parts[i])
    ensures OneLineEach(Flat(parts))
  {
    if parts != [] {
      FlatIsOneLineEach(parts[1..]);
    }
  }

  lemma LinesOfUnit(c: Config)
    requires OneLineFields(c)
    ensures Lines(RenderUnit(c)) == UnitLines(c)
  {
    HeadIsOneLineEach(c);
    FlatIsOneLineEach(HeadParts(c));
    LogPathIsOneLine(c);
    LinesOfUnlines(UnitLines(c));
  }

  lemma HeadIsOneLineEach(c: Config)
    requires OneLineFields(c)
    ensures forall i | 0 <= i < |HeadParts(c)| :: OneLineEach(HeadParts(c)[i])
  {
    SpacedIsOneLine([c.binary] + c.args);
    FixedIsOneLine();
    KeyedIsOneLine("Description=", c.description);
    KeyedIsOneLine("ExecStart=", ExecStart(c));
    KeyedIsOneLine("WorkingDirectory=", c.workingDir);
    if c.user.Some? {
      KeyedIsOneLine("User=", c.user.value);
    }
  }

  lemma FixedIsOneLine()
    ensures OneLineEach(UnitHeader()) && OneLineEach(AfterNetwork()) && OneLineEach(Restarting())
  {
    assert OneLine("After=network-online.target") && OneLine("Wants=network-online.target") && OneLine("Type=simple");
  }

  lemma KeyedIsOneLine(key: string, value: string)
    requires OneLine(key) && OneLine(value)
    ensures OneLineEach([key + value])
  {
  }

  lemma {:induction false} SettingConcat(lines: seq<string>, more: seq<string>, key: string)
    ensures Setting(lines + more, key) == Either(Setting(lines, key), Setting(more, key))
  {
    if lines == [] {
      assert lines + more == more;
    } else {
      assert (lines + more)[1..] == lines[1..] + more;
      SettingConcat(lines[1..], more, key);
    }
  }

  lemma {:induction false} SettingInFlat(parts: seq<seq<string>>, key: string, i: nat)
    requires i < |parts| && forall j | 0 <= j < i :: Setting(parts[j], key) == None
    ensures Setting(Flat(parts), key) == Either(Setting(parts[i], key), Setting(Flat(parts[i + 1..]), key))
  {
    SettingConcat(parts[0], Flat(parts[1..]), key);
    if i > 0 {
      SettingInFlat(parts[1..], key, i - 1);
      assert parts[1..][i..] == parts[i + 1..];
    }
  }

  /** No line starts with the letter of the key. */
  lemma OtherLetters(lines: seq<string>, key: string)
    requires key != "" && forall j | 0 <= j < |lines| :: lines[j] == "" || lines[j][0] != key[0]
    ensures Setting(lines, key) == None
  {
    SettingNowhere(lines, key);
  }

  lemma NetworkSets(key: string)
    requires |key| > 1 && key[0] != 'A' && key[0] != '[' && key[0] != 'T' && (key[0] == 'W' ==> key[1] != 'a')
    ensures Setting(AfterNetwork(), key) == None
  {
    forall j | 0 <= j < |AfterNetwork()| ensures !(key <= AfterNetwork()[j]) {
      OtherStart(key, AfterNetwork()[j]);
    }
    SettingNowhere(AfterNetwork(), key);
  }

  lemma OtherStart(key: string, line: string)
    requires |key| > 1 && (|line| <= 1 || line[0] != key[0] || line[1] != key[1])
    ensures !(key <= line)
  {
  }

  lemma OneSetting(key: string, value: string)
    ensures Setting([key + value], key) == Some(value)
  {
  }

  /** From a unit file of one-line fields every field is read back: the first line of each key holds it,
      and the command line splits into the binary and its arguments. */
  lemma UnitReadsBack(c: Config)
    requires OneLineFields(c)
    ensures var lines := Lines(RenderUnit(c));
      && Setting(lines, "Description=") == Some(c.description)
      && Setting(lines, "ExecStart=").Some? && Split(Setting(lines, "ExecStart=").value) == Some([c.binary] + c.args)
      && Setting(lines, "WorkingDirectory=") == Some(c.workingDir)
      && Setting(lines, "User=") == c.user
  {
    LinesOfUnit(c);
    SplitsBack([c.binary] + c.args);
    DescriptionSet(c);
    ExecStartSet(c);
    DirectorySet(c);
    UserSet(c);
  }

  function TailLines(c: Config): seq<string> {
    [OUTPUT + LogPath(c)] + ["StandardError=append:" + LogPath(c), "", "[Install]", "WantedBy=multi-user.target"]
  }

  lemma HeadFirst(c: Config, key: string)
    ensures Setting(UnitLines(c), key) == Either(Setting(HeadLines(c), key), Setting(TailLines(c), key))
  {
    SettingConcat(HeadLines(c), TailLines(c), key);
    assert UnitLines(c) == HeadLines(c) + TailLines(c);
  }

  lemma DescriptionSet(c: Config)
    ensures Setting(UnitLines(c), "Description=") == Some(c.description)
  {
    HeadFirst(c, "Description=");
    OtherLetters(UnitHeader(), "Description=");
    OneSetting("Description=", c.description);
    SettingInFlat(HeadParts(c), "Description=", 1);
  }

  lemma ExecStartSet(c: Config)
    ensures Setting(UnitLines(c), "ExecStart=") == Some(ExecStart(c))
  {
    var key := "ExecStart=";
    HeadFirst(c, key);
    OtherLetters(UnitHeader(), key);
    OtherLetters(DescriptionLine(c), key);
    NetworkSets(key);
    OneSetting(key, ExecStart(c));
    SettingInFlat(HeadParts(c), key, 3);
  }

  lemma DirectorySet(c: Config)
    ensures Setting(UnitLines(c), "WorkingDirectory=") == Some(c.workingDir)
  {
    var key := "WorkingDirectory=";
    HeadFirst(c, key);
    OtherLetters(UnitHeader(), key);
    OtherLetters(DescriptionLine(c), key);
    NetworkSets(key);
    OtherLetters(ExecLine(c), key);
    OneSetting(key, c.workingDir);
    SettingInFlat(HeadParts(c), key, 4);
  }

  lemma UserSet(c: Config)
    ensures Setting(UnitLines(c), "User=") == c.user
  {
    HeadFirst(c, "User=");
    BeforeUser(c);
    UserLineSets(c);
    EndSets(c, "User=");
    SettingInFlat(HeadParts(c), "User=", 5);
  }

  lemma BeforeUser(c: Config)
    ensures forall j | 0 <= j < 5 :: Setting(HeadParts(c)[j], "User=") == None
  {
    var key := "User=";
    OtherLetters(UnitHeader(), key);
    OtherLetters(DescriptionLine(c), key);
    NetworkSets(key);
    OtherLetters(ExecLine(c), key);
    OtherLetters(DirectoryLine(c), key);
  }

  /** Behind the user line no line starts with a letter other than these. */
  lemma EndSets(c: Config, key: string)
    requires key != "" && key[0] !in "RLSW["
    ensures Setting(Flat(HeadParts(c)[6..]), key) == None && Setting(TailLines(c), key) == None
  {
    OtherLetters(Restarting(), key);
    OtherLetters(TailLines(c), key);
    SettingInFlat(HeadParts(c)[6..], key, 0);
    assert HeadParts(c)[6..] == [Restarting()] && HeadParts(c)[6..][1..] == [];
  }

  lemma UserLineSets(c: Config)
    ensures Setting(UserLine(c), "User=") == c.user
  {
    if c.user.Some? {
      OneSetting("User=", c.user.value);
    }
  }

  /** A carriage return before a newline belongs to the line ending. */
  lemma CarriageReturnGoes(line: string, rest: string)
    requires '\n' !in line
    ensures Lines(line + "\r" + "\n" + rest) == [line] + Lines(rest)
  {
    LinesStep(line + "\r", rest);
    assert (line + "\r")[..|line|] == line;
  }

  /** Where the log file is: under `log` in the working directory, unless the service name is absolute. */
  lemma LogPathExactly(c: Config)
    ensures var dir := c.workingDir + if c.workingDir == "" || c.workingDir[|c.workingDir| - 1] == '/' then "" else "/";
      LogPath(c) == if "/" <= c.serviceName then c.serviceName + ".log" else dir + "log/" + c.serviceName + ".log"
  {
    var dir := c.workingDir + if c.workingDir == "" || c.workingDir[|c.workingDir| - 1] == '/' then "" else "/";
    var logs, file := PathJoin(c.workingDir, "log"), c.serviceName + ".log";
    assert "log"[0] == 'l' && "/"[0] == '/';
    assert logs == dir + "log" && logs[|logs| - 1] == "log"[2] == 'g';
    assert file[0] == if c.serviceName == "" then '.' else c.serviceName[0];
    assert dir + "log" + "/" + file == dir + "log/" + c.serviceName + ".log";
  }
}
