/** Quoting of command-line arguments (ProcessPoolLib/ProcessPool.cpp) and the Microsoft
    C runtime's rules for splitting a command line back into arguments. */
module CommandLine {

  /** The parser ends an unquoted argument at these characters. */
  predicate IsSeparator(c: char) {
    c == ' ' || c == '\t'
  }

  /** The characters that make EscapeArgument quote an argument. */
  predicate IsSpecial(c: char) {
    c == ' ' || c == '\t' || c == '\n' || c == '\U{000B}' || c == '"'
  }

  predicate NeedsQuotes(argument: string) {
    exists i | 0 <= i < |argument| :: IsSpecial(argument[i])
  }

  /** A text at which an unquoted argument ends: nothing, or a separator. */
  predicate EndsArgument(tail: string) {
    tail == "" || IsSeparator(tail[0])
  }

  function Slashes(n: nat): (s: string)
    ensures |s| == n
    ensures forall i | 0 <= i < n :: s[i] == '\\'
  {
    seq(n, _ => '\\')
  }

  // ----- The escaper -----

  /** The quoted form of `a` after its opening quote, when `n` backslashes are still to be written. */
  function EscapeFrom(a: string, n: nat): string {
    if a == "" then Slashes(2 * n) + "\""
    else if a[0] == '\\' then EscapeFrom(a[1..], n + 1)
    else if a[0] == '"' then Slashes(2 * n + 1) + "\"" + EscapeFrom(a[1..], 0)
    else Slashes(n) + [a[0]] + EscapeFrom(a[1..], 0)
  }

  function Escape(a: string): string {
    if NeedsQuotes(a) then "\"" + EscapeFrom(a, 0) else a
  }

  /** An argument is left alone exactly if it has none of blank, tab, newline, vertical tab and quote;
      any other is put between quotes. */
  lemma QuotedExactly(a: string)
    ensures Escape(a) == a <==>
              ' ' !in a && '\t' !in a && '\n' !in a && '\U{000B}' !in a && '"' !in a
    ensures Escape(a) != a ==> |Escape(a)| >= 2 && Escape(a)[0] == '"' && Escape(a)[|Escape(a)| - 1] == '"'
  {
    if NeedsQuotes(a) {
      EscapedIsLonger(a, 0);
      assert Escape(a)[|Escape(a)| - 1] == EscapeFrom(a, 0)[|EscapeFrom(a, 0)| - 1];
    }
  }

  /** The quoted form ends in a quote, and drops nothing. */
  lemma {:induction false} EscapedIsLonger(a: string, n: nat)
    ensures |EscapeFrom(a, n)| >= |a| + n + 1
    ensures EscapeFrom(a, n)[|EscapeFrom(a, n)| - 1] == '"'
  {
    if a != "" {
      EscapedIsLonger(a[1..], if a[0] == '\\' then n + 1 else 0);
    }
  }

  /** The whole output, once `a` is processed after `written` with `n` backslashes pending. */
  function Completed(written: string, a: string, n: nat): string {
    written + EscapeFrom(a, n)
  }

  lemma EscapeStep(written: string, a: string, i: nat, n: nat)
    requires i < |a|
    ensures Completed(written, a[i..], n) ==
            if a[i] == '\\' then Completed(written, a[i + 1..], n + 1)
            else Completed(written + Slashes(if a[i] == '"' then n * 2 + 1 else n) + [a[i]], a[i + 1..], 0)
  {
    assert a[i..][1..] == a[i + 1..];
    if a[i] != '\\' {
      var k := if a[i] == '"' then n * 2 + 1 else n;
      assert EscapeFrom(a[i..], n) == Slashes(k) + [a[i]] + EscapeFrom(a[i + 1..], 0);
    }
  }

  method EscapeArgument(argument: string) returns (result: string)
    ensures result == Escape(argument)
  {
    if !NeedsQuotes(argument) {
      return argument;
    }
    var escaped := "\"";
    var numBackslashes: nat := 0;
    var i := 0;
    assert argument[i..] == argument;
    while i < |argument|
      invariant i <= |argument|
      invariant Completed(escaped, argument[i..], numBackslashes) == Completed("\"", argument, 0)
    {
      EscapeStep(escaped, argument, i, numBackslashes);
      var character := argument[i];
      i := i + 1;
      if character == '\\' {
        numBackslashes := numBackslashes + 1;
        continue;
      } else if character == '"' {
        escaped := escaped + Slashes(numBackslashes * 2 + 1) + ['"'];
      } else {
        escaped := escaped + Slashes(numBackslashes) + [character];
      }
      numBackslashes := 0;
    }
    escaped := escaped + (Slashes(numBackslashes * 2) + "\"");
    return escaped;
  }

  // ----- The parser -----

  /** Reads the rest of one argument; `n` backslashes have been read and not yet resolved.
      Before a quote, 2k backslashes stand for k and the quote delimits, 2k+1 stand for k and
      the quote is literal; elsewhere backslashes are literal. Inside quotes, a doubled quote
      is a literal one. The result is the argument and the unread text. */
  function ParseFrom(s: string, quoted: bool, n: nat): (r: (string, string))
    ensures |r.1| <= |s|
    ensures s != "" && (quoted || !IsSeparator(s[0])) ==> |r.1| < |s|
    decreases |s|
  {
    if s == "" then (Slashes(n), "")
    else if s[0] == '\\' then ParseFrom(s[1..], quoted, n + 1)
    else if s[0] == '"' then
      if n % 2 == 1 then Prepend(Slashes(n / 2) + "\"", ParseFrom(s[1..], quoted, 0))
      else if quoted && |s| > 1 && s[1] == '"' then Prepend(Slashes(n / 2) + "\"", ParseFrom(s[2..], quoted, 0))
      else Prepend(Slashes(n / 2), ParseFrom(s[1..], !quoted, 0))
    else if !quoted && IsSeparator(s[0]) then (Slashes(n), s)
    else Prepend(Slashes(n) + [s[0]], ParseFrom(s[1..], quoted, 0))
  }

  function Prepend(head: string, parsed: (string, string)): (string, string) {
    (head + parsed.0, parsed.1)
  }

  function SkipSeparators(s: string): (t: string)
    ensures |t| <= |s|
    ensures t != "" ==> !IsSeparator(t[0])
  {
    if s != "" && IsSeparator(s[0]) then SkipSeparators(s[1..]) else s
  }

  /** All the arguments of a command line, by the rule for arguments after the program name. */
  function ParseArguments(s: string): seq<string>
    decreases |s|
  {
    var t := SkipSeparators(s);
    if t == "" then []
    else
      var parsed := ParseFrom(t, false, 0);
      [parsed.0] + ParseArguments(parsed.1)
  }

  /** The first word of a command line by the special rule for program names: quotes toggle and
      are removed, backslashes are ordinary characters. */
  function ParseProgramName(s: string, quoted: bool): (string, string) {
    if s == "" then ("", "")
    else if s[0] == '"' then ParseProgramName(s[1..], !quoted)
    else if !quoted && IsSeparator(s[0]) then ("", s)
    else Prepend([s[0]], ParseProgramName(s[1..], quoted))
  }

  // ----- Round trip -----

  lemma {:induction false} ParseSlashes(k: nat, u: string, quoted: bool, n: nat)
    ensures ParseFrom(Slashes(k) + u, quoted, n) == ParseFrom(u, quoted, n + k)
  {
    if k == 0 {
      assert Slashes(k) + u == u;
    } else {
      assert (Slashes(k) + u)[1..] == Slashes(k - 1) + u;
      ParseSlashes(k - 1, u, quoted, n + 1);
    }
  }

  /** A literal character or a resolved quote after `k` backslashes. */
  lemma ParseSlashesThen(k: nat, c: char, u: string, quoted: bool)
    ensures ParseFrom(Slashes(k) + [c] + u, quoted, 0) == ParseFrom([c] + u, quoted, k)
  {
    assert Slashes(k) + [c] + u == Slashes(k) + ([c] + u);
    ParseSlashes(k, [c] + u, quoted, 0);
  }

  lemma ParseEscapedEnd(n: nat, tail: string)
    requires EndsArgument(tail)
    ensures ParseFrom(EscapeFrom("", n) + tail, true, 0) == (Slashes(n), tail)
  {
    assert EscapeFrom("", n) + tail == Slashes(2 * n) + ['"'] + tail;
    ParseSlashesThen(2 * n, '"', tail, true);
    assert (['"'] + tail)[1..] == tail;
    assert Slashes(n) + "" == Slashes(n);
  }

  /** How many backslashes are written for `n` of them in front of the character `c`. */
  function Doubled(c: char, n: nat): nat {
    if c == '"' then 2 * n + 1 else n
  }

  lemma EscapedText(a: string, n: nat, tail: string)
    requires a != "" && a[0] != '\\'
    ensures EscapeFrom(a, n) + tail == Slashes(Doubled(a[0], n)) + [a[0]] + (EscapeFrom(a[1..], 0) + tail)
  {
    var k, rest := Doubled(a[0], n), EscapeFrom(a[1..], 0);
    assert EscapeFrom(a, n) == Slashes(k) + [a[0]] + rest;
    assert Slashes(k) + [a[0]] + rest + tail == Slashes(k) + [a[0]] + (rest + tail);
  }

  lemma ParsePending(c: char, rest: string, n: nat)
    requires c != '\\'
    ensures ParseFrom([c] + rest, true, Doubled(c, n)) == Prepend(Slashes(n) + [c], ParseFrom(rest, true, 0))
  {
    var s := [c] + rest;
    assert s[0] == c && s[1..] == rest;
  }

  /** A character other than a backslash, after `n` of them. */
  lemma ParseEscapedChar(a: string, n: nat, tail: string)
    requires a != "" && a[0] != '\\'
    ensures ParseFrom(EscapeFrom(a, n) + tail, true, 0) ==
            Prepend(Slashes(n) + [a[0]], ParseFrom(EscapeFrom(a[1..], 0) + tail, true, 0))
  {
    var rest := EscapeFrom(a[1..], 0) + tail;
    EscapedText(a, n, tail);
    ParseSlashesThen(Doubled(a[0], n), a[0], rest, true);
    ParsePending(a[0], rest, n);
  }

  lemma SlashesInFront(a: string, n: nat)
    requires a != ""
    ensures a[0] == '\\' ==> Slashes(n + 1) + a[1..] == Slashes(n) + a
    ensures Slashes(n) + [a[0]] + a[1..] == Slashes(n) + a
  {
  }

  lemma {:induction false} ParseEscaped(a: string, n: nat, tail: string)
    requires EndsArgument(tail)
    ensures ParseFrom(EscapeFrom(a, n) + tail, true, 0) == (Slashes(n) + a, tail)
    decreases |a|
  {
    if a == "" {
      ParseEscapedEnd(n, tail);
      assert Slashes(n) + a == Slashes(n);
    } else {
      SlashesInFront(a, n);
      if a[0] == '\\' {
        ParseEscaped(a[1..], n + 1, tail);
      } else {
        ParseEscapedChar(a, n, tail);
        ParseEscaped(a[1..], 0, tail);
        assert Slashes(0) + a[1..] == a[1..];
      }
    }
  }

  /** An argument without special characters is read back as it is. */
  lemma {:induction false} ParseBare(a: string, n: nat, tail: string)
    requires !NeedsQuotes(a) && EndsArgument(tail)
    ensures ParseFrom(a + tail, false, n) == (Slashes(n) + a, tail)
    decreases |a|
  {
    if a == "" {
      assert a + tail == tail;
      assert Slashes(n) + a == Slashes(n);
    } else {
      assert !IsSpecial(a[0]);
      assert !NeedsQuotes(a[1..]) by {
        assert forall i | 0 <= i < |a[1..]| :: a[1..][i] == a[i + 1];
      }
      assert (a + tail)[1..] == a[1..] + tail;
      if a[0] == '\\' {
        ParseBare(a[1..], n + 1, tail);
        assert Slashes(n + 1) + a[1..] == Slashes(n) + a;
      } else {
        ParseBare(a[1..], 0, tail);
        assert Slashes(n) + [a[0]] + (Slashes(0) + a[1..]) == Slashes(n) + a;
      }
    }
  }

  /** The escaped form of any argument, even an empty one, is read back as that argument, and
      reading stops exactly where the escaped form ends. */
  lemma EscapedArgumentIsReadBack(a: string, tail: string)
    requires EndsArgument(tail)
    ensures ParseFrom(Escape(a) + tail, false, 0) == (a, tail)
  {
    if NeedsQuotes(a) {
      assert (Escape(a) + tail)[1..] == EscapeFrom(a, 0) + tail;
      ParseEscaped(a, 0, tail);
      assert Slashes(0) + a == a;
      assert Slashes(0) + a == "" + a;
    } else {
      ParseBare(a, 0, tail);
      assert Slashes(0) + a == a;
    }
  }

  lemma EscapeStartsAnArgument(a: string)
    ensures Escape(a) == "" <==> a == ""
    ensures a != "" ==> !IsSeparator(Escape(a)[0])
  {
    if a != "" && !NeedsQuotes(a) {
      assert !IsSpecial(a[0]);
    }
  }

  /** Parsing Escape(a) + " " + t gives a and then the parse of t, for every non-empty a. */
  lemma EscapeRoundTrip(a: string, t: string)
    requires a != ""
    ensures ParseArguments(Escape(a) + " " + t) == [a] + ParseArguments(t)
    ensures ParseArguments(Escape(a)) == [a]
  {
    EscapeStartsAnArgument(a);
    assert Escape(a) + " " + t == Escape(a) + (" " + t);
    EscapedArgumentIsReadBack(a, " " + t);
    assert SkipSeparators(" " + t) == SkipSeparators(t) by {
      assert (" " + t)[1..] == t;
    }
    assert Escape(a) + "" == Escape(a);
    EscapedArgumentIsReadBack(a, "");
  }

  lemma EscapeIsInjective(a: string, b: string)
    requires Escape(a) == Escape(b)
    ensures a == b
  {
    EscapedArgumentIsReadBack(a, "");
    EscapedArgumentIsReadBack(b, "");
  }

  /** A whole command line: the escaped arguments separated by single spaces. */
  function JoinEscaped(arguments: seq<string>): string {
    if arguments == [] then ""
    else if |arguments| == 1 then Escape(arguments[0])
    else Escape(arguments[0]) + " " + JoinEscaped(arguments[1..])
  }

  function NonEmpty(arguments: seq<string>): (r: seq<string>)
    ensures |r| <= |arguments|
    ensures |r| == |arguments| <==> "" !in arguments
    ensures "" !in arguments ==> r == arguments
  {
    if arguments == [] then []
    else
      assert arguments == [arguments[0]] + arguments[1..];
      (if arguments[0] == "" then [] else [arguments[0]]) + NonEmpty(arguments[1..])
  }

  /** What survives a command line is exactly the non-empty arguments, in order. */
  lemma {:induction false} JoinedArgumentsParse(arguments: seq<string>)
    ensures ParseArguments(JoinEscaped(arguments)) == NonEmpty(arguments)
  {
    if |arguments| == 1 {
      assert arguments[1..] == [];
      if arguments[0] != "" {
        EscapeRoundTrip(arguments[0], "");
      }
    } else if |arguments| > 1 {
      JoinedArgumentsParse(arguments[1..]);
      OneMoreArgument(arguments[0], JoinEscaped(arguments[1..]));
    }
  }

  lemma OneMoreArgument(a: string, line: string)
    ensures ParseArguments(Escape(a) + " " + line) == (if a == "" then [] else [a]) + ParseArguments(line)
  {
    if a == "" {
      assert Escape(a) + " " + line == " " + line;
      LeadingSpace(line);
    } else {
      EscapeRoundTrip(a, line);
    }
  }

  lemma LeadingSpace(s: string)
    ensures ParseArguments(" " + s) == ParseArguments(s)
  {
    assert (" " + s)[1..] == s;
  }

  /** Escaping round-trips a list of arguments exactly when none of them is empty: the empty
      argument is written as nothing at all, without quotes. */
  lemma CommandLineRoundTrip(arguments: seq<string>)
    ensures ParseArguments(JoinEscaped(arguments)) == arguments <==> "" !in arguments
  {
    JoinedArgumentsParse(arguments);
  }

  /** The command line the pool builds from its process name and its raw argument text. */
  function PoolCommandLine(process: string, arguments: string): string {
    Escape(process) + " " + arguments
  }

  lemma PoolCommandLineParses(process: string, arguments: string)
    ensures ParseArguments(PoolCommandLine(process, arguments)) ==
            (if process == "" then [] else [process]) + ParseArguments(arguments)
  {
    OneMoreArgument(process, arguments);
  }

  // ----- The program-name rule -----

  /** How many backslashes `Slashes(n) + a` ends with. */
  function TrailingSlashes(a: string, n: nat): (k: nat)
    ensures k > 0 <==> (if a == "" then n > 0 else a[|a| - 1] == '\\')
  {
    if a == "" then n
    else if a[0] == '\\' then TrailingSlashes(a[1..], n + 1)
    else TrailingSlashes(a[1..], 0)
  }

  lemma {:induction false} EscapeWithoutQuotes(a: string, n: nat)
    requires '"' !in a
    ensures EscapeFrom(a, n) == Slashes(n) + a + Slashes(TrailingSlashes(a, n)) + "\""
    decreases |a|
  {
    if a == "" {
      assert Slashes(2 * n) == Slashes(n) + Slashes(n);
      assert Slashes(n) + a == Slashes(n);
    } else if a[0] == '\\' {
      EscapeWithoutQuotes(a[1..], n + 1);
      assert Slashes(n + 1) + a[1..] == Slashes(n) + a;
    } else {
      EscapeWithoutQuotes(a[1..], 0);
      assert Slashes(n) + [a[0]] + (Slashes(0) + a[1..]) == Slashes(n) + a;
    }
  }

  lemma {:induction false} QuotedProgramName(x: string, tail: string)
    requires '"' !in x && EndsArgument(tail)
    ensures ParseProgramName(x + "\"" + tail, true) == (x, tail)
  {
    if x == "" {
      assert (x + "\"" + tail)[1..] == tail;
    } else {
      assert (x + "\"" + tail)[1..] == x[1..] + "\"" + tail;
      QuotedProgramName(x[1..], tail);
      assert x == [x[0]] + x[1..];
    }
  }

  lemma {:induction false} BareProgramName(a: string, tail: string)
    requires !NeedsQuotes(a) && EndsArgument(tail)
    ensures ParseProgramName(a + tail, false) == (a, tail)
  {
    if a == "" {
      assert a + tail == tail;
    } else {
      assert !IsSpecial(a[0]);
      assert !NeedsQuotes(a[1..]) by {
        assert forall i | 0 <= i < |a[1..]| :: a[1..][i] == a[i + 1];
      }
      assert (a + tail)[1..] == a[1..] + tail;
      assert a == [a[0]] + a[1..];
      BareProgramName(a[1..], tail);
    }
  }

  lemma {:induction false} ProgramNameHasNoQuotes(s: string, quoted: bool)
    ensures '"' !in ParseProgramName(s, quoted).0
  {
    if s != "" && (s[0] == '"' || quoted || !IsSeparator(s[0])) {
      ProgramNameHasNoQuotes(s[1..], if s[0] == '"' then !quoted else quoted);
    }
  }

  /** The pool puts an escaped name in the program-name position, whose rule does not know
      backslash escapes. The name is read back exactly when escaping left its backslashes and
      quotes alone: it contains no quote, and if it had to be quoted it ends in no backslash. */
  lemma ProgramNameRoundTrip(process: string, arguments: string)
    ensures ParseProgramName(PoolCommandLine(process, arguments), false) == (process, " " + arguments) <==>
            && '"' !in process
            && (' ' in process || '\t' in process || '\n' in process || '\U{000B}' in process ==>
                  process[|process| - 1] != '\\')
  {
    var tail := " " + arguments;
    var line := PoolCommandLine(process, arguments);
    QuotedExactly(process);
    assert line == Escape(process) + tail;
    if '"' in process {
      ProgramNameHasNoQuotes(line, false);
    } else if NeedsQuotes(process) {
      QuotedNameIsRead(process, tail);
      var k := TrailingSlashes(process, 0);
      assert |process + Slashes(k)| == |process| + k;
      assert k == 0 ==> process + Slashes(k) == process;
    } else {
      BareProgramName(process, tail);
    }
  }

  /** An argument that is quoted but has no quotes of its own: only its last backslashes double. */
  lemma QuotedWithoutQuotes(a: string)
    requires NeedsQuotes(a) && '"' !in a
    ensures Escape(a) == "\"" + (a + Slashes(TrailingSlashes(a, 0)) + "\"")
  {
    EscapeWithoutQuotes(a, 0);
    assert Slashes(0) + a == a;
  }

  lemma QuotedNameIsRead(process: string, tail: string)
    requires NeedsQuotes(process) && '"' !in process && EndsArgument(tail)
    ensures ParseProgramName(Escape(process) + tail, false) ==
            (process + Slashes(TrailingSlashes(process, 0)), tail)
  {
    var x := process + Slashes(TrailingSlashes(process, 0));
    QuotedWithoutQuotes(process);
    assert '"' !in x;
    QuotedProgramName(x, tail);
    OpeningQuote(x + "\"" + tail);
    Regroup("\"", x + "\"", tail);
  }

  lemma Regroup(a: string, b: string, c: string)
    ensures (a + b) + c == a + (b + c)
  {
  }

  lemma OpeningQuote(s: string)
    ensures ParseProgramName("\"" + s, false) == ParseProgramName(s, true)
  {
    assert ("\"" + s)[1..] == s;
  }
}
