/**
 * `CommandValidator`: the allowlist check, the metacharacter filter and the
 * whitespace tokeniser. The class has no state, so its methods are functions.
 */
module Validator {
  import opened Wrappers
  import opened Text
  import opened Errors
  import opened Allowlist

  const CommandNotAllowed := "不允許的命令"
  const ArgumentNotAllowed := "不允許的參數"

  // ---------------------------------------------------------------------------
  // validateCommand

  /** Every argument is literally one of `allowed` (`allowedArgs.includes(arg)`). */
  predicate AllListed(args: seq<string>, allowed: seq<string>) {
    forall i :: 0 <= i < |args| ==> args[i] in allowed
  }

  /** The argument check of `validateCommand`: it applies only to a non-empty list and a config with `allowedArgs`. */
  predicate ArgsAccepted(config: CommandConfig, args: seq<string>) {
    |args| == 0 || config.allowedArgs.None? || AllListed(args, config.allowedArgs.value)
  }

  /**
   * `validateCommand(command, args)` against `table`: the config stored under
   * `shell.` + command, or the error thrown.
   */
  function ValidateCommandIn(table: Table, command: string, args: seq<string>): (r: Result<CommandConfig, Error>)
    ensures !HasKey(table, ShellPrefix + command) <==> r == Failure(Plain(CommandNotAllowed))
    ensures HasKey(table, ShellPrefix + command) ==>
              var config := Lookup(table, ShellPrefix + command).value;
              (r == Success(config) <==> ArgsAccepted(config, args))
              && (r == Failure(Plain(ArgumentNotAllowed)) <==> !ArgsAccepted(config, args))
  {
    match Lookup(table, ShellPrefix + command)
    case None => Failure(Plain(CommandNotAllowed))
    case Some(config) =>
      if |args| > 0 && config.allowedArgs.Some? && exists i :: 0 <= i < |args| && args[i] !in config.allowedArgs.value
      then Failure(Plain(ArgumentNotAllowed))
      else Success(config)
  }

  /** `validateCommand` over the shipped `allowedCommands`. */
  function ValidateCommand(command: string, args: seq<string>): Result<CommandConfig, Error> {
    ValidateCommandIn(AllowedCommands, command, args)
  }

  /** When the entry has no `allowedArgs`, or no arguments are given, every argument list is accepted. */
  lemma UnrestrictedArgsAccepted(table: Table, command: string, args: seq<string>)
    requires HasKey(table, ShellPrefix + command)
    requires Lookup(table, ShellPrefix + command).value.allowedArgs.None? || |args| == 0
    ensures ValidateCommandIn(table, command, args) == Success(Lookup(table, ShellPrefix + command).value)
  {
  }

  /** One argument outside a non-empty `allowedArgs` list is enough to reject the call. */
  lemma UnlistedArgumentRejected(table: Table, command: string, args: seq<string>, i: nat)
    requires HasKey(table, ShellPrefix + command)
    requires Lookup(table, ShellPrefix + command).value.allowedArgs.Some?
    requires i < |args| && args[i] !in Lookup(table, ShellPrefix + command).value.allowedArgs.value
    ensures ValidateCommandIn(table, command, args) == Failure(Plain(ArgumentNotAllowed))
  {
  }

  /** A key that starts with `shell.` is never one of the shipped keys. */
  lemma ShellKeyNotShipped(command: string)
    ensures !HasKey(AllowedCommands, ShellPrefix + command)
  {
    NoKeyHasShellPrefix();
    assert StartsWith(ShellPrefix + command, ShellPrefix);
  }

  /**
   * With the shipped table every command is rejected: `validateCommand` looks
   * up `shell.` + command, and no shipped key carries that prefix.
   */
  lemma ShippedTableRejectsEveryCommand(command: string, args: seq<string>)
    ensures ValidateCommand(command, args) == Failure(Plain(CommandNotAllowed))
  {
    ShellKeyNotShipped(command);
  }

  // ---------------------------------------------------------------------------
  // sanitizeInput

  /** The characters `input.replace(/[;&|`$]/g, '')` removes. */
  predicate IsMeta(c: char) {
    c == ';' || c == '&' || c == '|' || c == '`' || c == '$'
  }

  predicate NoMeta(s: string) {
    forall i :: 0 <= i < |s| ==> !IsMeta(s[i])
  }

  /** `sanitizeInput`: deletes every shell metacharacter and keeps the rest in order. */
  function SanitizeInput(s: string): (r: string)
    ensures NoMeta(r)
    ensures |r| <= |s|
  {
    if |s| == 0 then ""
    else (if IsMeta(s[0]) then "" else [s[0]]) + SanitizeInput(s[1..])
  }

  lemma {:induction false} SanitizeAppend(a: string, b: string)
    ensures SanitizeInput(a + b) == SanitizeInput(a) + SanitizeInput(b)
    decreases |a|
  {
    if |a| == 0 {
      assert a + b == b;
    } else {
      assert (a + b)[1..] == a[1..] + b;
      SanitizeAppend(a[1..], b);
    }
  }

  /** Each character other than a metacharacter keeps its number of occurrences; metacharacters disappear. */
  lemma {:induction false} SanitizeCounts(s: string)
    ensures forall c :: multiset(SanitizeInput(s))[c] == if IsMeta(c) then 0 else multiset(s)[c]
    decreases |s|
  {
    if |s| > 0 {
      SanitizeCounts(s[1..]);
      assert s == [s[0]] + s[1..];
    }
  }

  /** The input is returned unchanged exactly when it holds no metacharacter. */
  lemma {:induction false} SanitizeFixedIff(s: string)
    ensures SanitizeInput(s) == s <==> NoMeta(s)
    decreases |s|
  {
    if |s| > 0 {
      SanitizeFixedIff(s[1..]);
      if IsMeta(s[0]) {
        assert |SanitizeInput(s)| < |s| by {
          assert |SanitizeInput(s[1..])| <= |s[1..]|;
        }
      } else {
        assert NoMeta(s) <==> NoMeta(s[1..]) by {
          if NoMeta(s[1..]) {
            forall i | 0 <= i < |s| ensures !IsMeta(s[i]) {
              if i > 0 { assert s[i] == s[1..][i - 1]; }
            }
          }
        }
        assert SanitizeInput(s) == s <==> SanitizeInput(s[1..]) == s[1..] by {
          assert s == [s[0]] + s[1..];
        }
      }
    }
  }

  /** Sanitising twice is the same as sanitising once. */
  lemma SanitizeIdempotent(s: string)
    ensures SanitizeInput(SanitizeInput(s)) == SanitizeInput(s)
  {
    SanitizeFixedIff(SanitizeInput(s));
  }

  lemma SanitizeSingleMeta(m: string)
    requires |m| == 1 && IsMeta(m[0])
    ensures SanitizeInput(m) == ""
  {
    assert m[1..] == "";
  }

  /** Deleting one metacharacter between two clean texts just joins them. */
  lemma SanitizeDropsOne(a: string, m: string, c: string)
    requires NoMeta(a) && NoMeta(c) && |m| == 1 && IsMeta(m[0])
    ensures SanitizeInput(a + m + c) == a + c
  {
    var am := a + m;
    SanitizeAppend(am, c);
    SanitizeAppend(a, m);
    SanitizeSingleMeta(m);
    SanitizeFixedIff(a);
    SanitizeFixedIff(c);
    calc {
      SanitizeInput(am + c);
      SanitizeInput(am) + SanitizeInput(c);
      (SanitizeInput(a) + SanitizeInput(m)) + SanitizeInput(c);
      (a + "") + c;
      { assert a + "" == a; }
      a + c;
    }
  }

  /** `sanitizeInput('ls | grep test')` is `'ls  grep test'`. */
  lemma SanitizePipeExample(s: string)
    requires s == "ls | grep test"
    ensures SanitizeInput(s) == "ls  grep test"
  {
    assert s == "ls " + "|" + " grep test";
    SanitizeDropsOne("ls ", "|", " grep test");
  }

  /**
   * `sanitizeInput('echo hello; rm -rf /')` is `'echo hello rm -rf /'`: the
   * semicolon is deleted, not replaced, so one blank remains between the words.
   */
  lemma SanitizeSemicolonExample(s: string)
    requires s == "echo hello; rm -rf /"
    ensures SanitizeInput(s) == "echo hello rm -rf /"
  {
    assert s == "echo hello" + ";" + " rm -rf /";
    SanitizeDropsOne("echo hello", ";", " rm -rf /");
  }

  // ---------------------------------------------------------------------------
  // parseCommand

  /** JavaScript's white space and line terminators: the characters `trim` removes and `\s` matches. */
  predicate IsSpace(c: char) {
    c == '\t' || c == '\n' || c == '\U{000B}' || c == '\U{000C}' || c == '\r' || c == ' '
    || c == '\U{00A0}' || c == '\U{1680}' || ('\U{2000}' <= c <= '\U{200A}')
    || c == '\U{2028}' || c == '\U{2029}' || c == '\U{202F}' || c == '\U{205F}'
    || c == '\U{3000}' || c == '\U{FEFF}'
  }

  predicate NoSpace(s: string) {
    forall i :: 0 <= i < |s| ==> !IsSpace(s[i])
  }

  predicate AllSpace(s: string) {
    forall i :: 0 <= i < |s| ==> IsSpace(s[i])
  }

  /** Length of the run of white space that starts `s`. */
  function LeadingSpaces(s: string): (k: nat)
    ensures k <= |s| && AllSpace(s[..k])
    ensures k < |s| ==> !IsSpace(s[k])
  {
    if |s| > 0 && IsSpace(s[0]) then
      var k := 1 + LeadingSpaces(s[1..]);
      assert s[..k] == [s[0]] + s[1..][..k - 1];
      k
    else 0
  }

  /** Length of the run of white space that ends `s`. */
  function TrailingSpaces(s: string): (k: nat)
    ensures k <= |s| && AllSpace(s[|s| - k..])
    ensures k < |s| ==> !IsSpace(s[|s| - k - 1])
  {
    if |s| > 0 && IsSpace(s[|s| - 1]) then
      var k := 1 + TrailingSpaces(s[..|s| - 1]);
      assert s[|s| - k..] == s[..|s| - 1][|s| - k..] + [s[|s| - 1]];
      k
    else 0
  }

  /** `s.trim()`: the middle of `s` between a leading and a trailing run of white space. */
  function Trim(s: string): (r: string)
    ensures AllSpace(s) <==> r == ""
    ensures r != "" ==> !IsSpace(r[0]) && !IsSpace(r[|r| - 1])
    ensures exists i :: 0 <= i <= |s| - |r| && r == s[i..i + |r|] && AllSpace(s[..i]) && AllSpace(s[i + |r|..])
  {
    var a := LeadingSpaces(s);
    if a == |s| then
      assert s[..0] == [] && s[0..0] == "";
      assert s[..a] == s;
      ""
    else
      var t := s[a..];
      var b := TrailingSpaces(t);
      assert b < |t| by { assert !IsSpace(t[0]); }
      var r := t[..|t| - b];
      assert r == s[a..a + |r|];
      assert s[a + |r|..] == t[|t| - b..];
      assert !AllSpace(s) by { assert !IsSpace(s[a]); }
      r
  }

  /** Index of the first white-space character of `s`, or `|s|` when there is none. */
  function FirstSpace(s: string): (k: nat)
    ensures k <= |s| && NoSpace(s[..k])
    ensures k < |s| ==> IsSpace(s[k])
  {
    if |s| == 0 || IsSpace(s[0]) then 0
    else
      var k := 1 + FirstSpace(s[1..]);
      assert s[..k] == [s[0]] + s[1..][..k - 1];
      k
  }

  /**
   * `s.split(/\s+/)`: the pieces between maximal runs of white space. An empty
   * string gives `[""]`, and a run at either end gives an empty first or last piece.
   */
  function SplitOnSpaceRuns(s: string): (parts: seq<string>)
    ensures |parts| >= 1
    ensures forall i :: 0 <= i < |parts| ==> NoSpace(parts[i])
    decreases |s|
  {
    var k := FirstSpace(s);
    if k == |s| then
      assert s[..k] == s;
      [s]
    else
      var m := LeadingSpaces(s[k..]);
      [s[..k]] + SplitOnSpaceRuns(s[k..][m..])
  }

  /**
   * Reference reading of the split: `s` with every maximal run of white space
   * replaced by one blank.
   */
  function CollapseSpaces(s: string): string
    decreases |s|
  {
    if |s| == 0 then ""
    else if IsSpace(s[0]) then " " + CollapseSpaces(s[LeadingSpaces(s)..])
    else [s[0]] + CollapseSpaces(s[1..])
  }

  lemma {:induction false} CollapseWord(w: string, t: string)
    requires NoSpace(w)
    ensures CollapseSpaces(w + t) == w + CollapseSpaces(t)
    decreases |w|
  {
    if |w| > 0 {
      assert (w + t)[0] == w[0] && (w + t)[1..] == w[1..] + t;
      CollapseWord(w[1..], t);
    } else {
      assert w + t == t;
    }
  }

  lemma JoinCons(w: string, ws: seq<string>, sep: string)
    requires |ws| >= 1
    ensures Join([w] + ws, sep) == w + sep + Join(ws, sep)
  {
    assert ([w] + ws)[1..] == ws;
  }

  /** Collapsing a text whose first word ends at `k`: the word, one blank, then the collapsed rest after the run. */
  lemma {:induction false} CollapseAtFirstRun(s: string, k: nat)
    requires k == FirstSpace(s) && k < |s|
    ensures CollapseSpaces(s) == s[..k] + " " + CollapseSpaces(s[k..][LeadingSpaces(s[k..])..])
  {
    var rest := s[k..];
    assert s == s[..k] + rest;
    CollapseWord(s[..k], rest);
    assert IsSpace(rest[0]);
    assert CollapseSpaces(rest) == " " + CollapseSpaces(rest[LeadingSpaces(rest)..]);
  }

  /** Joining the pieces with single blanks gives the collapsed input. */
  lemma {:induction false} SplitJoinsToCollapsed(s: string)
    ensures Join(SplitOnSpaceRuns(s), " ") == CollapseSpaces(s)
    decreases |s|
  {
    var k := FirstSpace(s);
    if k == |s| {
      assert s[..k] == s;
      CollapseWord(s, "");
      assert s + "" == s;
    } else {
      var tail := s[k..][LeadingSpaces(s[k..])..];
      SplitJoinsToCollapsed(tail);
      CollapseAtFirstRun(s, k);
      JoinCons(s[..k], SplitOnSpaceRuns(tail), " ");
    }
  }

  lemma FirstSpaceOfWord(w: string, t: string)
    requires NoSpace(w) && |t| > 0 && IsSpace(t[0])
    ensures FirstSpace(w + t) == |w|
    decreases |w|
  {
    if |w| > 0 {
      assert (w + t)[1..] == w[1..] + t;
      FirstSpaceOfWord(w[1..], t);
    }
  }

  /** Splitting the single-blank join of non-empty, blank-free words gives the words back. */
  lemma {:induction false} SplitJoinRoundTrip(ws: seq<string>)
    requires |ws| >= 1
    requires forall i :: 0 <= i < |ws| ==> ws[i] != "" && NoSpace(ws[i])
    ensures SplitOnSpaceRuns(Join(ws, " ")) == ws
    decreases |ws|
  {
    var w := ws[0];
    if |ws| == 1 {
      assert FirstSpace(w) == |w|;
      assert w[..|w|] == w;
    } else {
      var rest := ws[1..];
      var t := Join(rest, " ");
      SplitJoinRoundTrip(rest);
      JoinCons(w, rest, " ");
      assert ws == [w] + rest;
      var s := w + " " + t;
      assert s == w + (" " + t);
      FirstSpaceOfWord(w, " " + t);
      assert s[..|w|] == w;
      assert s[|w|..] == " " + t;
      assert t[0] == rest[0][0] by { JoinHead(rest, " "); }
      assert LeadingSpaces(" " + t) == 1 by {
        assert (" " + t)[1..] == t;
      }
      assert (" " + t)[1..] == t;
    }
  }

  lemma {:induction false} JoinHead(ws: seq<string>, sep: string)
    requires |ws| >= 1 && ws[0] != ""
    ensures Join(ws, sep) != "" && Join(ws, sep)[0] == ws[0][0]
  {
    if |ws| > 1 {
      JoinCons(ws[0], ws[1..], sep);
      assert ws == [ws[0]] + ws[1..];
    }
  }

  /** Splitting a trimmed, non-empty text yields only non-empty pieces. */
  lemma {:induction false} SplitTrimmedNonEmpty(s: string)
    requires s != "" && !IsSpace(s[0]) && !IsSpace(s[|s| - 1])
    ensures forall i :: 0 <= i < |SplitOnSpaceRuns(s)| ==> SplitOnSpaceRuns(s)[i] != ""
    decreases |s|
  {
    var k := FirstSpace(s);
    if k < |s| {
      var rest := s[k..];
      var m := LeadingSpaces(rest);
      var tail := rest[m..];
      assert m < |rest| by { assert !IsSpace(rest[|rest| - 1]); }
      assert tail[|tail| - 1] == s[|s| - 1];
      SplitTrimmedNonEmpty(tail);
      var parts := SplitOnSpaceRuns(s);
      assert parts == [s[..k]] + SplitOnSpaceRuns(tail);
      forall i | 0 <= i < |parts| ensures parts[i] != "" {
        if i > 0 { assert parts[i] == SplitOnSpaceRuns(tail)[i - 1]; }
      }
    }
  }

  /** The pieces `parseCommand` works on: `input.trim().split(/\s+/)`. */
  function Words(input: string): (parts: seq<string>)
    ensures |parts| >= 1
    ensures forall i :: 0 <= i < |parts| ==> NoSpace(parts[i])
    ensures AllSpace(input) <==> parts == [""]
    ensures !AllSpace(input) ==> forall i :: 0 <= i < |parts| ==> parts[i] != ""
  {
    var t := Trim(input);
    if t == "" then
      assert FirstSpace(t) == 0;
      SplitOnSpaceRuns(t)
    else
      SplitTrimmedNonEmpty(t);
      SplitOnSpaceRuns(t)
  }

  /** `args.map(arg => sanitizeInput(arg))` */
  function SanitizeAll(args: seq<string>): (r: seq<string>)
    ensures |r| == |args| && forall i :: 0 <= i < |args| ==> r[i] == SanitizeInput(args[i])
  {
    seq(|args|, i requires 0 <= i < |args| => SanitizeInput(args[i]))
  }

  /** `parseCommand`: the first piece is the command, the others the arguments, each sanitised. */
  function ParseCommand(input: string): (r: (string, seq<string>))
    ensures r.0 == SanitizeInput(Words(input)[0])
    ensures |r.1| == |Words(input)| - 1
    ensures forall i :: 0 <= i < |r.1| ==> r.1[i] == SanitizeInput(Words(input)[i + 1])
  {
    var parts := Words(input);
    var args := parts[1..];
    assert forall i :: 0 <= i < |args| ==> args[i] == parts[i + 1];
    (SanitizeInput(parts[0]), SanitizeAll(args))
  }

  /** Empty or blank input parses to an empty command and no arguments, without an error. */
  lemma ParseBlank(input: string)
    requires AllSpace(input)
    ensures ParseCommand(input) == ("", [])
  {
  }

  /** Splitting depends only on where the runs of white space are: a text splits like its collapsed form. */
  lemma SplitAsCollapsed(s: string)
    requires s != "" && !IsSpace(s[0]) && !IsSpace(s[|s| - 1])
    ensures SplitOnSpaceRuns(s) == SplitOnSpaceRuns(CollapseSpaces(s))
  {
    SplitTrimmedNonEmpty(s);
    SplitJoinsToCollapsed(s);
    SplitJoinRoundTrip(SplitOnSpaceRuns(s));
  }

  lemma {:induction false} LeadingSpacesOf(g: string, t: string)
    requires AllSpace(g) && (t == "" || !IsSpace(t[0]))
    ensures LeadingSpaces(g + t) == |g|
    decreases |g|
  {
    if |g| > 0 {
      assert (g + t)[1..] == g[1..] + t;
      LeadingSpacesOf(g[1..], t);
    } else {
      assert g + t == t;
    }
  }

  lemma {:induction false} TrailingSpacesOf(t: string, g: string)
    requires AllSpace(g) && (t == "" || !IsSpace(t[|t| - 1]))
    ensures TrailingSpaces(t + g) == |g|
    decreases |g|
  {
    if |g| > 0 {
      var g' := g[..|g| - 1];
      assert (t + g)[..|t + g| - 1] == t + g';
      TrailingSpacesOf(t, g');
    } else {
      assert t + g == t;
    }
  }

  /** `trim` is determined: a text framed by white-space runs trims to the text itself. */
  lemma TrimUnique(s: string, lead: string, t: string, trail: string)
    requires s == lead + t + trail && AllSpace(lead) && AllSpace(trail)
    requires t != "" && !IsSpace(t[0]) && !IsSpace(t[|t| - 1])
    ensures Trim(s) == t
  {
    assert s == lead + (t + trail);
    LeadingSpacesOf(lead, t + trail);
    assert s[|lead|..] == t + trail;
    TrailingSpacesOf(t, trail);
    assert (t + trail)[..|t|] == t;
  }

  lemma {:induction false} FirstSpaceAbsent(w: string)
    requires NoSpace(w)
    ensures FirstSpace(w) == |w|
    decreases |w|
  {
    if |w| > 0 {
      FirstSpaceAbsent(w[1..]);
    }
  }

  /** A word, a run of white space and a text starting with a non-blank split into the word and the text's pieces. */
  lemma SplitWordGap(w: string, g: string, rest: string)
    requires NoSpace(w) && g != "" && AllSpace(g) && rest != "" && !IsSpace(rest[0])
    ensures SplitOnSpaceRuns(w + g + rest) == [w] + SplitOnSpaceRuns(rest)
  {
    var s := w + g + rest;
    assert s == w + (g + rest);
    FirstSpaceOfWord(w, g + rest);
    assert s[..|w|] == w;
    assert s[|w|..] == g + rest;
    LeadingSpacesOf(g, rest);
    assert (g + rest)[|g|..] == rest;
  }

  /** When every piece is free of metacharacters, `parseCommand` returns the pieces themselves. */
  lemma ParseCleanWords(input: string)
    requires forall i :: 0 <= i < |Words(input)| ==> NoMeta(Words(input)[i])
    ensures ParseCommand(input) == (Words(input)[0], Words(input)[1..])
  {
    var ws := Words(input);
    forall i | 0 <= i < |ws| ensures SanitizeInput(ws[i]) == ws[i] {
      SanitizeFixedIff(ws[i]);
    }
    var r := ParseCommand(input);
    assert r.1 == ws[1..];
  }

  lemma WordsUnfold(input: string)
    ensures Words(input) == SplitOnSpaceRuns(Trim(input))
  {
  }

  lemma SplitTwoGaps(w1: string, g1: string, w2: string, g2: string, w3: string)
    requires w1 != "" && w2 != "" && w3 != "" && NoSpace(w1) && NoSpace(w2) && NoSpace(w3)
    requires g1 != "" && g2 != "" && AllSpace(g1) && AllSpace(g2)
    ensures SplitOnSpaceRuns(w1 + g1 + w2 + g2 + w3) == [w1, w2, w3]
  {
    var rest := w2 + g2 + w3;
    assert rest[0] == w2[0];
    assert w1 + g1 + w2 + g2 + w3 == w1 + g1 + rest;
    SplitWordGap(w1, g1, rest);
    SplitWordGap(w2, g2, w3);
    FirstSpaceAbsent(w3);
    assert w3[..|w3|] == w3;
  }

  /** Three words separated by runs of white space, with trailing blanks, parse into those words. */
  lemma ThreeWords(w1: string, g1: string, w2: string, g2: string, w3: string, g3: string)
    requires w1 != "" && w2 != "" && w3 != "" && NoSpace(w1) && NoSpace(w2) && NoSpace(w3)
    requires g1 != "" && g2 != "" && AllSpace(g1) && AllSpace(g2) && AllSpace(g3)
    ensures Words(w1 + g1 + w2 + g2 + w3 + g3) == [w1, w2, w3]
  {
    var t := w1 + g1 + w2 + g2 + w3;
    var x := w1 + g1 + w2 + g2 + w3 + g3;
    assert t[0] == w1[0] && t[|t| - 1] == w3[|w3| - 1];
    assert x == "" + t + g3;
    TrimUnique(x, "", t, g3);
    SplitTwoGaps(w1, g1, w2, g2, w3);
    WordsUnfold(x);
  }

  /** `parseCommand('ls   -l    -a  ')` is `('ls', ['-l', '-a'])`. */
  lemma ParseExtraBlanksExample(input: string)
    requires input == "ls   -l    -a  "
    ensures ParseCommand(input) == ("ls", ["-l", "-a"])
  {
    var w1, g1, w2, g2, w3, g3 := ExtraBlanksPieces(input);
    ParseThreeCleanWords(w1, g1, w2, g2, w3, g3);
  }

  /** Three metacharacter-free words separated by white space parse into the command and two arguments. */
  lemma ParseThreeCleanWords(w1: string, g1: string, w2: string, g2: string, w3: string, g3: string)
    requires w1 != "" && w2 != "" && w3 != "" && NoSpace(w1) && NoSpace(w2) && NoSpace(w3)
    requires NoMeta(w1) && NoMeta(w2) && NoMeta(w3)
    requires g1 != "" && g2 != "" && AllSpace(g1) && AllSpace(g2) && AllSpace(g3)
    ensures ParseCommand(w1 + g1 + w2 + g2 + w3 + g3) == (w1, [w2, w3])
  {
    var input := w1 + g1 + w2 + g2 + w3 + g3;
    ThreeWords(w1, g1, w2, g2, w3, g3);
    SanitizeFixedIff(w1);
    SanitizeFixedIff(w2);
    SanitizeFixedIff(w3);
    var r := ParseCommand(input);
    assert r.0 == w1;
    assert |r.1| == 2 && r.1[0] == w2 && r.1[1] == w3;
    assert r.1 == [w2, w3];
  }

  lemma ExtraBlanksPieces(input: string) returns (w1: string, g1: string, w2: string, g2: string, w3: string, g3: string)
    requires input == "ls   -l    -a  "
    ensures input == w1 + g1 + w2 + g2 + w3 + g3
    ensures w1 == "ls" && w2 == "-l" && w3 == "-a" && w1 != "" && w2 != "" && w3 != ""
    ensures NoSpace(w1) && NoSpace(w2) && NoSpace(w3) && NoMeta(w1) && NoMeta(w2) && NoMeta(w3)
    ensures g1 != "" && g2 != "" && AllSpace(g1) && AllSpace(g2) && AllSpace(g3)
  {
    w1, g1, w2, g2, w3, g3 := "ls", "   ", "-l", "    ", "-a", "  ";
  }

  lemma TrimOfTrimmed(x: string)
    requires x != "" && !IsSpace(x[0]) && !IsSpace(x[|x| - 1])
    ensures Trim(x) == x
  {
    assert x == "" + x + "";
    TrimUnique(x, "", x, "");
  }

  lemma SplitOneGap(w1: string, g: string, w2: string)
    requires w1 != "" && w2 != "" && NoSpace(w1) && NoSpace(w2) && g != "" && AllSpace(g)
    ensures SplitOnSpaceRuns(w1 + g + w2) == [w1, w2]
  {
    SplitWordGap(w1, g, w2);
    FirstSpaceAbsent(w2);
    assert w2[..|w2|] == w2;
  }

  /** Two words separated by a run of white space parse into those words. */
  lemma TwoWords(w1: string, g: string, w2: string)
    requires w1 != "" && w2 != "" && NoSpace(w1) && NoSpace(w2) && g != "" && AllSpace(g)
    ensures Words(w1 + g + w2) == [w1, w2]
  {
    var x := w1 + g + w2;
    assert x[0] == w1[0] && x[|x| - 1] == w2[|w2| - 1];
    TrimOfTrimmed(x);
    SplitOneGap(w1, g, w2);
    WordsUnfold(x);
  }

  /** A piece made only of stripped characters becomes empty yet still counts as an argument. */
  lemma ParseKeepsEmptiedArgument(input: string)
    requires input == "ls ;"
    ensures ParseCommand(input) == ("ls", [""])
  {
    var w1, g, w2 := EmptiedPieces(input);
    TwoWords(w1, g, w2);
    SanitizeFixedIff(w1);
    SanitizeSingleMeta(w2);
    var r := ParseCommand(input);
    assert r.0 == SanitizeInput(w1) == w1;
    assert |r.1| == 1 && r.1[0] == SanitizeInput(w2) == "";
    assert r.1 == [""];
  }

  lemma EmptiedPieces(input: string) returns (w1: string, g: string, w2: string)
    requires input == "ls ;"
    ensures input == w1 + g + w2 && w1 == "ls" && w2 == ";"
    ensures NoSpace(w1) && NoMeta(w1) && NoSpace(w2) && |w2| == 1 && IsMeta(w2[0])
    ensures g != "" && AllSpace(g)
  {
    w1, g, w2 := "ls", " ", ";";
  }
}
