/**
 The comparison plan of a benchmark (parse_compare_cmd, ComparePlan and
 validate_comparison_evidence of scripts/capture_spec_qemu_windows.py): parsing a plan,
 selecting some of its commands, and checking evidence by parsing again.
 */
module ComparePlans {
  import opened Wrappers

  /** What the script takes from its libraries: word splitting, stripping, path cleaning, hashing. */
  datatype Shell = Shell(lex: string -> Option<seq<string>>, strip: string -> string, norm: string -> string,
                         sha: string -> string)
  {
    /** Cleaning a path twice changes nothing, cleaned paths are not empty, hashes are hex digests. */
    ghost predicate Lawful() {
      && (forall x :: norm(norm(x)) == norm(x) && norm(x) != "")
      && (forall x :: HexDigest(sha(x)))
    }
  }

  predicate HexDigest(s: string) {
    |s| == 64 && forall i :: 0 <= i < 64 ==> '0' <= s[i] <= '9' || 'a' <= s[i] <= 'f'
  }

  // --------------------------------------------------------------------------------- lines

  predicate LineEnd(c: char) {
    '\n' <= c <= '\r' || '\U{1c}' <= c <= '\U{1e}' || c == '\U{85}' || c == '\U{2028}' || c == '\U{2029}'
  }

  function LineLength(s: string): (k: nat)
    ensures k <= |s|
    ensures forall i :: 0 <= i < k ==> !LineEnd(s[i])
    ensures k < |s| ==> LineEnd(s[k])
  {
    if s == "" || LineEnd(s[0]) then 0 else 1 + LineLength(s[1..])
  }

  function SplitLines(s: string): (lines: seq<string>)
    ensures forall i :: 0 <= i < |lines| ==> OneLine(lines[i])
    decreases |s|
  {
    if s == "" then []
    else
      var k := LineLength(s);
      if k == |s| then [s]
      else
        var end := if s[k] == '\r' && k + 1 < |s| && s[k + 1] == '\n' then k + 2 else k + 1;
        [s[..k]] + SplitLines(s[end..])
  }

  predicate OneLine(s: string) {
    forall i :: 0 <= i < |s| ==> !LineEnd(s[i])
  }

  /** The lines, each ended by a newline. */
  function Text(lines: seq<string>): string {
    if lines == [] then "" else lines[0] + "\n" + Text(lines[1..])
  }

  lemma {:induction false} LineLengthIs(line: string, end: char, rest: string)
    requires OneLine(line) && LineEnd(end)
    ensures LineLength(line + [end] + rest) == |line|
  {
    var s := line + [end] + rest;
    if line != "" {
      assert s[1..] == line[1..] + [end] + rest;
      LineLengthIs(line[1..], end, rest);
    }
  }

  const LINE_ENDS: set<char> :=
    {'\n', '\U{0b}', '\U{0c}', '\r', '\U{1c}', '\U{1d}', '\U{1e}', '\U{85}', '\U{2028}', '\U{2029}'}

  lemma LineEndsAre(c: char)
    ensures LineEnd(c) <==> c in LINE_ENDS
  {
  }

  /** The text after a line end; a carriage return takes the newline behind it along. */
  function BehindEnd(end: char, rest: string): string {
    if end == '\r' && rest != "" && rest[0] == '\n' then rest[1..] else rest
  }

  lemma FirstLine(line: string, end: char, rest: string)
    requires OneLine(line) && LineEnd(end)
    ensures SplitLines(line + [end] + rest) == [line] + SplitLines(BehindEnd(end, rest))
  {
    var s := line + [end] + rest;
    LineLengthIs(line, end, rest);
    hide LineEnd, OneLine, LineLength;
    assert s[..|line|] == line && s[|line|] == end && s[|line| + 1..] == rest;
    assert rest != "" ==> s[|line| + 1] == rest[0] && s[|line| + 2..] == rest[1..];
  }

  /** Each of the ten line ends ends a line. */
  lemma SplitAtLineEnd(line: string, end: char, rest: string)
    requires end in LINE_ENDS && forall i :: 0 <= i < |line| ==> line[i] !in LINE_ENDS
    ensures SplitLines(line + [end] + rest) == [line] + SplitLines(BehindEnd(end, rest))
  {
    hide LineEnd, SplitLines, BehindEnd;
    LineEndsAre(end);
    forall i | 0 <= i < |line|
      ensures !LineEnd(line[i])
    {
      LineEndsAre(line[i]);
    }
    FirstLine(line, end, rest);
  }

  lemma {:induction false} SplitOfText(lines: seq<string>)
    requires forall i :: 0 <= i < |lines| ==> OneLine(lines[i])
    ensures SplitLines(Text(lines)) == lines
  {
    if lines != [] {
      var rest := Text(lines[1..]);
      var s := lines[0] + "\n" + rest;
      assert s == lines[0] + ['\n'] + rest;
      LineLengthIs(lines[0], '\n', rest);
      SplitOfText(lines[1..]);
      assert s[..|lines[0]|] == lines[0] && s[|lines[0]|] == '\n' && s[|lines[0]| + 1..] == rest;
    }
  }

  // -------------------------------------------------------------------------- kinds of line

  function Arity(word: string): Option<nat> {
    if word == "-E" then Some(2) else if word == "-r" then Some(0) else if word == "-N" || word == "-C" then Some(1)
    else None
  }

  predicate Redirect(token: string) {
    token == ">" || token == ">>" || token == "1>" || token == "1>>"
  }

  function Redirects(tokens: seq<string>): (r: seq<nat>)
    ensures forall i :: 0 <= i < |r| ==> r[i] < |tokens|
  {
    if tokens == [] then []
    else
      var n := |tokens| - 1;
      Redirects(tokens[..n]) + if Redirect(tokens[n]) then [n] else []
  }

  datatype Kind = Skip | Bad | Directive(directory: Option<string>) | Compare(actual: string)

  function TokensKind(tokens: seq<string>): Kind
    requires tokens != []
  {
    var arity := Arity(tokens[0]);
    if arity.Some? then
      if |tokens| != arity.value + 1 then Bad
      else Directive(if tokens[0] == "-C" then Some(tokens[1]) else None)
    else
      var redirects := Redirects(tokens);
      if |redirects| != 1 || redirects[0] < 1 then Bad
      else
        var actual := tokens[redirects[0] - 1];
        if actual == "" || actual[0] == '-' then Bad else Compare(actual)
  }

  function KindOf(sh: Shell, line: string): Kind {
    var stripped := sh.strip(line);
    if stripped == "" || stripped[0] == '#' then Skip
    else
      match sh.lex(line)
      case None => Bad
      case Some(tokens) => if tokens == [] then Skip else TokensKind(tokens)
  }

  // What each kind of line is, told from its words.

  /** An empty line, a comment, or a line without words. */
  predicate Empty(sh: Shell, line: string) {
    sh.strip(line) == "" || sh.strip(line)[0] == '#' || sh.lex(line) == Some([])
  }

  /** A directive with as many values as it takes. */
  predicate IsDirective(tokens: seq<string>) {
    || (|tokens| == 1 && tokens[0] == "-r")
    || (|tokens| == 2 && (tokens[0] == "-N" || tokens[0] == "-C"))
    || (|tokens| == 3 && tokens[0] == "-E")
  }

  /** Word p is the only redirection of a command, and the word before it names the output. */
  predicate Writes(tokens: seq<string>, p: nat, actual: string) {
    && 1 <= p < |tokens| && tokens[0] !in {"-E", "-r", "-N", "-C"}
    && (forall i :: 0 <= i < |tokens| ==> (tokens[i] in {">", ">>", "1>", "1>>"} <==> i == p))
    && actual == tokens[p - 1] && actual != "" && actual[0] != '-'
  }

  lemma {:induction false} NoRedirects(tokens: seq<string>)
    ensures Redirects(tokens) == [] <==> forall i :: 0 <= i < |tokens| ==> !Redirect(tokens[i])
  {
    hide Redirect;
    if tokens != [] {
      NoRedirects(tokens[..|tokens| - 1]);
    }
  }

  lemma {:induction false} OneRedirect(tokens: seq<string>, p: nat)
    ensures Redirects(tokens) == [p] <==>
              p < |tokens| && forall i :: 0 <= i < |tokens| ==> (Redirect(tokens[i]) <==> i == p)
  {
    hide Redirect;
    if tokens != [] {
      var n := |tokens| - 1;
      var before := tokens[..n];
      NoRedirects(before);
      OneRedirect(before, p);
      LastRedirect(Redirects(before), n, p);
      assert forall i :: 0 <= i < n ==> before[i] == tokens[i];
    }
  }

  lemma LastRedirect(ps: seq<nat>, n: nat, p: nat)
    ensures ps + [n] == [p] <==> ps == [] && p == n
  {
    if ps + [n] == [p] {
      assert |ps| + 1 == |ps + [n]| == 1;
      assert (ps + [n])[0] == n;
    }
  }

  lemma WordsDirect(tokens: seq<string>)
    requires tokens != []
    ensures TokensKind(tokens).Directive? <==> IsDirective(tokens)
    ensures IsDirective(tokens) ==>
              TokensKind(tokens).directory == if tokens[0] == "-C" then Some(tokens[1]) else None
  {
    hide Redirects;
  }

  lemma WordsCompare(tokens: seq<string>, actual: string)
    requires tokens != []
    ensures TokensKind(tokens) == Compare(actual) <==> exists p: nat :: Writes(tokens, p, actual)
  {
    hide Redirects;
    if TokensKind(tokens) == Compare(actual) {
      var p := Redirects(tokens)[0];
      assert Redirects(tokens) == [p];
      OneRedirect(tokens, p);
      assert Writes(tokens, p, actual);
    }
    if p: nat :| Writes(tokens, p, actual) {
      OneRedirect(tokens, p);
    }
  }

  /** The kinds of line: what is skipped, what directs, what compares; anything else is refused. */
  lemma KindsOfLine(sh: Shell, line: string)
    ensures var kind, words := KindOf(sh, line), sh.lex(line);
      && (kind.Skip? <==> Empty(sh, line))
      && (kind.Directive? <==> !Empty(sh, line) && words.Some? && IsDirective(words.value))
      && (kind.Directive? ==> kind.directory == if words.value[0] == "-C" then Some(words.value[1]) else None)
      && (forall actual :: kind == Compare(actual) <==>
            !Empty(sh, line) && words.Some? && exists p: nat :: Writes(words.value, p, actual))
  {
    hide TokensKind, Writes;
    if !Empty(sh, line) && sh.lex(line).Some? {
      var tokens := sh.lex(line).value;
      WordsDirect(tokens);
      NeverSkipped(tokens);
      forall actual
        ensures TokensKind(tokens) == Compare(actual) <==> exists p: nat :: Writes(tokens, p, actual)
      {
        WordsCompare(tokens, actual);
      }
    }
  }

  lemma NeverSkipped(tokens: seq<string>)
    requires tokens != []
    ensures !TokensKind(tokens).Skip?
  {
  }

  // --------------------------------------------------------------------------------- plans

  datatype Command = Command(index: nat, raw: string, actual: string)

  datatype Plan = Plan(source: string, directives: seq<string>, directory: string, commands: seq<Command>)

  predicate NoneBad(sh: Shell, lines: seq<string>) {
    forall i :: 0 <= i < |lines| ==> !KindOf(sh, lines[i]).Bad?
  }

  function DirectivesOf(sh: Shell, lines: seq<string>): seq<string> {
    if lines == [] then []
    else
      var last := lines[|lines| - 1];
      DirectivesOf(sh, lines[..|lines| - 1]) + if KindOf(sh, last).Directive? then [last] else []
  }

  /** The directories named by -C directives. */
  function DirectoriesOf(sh: Shell, lines: seq<string>): seq<string> {
    if lines == [] then []
    else
      var kind := KindOf(sh, lines[|lines| - 1]);
      DirectoriesOf(sh, lines[..|lines| - 1])
      + if kind.Directive? && kind.directory.Some? then [kind.directory.value] else []
  }

  function ComparesOf(sh: Shell, lines: seq<string>): seq<Command> {
    if lines == [] then []
    else
      var last := lines[|lines| - 1];
      var before := ComparesOf(sh, lines[..|lines| - 1]);
      before + if KindOf(sh, last).Compare? then [Command(|before|, last, KindOf(sh, last).actual)] else []
  }

  lemma DirectivesExtend(sh: Shell, lines: seq<string>, line: string)
    ensures DirectivesOf(sh, lines + [line])
         == if KindOf(sh, line).Directive? then DirectivesOf(sh, lines) + [line] else DirectivesOf(sh, lines)
  {
    assert (lines + [line])[..|lines|] == lines;
  }

  lemma DirectoriesExtend(sh: Shell, lines: seq<string>, line: string)
    ensures var kind := KindOf(sh, line);
            DirectoriesOf(sh, lines + [line])
              == if kind.Directive? && kind.directory.Some? then DirectoriesOf(sh, lines) + [kind.directory.value]
                 else DirectoriesOf(sh, lines)
  {
    assert (lines + [line])[..|lines|] == lines;
  }

  lemma ComparesExtend(sh: Shell, lines: seq<string>, line: string)
    ensures var before := ComparesOf(sh, lines);
            ComparesOf(sh, lines + [line])
              == if KindOf(sh, line).Compare? then before + [Command(|before|, line, KindOf(sh, line).actual)]
                 else before
  {
    assert (lines + [line])[..|lines|] == lines;
  }

  function PathJoin(a: string, b: string): string {
    if b != "" && b[0] == '/' then b
    else if a == "" || a[|a| - 1] == '/' then a + b
    else a + "/" + b
  }

  function Absolute(sh: Shell, directory: string, actual: string): string {
    sh.norm(PathJoin(directory, actual))
  }

  predicate Below(directory: string, path: string) {
    path != directory && directory + "/" <= path
  }

  function Absolutes(sh: Shell, directory: string, commands: seq<Command>): (r: seq<Command>)
    ensures |r| == |commands|
    ensures forall i :: 0 <= i < |r| ==>
              r[i] == commands[i].(actual := Absolute(sh, directory, commands[i].actual))
  {
    seq(|commands|, i requires 0 <= i < |commands| =>
      commands[i].(actual := Absolute(sh, directory, commands[i].actual)))
  }

  predicate DistinctOutputs(commands: seq<Command>) {
    forall i, j :: 0 <= i < j < |commands| ==> commands[i].actual != commands[j].actual
  }

  predicate AllBelow(directory: string, commands: seq<Command>) {
    forall i :: 0 <= i < |commands| ==> Below(directory, commands[i].actual)
  }

  /** What the lines of a plan mean, when they are a plan for this run directory. */
  function PlanOf(sh: Shell, source: string, lines: seq<string>, runDir: string): Option<Plan> {
    var directories, compares := DirectoriesOf(sh, lines), ComparesOf(sh, lines);
    if !NoneBad(sh, lines) || |directories| != 1 || compares == [] then None
    else
      var directory := sh.norm(runDir);
      var commands := Absolutes(sh, directory, compares);
      if sh.norm(directories[0]) != directory || !AllBelow(directory, commands) || !DistinctOutputs(commands) then None
      else Some(Plan(source, DirectivesOf(sh, lines), directory, commands))
  }

  function Parsed(sh: Shell, text: string, runDir: string): Option<Plan> {
    PlanOf(sh, text, SplitLines(text), runDir)
  }

  /** What the first loop has gathered from these lines. */
  ghost predicate Gathered(sh: Shell, lines: seq<string>, directives: seq<string>, commands: seq<Command>,
                           directory: Option<string>)
  {
    && NoneBad(sh, lines)
    && directives == DirectivesOf(sh, lines) && commands == ComparesOf(sh, lines)
    && DirectoriesOf(sh, lines) == if directory.None? then [] else [directory.value]
  }

  /** One more line: refused when it is bad or names a second directory. */
  lemma GatherLine(sh: Shell, lines: seq<string>, line: string, directives: seq<string>, commands: seq<Command>,
                   directory: Option<string>)
    requires Gathered(sh, lines, directives, commands, directory)
    ensures match KindOf(sh, line)
      case Skip => Gathered(sh, lines + [line], directives, commands, directory)
      case Bad => !NoneBad(sh, lines + [line])
      case Compare(actual) =>
        Gathered(sh, lines + [line], directives, commands + [Command(|commands|, line, actual)], directory)
      case Directive(d) =>
        if d.Some? && directory.Some? then |DirectoriesOf(sh, lines + [line])| == 2
        else Gathered(sh, lines + [line], directives + [line], commands, if d.Some? then d else directory)
  {
    DirectivesExtend(sh, lines, line);
    DirectoriesExtend(sh, lines, line);
    ComparesExtend(sh, lines, line);
    NoneBadExtends(sh, lines, line);
    hide KindOf, NoneBad, DirectivesOf, DirectoriesOf, ComparesOf;
  }

  lemma NoneBadExtends(sh: Shell, lines: seq<string>, line: string)
    ensures NoneBad(sh, lines + [line]) <==> NoneBad(sh, lines) && !KindOf(sh, line).Bad?
  {
    hide KindOf;
    var longer := lines + [line];
    assert longer[|lines|] == line;
    assert forall i :: 0 <= i < |lines| ==> longer[i] == lines[i];
  }

  lemma StillRefused(sh: Shell, lines: seq<string>, n: nat)
    requires n <= |lines|
    ensures !NoneBad(sh, lines[..n]) ==> !NoneBad(sh, lines)
    ensures |DirectoriesOf(sh, lines[..n])| <= |DirectoriesOf(sh, lines)|
  {
    MoreDirectories(sh, lines, n);
    hide KindOf, DirectoriesOf;
  }

  /** The first loop: directives, comparisons and the single -C directory; none on a bad line. */
  method ReadLines(sh: Shell, lines: seq<string>)
    returns (r: Option<(seq<string>, seq<Command>, Option<string>)>)
    ensures r.Some? ==> Gathered(sh, lines, r.value.0, r.value.1, r.value.2)
    ensures r.None? ==> !NoneBad(sh, lines) || |DirectoriesOf(sh, lines)| > 1
  {
    var directives: seq<string> := [];
    var commands: seq<Command> := [];
    var directory: Option<string> := None;
    assert Gathered(sh, lines[..0], directives, commands, directory);
    hide Gathered, NoneBad, DirectoriesOf, KindOf;
    for n := 0 to |lines|
      invariant Gathered(sh, lines[..n], directives, commands, directory)
    {
      GatherLine(sh, lines[..n], lines[n], directives, commands, directory);
      assert lines[..n + 1] == lines[..n] + [lines[n]];
      StillRefused(sh, lines, n + 1);
      match KindOf(sh, lines[n]) {
        case Skip =>
        case Bad => return None;
        case Directive(d) =>
          if d.Some? {
            if directory.Some? { return None; }
            directory := d;
          }
          directives := directives + [lines[n]];
        case Compare(actual) =>
          commands := commands + [Command(|commands|, lines[n], actual)];
      }
    }
    assert lines[..|lines|] == lines;
    return Some((directives, commands, directory));
  }

  /** The second loop: absolute outputs, all below the directory and none twice. */
  method Normalize(sh: Shell, directory: string, commands: seq<Command>) returns (r: Option<seq<Command>>)
    ensures var all := Absolutes(sh, directory, commands);
            r == if AllBelow(directory, all) && DistinctOutputs(all) then Some(all) else None
  {
    var seen: set<string> := {};
    var absolutes: seq<Command> := [];
    ghost var all := Absolutes(sh, directory, commands);
    hide Absolute;
    for n := 0 to |commands|
      invariant absolutes == all[..n]
      invariant forall x :: x in seen <==> exists i :: 0 <= i < n && all[i].actual == x
      invariant forall i :: 0 <= i < n ==> Below(directory, all[i].actual)
      invariant forall i, j :: 0 <= i < j < n ==> all[i].actual != all[j].actual
    {
      hide Below;
      var absolute := Absolute(sh, directory, commands[n].actual);
      assert all[n] == commands[n].(actual := absolute);
      if !Below(directory, absolute) { return None; }
      if absolute in seen { return None; }
      seen := seen + {absolute};
      absolutes := absolutes + [commands[n].(actual := absolute)];
    }
    assert all[..|commands|] == all;
    return Some(absolutes);
  }

  method ParseCompareCmd(sh: Shell, text: string, runDir: string) returns (r: Option<Plan>)
    ensures r == Parsed(sh, text, runDir)
  {
    hide SplitLines, NoneBad, DirectivesOf, DirectoriesOf, ComparesOf, Absolutes, AllBelow, DistinctOutputs;
    var read := ReadLines(sh, SplitLines(text));
    if read.None? { return None; }
    var (directives, commands, directory) := read.value;
    ghost var directories := DirectoriesOf(sh, SplitLines(text));
    assert directory.Some? ==> |directories| == 1 && directories[0] == directory.value;
    if commands == [] || directory.None? { return None; }
    var normalized := sh.norm(runDir);
    if sh.norm(directory.value) != normalized { return None; }
    var absolutes := Normalize(sh, normalized, commands);
    if absolutes.None? { return None; }
    return Some(Plan(text, directives, normalized, absolutes.value));
  }

  /** Later lines only add directories. */
  lemma {:induction false} MoreDirectories(sh: Shell, lines: seq<string>, n: nat)
    requires n <= |lines|
    ensures |DirectoriesOf(sh, lines[..n])| <= |DirectoriesOf(sh, lines)|
    decreases |lines| - n
  {
    if n < |lines| {
      MoreDirectories(sh, lines, n + 1);
      assert lines[..n + 1][..n] == lines[..n];
    } else {
      assert lines[..n] == lines;
    }
  }

  // ----------------------------------------------------------------------------- selection

  function Selected(commands: seq<Command>, outputs: set<string>): seq<Command> {
    if commands == [] then []
    else
      var last := commands[|commands| - 1];
      Selected(commands[..|commands| - 1], outputs) + if last.actual in outputs then [last] else []
  }

  function RawLines(commands: seq<Command>): (r: seq<string>)
    ensures |r| == |commands| && forall i :: 0 <= i < |r| ==> r[i] == commands[i].raw
  {
    seq(|commands|, i requires 0 <= i < |commands| => commands[i].raw)
  }

  /** The plan text for the selected commands; none when nothing is selected. */
  function Select(plan: Plan, outputs: set<string>): Option<string> {
    var selected := Selected(plan.commands, outputs);
    if selected == [] then None
    else if |selected| == |plan.commands| then Some(plan.source)
    else Some(Text(plan.directives + RawLines(selected)))
  }

  // ------------------------------------------------------------------- reading a selection

  predicate AllDirectives(sh: Shell, lines: seq<string>) {
    forall i :: 0 <= i < |lines| ==> KindOf(sh, lines[i]).Directive?
  }

  /** Every command keeps the line that it was read from. */
  ghost predicate FromLines(sh: Shell, commands: seq<Command>) {
    forall i :: 0 <= i < |commands| ==>
      OneLine(commands[i].raw) && KindOf(sh, commands[i].raw) == Compare(commands[i].actual)
  }

  /** What the lines of a script leave in its plan. */
  ghost predicate Kept(sh: Shell, lines: seq<string>, directives: seq<string>, commands: seq<Command>) {
    && AllDirectives(sh, directives) && (forall i :: 0 <= i < |directives| ==> OneLine(directives[i]))
    && FromLines(sh, commands) && (forall i :: 0 <= i < |commands| ==> commands[i].index == i)
    && DirectoriesOf(sh, directives) == DirectoriesOf(sh, lines)
  }

  lemma KeptExtends(sh: Shell, lines: seq<string>, directives: seq<string>, commands: seq<Command>, line: string)
    requires Kept(sh, lines, directives, commands) && OneLine(line)
    ensures match KindOf(sh, line)
            case Directive(_) => Kept(sh, lines + [line], directives + [line], commands)
            case Compare(actual) => Kept(sh, lines + [line], directives, commands + [Command(|commands|, line, actual)])
            case _ => Kept(sh, lines + [line], directives, commands)
  {
    hide KindOf, OneLine, DirectoriesOf;
    DirectoriesExtend(sh, lines, line);
    DirectoriesExtend(sh, directives, line);
  }

  lemma {:induction false} LinesKept(sh: Shell, lines: seq<string>)
    requires forall i :: 0 <= i < |lines| ==> OneLine(lines[i])
    ensures Kept(sh, lines, DirectivesOf(sh, lines), ComparesOf(sh, lines))
  {
    if lines != [] {
      hide KindOf, OneLine, DirectivesOf, ComparesOf, Kept;
      var before, last := lines[..|lines| - 1], lines[|lines| - 1];
      assert lines == before + [last];
      LinesKept(sh, before);
      DirectivesExtend(sh, before, last);
      ComparesExtend(sh, before, last);
      KeptExtends(sh, before, DirectivesOf(sh, before), ComparesOf(sh, before), last);
    }
  }

  /** The same commands, numbered from 0. */
  ghost predicate Renumbered(a: seq<Command>, b: seq<Command>) {
    |a| == |b| && forall i :: 0 <= i < |a| ==> a[i] == b[i].(index := i)
  }

  /** These lines are read as exactly these directives and commands. */
  ghost predicate ReadAs(sh: Shell, lines: seq<string>, directives: seq<string>, commands: seq<Command>) {
    && NoneBad(sh, lines)
    && DirectivesOf(sh, lines) == directives
    && DirectoriesOf(sh, lines) == DirectoriesOf(sh, directives)
    && Renumbered(ComparesOf(sh, lines), commands)
  }

  lemma ReadAsExtends(sh: Shell, lines: seq<string>, directives: seq<string>, commands: seq<Command>, last: Command)
    requires ReadAs(sh, lines, directives, commands) && KindOf(sh, last.raw) == Compare(last.actual)
    ensures ReadAs(sh, lines + [last.raw], directives, commands + [last])
  {
    DirectivesExtend(sh, lines, last.raw);
    DirectoriesExtend(sh, lines, last.raw);
    ComparesExtend(sh, lines, last.raw);
    NoneBadExtends(sh, lines, last.raw);
    hide KindOf, NoneBad, DirectivesOf, DirectoriesOf, ComparesOf;
  }

  /** Lines of comparison commands add commands and nothing else. */
  lemma {:induction false} AppendCompares(sh: Shell, directives: seq<string>, commands: seq<Command>)
    requires AllDirectives(sh, directives) && FromLines(sh, commands)
    ensures ReadAs(sh, directives + RawLines(commands), directives, commands)
    decreases |commands|
  {
    hide KindOf, OneLine;
    if commands == [] {
      assert directives + RawLines(commands) == directives;
      OnlyDirectives(sh, directives);
    } else {
      var before, last := commands[..|commands| - 1], commands[|commands| - 1];
      hide ReadAs;
      AppendCompares(sh, directives, before);
      ReadAsExtends(sh, directives + RawLines(before), directives, before, last);
      assert directives + RawLines(commands) == directives + RawLines(before) + [last.raw];
      assert before + [last] == commands;
    }
  }

  lemma {:induction false} OnlyDirectives(sh: Shell, directives: seq<string>)
    requires AllDirectives(sh, directives)
    ensures NoneBad(sh, directives) && DirectivesOf(sh, directives) == directives && ComparesOf(sh, directives) == []
  {
    hide KindOf;
    if directives != [] {
      OnlyDirectives(sh, directives[..|directives| - 1]);
    }
  }

  lemma {:induction false} SelectedSize(commands: seq<Command>, outputs: set<string>)
    ensures |Selected(commands, outputs)| <= |commands|
    ensures |Selected(commands, outputs)| == |commands| ==> Selected(commands, outputs) == commands
  {
    if commands != [] {
      SelectedSize(commands[..|commands| - 1], outputs);
    }
  }

  lemma {:induction false} SelectedAt(commands: seq<Command>, outputs: set<string>, i: nat) returns (k: nat)
    requires i < |Selected(commands, outputs)|
    ensures k < |commands| && commands[k] == Selected(commands, outputs)[i]
  {
    var n := |commands| - 1;
    if i < |Selected(commands[..n], outputs)| {
      k := SelectedAt(commands[..n], outputs, i);
    } else {
      k := n;
    }
  }

  lemma {:induction false} SelectedDistinct(commands: seq<Command>, outputs: set<string>)
    requires DistinctOutputs(commands)
    ensures DistinctOutputs(Selected(commands, outputs))
  {
    if commands != [] {
      var n := |commands| - 1;
      SelectedDistinct(commands[..n], outputs);
      forall i | 0 <= i < |Selected(commands[..n], outputs)|
        ensures Selected(commands[..n], outputs)[i].actual != commands[n].actual
      {
        var k := SelectedAt(commands[..n], outputs, i);
      }
    }
  }

  lemma SelectedIsPart(directory: string, commands: seq<Command>, outputs: set<string>)
    requires AllBelow(directory, commands) && DistinctOutputs(commands)
    ensures AllBelow(directory, Selected(commands, outputs)) && DistinctOutputs(Selected(commands, outputs))
  {
    hide Below;
    SelectedDistinct(commands, outputs);
    forall i | 0 <= i < |Selected(commands, outputs)|
      ensures Below(directory, Selected(commands, outputs)[i].actual)
    {
      var k := SelectedAt(commands, outputs, i);
    }
  }

  /** The raw command of a plan entry: its output as written, before it was made absolute. */
  ghost predicate AbsoluteOf(sh: Shell, directory: string, written: seq<Command>, commands: seq<Command>) {
    && |written| == |commands|
    && forall i :: 0 <= i < |commands| ==>
         commands[i] == written[i].(actual := Absolute(sh, directory, written[i].actual))
  }

  lemma {:induction false} SelectWritten(sh: Shell, directory: string, written: seq<Command>, commands: seq<Command>,
                                         outputs: set<string>) returns (part: seq<Command>)
    requires AbsoluteOf(sh, directory, written, commands) && FromLines(sh, written)
    ensures AbsoluteOf(sh, directory, part, Selected(commands, outputs)) && FromLines(sh, part)
  {
    hide Absolute, KindOf, OneLine;
    if commands == [] {
      part := [];
    } else {
      var n := |commands| - 1;
      part := SelectWritten(sh, directory, written[..n], commands[..n], outputs);
      if commands[n].actual in outputs {
        part := part + [written[n]];
      }
    }
  }

  /** Commands that agree in everything but their numbers. */
  ghost predicate SameCommands(a: seq<Command>, b: seq<Command>) {
    |a| == |b| && forall i :: 0 <= i < |a| ==> a[i].raw == b[i].raw && a[i].actual == b[i].actual
  }

  /**
   Round trip: whatever non-empty part of a plan is selected, its text parses again, in the
   plan's own directory, to the same directives and to exactly the selected commands.
   */
  lemma SelectionParsesBack(sh: Shell, text: string, runDir: string, outputs: set<string>)
    requires sh.Lawful() && Parsed(sh, text, runDir).Some?
    requires Select(Parsed(sh, text, runDir).value, outputs).Some?
    ensures var plan := Parsed(sh, text, runDir).value;
            var again := Parsed(sh, Select(plan, outputs).value, plan.directory);
      && again.Some?
      && again.value.directives == plan.directives && again.value.directory == plan.directory
      && SameCommands(again.value.commands, Selected(plan.commands, outputs))
      && forall i :: 0 <= i < |again.value.commands| ==> again.value.commands[i].index == i
  {
    var lines := SplitLines(text);
    var plan := Parsed(sh, text, runDir).value;
    var selected := Selected(plan.commands, outputs);
    assert sh.norm(plan.directory) == plan.directory;
    LinesKept(sh, lines);
    SelectedSize(plan.commands, outputs);
    SelectedIsPart(plan.directory, plan.commands, outputs);
    if |selected| < |plan.commands| {
      var part := SelectWritten(sh, plan.directory, ComparesOf(sh, lines), plan.commands, outputs);
      PartParsesBack(sh, plan, part, selected, DirectoriesOf(sh, lines)[0]);
    }
  }

  lemma PartParsesBack(sh: Shell, plan: Plan, part: seq<Command>, selected: seq<Command>, directory: string)
    requires AllDirectives(sh, plan.directives)
    requires forall i :: 0 <= i < |plan.directives| ==> OneLine(plan.directives[i])
    requires DirectoriesOf(sh, plan.directives) == [directory] && sh.norm(directory) == plan.directory
    requires sh.norm(plan.directory) == plan.directory
    requires selected != [] && AbsoluteOf(sh, plan.directory, part, selected) && FromLines(sh, part)
    requires AllBelow(plan.directory, selected) && DistinctOutputs(selected)
    ensures var again := Parsed(sh, Text(plan.directives + RawLines(selected)), plan.directory);
      && again.Some?
      && again.value.directives == plan.directives && again.value.directory == plan.directory
      && SameCommands(again.value.commands, selected)
      && forall i :: 0 <= i < |again.value.commands| ==> again.value.commands[i].index == i
  {
    hide KindOf, OneLine, Below, Text, SplitLines, Absolute;
    var lines := plan.directives + RawLines(selected);
    assert RawLines(selected) == RawLines(part);
    AppendCompares(sh, plan.directives, part);
    SplitOfText(lines);
    RenumberedAbsolutes(sh, plan.directory, ComparesOf(sh, lines), part, selected);
    hide NoneBad, DirectivesOf, DirectoriesOf, ComparesOf, Absolutes, AllBelow, DistinctOutputs, FromLines, AbsoluteOf,
         RawLines, AllDirectives, Renumbered;
  }

  lemma RenumberedAbsolutes(sh: Shell, directory: string, written: seq<Command>, part: seq<Command>,
                            selected: seq<Command>)
    requires Renumbered(written, part) && AbsoluteOf(sh, directory, part, selected)
    requires AllBelow(directory, selected) && DistinctOutputs(selected)
    ensures var commands := Absolutes(sh, directory, written);
      && |commands| == |selected| == |written|
      && AllBelow(directory, commands) && DistinctOutputs(commands) && SameCommands(commands, selected)
      && forall i :: 0 <= i < |commands| ==> commands[i].index == i
  {
    hide Absolute, Below;
    var commands := Absolutes(sh, directory, written);
    assert forall i :: 0 <= i < |selected| ==> commands[i] == selected[i].(index := i);
  }

  // ------------------------------------------------------------------------------ evidence

  datatype CommandRecord = CommandRecord(index: nat, sha: string, actual: string)

  datatype Evidence = Evidence(text: string, sha: string, fullText: string, fullSha: string, directory: string,
                               commands: seq<CommandRecord>, selected: seq<CommandRecord>,
                               countPass: bool, capturePass: bool)

  function RecordOf(sh: Shell, c: Command): CommandRecord {
    CommandRecord(c.index, sh.sha(c.raw + "\n"), c.actual)
  }

  function RecordsOf(sh: Shell, commands: seq<Command>): (r: seq<CommandRecord>)
    ensures |r| == |commands| && forall i :: 0 <= i < |r| ==> r[i] == RecordOf(sh, commands[i])
  {
    seq(|commands|, i requires 0 <= i < |commands| => RecordOf(sh, commands[i]))
  }

  /** The evidence of a plan and the outputs that were produced; none when there were none. */
  function EvidenceOf(sh: Shell, plan: Plan, outputs: set<string>, countPass: bool, capturePass: bool): Option<Evidence>
  {
    match Select(plan, outputs)
    case None => None
    case Some(text) =>
      Some(Evidence(text, sh.sha(text), plan.source, sh.sha(plan.source), plan.directory,
                    RecordsOf(sh, plan.commands), RecordsOf(sh, Selected(plan.commands, outputs)),
                    countPass, capturePass))
  }

  predicate RecordOk(r: CommandRecord) {
    HexDigest(r.sha) && r.actual != ""
  }

  /** Texts, digests and the list of the full plan's commands. */
  predicate WellFormed(sh: Shell, e: Evidence) {
    && e.text != "" && e.sha == sh.sha(e.text)
    && e.fullText != "" && e.fullSha == sh.sha(e.fullText)
    && e.directory != "" && e.commands != [] && e.selected != []
    && (forall i :: 0 <= i < |e.commands| ==> e.commands[i].index == i && RecordOk(e.commands[i]))
  }

  predicate SelectionOk(e: Evidence) {
    && (forall i :: 0 <= i < |e.selected| ==>
          e.selected[i].index < |e.commands| && e.selected[i] == e.commands[e.selected[i].index])
    && (forall i, j :: 0 <= i < j < |e.selected| ==> e.selected[i].index != e.selected[j].index)
  }

  /** The selected text holds exactly the selected commands, by digest and output. */
  predicate SameIdentities(a: seq<CommandRecord>, b: seq<CommandRecord>) {
    |a| == |b| && forall i :: 0 <= i < |a| ==> a[i].sha == b[i].sha && a[i].actual == b[i].actual
  }

  /** What the evidence check accepts. */
  predicate ValidEvidence(sh: Shell, e: Evidence) {
    && WellFormed(sh, e)
    && (var full := Parsed(sh, e.fullText, e.directory); full.Some? && RecordsOf(sh, full.value.commands) == e.commands)
    && SelectionOk(e)
    && (var part := Parsed(sh, e.text, e.directory);
        part.Some? && SameIdentities(RecordsOf(sh, part.value.commands), e.selected))
    && e.countPass && e.capturePass
  }

  method CheckSelection(e: Evidence) returns (ok: bool)
    ensures ok == SelectionOk(e)
  {
    var indices: set<nat> := {};
    for n := 0 to |e.selected|
      invariant forall i :: 0 <= i < n ==>
                  e.selected[i].index < |e.commands| && e.selected[i] == e.commands[e.selected[i].index]
      invariant forall k :: k in indices <==> exists i :: 0 <= i < n && e.selected[i].index == k
      invariant forall i, j :: 0 <= i < j < n ==> e.selected[i].index != e.selected[j].index
    {
      var item := e.selected[n];
      if item.index >= |e.commands| { return false; }
      if item != e.commands[item.index] || item.index in indices { return false; }
      indices := indices + {item.index};
    }
    return true;
  }

  /**
   What evidence stands for: both comparisons passed, the two texts are the ones that were hashed,
   the full text is a plan for the directory with exactly the listed commands, and the other text
   is a plan for it too, of commands with the digests and outputs of different listed ones.
   */
  ghost predicate Attests(sh: Shell, e: Evidence, full: Plan, part: Plan, picks: seq<nat>) {
    && e.countPass && e.capturePass
    && e.sha == sh.sha(e.text) && e.fullSha == sh.sha(e.fullText) && e.directory != ""
    && Parsed(sh, e.fullText, e.directory) == Some(full) && |e.commands| == |full.commands|
    && (forall i :: 0 <= i < |e.commands| ==>
          e.commands[i] == CommandRecord(i, sh.sha(full.commands[i].raw + "\n"), full.commands[i].actual))
    && Parsed(sh, e.text, e.directory) == Some(part) && |picks| == |e.selected| == |part.commands|
    && (forall i, j :: 0 <= i < j < |picks| ==> picks[i] != picks[j])
    && (forall i :: 0 <= i < |picks| ==> picks[i] < |e.commands| && e.selected[i] == e.commands[picks[i]])
    && (forall i :: 0 <= i < |picks| ==> SameCommand(sh, part.commands[i], full.commands[picks[i]]))
  }

  /** Two commands that the evidence cannot tell apart. */
  ghost predicate SameCommand(sh: Shell, a: Command, b: Command) {
    sh.sha(a.raw + "\n") == sh.sha(b.raw + "\n") && a.actual == b.actual
  }

  lemma EvidenceAttests(sh: Shell, e: Evidence)
    requires sh.Lawful()
    ensures ValidEvidence(sh, e) <==> exists full, part, picks :: Attests(sh, e, full, part, picks)
  {
    hide Parsed;
    if ValidEvidence(sh, e) {
      var full, part := Parsed(sh, e.fullText, e.directory).value, Parsed(sh, e.text, e.directory).value;
      var picks := seq(|e.selected|, i requires 0 <= i < |e.selected| => e.selected[i].index);
      IsAttested(sh, e, full, part, picks);
    }
    forall full, part, picks | Attests(sh, e, full, part, picks)
      ensures ValidEvidence(sh, e)
    {
      AttestedIsValid(sh, e, full, part, picks);
    }
  }

  lemma IsAttested(sh: Shell, e: Evidence, full: Plan, part: Plan, picks: seq<nat>)
    requires ValidEvidence(sh, e)
    requires Parsed(sh, e.fullText, e.directory) == Some(full) && Parsed(sh, e.text, e.directory) == Some(part)
    requires |picks| == |e.selected| && forall i :: 0 <= i < |picks| ==> picks[i] == e.selected[i].index
    ensures Attests(sh, e, full, part, picks)
  {
    hide Parsed, HexDigest;
  }

  lemma AttestedIsValid(sh: Shell, e: Evidence, full: Plan, part: Plan, picks: seq<nat>)
    requires sh.Lawful() && Attests(sh, e, full, part, picks)
    ensures ValidEvidence(sh, e)
  {
    hide Parsed, HexDigest, AllBelow, DistinctOutputs;
    PlanHasCommands(sh, e.fullText, e.directory);
    PlanHasCommands(sh, e.text, e.directory);
    OutputsAreNamed(sh, full);
    assert RecordsOf(sh, full.commands) == e.commands;
    assert SameIdentities(RecordsOf(sh, part.commands), e.selected);
    assert forall i :: 0 <= i < |picks| ==> e.selected[i].index == picks[i];
  }

  method ValidateComparisonEvidence(sh: Shell, e: Evidence) returns (ok: bool)
    ensures ok == ValidEvidence(sh, e)
    ensures sh.Lawful() ==> (ok <==> exists full, part, picks :: Attests(sh, e, full, part, picks))
  {
    hide Parsed, SelectionOk, WellFormed, SameIdentities, RecordsOf, Attests, Shell.Lawful;
    if sh.Lawful() {
      EvidenceAttests(sh, e);
    }
    if !WellFormed(sh, e) { return false; }
    var full := ParseCompareCmd(sh, e.fullText, e.directory);
    if full.None? || RecordsOf(sh, full.value.commands) != e.commands { return false; }
    var selection := CheckSelection(e);
    if !selection { return false; }
    var part := ParseCompareCmd(sh, e.text, e.directory);
    if part.None? || !SameIdentities(RecordsOf(sh, part.value.commands), e.selected) { return false; }
    return e.countPass && e.capturePass;
  }

  /** Reading the source of a plan in the plan's own directory gives the plan. */
  lemma SourceParsesBack(sh: Shell, text: string, runDir: string)
    requires sh.Lawful() && Parsed(sh, text, runDir).Some?
    ensures var plan := Parsed(sh, text, runDir).value;
            Parsed(sh, plan.source, plan.directory) == Some(plan) && plan.source == text
  {
    hide SplitLines, NoneBad, DirectivesOf, DirectoriesOf, ComparesOf, Absolutes, AllBelow, DistinctOutputs;
    var plan := Parsed(sh, text, runDir).value;
    assert sh.norm(plan.directory) == plan.directory;
  }

  lemma PlanHasCommands(sh: Shell, text: string, runDir: string)
    requires Parsed(sh, text, runDir).Some?
    ensures var plan := Parsed(sh, text, runDir).value;
      && text != "" && plan.commands != [] && plan.directory == sh.norm(runDir)
      && AllBelow(plan.directory, plan.commands) && DistinctOutputs(plan.commands)
      && forall i :: 0 <= i < |plan.commands| ==> plan.commands[i].index == i
  {
    hide DirectivesOf, DirectoriesOf, NoneBad, KindOf, AllBelow, DistinctOutputs;
    LinesKept(sh, SplitLines(text));
    assert SplitLines("") == [] && ComparesOf(sh, []) == [];
  }

  /** Positions of the comparison lines, in order. */
  ghost predicate Positions(sh: Shell, lines: seq<string>, commands: seq<Command>, at: seq<nat>) {
    && |at| == |commands|
    && (forall i, j :: 0 <= i < j < |at| ==> at[i] < at[j])
    && (forall i :: 0 <= i < |at| ==> at[i] < |lines| && commands[i].raw == lines[at[i]]
                                      && KindOf(sh, lines[at[i]]) == Compare(commands[i].actual))
    && (forall n: nat :: n < |lines| && KindOf(sh, lines[n]).Compare? ==> n in at)
  }

  lemma PositionsExtend(sh: Shell, lines: seq<string>, commands: seq<Command>, at: seq<nat>, line: string)
    requires Positions(sh, lines, commands, at)
    ensures match KindOf(sh, line)
            case Compare(actual) =>
              Positions(sh, lines + [line], commands + [Command(|commands|, line, actual)], at + [|lines|])
            case _ => Positions(sh, lines + [line], commands, at)
  {
    hide KindOf;
    assert forall n: nat :: n < |lines| ==> (lines + [line])[n] == lines[n];
    assert forall n :: n in at ==> n in at + [|lines|];
    assert |lines| in at + [|lines|];
  }

  lemma {:induction false} ComparesAreLines(sh: Shell, lines: seq<string>) returns (at: seq<nat>)
    ensures Positions(sh, lines, ComparesOf(sh, lines), at)
  {
    hide KindOf, Positions;
    if lines == [] {
      at := [];
      NoPositions(sh);
    } else {
      var before, last := lines[..|lines| - 1], lines[|lines| - 1];
      assert lines == before + [last];
      at := ComparesAreLines(sh, before);
      PositionsExtend(sh, before, ComparesOf(sh, before), at, last);
      ComparesExtend(sh, before, last);
      if KindOf(sh, last).Compare? {
        at := at + [|before|];
      }
    }
  }

  lemma NoPositions(sh: Shell)
    ensures Positions(sh, [], [], [])
  {
  }

  /** The output of a comparison, as the run directory makes it absolute. */
  predicate Names(sh: Shell, directory: string, written: string, absolute: string) {
    absolute == sh.norm(
      if written != "" && written[0] == '/' then written
      else if directory == "" || directory[|directory| - 1] == '/' then directory + written
      else directory + "/" + written)
  }

  /**
   The plan of a text: its commands are exactly the comparison lines, in order and numbered, and
   each output is the word before that line's redirection, made absolute and strictly inside the
   directory of the single -C line; no output is named twice.
   */
  lemma PlanListsOutputs(sh: Shell, text: string, runDir: string) returns (at: seq<nat>, written: seq<Command>)
    requires Parsed(sh, text, runDir).Some?
    ensures var plan, lines := Parsed(sh, text, runDir).value, SplitLines(text);
      && Positions(sh, lines, written, at) && |plan.commands| == |written| > 0
      && (forall i :: 0 <= i < |written| ==>
            && plan.commands[i].index == i && plan.commands[i].raw == written[i].raw
            && Names(sh, plan.directory, written[i].actual, plan.commands[i].actual)
            && Below(plan.directory, plan.commands[i].actual))
      && DistinctOutputs(plan.commands) && plan.directory == sh.norm(runDir)
  {
    hide KindOf, Below, Positions, DistinctOutputs;
    at := ComparesAreLines(sh, SplitLines(text));
    written := ComparesOf(sh, SplitLines(text));
    PlanHasCommands(sh, text, runDir);
  }

  lemma SelectionOfRecords(sh: Shell, commands: seq<Command>, outputs: set<string>, e: Evidence)
    requires e.commands == RecordsOf(sh, commands) && e.selected == RecordsOf(sh, Selected(commands, outputs))
    requires DistinctOutputs(commands) && forall i :: 0 <= i < |commands| ==> commands[i].index == i
    ensures SelectionOk(e)
  {
    hide Selected;
    var selected := Selected(commands, outputs);
    SelectedDistinct(commands, outputs);
    forall i | 0 <= i < |selected|
      ensures selected[i].index < |commands| && selected[i] == commands[selected[i].index]
    {
      var k := SelectedAt(commands, outputs, i);
    }
  }

  /** Evidence made from a parsed plan always passes the check that parses it again. */
  lemma EvidenceIsValid(sh: Shell, text: string, runDir: string, outputs: set<string>)
    requires sh.Lawful() && Parsed(sh, text, runDir).Some?
    requires EvidenceOf(sh, Parsed(sh, text, runDir).value, outputs, true, true).Some?
    ensures ValidEvidence(sh, EvidenceOf(sh, Parsed(sh, text, runDir).value, outputs, true, true).value)
  {
    hide Parsed, SelectionOk, SameIdentities, Selected, DistinctOutputs, AllBelow, SameCommands, HexDigest;
    var plan := Parsed(sh, text, runDir).value;
    var e := EvidenceOf(sh, plan, outputs, true, true).value;
    SourceParsesBack(sh, text, runDir);
    SelectionParsesBack(sh, text, runDir, outputs);
    PlanHasCommands(sh, text, runDir);
    SelectionOfRecords(sh, plan.commands, outputs, e);
    var part := Parsed(sh, e.text, e.directory).value;
    IdentitiesOfSame(sh, part.commands, Selected(plan.commands, outputs));
    PlanHasCommands(sh, e.text, e.directory);
    OutputsAreNamed(sh, plan);
  }

  lemma OutputsAreNamed(sh: Shell, plan: Plan)
    requires sh.Lawful() && AllBelow(plan.directory, plan.commands)
    ensures forall i :: 0 <= i < |plan.commands| ==> RecordOk(RecordOf(sh, plan.commands[i]))
  {
    hide HexDigest;
    forall i | 0 <= i < |plan.commands|
      ensures RecordOk(RecordOf(sh, plan.commands[i]))
    {
      assert Below(plan.directory, plan.commands[i].actual);
    }
  }

  lemma IdentitiesOfSame(sh: Shell, a: seq<Command>, b: seq<Command>)
    requires SameCommands(a, b)
    ensures SameIdentities(RecordsOf(sh, a), RecordsOf(sh, b))
  {
  }
}
