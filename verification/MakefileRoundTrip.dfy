// Writing targets out as a makefile and parsing it gives the targets back.

module MakefileRoundTrip {
  import opened CStrings
  import opened MakefileParser

  /** A dependency: one word on one line. */
  predicate IsDependency(s: string) {
    s != "" && ' ' !in s && '\n' !in s && NUL !in s
  }

  /** A target as a makefile can state it; an empty command means none. */
  predicate IsPlain(t: Target) {
    && t.name != "" && ':' !in t.name && '\n' !in t.name && NUL !in t.name
    && t.name[0] != '#' && t.name[0] != ' ' && t.name[0] != '\t'
    && (forall d | d in t.deps :: IsDependency(d))
    && '\n' !in t.command && NUL !in t.command && t.status == Unfinished
  }

  function DependencyText(deps: seq<string>): string {
    if deps == [] then "" else [' '] + deps[0] + DependencyText(deps[1..])
  }

  function RuleLine(t: Target): string {
    t.name + [':'] + DependencyText(t.deps) + ['\n']
  }

  function CommandLine(t: Target): string {
    ['\t'] + t.command + ['\n']
  }

  /** The rule, then the command if there is one. */
  function LinesOf(t: Target): seq<string> {
    [RuleLine(t)] + if t.command == "" then [] else [CommandLine(t)]
  }

  function FileOf(ts: seq<Target>): seq<string> {
    if ts == [] then [] else FileOf(ts[..|ts| - 1]) + LinesOf(ts[|ts| - 1])
  }

  // ---------------------------------------------------------------- one line

  /** A word, up to the end of the line or the next space, is one token. */
  lemma WordTokens(w: string, rest: string)
    requires IsDependency(w) && (rest == "" || rest[0] == ' ')
    ensures Tokens(w + rest, ' ') == [w] + Tokens(rest, ' ')
  {
    if rest == "" {
      assert w + rest == w;
      LastToken(w, ' ');
    } else {
      var s := rest[1..];
      assert rest == [' '] + s;
      assert w + rest == w + [' '] + s;
      TokensOfWord(w, s, ' ');
      TokensSkipDelimiter(s, ' ');
    }
  }

  lemma SpacedWordTokens(w: string, rest: string)
    requires IsDependency(w) && (rest == "" || rest[0] == ' ')
    ensures Tokens([' '] + (w + rest), ' ') == [w] + Tokens(rest, ' ')
  {
    TokensSkipDelimiter(w + rest, ' ');
    WordTokens(w, rest);
  }

  lemma TextOfMore(deps: seq<string>)
    requires deps != []
    ensures DependencyText(deps) == [' '] + (deps[0] + DependencyText(deps[1..]))
    ensures var rest := DependencyText(deps[1..]); rest == "" || rest[0] == ' '
  {}

  lemma {:induction false} DependencyTokens(deps: seq<string>)
    requires forall d | d in deps :: IsDependency(d)
    ensures Tokens(DependencyText(deps), ' ') == deps
  {
    if deps == [] {
      assert Strtok("", ' ') == NoToken;
    } else {
      var w, others := deps[0], deps[1..];
      assert deps == [w] + others && w in deps;
      DependencyTokens(others);
      TextOfMore(deps);
      SpacedWordTokens(w, DependencyText(others));
    }
  }

  lemma {:induction false} DependenciesOnOneLine(deps: seq<string>)
    requires forall d | d in deps :: IsDependency(d)
    ensures '\n' !in DependencyText(deps) && NUL !in DependencyText(deps)
  {
    if deps != [] {
      assert deps[0] in deps;
      DependenciesOnOneLine(deps[1..]);
    }
  }

  lemma RuleIsRecognised(t: Target)
    requires IsPlain(t)
    ensures NUL !in RuleLine(t) && Classify(RuleLine(t)) == Rule(t.name, t.deps)
  {
    var rest := DependencyText(t.deps);
    var line := t.name + [':'] + rest;
    DependenciesOnOneLine(t.deps);
    DependencyTokens(t.deps);
    assert RuleLine(t) == line + ['\n'] + "";
    FirstToken(line, "", '\n');
    assert line[0] == t.name[0];
    assert line[|t.name|] == ':';
    FirstToken(t.name, rest, ':');
  }

  lemma CommandIsRecognised(t: Target)
    requires IsPlain(t)
    ensures NUL !in CommandLine(t) && Classify(CommandLine(t)) == Command(t.command)
  {
    var line := ['\t'] + t.command;
    assert CommandLine(t) == line + ['\n'] + "";
    FirstToken(line, "", '\n');
    assert line[1..] == t.command;
  }

  // ---------------------------------------------------------------- the file

  lemma LinesAppend(a: seq<string>, b: seq<string>)
    ensures Lines(a + b) == Lines(a) + Lines(b)
  {
    forall i | 0 <= i < |a + b|
      ensures Lines(a + b)[i] == (Lines(a) + Lines(b))[i]
    {
      assert (a + b)[i] == if i < |a| then a[i] else b[i - |a|];
    }
  }

  lemma FoldAppend(ls: seq<Line>, l: Line)
    ensures Fold(ls + [l]) == Next(Fold(ls), l)
  {
    assert (ls + [l])[..|ls|] == ls;
  }

  lemma LinesOfOne(raw: string, l: Line)
    requires NUL !in raw && Classify(raw) == l
    ensures Lines([raw]) == [l]
  {
    CStringIsAll(raw);
  }

  /** What the lines of a target are taken for. */
  function Meaning(t: Target): seq<Line> {
    [Rule(t.name, t.deps)] + if t.command == "" then [] else [Command(t.command)]
  }

  lemma LinesOfTarget(t: Target)
    requires IsPlain(t)
    ensures Lines(LinesOf(t)) == Meaning(t)
  {
    RuleIsRecognised(t);
    LinesOfOne(RuleLine(t), Rule(t.name, t.deps));
    if t.command != "" {
      CommandIsRecognised(t);
      LinesOfOne(CommandLine(t), Command(t.command));
      LinesAppend([RuleLine(t)], [CommandLine(t)]);
    }
  }

  lemma RuleAdded(ls: seq<Line>, ts: seq<Target>, pending: bool, t: Target)
    requires t.status == Unfinished && Fold(ls) == Parsed(ts, pending)
    ensures Fold(ls + [Rule(t.name, t.deps)]) == Parsed(ts + [t.(command := "")], true)
  {
    FoldAppend(ls, Rule(t.name, t.deps));
  }

  lemma CommandAdded(ls: seq<Line>, ts: seq<Target>, t: Target)
    requires Fold(ls) == Parsed(ts + [t.(command := "")], true)
    ensures Fold(ls + [Command(t.command)]) == Parsed(ts + [t], false)
  {
    FoldAppend(ls, Command(t.command));
    assert (ts + [t.(command := "")])[|ts| := t] == ts + [t];
  }

  /** The lines of one more target add exactly that target. */
  lemma TargetAdded(ls: seq<Line>, ts: seq<Target>, pending: bool, t: Target)
    requires t.status == Unfinished && Fold(ls) == Parsed(ts, pending)
    ensures Fold(ls + Meaning(t)) == Parsed(ts + [t], t.command == "")
  {
    var rule := [Rule(t.name, t.deps)];
    RuleAdded(ls, ts, pending, t);
    if t.command == "" {
      assert Meaning(t) == rule;
    } else {
      CommandAdded(ls + rule, ts, t);
      assert ls + Meaning(t) == ls + rule + [Command(t.command)];
    }
  }

  lemma FileOfMore(front: seq<Target>, t: Target)
    ensures FileOf(front + [t]) == FileOf(front) + LinesOf(t)
  {
    assert (front + [t])[..|front|] == front;
  }

  /** Whether the last target written has no command. */
  predicate EndsOpen(ts: seq<Target>) {
    ts != [] && ts[|ts| - 1].command == ""
  }

  /** Parsing what `ts` is written out as gives `ts` back. */
  ghost predicate ReadsBack(ts: seq<Target>) {
    Fold(Lines(FileOf(ts))) == Parsed(ts, EndsOpen(ts))
  }

  lemma TargetWritten(front: seq<Target>, t: Target)
    requires IsPlain(t) && ReadsBack(front)
    ensures ReadsBack(front + [t])
  {
    FileOfMore(front, t);
    LinesAppend(FileOf(front), LinesOf(t));
    LinesOfTarget(t);
    TargetAdded(Lines(FileOf(front)), front, EndsOpen(front), t);
  }

  /** The round trip: the file written for any list of plain targets is
      accepted, and parsing it gives back those targets, in order. */
  lemma {:induction false} ParsingInvertsWriting(ts: seq<Target>)
    requires forall i | 0 <= i < |ts| :: IsPlain(ts[i])
    ensures ReadsBack(ts)
  {
    if ts != [] {
      var front, t := ts[..|ts| - 1], ts[|ts| - 1];
      ParsingInvertsWriting(front);
      TargetWritten(front, t);
      assert ts == front + [t];
    }
  }

  // ---------------------------------------------------------------- comments, blank lines, indentation

  /** A comment, or nothing but spaces, with or without a newline at the end. */
  ghost predicate IsFiller(raw: string) {
    && NUL !in raw
    && (|| (raw != "" && raw[0] == '#')
        || (exists n: nat :: IsBlankLine(raw, n)))
  }

  ghost predicate IsBlankLine(raw: string, n: nat) {
    n <= |raw| <= n + 1 && (forall i | 0 <= i < n :: raw[i] == ' ') && (n < |raw| ==> raw[n] == '\n')
  }

  /** The same line after some spaces; with a space in front `#` would not start a
      comment, and an empty line would not be one. */
  ghost predicate IsIndented(raw: string, line: string) {
    raw == line || (NUL !in line && exists n: nat :: IsIndentedBy(raw, line, n))
  }

  ghost predicate IsIndentedBy(raw: string, line: string, n: nat) {
    && line != "" && line[0] != '#' && line[0] != '\n'
    && |raw| == n + |line| && raw[n..] == line && forall i | 0 <= i < n :: raw[i] == ' '
  }

  /** `file` is `plain` with fillers between its lines and lines indented. */
  ghost predicate Decorates(file: seq<string>, plain: seq<string>)
    decreases |file|
  {
    if file == [] then plain == []
    else
      var front, last := file[..|file| - 1], file[|file| - 1];
      || (IsFiller(last) && Decorates(front, plain))
      || (plain != [] && IsIndented(last, plain[|plain| - 1]) && Decorates(front, plain[..|plain| - 1]))
  }

  lemma CommentIsBlank(raw: string)
    requires raw != "" && raw[0] == '#'
    ensures Classify(raw) == Blank
  {
    var s, b, e := LineHasPositions(raw);
    assert s == 0;
    LineIsWhatItSays(raw, s, b, e);
  }

  lemma SpacesAreBlank(raw: string, n: nat)
    requires IsBlankLine(raw, n)
    ensures Classify(raw) == Blank
  {
    if n == 0 {
      assert IsLineAt(raw, |raw|, |raw|);
      LineIsWhatItSays(raw, |raw|, |raw|, |raw|);
    } else {
      assert IsLineAt(raw, 0, n) && StartsAt(raw, 0, n, n);
      LineIsWhatItSays(raw, 0, n, n);
    }
  }

  lemma FillerIsBlank(raw: string)
    requires IsFiller(raw)
    ensures Lines([raw]) == [Blank]
  {
    if raw != "" && raw[0] == '#' {
      CommentIsBlank(raw);
    } else {
      var n: nat :| IsBlankLine(raw, n);
      SpacesAreBlank(raw, n);
    }
    LinesOfOne(raw, Blank);
  }

  /** Indentation shifts the positions and keeps the rest of the line. */
  lemma IndentedPositions(raw: string, line: string, n: nat, b: nat, e: nat)
    requires IsIndentedBy(raw, line, n) && IsLineAt(line, 0, e) && StartsAt(line, 0, b, e) && 0 < n
    ensures IsLineAt(raw, 0, n + e) && StartsAt(raw, 0, n + b, n + e) && raw[n + b..n + e] == line[b..e]
    ensures IsIgnored(raw, 0, n + b, n + e) <==> b == e
    ensures IsIgnored(line, 0, b, e) <==> b == e
  {
    assert forall i | n <= i < |raw| :: raw[i] == line[i - n];
  }

  lemma IndentationIsIgnored(raw: string, line: string, n: nat)
    requires IsIndentedBy(raw, line, n)
    ensures Classify(raw) == Classify(line)
  {
    if n == 0 {
      assert raw[0..] == raw;
    } else {
      var s, b, e := LineHasPositions(line);
      assert s == 0;
      IndentedPositions(raw, line, n, b, e);
      SameRest(raw, n + b, n + e, line, b, e);
    }
  }

  lemma SameRest(raw: string, b: nat, e: nat, line: string, c: nat, d: nat)
    requires IsLineAt(raw, 0, e) && StartsAt(raw, 0, b, e) && IsLineAt(line, 0, d) && StartsAt(line, 0, c, d)
    requires raw[b..e] == line[c..d] && (IsIgnored(raw, 0, b, e) <==> IsIgnored(line, 0, c, d))
    ensures Classify(raw) == Classify(line)
  {
    RestCounts(raw, 0, b, e);
    RestCounts(line, 0, c, d);
  }

  lemma IndentedIsSame(raw: string, line: string)
    requires IsIndented(raw, line)
    ensures Lines([raw]) == Lines([line])
  {
    if raw != line {
      var n: nat :| IsIndentedBy(raw, line, n);
      IndentationIsIgnored(raw, line, n);
      assert forall i | n <= i < |raw| :: raw[i] == line[i - n];
      LinesOfOne(raw, Classify(line));
      LinesOfOne(line, Classify(line));
    }
  }

  lemma LastLine(front: seq<string>, last: string)
    ensures Fold(Lines(front + [last])) == Next(Fold(Lines(front)), Lines([last])[0])
  {
    LinesAppend(front, [last]);
    assert Lines(front + [last]) == Lines(front) + [Lines([last])[0]];
    FoldAppend(Lines(front), Lines([last])[0]);
  }

  lemma FillerAdded(front: seq<string>, last: string, plain: seq<string>)
    requires IsFiller(last) && Fold(Lines(front)) == Fold(Lines(plain))
    ensures Fold(Lines(front + [last])) == Fold(Lines(plain))
  {
    FillerIsBlank(last);
    LastLine(front, last);
  }

  lemma IndentedAdded(front: seq<string>, last: string, rest: seq<string>, line: string)
    requires IsIndented(last, line) && Fold(Lines(front)) == Fold(Lines(rest))
    ensures Fold(Lines(front + [last])) == Fold(Lines(rest + [line]))
  {
    IndentedIsSame(last, line);
    LastLine(front, last);
    LastLine(rest, line);
  }

  /** Comments, blank lines and leading spaces change nothing: whatever a file is
      parsed to, or that it is rejected, stays the same. */
  lemma {:induction false} DecorationIsIgnored(file: seq<string>, plain: seq<string>)
    requires Decorates(file, plain)
    ensures Fold(Lines(file)) == Fold(Lines(plain))
    decreases |file|
  {
    if file != [] {
      var front, last := file[..|file| - 1], file[|file| - 1];
      assert file == front + [last];
      if IsFiller(last) && Decorates(front, plain) {
        DecorationIsIgnored(front, plain);
        FillerAdded(front, last, plain);
      } else {
        var rest, line := plain[..|plain| - 1], plain[|plain| - 1];
        assert plain == rest + [line];
        DecorationIsIgnored(front, rest);
        IndentedAdded(front, last, rest, line);
      }
    }
  }

  /** So the targets come back from any such form of the file written for them. */
  lemma ParsingInvertsDecoratedWriting(ts: seq<Target>, file: seq<string>)
    requires (forall i | 0 <= i < |ts| :: IsPlain(ts[i])) && Decorates(file, FileOf(ts))
    ensures Fold(Lines(file)) == Parsed(ts, EndsOpen(ts))
  {
    ParsingInvertsWriting(ts);
    DecorationIsIgnored(file, FileOf(ts));
  }

  /** A comment is one in the first column only: after a space it is taken for a
      rule, or rejected for want of a colon. */
  lemma IndentedCommentIsNone(raw: string, n: nat, e: nat)
    requires 0 < n < e <= |raw| && raw[n] == '#' && (forall i | 0 <= i < n :: raw[i] == ' ')
    requires IsLineAt(raw, 0, e)
    ensures Classify(raw).Malformed? <==> !HasColon(raw, n, e)
    ensures Classify(raw).Rule? <==> HasColon(raw, n, e)
  {
    LineIsWhatItSays(raw, 0, n, e);
  }
}
