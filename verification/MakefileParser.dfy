// The make clone's targets and its line-driven makefile parser.

module MakefileParser {
  import opened CStrings

  /** UNFINISHED, FINISHED and NEEDS_BUILDING. */
  datatype Status = Unfinished | Finished | NeedsBuilding

  datatype Target = Target(name: string, deps: seq<string>, command: string, status: Status)

  /** A target structure filled with zeros. */
  const ZERO := Target("", [], "", Unfinished)

  // ---------------------------------------------------------------- one line

  datatype Line = Blank | Rule(name: string, deps: seq<string>) | Command(text: string) | Malformed

  /** What the parser takes a line of the file for: the part before the newline;
      comments only in the first column; leading spaces ignored. */
  function Classify(raw: string): (l: Line)
    ensures l.Rule? ==> l.name != ""
  {
    match Strtok(raw, '\n')
    case NoToken => Blank
    case Token(line, _) =>
      if line[0] == '#' then Blank
      else
        var body := Skip(line, ' ');
        if body == "" then Blank else ClassifyBody(body)
  }

  function ClassifyBody(body: string): (l: Line)
    requires body != ""
    ensures l.Rule? ==> l.name != ""
    ensures !l.Blank?
  {
    if body[0] == '\t' then Command(body[1..])
    else if ':' !in body then Malformed
    else
      match Strtok(body, ':')
      case NoToken => Malformed
      case Token(name, rest) => Rule(name, Tokens(rest, ' '))
  }

  /** Leading colons are skipped, so a rule has a name unless it is all colons. */
  lemma RuleHasName(body: string)
    requires body != "" && body[0] != '\t' && ':' in body
    ensures ClassifyBody(body).Rule? <==> exists i :: 0 <= i < |body| && body[i] != ':'
  {
    HasToken(body, ':');
    assert Strtok(body, ':').Token? <==> Tokens(body, ':') != [];
  }

  /** The lines of a file, each as far as a C string goes. */
  function Lines(raw: seq<string>): (ls: seq<Line>)
    ensures |ls| == |raw|
  {
    seq(|raw|, i requires 0 <= i < |raw| => Classify(CString(raw[i])))
  }

  // ---------------------------------------------------------------- one line, by positions

  /** The line proper runs from its first character other than a newline up to
      the next newline. */
  ghost predicate IsLineAt(raw: string, s: nat, e: nat) {
    && s <= e <= |raw| && (s < |raw| ==> s < e)
    && (forall i | 0 <= i < s :: raw[i] == '\n')
    && (forall i | s <= i < e :: raw[i] != '\n')
    && (e < |raw| ==> raw[e] == '\n')
  }

  /** After leading spaces the rest starts at `b`. */
  ghost predicate StartsAt(raw: string, s: nat, b: nat, e: nat) {
    && s <= b <= e <= |raw|
    && (forall i | s <= i < b :: raw[i] == ' ')
    && (b < e ==> raw[b] != ' ')
  }

  /** The rest has a name, from its first character other than a colon up to the
      next colon or the end. */
  ghost predicate IsNameAt(raw: string, b: nat, c: nat, d: nat, e: nat) {
    && b <= c < d <= e <= |raw|
    && (forall i | b <= i < c :: raw[i] == ':')
    && (forall i | c <= i < d :: raw[i] != ':')
    && (d < e ==> raw[d] == ':')
  }

  /** Nothing, a comment or only spaces. */
  ghost predicate IsIgnored(raw: string, s: nat, b: nat, e: nat)
    requires s <= b <= e <= |raw|
  {
    s == e || raw[s] == '#' || b == e
  }

  lemma StrtokIsLine(raw: string, s: nat, e: nat)
    requires IsLineAt(raw, s, e)
    ensures s == e ==> Strtok(raw, '\n') == NoToken
    ensures s < e ==> Strtok(raw, '\n').Token? && Strtok(raw, '\n').text == raw[s..e]
  {
    if s == e {
      StrtokFails(raw, '\n');
    } else {
      StrtokFinds(raw, '\n', s, e);
    }
  }

  lemma SkipIsRest(raw: string, s: nat, b: nat, e: nat)
    requires StartsAt(raw, s, b, e)
    ensures Skip(raw[s..e], ' ') == raw[b..e]
  {
    SkipFrom(raw[s..e], ' ', b - s);
    assert raw[s..e][b - s..] == raw[b..e];
    assert b < e ==> raw[b..e][0] == raw[b];
  }

  ghost predicate HasColon(raw: string, b: nat, e: nat)
    requires e <= |raw|
  {
    exists i :: b <= i < e && raw[i] == ':'
  }

  ghost predicate AllColons(raw: string, b: nat, e: nat)
    requires e <= |raw|
  {
    forall i | b <= i < e :: raw[i] == ':'
  }

  /** Only the rest counts unless the line is ignored. */
  lemma RestCounts(raw: string, s: nat, b: nat, e: nat)
    requires IsLineAt(raw, s, e) && StartsAt(raw, s, b, e)
    ensures Classify(raw).Blank? <==> IsIgnored(raw, s, b, e)
    ensures !IsIgnored(raw, s, b, e) ==> Classify(raw) == ClassifyBody(raw[b..e])
  {
    StrtokIsLine(raw, s, e);
    if s < e {
      SkipIsRest(raw, s, b, e);
    }
  }

  lemma ColonsInRest(raw: string, b: nat, e: nat)
    requires b <= e <= |raw|
    ensures HasColon(raw, b, e) <==> ':' in raw[b..e]
    ensures AllColons(raw, b, e) <==> !exists i :: 0 <= i < |raw[b..e]| && raw[b..e][i] != ':'
  {
    var body := raw[b..e];
    assert forall i | 0 <= i < |body| :: body[i] == raw[b + i];
    assert forall i | b <= i < e :: raw[i] == body[i - b];
  }

  /** What a line of the file is, by the positions of its characters.  It is blank
      exactly if there is no line proper, or it starts with `#`, or it is all
      spaces; a command exactly if it is spaces, a tab and the command; malformed
      exactly if the rest is no command and has no colon or only colons. */
  lemma LineIsWhatItSays(raw: string, s: nat, b: nat, e: nat)
    requires IsLineAt(raw, s, e) && StartsAt(raw, s, b, e)
    ensures Classify(raw).Blank? <==> IsIgnored(raw, s, b, e)
    ensures !IsIgnored(raw, s, b, e) ==>
              && (raw[b] == '\t' ==> Classify(raw) == Command(raw[b + 1..e]))
              && (Classify(raw).Command? ==> raw[b] == '\t')
              && (Classify(raw).Malformed? <==> raw[b] != '\t' && (!HasColon(raw, b, e) || AllColons(raw, b, e)))
  {
    RestCounts(raw, s, b, e);
    if !IsIgnored(raw, s, b, e) {
      var body := raw[b..e];
      assert body[0] == raw[b] && body[1..] == raw[b + 1..e];
      if body[0] != '\t' {
        ColonsInRest(raw, b, e);
        if ':' in body {
          RuleHasName(body);
        }
      }
    }
  }

  /** The position after a name that ends at `d`. */
  function Beyond(d: nat, e: nat): nat {
    if d < e then d + 1 else d
  }

  /** Otherwise it is a rule for the name between the leading colons and the next
      one, depending on the words after that. */
  lemma RuleIsWhatItSays(raw: string, s: nat, b: nat, c: nat, d: nat, e: nat)
    requires IsLineAt(raw, s, e) && StartsAt(raw, s, b, e) && !IsIgnored(raw, s, b, e)
    requires raw[b] != '\t' && HasColon(raw, b, e) && IsNameAt(raw, b, c, d, e)
    ensures Classify(raw) == Rule(raw[c..d], Tokens(raw[Beyond(d, e)..e], ' '))
  {
    RestCounts(raw, s, b, e);
    RestIsRule(raw, b, c, d, e);
  }

  lemma RestIsRule(raw: string, b: nat, c: nat, d: nat, e: nat)
    requires IsNameAt(raw, b, c, d, e) && raw[b] != '\t' && HasColon(raw, b, e)
    ensures ClassifyBody(raw[b..e]) == Rule(raw[c..d], Tokens(raw[Beyond(d, e)..e], ' '))
  {
    NameInBody(raw, b, c, d, e);
    BodyIsRule(raw[b..e], c - b, d - b, raw[c..d], raw[Beyond(d, e)..e]);
  }

  lemma BodyIsRule(body: string, c: nat, d: nat, name: string, rest: string)
    requires body != "" && body[0] != '\t' && ':' in body && IsNameAt(body, 0, c, d, |body|)
    requires name == body[c..d] && rest == body[Beyond(d, |body|)..]
    ensures ClassifyBody(body) == Rule(name, Tokens(rest, ' '))
  {
    StrtokFinds(body, ':', c, d);
  }

  lemma NameInBody(raw: string, b: nat, c: nat, d: nat, e: nat)
    requires IsNameAt(raw, b, c, d, e)
    ensures var body := raw[b..e];
            && IsNameAt(body, 0, c - b, d - b, |body|) && body[0] == raw[b]
            && raw[c..d] == body[c - b..d - b] && raw[Beyond(d, e)..e] == body[Beyond(d - b, |body|)..]
            && (HasColon(raw, b, e) <==> ':' in body)
  {
    var body := raw[b..e];
    assert forall i | 0 <= i < e - b :: body[i] == raw[b + i];
    assert forall i | b <= i < e :: raw[i] == body[i - b];
    assert raw[c..d] == body[c - b..d - b];
    assert raw[Beyond(d, e)..e] == body[Beyond(d - b, |body|)..];
  }

  /** Every line has such positions. */
  lemma LineHasPositions(raw: string) returns (s: nat, b: nat, e: nat)
    ensures IsLineAt(raw, s, e) && StartsAt(raw, s, b, e)
  {
    s, e := 0, 0;
    while s < |raw| && raw[s] == '\n'
      invariant s <= |raw| && forall i | 0 <= i < s :: raw[i] == '\n'
    {
      s := s + 1;
    }
    e := s;
    while e < |raw| && raw[e] != '\n'
      invariant s <= e <= |raw| && forall i | s <= i < e :: raw[i] != '\n'
    {
      e := e + 1;
    }
    b := s;
    assert IsLineAt(raw, s, e);
    while b < e && raw[b] == ' '
      invariant s <= b <= e && forall i | s <= i < b :: raw[i] == ' '
    {
      b := b + 1;
    }
  }

  // ---------------------------------------------------------------- the fold

  /** The targets so far, and whether the last one still awaits its command. */
  datatype Progress = Failed | Parsed(targets: seq<Target>, pending: bool)

  function Next(p: Progress, l: Line): Progress {
    match p
    case Failed => Failed
    case Parsed(ts, pending) =>
      match l
      case Blank => p
      case Malformed => Failed
      case Rule(name, deps) => Parsed(ts + [Target(name, deps, "", Unfinished)], true)
      case Command(text) =>
        if pending && ts != [] then Parsed(ts[|ts| - 1 := ts[|ts| - 1].(command := text)], false) else Failed
  }

  function Fold(ls: seq<Line>): Progress {
    if ls == [] then Parsed([], false) else Next(Fold(ls[..|ls| - 1]), ls[|ls| - 1])
  }

  lemma FoldStep(ls: seq<Line>, n: nat)
    requires n < |ls|
    ensures Fold(ls[..n + 1]) == Next(Fold(ls[..n]), ls[n])
  {
    assert ls[..n + 1][..n] == ls[..n];
  }

  lemma {:induction false} FailureStays(ls: seq<Line>, n: nat)
    requires n <= |ls| && Fold(ls[..n]).Failed?
    ensures Fold(ls).Failed?
    decreases |ls| - n
  {
    if n == |ls| {
      assert ls[..n] == ls;
    } else {
      FoldStep(ls, n);
      FailureStays(ls, n + 1);
    }
  }

  /** The array is long enough: every entry the parser touches exists.  A rule
      touches the next entry, and so does a command that no target awaits. */
  ghost predicate Fits(ls: seq<Line>, capacity: nat) {
    forall k | 0 <= k < |ls| && Fold(ls[..k]).Parsed? && (ls[k].Rule? || (ls[k].Command? && !Fold(ls[..k]).pending)) ::
      |Fold(ls[..k]).targets| < capacity
  }

  // ---------------------------------------------------------------- what the file says

  /** Line `j` onwards is blank. */
  ghost predicate BlankFrom(ls: seq<Line>, j: nat) {
    forall i | j <= i < |ls| :: ls[i].Blank?
  }

  /** The command a rule gets: the next line that is not blank, if it is one. */
  function CommandAfter(ls: seq<Line>, j: nat): string
    decreases |ls| - j
  {
    if j >= |ls| then ""
    else match ls[j]
      case Blank => CommandAfter(ls, j + 1)
      case Command(text) => text
      case _ => ""
  }

  /** The line numbers of the rules. */
  function Rules(ls: seq<Line>): (js: seq<nat>)
    ensures forall i | 0 <= i < |js| :: js[i] < |ls| && ls[js[i]].Rule?
    ensures forall i, k | 0 <= i < k < |js| :: js[i] < js[k]
    ensures forall j | 0 <= j < |ls| && ls[j].Rule? :: j in js
  {
    if ls == [] then []
    else Rules(ls[..|ls| - 1]) + if ls[|ls| - 1].Rule? then [|ls| - 1] else []
  }

  function TargetAt(ls: seq<Line>, j: nat): Target
    requires j < |ls| && ls[j].Rule?
  {
    Target(ls[j].name, ls[j].deps, CommandAfter(ls, j + 1), Unfinished)
  }

  /** Every command follows a rule with only blank lines between them. */
  ghost predicate CommandHasRule(ls: seq<Line>, k: nat)
    requires k <= |ls|
  {
    exists j :: 0 <= j < k && ls[j].Rule? && BlankFrom(ls[..k], j + 1)
  }

  ghost predicate WellFormed(ls: seq<Line>) {
    forall k | 0 <= k < |ls| :: !ls[k].Malformed? && (ls[k].Command? ==> CommandHasRule(ls, k))
  }

  /** The parsed targets are the file's, in order. */
  ghost predicate IsContentOf(ts: seq<Target>, ls: seq<Line>) {
    var js := Rules(ls);
    |ts| == |js| && forall i | 0 <= i < |js| :: ts[i] == TargetAt(ls, js[i])
  }

  lemma {:induction false} CommandAfterExtends(ls: seq<Line>, l: Line, j: nat)
    requires j <= |ls|
    ensures CommandAfter(ls + [l], j) ==
            if BlankFrom(ls, j) then (if l.Command? then l.text else "") else CommandAfter(ls, j)
    decreases |ls| - j
  {
    if j < |ls| {
      assert (ls + [l])[j] == ls[j];
      if ls[j].Blank? {
        CommandAfterExtends(ls, l, j + 1);
        assert BlankFrom(ls, j) <==> BlankFrom(ls, j + 1);
      }
    } else {
      assert (ls + [l])[j] == l;
    }
  }

  /** What the fold knows after each line. */
  ghost predicate FoldKnows(ls: seq<Line>) {
    var p := Fold(ls);
    && (p.Parsed? <==> WellFormed(ls))
    && (p.Parsed? ==> IsContentOf(p.targets, ls) && (p.pending <==> CommandHasRule(ls, |ls|)))
  }

  lemma WellFormedExtends(ls: seq<Line>, l: Line)
    ensures WellFormed(ls + [l]) <==> WellFormed(ls) && !l.Malformed? && (l.Command? ==> CommandHasRule(ls, |ls|))
  {
    var ext := ls + [l];
    forall k | 0 <= k <= |ls|
      ensures CommandHasRule(ext, k) <==> CommandHasRule(ls, k)
    {
      assert ext[..k] == ls[..k];
      if j :| 0 <= j < k && ls[j].Rule? && BlankFrom(ls[..k], j + 1) {
        assert ext[j].Rule? && BlankFrom(ext[..k], j + 1);
      }
      if j :| 0 <= j < k && ext[j].Rule? && BlankFrom(ext[..k], j + 1) {
        assert ls[j].Rule? && BlankFrom(ls[..k], j + 1);
      }
    }
    assert ext[|ls|] == l;
    assert forall k | 0 <= k < |ls| :: ext[k] == ls[k];
  }

  /** Whether the next line may be a command. */
  lemma PendingExtends(ls: seq<Line>, l: Line)
    ensures CommandHasRule(ls + [l], |ls| + 1) <==> l.Rule? || (l.Blank? && CommandHasRule(ls, |ls|))
  {
    var ext := ls + [l];
    assert ext[..|ext|] == ext && ls[..|ls|] == ls;
    if l.Rule? {
      assert ext[|ls|].Rule? && BlankFrom(ext[..|ext|], |ls| + 1);
    } else {
      if j :| 0 <= j < |ls| && ls[j].Rule? && BlankFrom(ls[..|ls|], j + 1) {
        if l.Blank? {
          assert ext[j].Rule? && BlankFrom(ext[..|ext|], j + 1);
        }
      }
      if l.Blank? {
        if j :| 0 <= j < |ext| && ext[j].Rule? && BlankFrom(ext[..|ext|], j + 1) {
          assert forall i | j + 1 <= i < |ls| :: ls[i] == ext[..|ext|][i];
          assert ls[j].Rule? && BlankFrom(ls[..|ls|], j + 1);
        }
      } else {
        assert !ext[..|ext|][|ls|].Blank?;
      }
    }
  }

  /** Only the last rule of a file can still get a command. */
  lemma OnlyLastRuleOpen(ls: seq<Line>, i: nat)
    requires i < |Rules(ls)|
    ensures BlankFrom(ls, Rules(ls)[i] + 1) <==> CommandHasRule(ls, |ls|) && i == |Rules(ls)| - 1
  {
    var js := Rules(ls);
    assert ls[..|ls|] == ls;
    if i < |js| - 1 {
      assert ls[js[i + 1]].Rule?;
    }
    if CommandHasRule(ls, |ls|) && i == |js| - 1 {
      var j :| 0 <= j < |ls| && ls[j].Rule? && BlankFrom(ls[..|ls|], j + 1);
      assert j in js;
    }
  }

  lemma RuleTargetExtends(ls: seq<Line>, l: Line, i: nat)
    requires i < |Rules(ls)| && (l.Command? ==> CommandHasRule(ls, |ls|))
    ensures Rules(ls)[i] < |ls + [l]| && (ls + [l])[Rules(ls)[i]].Rule?
    ensures TargetAt(ls + [l], Rules(ls)[i]) ==
            if l.Command? && i == |Rules(ls)| - 1 then TargetAt(ls, Rules(ls)[i]).(command := l.text)
            else TargetAt(ls, Rules(ls)[i])
  {
    var j := Rules(ls)[i];
    CommandAfterExtends(ls, l, j + 1);
    OnlyLastRuleOpen(ls, i);
    if BlankFrom(ls, j + 1) {
      BlankGivesNothing(ls, j + 1);
    }
  }

  lemma {:induction false} BlankGivesNothing(ls: seq<Line>, j: nat)
    requires BlankFrom(ls, j)
    ensures CommandAfter(ls, j) == ""
    decreases |ls| - j
  {
    if j < |ls| {
      BlankGivesNothing(ls, j + 1);
    }
  }

  lemma {:induction false} FoldIsExact(ls: seq<Line>)
    ensures FoldKnows(ls)
  {
    if ls == [] {
      assert !CommandHasRule(ls, 0);
    } else {
      var front, l := ls[..|ls| - 1], ls[|ls| - 1];
      assert ls == front + [l];
      FoldIsExact(front);
      FoldNext(front, l);
    }
  }

  lemma RulesExtend(front: seq<Line>, l: Line)
    ensures Rules(front + [l]) == Rules(front) + if l.Rule? then [|front|] else []
  {}

  /** The targets after one more line, if it is accepted. */
  lemma ContentExtends(front: seq<Line>, l: Line, ts: seq<Target>, pending: bool)
    requires IsContentOf(ts, front) && (pending <==> CommandHasRule(front, |front|))
    requires Next(Parsed(ts, pending), l).Parsed?
    ensures IsContentOf(Next(Parsed(ts, pending), l).targets, front + [l])
  {
    RulesExtend(front, l);
    assert |Rules(front + [l])| == |Next(Parsed(ts, pending), l).targets|;
    forall i | 0 <= i < |Rules(front + [l])|
      ensures Next(Parsed(ts, pending), l).targets[i] == TargetAt(front + [l], Rules(front + [l])[i])
    {
      EntryExtends(front, l, ts, pending, i);
    }
  }

  lemma EntryExtends(front: seq<Line>, l: Line, ts: seq<Target>, pending: bool, i: nat)
    requires IsContentOf(ts, front) && (pending <==> CommandHasRule(front, |front|))
    requires Next(Parsed(ts, pending), l).Parsed?
    requires i < |Rules(front + [l])| && i < |Next(Parsed(ts, pending), l).targets|
    ensures Next(Parsed(ts, pending), l).targets[i] == TargetAt(front + [l], Rules(front + [l])[i])
  {
    RulesExtend(front, l);
    if i < |Rules(front)| {
      RuleTargetExtends(front, l, i);
    } else {
      assert Rules(front + [l])[i] == |front| && (front + [l])[|front|] == l;
    }
  }

  lemma NextAccepts(front: seq<Line>, l: Line, ts: seq<Target>, pending: bool)
    requires IsContentOf(ts, front) && (pending <==> CommandHasRule(front, |front|))
    ensures Next(Parsed(ts, pending), l).Parsed? <==> !l.Malformed? && (l.Command? ==> CommandHasRule(front, |front|))
    ensures Next(Parsed(ts, pending), l).Parsed? ==>
              (Next(Parsed(ts, pending), l).pending <==> l.Rule? || (l.Blank? && pending))
  {}

  lemma FoldNext(front: seq<Line>, l: Line)
    requires FoldKnows(front)
    ensures FoldKnows(front + [l])
  {
    var ls := front + [l];
    var before := Fold(front);
    assert Fold(ls) == Next(before, l) by {
      assert ls[..|ls| - 1] == front && ls[|ls| - 1] == l;
    }
    PendingExtends(front, l);
    NextIsWellFormed(front, l);
    if Next(before, l).Parsed? {
      NextAccepts(front, l, before.targets, before.pending);
      ContentExtends(front, l, before.targets, before.pending);
    }
  }

  lemma NextIsWellFormed(front: seq<Line>, l: Line)
    requires FoldKnows(front)
    ensures Next(Fold(front), l).Parsed? <==> WellFormed(front + [l])
  {
    WellFormedExtends(front, l);
    if Fold(front).Parsed? {
      NextAccepts(front, l, Fold(front).targets, Fold(front).pending);
    }
  }

  /** The parser's result against the file.  It succeeds exactly on files in
      which no line is malformed and every command follows a rule directly, up
      to blank lines; then it yields exactly the file's targets in order, each
      with its dependencies and the command that follows it, if any. */
  lemma ParseIsExact(ls: seq<Line>)
    ensures Fold(ls).Parsed? <==> WellFormed(ls)
    ensures Fold(ls).Parsed? ==> IsContentOf(Fold(ls).targets, ls)
  {
    FoldIsExact(ls);
  }

  // ---------------------------------------------------------------- the program's parser

  /** The array holds exactly the targets of `p`; the entries after them are
      zero, and a target's name is never empty. */
  ghost predicate Stores(t: seq<Target>, count: nat, previousTarget: nat, p: Progress) {
    && count <= |t| && previousTarget <= 1 && previousTarget <= count
    && p == Parsed(t[..count], previousTarget == 1)
    && (forall i | count <= i < |t| :: t[i] == ZERO)
    && (forall i | 0 <= i < count :: t[i].name != "")
  }

  /** Reads the file line by line into the zeroed array `t`, with a write
      position and a flag; -1 stands for a rejected file. */
  method Parse(file: seq<string>, t: array<Target>) returns (count: int)
    requires forall i | 0 <= i < t.Length :: t[i] == ZERO
    requires Fits(Lines(file), t.Length)
    modifies t
    ensures count == -1 <==> Fold(Lines(file)).Failed?
    ensures count != -1 ==> 0 <= count <= t.Length && t[..count] == Fold(Lines(file)).targets
    ensures count != -1 ==> forall i | count <= i < t.Length :: t[i] == ZERO
  {
    ghost var ls := Lines(file);
    var targetCount, pTarget, previousTarget := 0, 0, 0;
    var nLine := 0;
    while nLine < |file|
      invariant 0 <= nLine <= |file|
      invariant Stores(t[..], targetCount, previousTarget, Fold(ls[..nLine]))
      invariant pTarget == targetCount - previousTarget
    {
      FoldStep(ls, nLine);
      var szLine := Copy(file[nLine]);
      var ok;
      ok, targetCount, pTarget, previousTarget :=
        ParseLineInto(szLine, CString(file[nLine]), t, targetCount, pTarget, previousTarget, Fold(ls[..nLine]));
      if !ok {
        FailureStays(ls, nLine + 1);
        return -1;
      }
      nLine := nLine + 1;
    }
    assert ls[..nLine] == ls;
    return targetCount;
  }

  /** Cuts the line off at its newline, drops comments and leading spaces and
      finds where the rest starts; -1 if nothing is left. */
  method LineBody(b: array<char>, ghost raw: string) returns (start: int, ghost body: string)
    requires StoredAt(b[..], 0, raw)
    modifies b
    ensures start == -1 ==> Classify(raw) == Blank
    ensures start != -1 ==>
              start >= 0 && body != "" && StoredAt(b[..], start, body) && Classify(raw) == ClassifyBody(body)
  {
    var strtok := new Tokenizer(b, 0, raw);
    var line, token := strtok.Next('\n');
    if line == -1 {
      return -1, "";
    }
    StoredFirst(b[..], line, token.text);
    if b[line] == '#' {
      return -1, "";
    }
    start, body := line, token.text;
    while b[start] == ' '
      invariant start >= 0 && StoredAt(b[..], start, body) && Skip(body, ' ') == Skip(token.text, ' ')
      decreases |body|
    {
      StoredFirst(b[..], start, body);
      body := body[1..];
      start := start + 1;
    }
    StoredFirst(b[..], start, body);
    if b[start] == NUL {
      return -1, "";
    }
  }

  /** One line: a command goes to the entry at the write position and moves it
      on; a rule first moves past a target without a command.  Throughout, the
      write position is the number of targets less the flag. */
  method ParseLineInto(b: array<char>, ghost raw: string, t: array<Target>,
                       count0: nat, position0: nat, previous0: nat, ghost p: Progress)
    returns (ok: bool, count: nat, position: nat, previous: nat)
    requires StoredAt(b[..], 0, raw)
    requires Stores(t[..], count0, previous0, p) && position0 == count0 - previous0
    requires Classify(raw).Rule? || (Classify(raw).Command? && !p.pending) ==> count0 < t.Length
    modifies b, t
    ensures !ok <==> Next(p, Classify(raw)).Failed?
    ensures ok ==> Stores(t[..], count, previous, Next(p, Classify(raw))) && position == count - previous
  {
    ok, count, position, previous := true, count0, position0, previous0;
    var start, body := LineBody(b, raw);
    if start == -1 {
      return;
    }
    StoredFirst(b[..], start, body);
    if b[start] == '\t' {
      ok, position, previous := ParseCommand(b, start + 1, body[1..], t, count, position, previous, p);
      return;
    }
    var hasColon := Contains(b, start, ':', body);
    if !hasColon {
      ok := false;
      return;
    }
    if previous == 1 {
      position := position + 1;
    }
    ok := ParseRule(b, start, body, t, position);
    if ok {
      TargetStored(old(t[..]), count0, previous0, p, ClassifyBody(body));
      count := count + 1;
      previous := 1;
    }
  }

  lemma TargetStored(t: seq<Target>, count: nat, previous: nat, p: Progress, l: Line)
    requires Stores(t, count, previous, p) && l.Rule? && l.name != "" && count < |t|
    ensures Stores(t[count := Target(l.name, l.deps, "", Unfinished)], count + 1, 1, Next(p, l))
  {
    var after := t[count := Target(l.name, l.deps, "", Unfinished)];
    assert after[..count + 1] == t[..count] + [Target(l.name, l.deps, "", Unfinished)];
  }

  /** Copies the command to the entry at the write position, if it has a name. */
  method ParseCommand(b: array<char>, i: nat, ghost text: string, t: array<Target>,
                      ghost count: nat, position0: nat, previous0: nat, ghost p: Progress)
    returns (ok: bool, position: nat, previous: nat)
    requires StoredAt(b[..], i, text)
    requires Stores(t[..], count, previous0, p) && position0 == count - previous0 && (!p.pending ==> count < t.Length)
    modifies t
    ensures !ok <==> Next(p, Command(text)).Failed?
    ensures ok ==> Stores(t[..], count, previous, Next(p, Command(text))) && position == count - previous
  {
    ok, position, previous := true, position0, previous0;
    if t[position].name == "" {
      return false, position, previous;
    }
    var command := ReadString(b, i, text);
    t[position] := t[position].(command := command);
    assert t[..count] == old(t[..count])[position := old(t[position0]).(command := text)];
    previous := 0;
    position := position + 1;
  }

  /** Splits a rule at its colon and its spaces, in place, into a zeroed entry;
      fails exactly when the rule consists of colons only. */
  method ParseRule(b: array<char>, start: nat, ghost body: string, t: array<Target>, p: nat) returns (ok: bool)
    requires StoredAt(b[..], start, body) && body != "" && body[0] != '\t' && ':' in body
    requires ClassifyBody(body).Rule? ==> p < t.Length && t[p] == ZERO
    modifies b, t
    ensures ok <==> ClassifyBody(body).Rule?
    ensures t[..] == if ok then
                       old(t[..])[p := Target(ClassifyBody(body).name, ClassifyBody(body).deps, "", Unfinished)]
                     else old(t[..])
  {
    var strtok := new Tokenizer(b, start, body);
    var name, token := strtok.Next(':');
    if name == -1 {
      return false;
    }
    var targetName := ReadString(b, name, token.text);
    ghost var deps := Tokens(token.rest, ' ');
    assert ClassifyBody(body) == Rule(token.text, deps);
    t[p] := t[p].(name := targetName);
    AddDependencies(strtok, t, p);
    assert [] + deps == deps;
    return true;
  }

  /** The tokens from the one just returned on. */
  function Remaining(token: Token): seq<string> {
    match token
    case NoToken => []
    case Token(text, rest) => [text] + Tokens(rest, ' ')
  }

  lemma OneTokenDone(done: seq<string>, token: Token)
    requires token.Token?
    ensures done + Remaining(token) == done + [token.text] + Remaining(Strtok(token.rest, ' '))
  {}

  lemma DependencyAppended(before: seq<Target>, t: seq<Target>, p: nat, done: seq<string>, name: string)
    requires p < |before| && t == before[p := before[p].(deps := before[p].deps + done)]
    ensures t[p := t[p].(deps := t[p].deps + [name])]
         == before[p := before[p].(deps := before[p].deps + (done + [name]))]
  {
    assert before[p].deps + done + [name] == before[p].deps + (done + [name]);
  }

  method AddDependency(b: array<char>, i: nat, ghost name: string, t: array<Target>, p: nat)
    requires StoredAt(b[..], i, name) && p < t.Length
    modifies t
    ensures t[..] == old(t[..])[p := old(t[p]).(deps := old(t[p].deps) + [name])]
  {
    var dependency := ReadString(b, i, name);
    t[p] := t[p].(deps := t[p].deps + [dependency]);
  }

  /** Appends the dependency tokens one at a time, as the inner loop does. */
  method AddDependencies(strtok: Tokenizer, t: array<Target>, p: nat)
    requires strtok.Valid() && p < t.Length
    modifies strtok, strtok.buffer, t
    ensures t[..] == old(t[..])[p := old(t[p]).(deps := old(t[p].deps) + Tokens(old(strtok.left), ' '))]
  {
    ghost var before, all := t[..], Tokens(strtok.left, ' ');
    ghost var done: seq<string> := [];
    assert before[p].deps + done == before[p].deps;
    var dependency, token := strtok.Next(' ');
    while dependency != -1
      invariant strtok.Valid() && (dependency == -1 <==> token == NoToken)
      invariant dependency != -1 ==>
                  dependency >= 0 && StoredAt(strtok.buffer[..], dependency, token.text) && strtok.left == token.rest
      invariant all == done + Remaining(token)
      invariant t[..] == before[p := before[p].(deps := before[p].deps + done)]
      decreases if token == NoToken then 0 else |token.rest| + 1
    {
      OneTokenDone(done, token);
      DependencyAppended(before, t[..], p, done, token.text);
      AddDependency(strtok.buffer, dependency, token.text, t, p);
      done := done + [token.text];
      dependency, token := strtok.Next(' ');
    }
    assert done + [] == done;
  }

  // ---------------------------------------------------------------- finding targets

  /** The lowest target of that name, or -1. */
  ghost predicate IsFirst(ts: seq<Target>, name: string, i: int) {
    && -1 <= i < |ts|
    && (i == -1 ==> forall j | 0 <= j < |ts| :: ts[j].name != name)
    && (i != -1 ==> ts[i].name == name && forall j | 0 <= j < i :: ts[j].name != name)
  }

  function FindFrom(ts: seq<Target>, name: string, n: nat): (i: int)
    requires n <= |ts|
    ensures i == -1 ==> forall j | n <= j < |ts| :: ts[j].name != name
    ensures i != -1 ==> n <= i < |ts| && ts[i].name == name && forall j | n <= j < i :: ts[j].name != name
    decreases |ts| - n
  {
    if n == |ts| then -1 else if ts[n].name == name then n else FindFrom(ts, name, n + 1)
  }

  function Find(ts: seq<Target>, name: string): (i: int)
    ensures IsFirst(ts, name, i)
  {
    FindFrom(ts, name, 0)
  }

  /** A lookup depends on nothing but the names. */
  lemma {:induction false} SameNamesFind(ts: seq<Target>, us: seq<Target>, name: string, n: nat)
    requires n <= |ts| == |us| && forall i | 0 <= i < |ts| :: ts[i].name == us[i].name
    ensures FindFrom(ts, name, n) == FindFrom(us, name, n)
    decreases |ts| - n
  {
    if n < |ts| {
      SameNamesFind(ts, us, name, n + 1);
    }
  }

  method FindTarget(name: string, t: array<Target>, count: nat) returns (i: int)
    requires count <= t.Length
    ensures IsFirst(t[..count], name, i) && i == Find(t[..count], name)
  {
    i := 0;
    while i < count
      invariant 0 <= i <= count
      invariant FindFrom(t[..count], name, 0) == FindFrom(t[..count], name, i)
    {
      if t[i].name == name {
        return;
      }
      i := i + 1;
    }
    i := -1;
  }
}
