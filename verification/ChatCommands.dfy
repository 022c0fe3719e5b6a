// The chat server's command lines: which command a line is, and the name and
// text inside it.

module ChatCommands {
  import opened Options
  import opened CStrings

  datatype CommandType = LIST | KICK | P2P | SEG | EXIT | BROADCAST

  const COMMANDS: seq<string> := ["\\list", "\\kick", "\\p2p", "\\seg", "\\exit"]

  const TYPES: seq<CommandType> := [LIST, KICK, P2P, SEG, EXIT]

  /** The type of the command word: the table entry with that word, or a broadcast. */
  ghost predicate IsTypeOf(command: string, t: CommandType) {
    if t == BROADCAST then command !in COMMANDS
    else exists i :: 0 <= i < |COMMANDS| && COMMANDS[i] == command && TYPES[i] == t
  }

  function TypeOfWord(command: string): (t: CommandType)
    ensures IsTypeOf(command, t)
  {
    if command == COMMANDS[0] then LIST
    else if command == COMMANDS[1] then KICK
    else if command == COMMANDS[2] then P2P
    else if command == COMMANDS[3] then SEG
    else if command == COMMANDS[4] then EXIT
    else BROADCAST
  }

  lemma TypeIsUnique(command: string, t: CommandType, u: CommandType)
    requires IsTypeOf(command, t) && IsTypeOf(command, u)
    ensures t == u
  {}

  method FindCommandType(command: string) returns (t: CommandType)
    ensures IsTypeOf(command, t) && t == TypeOfWord(command)
  {
    t := BROADCAST;
    var i := 0;
    while i < |COMMANDS|
      invariant 0 <= i <= |COMMANDS|
      invariant forall j | 0 <= j < i :: COMMANDS[j] != command
    {
      if command == COMMANDS[i] {
        TypeIsUnique(command, TYPES[i], TypeOfWord(command));
        return TYPES[i];
      }
      i := i + 1;
    }
    TypeIsUnique(command, BROADCAST, TypeOfWord(command));
  }

  /** A line with no word leaves no command word to compare. */
  predicate HasWord(line: string) {
    Tokens(line, ' ') != []
  }

  function LineType(line: string): CommandType
    requires HasWord(line)
  {
    TypeOfWord(Tokens(line, ' ')[0])
  }

  /** The command word of a private copy of the line, looked up in the table. */
  method GetCommandType(fullCommand: string) returns (t: CommandType)
    requires NUL !in fullCommand && HasWord(fullCommand)
    ensures t == LineType(fullCommand)
  {
    var msg := Copy(fullCommand);
    CStringIsAll(fullCommand);
    var tokens := ParseLine(msg, ' ', fullCommand);
    var word := ReadString(msg, tokens[0], Tokens(fullCommand, ' ')[0]);
    t := FindCommandType(word);
  }

  // ---------------------------------------------------------------- name and text

  /** strchr from position `i`: the first `c` at or after it, or -1. */
  function Strchr(s: string, c: char, i: nat): (k: int)
    requires i <= |s|
    ensures k == -1 || i <= k < |s|
    ensures k == -1 ==> forall j | i <= j < |s| :: s[j] != c
    ensures k != -1 ==> s[k] == c && forall j | i <= j < k :: s[j] != c
    decreases |s| - i
  {
    if i == |s| then -1
    else if s[i] == c then i
    else Strchr(s, c, i + 1)
  }

  function NameIn(line: string): Option<string> {
    var tokens := Tokens(line, ' ');
    if |tokens| >= 2 then Some(tokens[1]) else None
  }

  /** With two tokens there is a space, and with three a second one after it. */
  lemma {:induction false} TokensNeedSpaces(s: string, n: nat)
    requires |Tokens(s, ' ')| >= n + 1
    ensures n >= 1 ==> ' ' in s
    ensures n >= 2 ==> SecondSpace(s) != -1
  {
    if n >= 1 {
      var t := Strtok(s, ' ');
      StrtokEnds(s, ' ');
      assert t.rest != "" by {
        assert Tokens(t.rest, ' ') != [];
      }
      var p := |s| - |t.rest| - 1;
      assert s[p] == ' ';
      assert Strchr(s, ' ', 0) <= p;
      if n >= 2 {
        TokensNeedSpaces(t.rest, 1);
        var j :| 0 <= j < |t.rest| && t.rest[j] == ' ';
        assert s[p + 1 + j] == ' ';
      }
    }
  }

  /** A token that does not end the string ends at a delimiter. */
  lemma StrtokEnds(s: string, d: char)
    requires Strtok(s, d).Token? && Strtok(s, d).rest != ""
    ensures var p := |s| - |Strtok(s, d).rest| - 1;
            0 <= p && s[p] == d && s[p + 1..] == Strtok(s, d).rest
  {
    var r := Skip(s, d);
    SkipIsSuffix(s, d);
    var n := Span(r, d);
    assert r[n] == d;
    assert s[|s| - |r| + n] == r[n];
  }

  lemma {:induction false} SkipIsSuffix(s: string, d: char)
    ensures |Skip(s, d)| <= |s| && s[|s| - |Skip(s, d)|..] == Skip(s, d)
  {
    if s != "" && s[0] == d {
      SkipIsSuffix(s[1..], d);
    }
  }

  /** The second space of a line, or -1. */
  function SecondSpace(line: string): (k: int)
    ensures -1 <= k < |line|
  {
    var first := Strchr(line, ' ', 0);
    if first == -1 then -1 else Strchr(line, ' ', first + 1)
  }

  /** The text: everything after the second space of the line as typed. */
  function TextIn(line: string): Option<string> {
    if |Tokens(line, ' ')| >= 3 then Some(line[SecondSpace(line) + 1..]) else None
  }

  method ExtractName(buf: string) returns (name: Option<string>)
    requires NUL !in buf
    ensures name == NameIn(buf)
  {
    var inbuf := Copy(buf);
    CStringIsAll(buf);
    var tokens := ParseLine(inbuf, ' ', buf);
    if |tokens| >= 2 {
      var text := ReadString(inbuf, tokens[1], Tokens(buf, ' ')[1]);
      return Some(text);
    }
    return None;
  }

  /** parse_line on a private copy, for the number of tokens alone. */
  method CountTokens(buf: string) returns (n: nat)
    requires NUL !in buf
    ensures n == |Tokens(buf, ' ')|
  {
    var inbuf := Copy(buf);
    CStringIsAll(buf);
    var tokens := ParseLine(inbuf, ' ', buf);
    n := |tokens|;
  }

  method ExtractText(buf: string) returns (text: Option<string>)
    requires NUL !in buf
    ensures text == TextIn(buf)
  {
    var tokenCount := CountTokens(buf);
    if tokenCount >= 3 {
      TokensNeedSpaces(buf, 2);
      var s := Strchr(buf, ' ', 0);
      s := Strchr(buf, ' ', s + 1);
      assert s == SecondSpace(buf);
      return Some(buf[s + 1..]);
    }
    return None;
  }

  // ---------------------------------------------------------------- round trip

  function Spaces(n: nat): string {
    seq(n, _ => ' ')
  }

  lemma {:induction false} LeadingSpaces(n: nat, s: string)
    ensures Tokens(Spaces(n) + s, ' ') == Tokens(s, ' ')
  {
    if n == 0 {
      assert Spaces(0) + s == s;
    } else {
      assert Spaces(n) + s == [' '] + (Spaces(n - 1) + s);
      TokensSkipDelimiter(Spaces(n - 1) + s, ' ');
      LeadingSpaces(n - 1, s);
    }
  }

  lemma WordThenSpaces(w: string, m: nat, s: string)
    requires m >= 1 && IsWord(w)
    ensures Tokens(w + Spaces(m) + s, ' ') == [w] + Tokens(s, ' ')
  {
    assert Spaces(m) == [' '] + Spaces(m - 1);
    assert w + Spaces(m) + s == w + [' '] + (Spaces(m - 1) + s);
    TokensOfWord(w, Spaces(m - 1) + s, ' ');
    LeadingSpaces(m - 1, s);
  }

  const P2P_WORD: string := "\\p2p"

  /** A private message as a user types it: `a` spaces, the command, `m` spaces,
      the name, one space, the text. */
  function P2PLine(a: nat, m: nat, name: string, text: string): string {
    Spaces(a) + (P2P_WORD + Spaces(m) + (name + Spaces(1) + text))
  }

  predicate IsWord(s: string) {
    s != "" && ' ' !in s
  }

  /** A text worth sending: some character is not a space. */
  ghost predicate HasText(s: string) {
    exists i :: 0 <= i < |s| && s[i] != ' '
  }

  /** Extra spaces before or after the command change neither the type of the
      line nor the name. */
  lemma P2PLineTokens(a: nat, m: nat, name: string, text: string)
    requires m >= 1 && IsWord(name)
    ensures Tokens(P2PLine(a, m, name, text), ' ') == [P2P_WORD] + ([name] + Tokens(text, ' '))
  {
    var tail := name + Spaces(1) + text;
    LeadingSpaces(a, P2P_WORD + Spaces(m) + tail);
    WordThenSpaces(P2P_WORD, m, tail);
    WordThenSpaces(name, 1, text);
  }

  lemma SecondSpaceIs(line: string, first: nat, second: nat)
    requires first < second < |line|
    requires line[first] == ' ' && line[second] == ' '
    requires forall j | 0 <= j < first :: line[j] != ' '
    requires forall j | first < j < second :: line[j] != ' '
    ensures SecondSpace(line) == second
  {}

  /** The characters of a private message line. */
  lemma P2PLineShape(a: nat, m: nat, name: string, text: string)
    requires IsWord(name)
    ensures var line := P2PLine(a, m, name, text);
            var n := a + 4 + m + |name|;
            && |line| == n + 1 + |text| && line[n] == ' ' && line[n + 1..] == text
            && (forall j | 0 <= j < a :: line[j] == ' ')
            && (forall j | a <= j < a + 4 :: line[j] != ' ')
            && (forall j | a + 4 <= j < a + 4 + m :: line[j] == ' ')
            && (forall j | a + 4 + m <= j < n :: line[j] != ' ')
  {}

  /** As typed, without extra spaces, the second space is the one after the name;
      with any extra space it comes earlier. */
  lemma SecondSpaceOfLine(a: nat, m: nat, name: string, text: string)
    requires m >= 1 && IsWord(name)
    ensures 0 <= SecondSpace(P2PLine(a, m, name, text)) <= a + 4 + m + |name|
    ensures SecondSpace(P2PLine(a, m, name, text)) == a + 4 + m + |name| <==> a == 0 && m == 1
  {
    var line := P2PLine(a, m, name, text);
    P2PLineShape(a, m, name, text);
    if a == 0 && m == 1 {
      SecondSpaceIs(line, 4, 5 + |name|);
    } else if a == 0 {
      SecondSpaceIs(line, 4, 5);
    } else if a == 1 {
      SecondSpaceIs(line, 0, 5);
    } else {
      SecondSpaceIs(line, 0, 1);
    }
  }

  lemma P2PLineIsRecognised(a: nat, m: nat, name: string, text: string)
    requires m >= 1 && IsWord(name)
    ensures HasWord(P2PLine(a, m, name, text)) && LineType(P2PLine(a, m, name, text)) == P2P
    ensures NameIn(P2PLine(a, m, name, text)) == Some(name)
  {
    P2PLineTokens(a, m, name, text);
    TypeIsUnique(P2P_WORD, P2P, TypeOfWord(P2P_WORD));
  }

  /** The round trip, with its exact condition: a private message line is always
      recognised and its name always recovered; the text comes out exactly as
      typed, inner and leading spaces included, if and only if there is no space
      before the command and only one after it. */
  lemma CommandRoundTrip(a: nat, m: nat, name: string, text: string)
    requires m >= 1 && IsWord(name) && HasText(text)
    ensures HasWord(P2PLine(a, m, name, text)) && LineType(P2PLine(a, m, name, text)) == P2P
    ensures NameIn(P2PLine(a, m, name, text)) == Some(name)
    ensures TextIn(P2PLine(a, m, name, text)) == Some(text) <==> a == 0 && m == 1
  {
    P2PLineIsRecognised(a, m, name, text);
    TextOfP2PLine(a, m, name, text);
  }

  lemma P2PLineEnds(a: nat, m: nat, name: string, text: string)
    requires IsWord(name)
    ensures var line := P2PLine(a, m, name, text);
            var n := a + 4 + m + |name|;
            |line| == n + 1 + |text| && line[n + 1..] == text
  {
    P2PLineShape(a, m, name, text);
  }

  lemma P2PLineHasThreeTokens(a: nat, m: nat, name: string, text: string)
    requires m >= 1 && IsWord(name) && HasText(text)
    ensures |Tokens(P2PLine(a, m, name, text), ' ')| >= 3
  {
    P2PLineTokens(a, m, name, text);
    HasToken(text, ' ');
  }

  lemma TextOfP2PLine(a: nat, m: nat, name: string, text: string)
    requires m >= 1 && IsWord(name) && HasText(text)
    ensures TextIn(P2PLine(a, m, name, text)) == Some(text) <==> a == 0 && m == 1
  {
    var line := P2PLine(a, m, name, text);
    P2PLineHasThreeTokens(a, m, name, text);
    SecondSpaceOfLine(a, m, name, text);
    P2PLineEnds(a, m, name, text);
    assert |line[SecondSpace(line) + 1..]| == |line| - SecondSpace(line) - 1;
  }

  /** Without a name there is neither name nor text. */
  lemma NoNameGiven(a: nat, m: nat)
    requires m >= 1
    ensures var line := Spaces(a) + (P2P_WORD + Spaces(m));
            HasWord(line) && LineType(line) == P2P && NameIn(line) == None && TextIn(line) == None
  {
    var line := Spaces(a) + (P2P_WORD + Spaces(m));
    assert Tokens(line, ' ') == [P2P_WORD] by {
      LeadingSpaces(a, P2P_WORD + Spaces(m));
      WordThenSpaces(P2P_WORD, m, "");
      assert P2P_WORD + Spaces(m) + "" == P2P_WORD + Spaces(m);
      assert Tokens("", ' ') == [];
    }
    TypeIsUnique(P2P_WORD, P2P, TypeOfWord(P2P_WORD));
  }

  /** A private message line always gives the name, and a text exactly if something
      other than spaces follows it. */
  lemma NameAndTextGiven(a: nat, m: nat, name: string, text: string)
    requires m >= 1 && IsWord(name)
    ensures NameIn(P2PLine(a, m, name, text)) == Some(name)
    ensures TextIn(P2PLine(a, m, name, text)).Some? <==> HasText(text)
  {
    P2PLineTokens(a, m, name, text);
    HasToken(text, ' ');
  }

  lemma AfterDoubledSpace(name: string, text: string)
    requires IsWord(name)
    ensures SecondSpace(P2PLine(0, 2, name, text)) == 5
    ensures P2PLine(0, 2, name, text)[6..] == name + Spaces(1) + text
  {
    var line := P2PLine(0, 2, name, text);
    P2PLineShape(0, 2, name, text);
    SecondSpaceIs(line, 4, 5);
    assert line == P2P_WORD + Spaces(2) + (name + Spaces(1) + text);
  }

  /** A doubled space after the command delivers the name along with the text. */
  lemma DoubledSpaceAddsName(name: string, text: string)
    requires IsWord(name) && HasText(text)
    ensures TextIn(P2PLine(0, 2, name, text)) == Some(name + Spaces(1) + text)
  {
    P2PLineHasThreeTokens(0, 2, name, text);
    AfterDoubledSpace(name, text);
  }
}
