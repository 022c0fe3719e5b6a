// C strings and strtok (ISO/IEC 9899:2011, section 7.24.5.8), as a function on
// strings and as the routine that overwrites its buffer.

module CStrings {

  const NUL := '\0'

  // ---------------------------------------------------------------- on strings

  /** What is left after the leading delimiters. */
  function Skip(s: string, d: char): (r: string)
    ensures |r| <= |s|
    ensures r != "" ==> r[0] != d
  {
    if s != "" && s[0] == d then Skip(s[1..], d) else s
  }

  /** The length of the part before the first `d`, or of all of `s`. */
  function Span(s: string, d: char): (n: nat)
    ensures n <= |s|
    ensures forall i | 0 <= i < n :: s[i] != d
    ensures n < |s| ==> s[n] == d
  {
    if s == "" || s[0] == d then 0 else 1 + Span(s[1..], d)
  }

  datatype Token = NoToken | Token(text: string, rest: string)

  /** One call of strtok: the next token and the string the next call searches. */
  function Strtok(s: string, d: char): (t: Token)
    ensures t.Token? ==> t.text != "" && d !in t.text && |t.rest| < |s|
  {
    var r := Skip(s, d);
    if r == "" then NoToken
    else
      var n := Span(r, d);
      Token(r[..n], if n < |r| then r[n + 1..] else "")
  }

  /** All tokens, as repeated calls return them. */
  function Tokens(s: string, d: char): seq<string>
    decreases |s|
  {
    match Strtok(s, d)
    case NoToken => []
    case Token(text, rest) => [text] + Tokens(rest, d)
  }

  lemma TokensSkipDelimiter(s: string, d: char)
    ensures Tokens([d] + s, d) == Tokens(s, d)
  {
    assert ([d] + s)[1..] == s;
    assert Strtok([d] + s, d) == Strtok(s, d);
  }

  lemma {:induction false} SpanOfWord(w: string, s: string, d: char)
    requires d !in w
    ensures Span(w + [d] + s, d) == |w| && Span(w, d) == |w|
  {
    if w == "" {
      assert (w + [d] + s)[0] == d;
    } else {
      assert (w + [d] + s)[1..] == w[1..] + [d] + s;
      assert (w + [d] + s)[0] == w[0];
      assert d !in w[1..];
      SpanOfWord(w[1..], s, d);
    }
  }

  lemma LastToken(w: string, d: char)
    requires w != "" && d !in w
    ensures Strtok(w, d) == Token(w, "")
  {
    assert w[0] in w;
    SpanOfWord(w, "", d);
    assert w[..|w|] == w;
  }

  lemma FirstToken(w: string, s: string, d: char)
    requires w != "" && d !in w
    ensures Strtok(w + [d] + s, d) == Token(w, s)
  {
    var line := w + [d] + s;
    assert line[0] == w[0] && w[0] in w;
    SpanOfWord(w, s, d);
    assert line[..|w|] == w && line[|w| + 1..] == s;
  }

  lemma TokensOfWord(w: string, s: string, d: char)
    requires w != "" && d !in w
    ensures Tokens(w + [d] + s, d) == [w] + Tokens(s, d)
  {
    FirstToken(w, s, d);
  }

  /** There is a token exactly if some character is not a delimiter. */
  lemma {:induction false} HasToken(s: string, d: char)
    ensures Tokens(s, d) != [] <==> exists i :: 0 <= i < |s| && s[i] != d
  {
    if s != "" && s[0] == d {
      HasToken(s[1..], d);
      TokensSkipDelimiter(s[1..], d);
      assert [d] + s[1..] == s;
      if i :| 0 <= i < |s| && s[i] != d {
        assert s[1..][i - 1] == s[i];
      }
      if i :| 0 <= i < |s[1..]| && s[1..][i] != d {
        assert s[i + 1] != d;
      }
    } else if s != "" {
      assert s[0] != d;
    }
  }

  lemma {:induction false} SkipFrom(s: string, d: char, n: nat)
    requires n <= |s| && forall i | 0 <= i < n :: s[i] == d
    ensures Skip(s, d) == Skip(s[n..], d)
  {
    if n > 0 {
      SkipFrom(s[1..], d, n - 1);
      assert s[n..] == s[1..][n - 1..];
    } else {
      assert s[0..] == s;
    }
  }

  lemma SpanIs(s: string, d: char, n: nat)
    requires n <= |s| && (forall i | 0 <= i < n :: s[i] != d) && (n < |s| ==> s[n] == d)
    ensures Span(s, d) == n
  {}

  /** A scan over the leading delimiters that reaches the end finds no token. */
  lemma StrtokFails(s: string, d: char)
    requires forall i | 0 <= i < |s| :: s[i] == d
    ensures Strtok(s, d) == NoToken
  {
    SkipFrom(s, d, |s|);
  }

  /** A scan that skips delimiters up to `n` and passes other characters up to
      `m` finds them as the token. */
  lemma StrtokFinds(s: string, d: char, n: nat, m: nat)
    requires n < m <= |s|
    requires forall i | 0 <= i < n :: s[i] == d
    requires forall i | n <= i < m :: s[i] != d
    requires m < |s| ==> s[m] == d
    ensures Strtok(s, d) == Token(s[n..m], if m < |s| then s[m + 1..] else "")
  {
    SkipFrom(s, d, n);
    SpanFrom(s, d, n, m);
    SliceOfRest(s, n, m);
    assert s[n..][0] == s[n];
  }

  lemma SpanFrom(s: string, d: char, n: nat, m: nat)
    requires n <= m <= |s|
    requires forall i | n <= i < m :: s[i] != d
    requires m < |s| ==> s[m] == d
    ensures Span(s[n..], d) == m - n
  {
    var r := s[n..];
    forall i | 0 <= i < m - n
      ensures r[i] != d
    {
      assert r[i] == s[n + i];
    }
    SpanIs(r, d, m - n);
  }

  lemma SliceOfRest(s: string, n: nat, m: nat)
    requires n <= m <= |s|
    ensures s[n..][..m - n] == s[n..m]
    ensures m < |s| ==> s[n..][m - n + 1..] == s[m + 1..]
  {}

  // ---------------------------------------------------------------- in a buffer

  /** `b` holds the C string `s` at position `i`. */
  ghost predicate StoredAt(b: seq<char>, i: nat, s: string) {
    && i + |s| < |b|
    && b[i + |s|] == NUL
    && forall k | 0 <= k < |s| :: b[i + k] == s[k] && s[k] != NUL
  }

  /** What C functions see of a buffer's contents: all before the first NUL. */
  function CString(s: string): string {
    s[..Span(s, NUL)]
  }

  lemma CStringIsAll(s: string)
    requires NUL !in s
    ensures CString(s) == s
  {
    SpanIs(s, NUL, |s|);
  }

  /** A buffer of its own for a line, ended with a NUL. */
  method Copy(line: string) returns (buffer: array<char>)
    ensures fresh(buffer) && StoredAt(buffer[..], 0, CString(line))
  {
    buffer := new char[|line| + 1](i requires 0 <= i <= |line| => if i < |line| then line[i] else NUL);
  }

  /** strcpy out of a buffer. */
  method ReadString(b: array<char>, i: nat, ghost s: string) returns (r: string)
    requires StoredAt(b[..], i, s)
    ensures r == s
  {
    r := "";
    var k := i;
    assert 0 < |s| ==> b[i + 0] == s[0] != NUL;
    while b[k] != NUL
      invariant i <= k <= i + |s| && r == s[..k - i]
      invariant k - i < |s| ==> b[k] == s[k - i] != NUL
      decreases b.Length - k
    {
      r := r + [b[k]];
      k := k + 1;
      assert k - i < |s| ==> b[i + (k - i)] == s[k - i] != NUL;
    }
  }

  lemma StoredFirst(b: seq<char>, i: nat, s: string)
    requires StoredAt(b, i, s)
    ensures s == "" <==> b[i] == NUL
    ensures s != "" ==> b[i] == s[0] && StoredAt(b, i + 1, s[1..])
  {
    if s != "" {
      assert b[i + 0] == s[0];
      StoredSuffix(b, i, s, 1);
    }
  }

  /** strchr, for whether there is one. */
  method Contains(b: array<char>, i: nat, c: char, ghost s: string) returns (found: bool)
    requires StoredAt(b[..], i, s) && c != NUL
    ensures found <==> c in s
  {
    var k := i;
    ghost var rest := s;
    while b[k] != NUL
      invariant i <= k && StoredAt(b[..], k, rest) && (c in rest <==> c in s)
      decreases |rest|
    {
      StoredFirst(b[..], k, rest);
      if b[k] == c {
        return true;
      }
      assert rest == [rest[0]] + rest[1..];
      rest := rest[1..];
      k := k + 1;
    }
    StoredFirst(b[..], k, rest);
    return false;
  }

  /** The end of a string is itself a string. */
  lemma StoredSuffix(b: seq<char>, i: nat, s: string, n: nat)
    requires StoredAt(b, i, s) && n <= |s|
    ensures StoredAt(b, i + n, s[n..])
  {}

  /** A NUL written over a delimiter splits the string there. */
  lemma StoredCut(b: seq<char>, i: nat, s: string, n: nat, m: nat)
    requires StoredAt(b, i, s) && n <= m < |s|
    ensures StoredAt(b[i + m := NUL], i + n, s[n..m])
    ensures StoredAt(b[i + m := NUL], i + m + 1, s[m + 1..])
  {}

  /** The token from `start` to `end`: a NUL written at its end leaves it and
      the rest of the string as strings. */
  ghost predicate Delimits(b: seq<char>, start: nat, end: nat, t: Token) {
    && t.Token? && start + |t.text| == end < |b|
    && StoredAt(b[end := NUL], start, t.text)
    && StoredAt(b[end := NUL], if b[end] == NUL then end else end + 1, t.rest)
  }

  lemma TokenDelimited(b: seq<char>, i: nat, s: string, n: nat, m: nat)
    requires StoredAt(b, i, s) && n <= m <= |s|
    ensures Delimits(b, i + n, i + m, Token(s[n..m], if m < |s| then s[m + 1..] else ""))
  {
    if m < |s| {
      assert b[i + m] == s[m];
      StoredCut(b, i, s, n, m);
    } else {
      assert b[i + m := NUL] == b;
      assert s[n..m] == s[n..];
      StoredSuffix(b, i, s, n);
      StoredSuffix(b, i, s, m);
    }
  }

  /** A scan that skips delimiters up to `n` and passes other characters up to
      `m` delimits the token that strtok returns. */
  lemma ScanDelimits(b: seq<char>, i: nat, s: string, d: char, n: nat, m: nat)
    requires StoredAt(b, i, s) && n < m <= |s|
    requires forall k | 0 <= k < n :: s[k] == d
    requires forall k | n <= k < m :: s[k] != d
    requires m < |s| ==> s[m] == d
    ensures Delimits(b, i + n, i + m, Strtok(s, d))
  {
    StrtokFinds(s, d, n, m);
    TokenDelimited(b, i, s, n, m);
  }

  /** strtok with its buffer and the position it saves between calls. */
  class Tokenizer {
    const buffer: array<char>
    var save: nat
    ghost var left: string  // the string the next call searches

    ghost predicate Valid()
      reads this, buffer
    {
      StoredAt(buffer[..], save, left)
    }

    /** The first call names the string to search: `s` at position `start`. */
    constructor (buffer: array<char>, start: nat, ghost s: string)
      requires StoredAt(buffer[..], start, s)
      ensures Valid() && this.buffer == buffer && save == start && left == s
    {
      this.buffer := buffer;
      save := start;
      left := s;
    }

    /** Finds the next token and ends it with a NUL; -1 stands for NULL.  Only the
        position just before the saved one is written. */
    method Next(d: char) returns (tok: int, ghost t: Token)
      requires Valid() && d != NUL
      modifies this, buffer
      ensures Valid() && old(save) <= save
      ensures t == Strtok(old(left), d)
      ensures tok == -1 <==> t == NoToken
      ensures tok == -1 ==> buffer[..] == old(buffer[..])
      ensures tok != -1 ==>
                && left == t.rest
                && old(save) <= tok && StoredAt(buffer[..], tok, t.text) && tok + |t.text| <= save
                && buffer[..] == old(buffer[..])[tok + |t.text| := NUL]
    {
      var start, end;
      start, end, t := Scan(d);
      if start == end {
        StopAt(end);
        return -1, t;
      }
      tok := start;
      CutToken(start, end, t);
    }

    /** The first token of the string left, or its end twice. */
    method Scan(d: char) returns (start: nat, end: nat, ghost t: Token)
      requires Valid() && d != NUL
      ensures t == Strtok(left, d) && save <= start <= end < buffer.Length
      ensures start == end <==> t == NoToken
      ensures start == end ==> end == save + |left|
      ensures start != end ==> Delimits(buffer[..], start, end, t)
    {
      start := SkipDelimiters(d);
      if buffer[start] == NUL {
        StrtokFails(left, d);
        return start, start, NoToken;
      }
      end := TokenEnd(start, d);
      ScanDelimits(buffer[..], save, left, d, start - save, end - save);
      t := Strtok(left, d);
    }

    /** Saves the end of the string. */
    method StopAt(end: nat)
      requires Valid() && end == save + |left|
      modifies `save, `left
      ensures Valid() && save == end && left == ""
    {
      StoredSuffix(buffer[..], save, left, |left|);
      save := end;
      left := "";
    }

    /** Ends the token and saves the position after it. */
    method CutToken(start: nat, end: nat, ghost t: Token)
      requires Delimits(buffer[..], start, end, t)
      modifies this, buffer
      ensures Valid() && end <= save && left == t.rest
      ensures StoredAt(buffer[..], start, t.text)
      ensures buffer[..] == old(buffer[..])[end := NUL]
    {
      ghost var b := buffer[..];
      if buffer[end] == NUL {
        save := end;
      } else {
        buffer[end] := NUL;
        save := end + 1;
      }
      left := t.rest;
      assert buffer[..] == b[end := NUL];
    }

    /** strspn: the first position that holds no delimiter. */
    method SkipDelimiters(d: char) returns (start: nat)
      requires Valid() && d != NUL
      ensures save <= start <= save + |left| < buffer.Length && buffer[start] != d
      ensures buffer[start] == NUL <==> start == save + |left|
      ensures forall i | 0 <= i < start - save :: left[i] == d
      ensures start < save + |left| ==> left[start - save] == buffer[start]
    {
      start := save;
      while buffer[start] == d
        invariant save <= start <= save + |left|
        invariant forall i | 0 <= i < start - save :: left[i] == d
        decreases buffer.Length - start
      {
        assert buffer[save + (start - save)] == left[start - save];
        start := start + 1;
      }
      assert start < save + |left| ==> buffer[save + (start - save)] == left[start - save];
    }

    /** strcspn: the end of the token that starts here. */
    method TokenEnd(start: nat, d: char) returns (end: nat)
      requires Valid() && d != NUL
      requires save <= start < save + |left| && buffer[start] != d
      ensures start < end <= save + |left| < buffer.Length
      ensures forall i | start - save <= i < end - save :: left[i] != d
      ensures buffer[end] == NUL <==> end == save + |left|
      ensures end < save + |left| ==> left[end - save] == d
    {
      end := start;
      while buffer[end] != d && buffer[end] != NUL
        invariant start <= end <= save + |left|
        invariant forall i | start - save <= i < end - save :: left[i] != d
        decreases buffer.Length - end
      {
        assert buffer[save + (end - save)] == left[end - save];
        end := end + 1;
      }
      assert end < save + |left| ==> buffer[save + (end - save)] == left[end - save];
      assert buffer[save + (start - save)] == left[start - save];
    }
  }

  /** The token starts found so far still read as the tokens, all before `save`. */
  ghost predicate TokensStored(b: seq<char>, starts: seq<nat>, all: seq<string>, save: nat) {
    && |starts| <= |all|
    && forall k | 0 <= k < |starts| :: StoredAt(b, starts[k], all[k]) && starts[k] + |all[k]| <= save
  }

  /** One more token is found; the next call, which writes at most a NUL at or
      after the saved position, disturbs none of them. */
  lemma TokenAdded(
      b: seq<char>, c: seq<char>, starts: seq<nat>, tok: nat, all: seq<string>, save: nat, at: nat, next: nat)
    requires TokensStored(b, starts, all, save) && |starts| < |all| && save <= next
    requires StoredAt(b, tok, all[|starts|]) && tok + |all[|starts|]| <= save
    requires c == b || (save <= at < |b| && c == b[at := NUL])
    ensures TokensStored(c, starts + [tok], all, next)
  {}

  /** Fills the token array by repeated calls.  Although every call writes into
      the buffer, all tokens returned earlier stay what they were. */
  method ParseLine(input: array<char>, d: char, ghost line: string) returns (tokens: seq<nat>)
    requires StoredAt(input[..], 0, line) && d != NUL
    modifies input
    ensures |tokens| == |Tokens(line, d)|
    ensures forall k | 0 <= k < |tokens| :: StoredAt(input[..], tokens[k], Tokens(line, d)[k])
  {
    ghost var all := Tokens(line, d);
    var strtok := new Tokenizer(input, 0, line);
    ghost var todo := all;
    tokens := [];
    var tok, next := strtok.Next(d);
    while tok != -1
      invariant strtok.Valid() && strtok.buffer == input
      invariant tok == -1 ==> todo == []
      invariant tok != -1 ==>
          && tok >= 0 && todo != [] && StoredAt(input[..], tok, todo[0])
          && tok + |todo[0]| <= strtok.save
          && todo[1..] == Tokens(strtok.left, d)
      invariant TokensStored(input[..], tokens, all, strtok.save)
      invariant todo == all[|tokens|..]
      decreases |todo|
    {
      var first := tok;
      ghost var before, from := input[..], strtok.save;
      tok, next := strtok.Next(d);
      assert todo[0] == all[|tokens|];
      TokenAdded(before, input[..], tokens, first, all, from, if tok == -1 then 0 else tok + |next.text|, strtok.save);
      tokens := tokens + [first];
      todo := todo[1..];
    }
  }
}
