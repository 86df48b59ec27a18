/** The lexer on its own state: where it is in the text, and the position it records in tokens,
    which does not count the characters of comments. */
module Lexing {
  import opened Types
  import opened Syntax
  import opened Tokens
  import opened Lexemes
  import opened Munch

  /** A token, or the end of the text, with its recorded position and length. */
  datatype Token = Token(tok: Option<Tok>, position: nat, len: nat)

  /** One call of the lexer: from offset `at` in the text, with `comments` characters of comments
      skipped before, it gives the token t and stops at `end`, with `skipped` characters skipped. */
  ghost predicate Scanned(text: string, at: nat, comments: nat, t: Option<Token>, end: nat, skipped: nat)
    requires at <= |text|
  {
    var g := GapOf(text[at..]);
    if g.Unterminated? then t.None?
    else
      var start := at + g.length;
      if start == |text| then
        t.Some? && t.value.tok.None? && end == start && InPlace(t.value, start, comments + g.comments, skipped)
      else
        var l := First(text[start..]);
        if l.Error? then t.None?
        else
          t.Some? && t.value.tok == Some(l.tok) && t.value.len == l.len && end == start + l.len &&
          InPlace(t.value, start, comments + g.comments, skipped)
  }

  /** The recorded position and the comments before the token add up to its offset. */
  predicate InPlace(t: Token, start: nat, comments: nat, skipped: nat) {
    skipped == comments && t.position + skipped == start
  }

  lemma ScannedEnd(text: string, at: nat, comments: nat)
    requires at == |text| && comments <= at
    ensures Scanned(text, at, comments, Some(Token(None, at - comments, 1)), at, comments)
  {
    assert text[at..] == [];
  }

  lemma ScannedBlank(text: string, at: nat, comments: nat, t: Option<Token>, end: nat, skipped: nat)
    requires at < |text| && IsSpace(text[at]) && Scanned(text, at + 1, comments, t, end, skipped)
    ensures Scanned(text, at, comments, t, end, skipped)
  {
    hide First;
    assert text[at..][1..] == text[at + 1..];
  }

  lemma ScannedComment(text: string, at: nat, n: nat, comments: nat, t: Option<Token>, end: nat, skipped: nat)
    requires at < |text| && text[at] == '#' && n == ToNewline(text[at..]) && at + n < |text|
    requires Scanned(text, at + n + 1, comments + n + 1, t, end, skipped)
    ensures Scanned(text, at, comments, t, end, skipped)
  {
    hide First;
    assert text[at..][n + 1..] == text[at + n + 1..];
  }

  lemma ScannedToken(text: string, at: nat, comments: nat, t: Option<Token>, end: nat)
    requires at < |text| && !IsSpace(text[at]) && text[at] != '#' && comments <= at
    requires var l := First(text[at..]);
             if l.Error? then t.None? else t == Some(Token(Some(l.tok), at - comments, l.len)) && end == at + l.len
    ensures Scanned(text, at, comments, t, end, comments)
  {
    hide First;
    assert text[at..][0] == text[at];
  }

  /** The value of a string of digits. */
  method Atoll(s: string) returns (n: nat)
    requires forall c | c in s :: IsDigit(c)
    ensures n == Decimal(s)
  {
    n := 0;
    for i := 0 to |s|
      invariant n == Decimal(s[..i])
    {
      assert s[..i + 1][..i] == s[..i];
      n := 10 * n + DigitValue(s[i]);
    }
    assert s[..|s|] == s;
  }

  class Lexer {
    const text: string
    var src: nat
    var position: nat
    ghost var comments: nat

    predicate Valid()
      reads this
    {
      src <= |text| && position <= src
    }

    ghost predicate Counted()
      reads this
    {
      Valid() && position + comments == src
    }

    constructor (text: string)
      ensures this.text == text && src == 0 && comments == 0 && Counted()
    {
      this.text, src, position, comments := text, 0, 0, 0;
    }

    /** The suffix of a number tells its kind. */
    method TokenizeSuffix() returns (kind: NumberKind)
      requires src <= |text|
      modifies this`src
      ensures old(src) <= src <= |text| && (kind, src - old(src)) == Suffix(text[old(src)..])
    {
      kind := NumAny;
      if src < |text| {
        assert text[src..][0] == text[src];
        match text[src]
        case 'L' =>
          kind := NumLong;
          src := src + 1;
        case 'B' =>
          kind := NumChar;
          src := src + 1;
        case 'I' =>
          kind := NumInt;
          src := src + 1;
        case _ =>
      }
    }

    method TokenizeNumber() returns (l: Lexeme)
      requires src < |text| && IsDigit(text[src])
      modifies this`src
      ensures src <= |text| && l == NumberLexeme(text[old(src)..]) && (l.Lexeme? ==> src == old(src) + l.len)
    {
      hide Suffix, Decimal;
      var start := src;
      src := src + 1;
      while src < |text| && IsDigit(text[src])
        invariant start < src <= |text|
        invariant Digits(text[start..]) == src - start + Digits(text[src..])
        decreases |text| - src
      {
        assert text[src..][1..] == text[src + 1..];
        src := src + 1;
      }
      ghost var rest := text[start..];
      assert text[src..] == [] || text[src..][0] == text[src];
      assert Digits(rest) == src - start && rest[Digits(rest)..] == text[src..];
      DigitsAre(rest);
      var n := src;
      var kind := TokenizeSuffix();
      assert text[start..n] == rest[..n - start];
      var v := Atoll(text[start..n]);
      l := if src - start > MAX_LEN || v >= NUMBER_LIMIT then Error else Lexeme(TNumber(kind, v), src - start);
    }

    method TokenizeIdent() returns (l: Lexeme)
      requires src < |text| && IsHead(text[src])
      modifies this`src
      ensures src <= |text| && l == WordLexeme(text[old(src)..]) && (l.Lexeme? ==> src == old(src) + l.len)
    {
      hide Word;
      var start := src;
      src := src + 1;
      while src < |text| && IsTail(text[src])
        invariant start < src <= |text|
        invariant Tails(text[start..]) == src - start + Tails(text[src..])
        decreases |text| - src
      {
        assert text[src..][1..] == text[src + 1..];
        src := src + 1;
      }
      assert text[src..] == [] || text[src..][0] == text[src];
      assert text[start..src] == text[start..][..src - start];
      l := if src - start > MAX_LEN then Error else Lexeme(Word(text[start..src]), src - start);
    }

    method TokenizeString() returns (l: Lexeme)
      requires src < |text|
      modifies this`src
      ensures src <= |text| && l == StringLexeme(text[old(src)..]) && (l.Lexeme? ==> src == old(src) + l.len)
    {
      var start := src + 1;
      src := src + 1;
      while src < |text| && text[src] != '"'
        invariant start <= src <= |text|
        invariant Quote(text[start..]) == src - start + Quote(text[src..])
        decreases |text| - src
      {
        assert text[src..][1..] == text[src + 1..];
        src := src + 1;
      }
      assert text[start - 1..][1..] == text[start..];
      assert text[src..] == [] || text[src..][0] == text[src];
      l := Error;
      if src < |text| {
        assert text[start..src] == text[start - 1..][1..src - start + 1];
        l := Lexeme(TString(text[start..src]), src - start + 2);
        src := src + 1;
      }
    }

    method TokenizeChar() returns (l: Lexeme)
      requires src < |text|
      modifies this`src
      ensures src <= |text| && l == CharLexeme(text[old(src)..]) && (l.Lexeme? ==> src == old(src) + l.len)
    {
      l := Error;
      if src + 2 < |text| && text[src + 1] as nat < 128 && text[src + 2] == '\'' {
        l := Lexeme(TNumber(NumChar, text[src + 1] as nat), 3);
        src := src + 3;
      }
    }

    /** The token at the current character, which is none of those between tokens. */
    method Tokenize() returns (l: Lexeme)
      requires src < |text|
      modifies this`src
      ensures src <= |text| && l == First(text[old(src)..]) && (l.Lexeme? ==> src == old(src) + l.len)
    {
      hide NumberLexeme, WordLexeme, StringLexeme, CharLexeme, Single, Double;
      var c := text[src];
      if Single(c).Some? {
        l := Lexeme(Single(c).value, 1);
        src := src + 1;
      } else if Double(c).Some? {
        var d := Double(c).value;
        src := src + 1;
        l := Lexeme(d.0, 1);
        if src < |text| && text[src] == d.1 {
          l := Lexeme(d.2, 2);
          src := src + 1;
        }
      } else if c == '\'' {
        l := TokenizeChar();
      } else if c == '"' {
        l := TokenizeString();
      } else if IsDigit(c) {
        l := TokenizeNumber();
      } else if IsHead(c) {
        l := TokenizeIdent();
      } else {
        l := Error;
      }
    }

    /** Skips the comment that begins here, which must end with a newline. */
    method SkipComment() returns (ok: bool)
      requires src < |text| && text[src] == '#'
      modifies this`src
      ensures src <= |text|
      ensures var n := ToNewline(text[old(src)..]);
              ok == (n < |text| - old(src)) && (ok ==> src == old(src) + n + 1)
    {
      var start := src;
      src := src + 1;
      while src < |text| && text[src] != '\n'
        invariant start < src <= |text|
        invariant ToNewline(text[start..]) == src - start + ToNewline(text[src..])
        decreases |text| - src
      {
        assert text[src..][1..] == text[src + 1..];
        src := src + 1;
      }
      assert text[src..] == [] || text[src..][0] == text[src];
      ok := src < |text|;
      if ok {
        src := src + 1;
      }
    }

    method Next() returns (t: Option<Token>)
      requires Counted()
      modifies this
      ensures Scanned(text, old(src), old(comments), t, src, comments)
      ensures t.Some? ==> Counted() && old(src) + (if t.value.tok.Some? then 1 else 0) <= src
      decreases |text| - src
    {
      hide First, Scanned, InPlace, GapOf, ToNewline;
      ghost var start, before := src, comments;
      t := None;
      if src == |text| {
        t := Some(Token(None, position, 1));
        ScannedEnd(text, start, before);
        return;
      }
      var c := text[src];
      if IsSpace(c) {
        src := src + 1;
        position := position + 1;
        t := Next();
        ScannedBlank(text, start, before, t, src, comments);
      } else if c == '#' {
        var ok := SkipComment();
        if ok {
          ghost var n := src - start - 1;
          comments := comments + n + 1;
          t := Next();
          ScannedComment(text, start, n, before, t, src, comments);
        } else {
          NoNewline(text, start, before, t, src, comments);
        }
      } else {
        var l := Tokenize();
        if l.Lexeme? {
          t := Some(Token(Some(l.tok), position, l.len));
          position := position + l.len;
        }
        ScannedToken(text, start, before, t, src);
      }
    }
  }

  lemma NoNewline(text: string, at: nat, comments: nat, t: Option<Token>, end: nat, skipped: nat)
    requires at < |text| && text[at] == '#' && ToNewline(text[at..]) == |text| - at && t.None?
    ensures Scanned(text, at, comments, t, end, skipped)
  {
    hide First;
    assert text[at..][0] == text[at];
  }

  /** The tokens cover the text from offset `at` on: only blanks and comments lie between them, each
      is spelled by the characters it covers, nothing longer there spells a token, and its position
      and the comments before it add up to its offset. */
  ghost predicate Tiled(text: string, at: nat, comments: nat, tokens: seq<Token>)
    decreases |tokens|
  {
    at <= |text| &&
    var g := GapOf(text[at..]);
    g.Gap? &&
    var start, skipped := at + g.length, comments + g.comments;
    if tokens == [] then start == |text|
    else
      var t := tokens[0];
      var end := start + t.len;
      end <= |text| && t.tok.Some? && t.position + skipped == start && Spells(t.tok.value, text[start..end]) &&
      Longest(text, start, end) && Tiled(text, end, skipped, tokens[1..])
  }

  ghost predicate Longest(text: string, start: nat, end: nat) {
    forall m, t | end < m <= |text| && start <= end :: !Spells(t, text[start..m])
  }

  /** What lies in a gap is blanks and whole comments. */
  predicate Blank(s: string)
    decreases |s|
  {
    s == [] || (IsSpace(s[0]) && Blank(s[1..])) ||
    (s[0] == '#' && ToNewline(s) < |s| && Blank(s[ToNewline(s) + 1..]))
  }

  lemma {:induction false} GapIsBlank(src: string)
    ensures var g := GapOf(src); g.Gap? ==> Blank(src[..g.length]) && (g.length < |src| ==> !Separates(src[g.length..]))
    decreases |src|
  {
    hide ToNewline, Separates, IsSpace;
    var g := GapOf(src);
    if src == [] {
      assert src[..0] == [];
    } else if g.Gap? {
      if IsSpace(src[0]) {
        GapIsBlank(src[1..]);
        CutTwice(src, 1, g.length);
      } else if src[0] == '#' {
        var n := ToNewline(src);
        GapIsBlank(src[n + 1..]);
        NewlineWithin(src, g.length);
        CutTwice(src, n + 1, g.length);
      } else {
        NoGap(src);
      }
    }
  }

  lemma CutTwice(src: string, k: nat, m: nat)
    requires 1 <= k <= m <= |src|
    ensures src[..m][0] == src[0] && src[..m][k..] == src[k..][..m - k] && src[m..] == src[k..][m - k..]
  {
  }

  lemma NoGap(src: string)
    requires src != [] && !IsSpace(src[0]) && src[0] != '#'
    ensures Blank(src[..0]) && !Separates(src[0..])
  {
  }

  lemma {:induction false} NewlineWithin(src: string, m: nat)
    requires ToNewline(src) < m <= |src|
    ensures ToNewline(src[..m]) == ToNewline(src)
    decreases |src|
  {
    if src[0] != '\n' {
      assert src[..m][1..] == src[1..][..m - 1];
      NewlineWithin(src[1..], m - 1);
    }
  }

  lemma TokenIsLongest(text: string, start: nat)
    requires start < |text| && First(text[start..]).Lexeme?
    ensures var l := First(text[start..]);
            Spells(l.tok, text[start..start + l.len]) && Longest(text, start, start + l.len)
  {
    hide First, Spells;
    var src := text[start..];
    var l := First(src);
    FirstSpells(src);
    assert text[start..start + l.len] == src[..l.len];
    forall m, t | start + l.len < m <= |text| ensures !Spells(t, text[start..m]) {
      assert text[start..m] == src[..m - start];
      if Spells(t, src[..m - start]) {
        FirstIsLongest(src, m - start, t);
      }
    }
  }

  /** One token more in front of the tokens that cover the rest. */
  lemma TiledMore(text: string, at: nat, comments: nat, t: Token, end: nat, skipped: nat, more: seq<Token>)
    requires at <= |text| && Scanned(text, at, comments, Some(t), end, skipped) && t.tok.Some? &&
             Tiled(text, end, skipped, more)
    ensures Tiled(text, at, comments, [t] + more)
  {
    hide GapOf, First, Spells, Longest;
    var start := at + GapOf(text[at..]).length;
    TokenIsLongest(text, start);
    assert ([t] + more)[1..] == more;
  }

  lemma TiledEnd(text: string, at: nat, comments: nat, t: Token, end: nat, skipped: nat)
    requires at <= |text| && Scanned(text, at, comments, Some(t), end, skipped) && t.tok.None?
    ensures Tiled(text, at, comments, [])
  {
    hide First;
  }

  /** One call of the lexer does one step of lexing the whole text. */
  lemma LexMore(text: string, at: nat, comments: nat, t: Option<Token>, end: nat, skipped: nat)
    requires at <= |text| && Scanned(text, at, comments, t, end, skipped)
    ensures t.None? ==> LexAll(text[at..]).None?
    ensures t.Some? && t.value.tok.None? ==> LexAll(text[at..]) == Some([])
    ensures t.Some? && t.value.tok.Some? ==>
              end <= |text| &&
              var rest := LexAll(text[end..]);
              LexAll(text[at..]) == if rest.Some? then Some([t.value.tok.value] + rest.value) else None
  {
    hide First;
    var g := GapOf(text[at..]);
    if g.Gap? {
      var start := at + g.length;
      assert text[at..][g.length..] == text[start..];
      if t.Some? && t.value.tok.Some? {
        assert text[start..][t.value.len..] == text[end..];
      }
    }
  }

  /** Runs the lexer up to the end of the text. */
  method Collect(text: string) returns (tokens: Option<seq<Token>>, kinds: seq<Tok>)
    ensures tokens.Some? ==> Tiled(text, 0, 0, tokens.value) && LexAll(text) == Some(kinds) && |kinds| == |tokens.value|
    ensures tokens.Some? ==> forall i | 0 <= i < |kinds| :: tokens.value[i].tok == Some(kinds[i])
    ensures tokens.None? ==> LexAll(text).None?
  {
    hide LexAll, Scanned, Tiled;
    var lexer := new Lexer(text);
    tokens, kinds := None, [];
    var ts: seq<Token> := [];
    assert text[0..] == text;
    assert forall more: seq<Token> :: [] + more == more;
    assert LexAll(text).Some? ==> [] + LexAll(text).value == LexAll(text).value;
    while true
      invariant lexer.Counted() && lexer.text == text && |kinds| == |ts|
      invariant forall i | 0 <= i < |kinds| :: ts[i].tok == Some(kinds[i])
      invariant Extends(LexAll(text), kinds, LexAll(text[lexer.src..]))
      invariant forall more :: Tiled(text, lexer.src, lexer.comments, more) ==> Tiled(text, 0, 0, ts + more)
      decreases |text| - lexer.src
    {
      ghost var at, comments := lexer.src, lexer.comments;
      var t := lexer.Next();
      LexMore(text, at, comments, t, lexer.src, lexer.comments);
      if t.None? {
        return;
      }
      if t.value.tok.None? {
        TiledEnd(text, at, comments, t.value, lexer.src, lexer.comments);
        assert ts + [] == ts && kinds + [] == kinds;
        tokens := Some(ts);
        return;
      }
      forall more | Tiled(text, lexer.src, lexer.comments, more) ensures Tiled(text, 0, 0, ts + [t.value] + more) {
        TiledMore(text, at, comments, t.value, lexer.src, lexer.comments, more);
        assert ts + [t.value] + more == ts + ([t.value] + more);
      }
      OneMore(LexAll(text), kinds, t.value.tok.value, LexAll(text[lexer.src..]));
      ts, kinds := ts + [t.value], kinds + [t.value.tok.value];
    }
  }

  /** The tokens of the whole text are those that are done and those of the rest. */
  predicate Extends(whole: Option<seq<Tok>>, done: seq<Tok>, rest: Option<seq<Tok>>) {
    whole == if rest.Some? then Some(done + rest.value) else None
  }

  lemma OneMore(whole: Option<seq<Tok>>, done: seq<Tok>, t: Tok, rest: Option<seq<Tok>>)
    requires Extends(whole, done, if rest.Some? then Some([t] + rest.value) else None)
    ensures Extends(whole, done + [t], rest)
  {
    if rest.Some? {
      assert done + ([t] + rest.value) == done + [t] + rest.value;
    }
  }

  function Newlines(s: string): nat
    decreases |s|
  {
    if s == [] then 0 else Newlines(s[..|s| - 1]) + if s[|s| - 1] == '\n' then 1 else 0
  }

  /** Where the last line of the text begins. */
  function LineStart(s: string): (n: nat)
    ensures n <= |s|
    ensures n > 0 ==> s[n - 1] == '\n'
    ensures '\n' !in s[n..]
    decreases |s|
  {
    if s == [] then 0
    else if s[|s| - 1] == '\n' then |s|
    else
      var n := LineStart(s[..|s| - 1]);
      assert s[n..] == s[..|s| - 1][n..] + [s[|s| - 1]];
      n
  }

  /** Line, column and beginning of the line of a recorded position; beyond the text it is the end. */
  method TokenLocation(position: nat, text: string) returns (line: nat, column: nat, start: nat)
    ensures var p := if position < |text| then position else |text|;
            line == 1 + Newlines(text[..p]) && start == LineStart(text[..p]) && column == p - start + 1
  {
    line, column, start := 1, 1, 0;
    var i := 0;
    while i < |text|
      invariant i <= |text| && i <= position
      invariant line == 1 + Newlines(text[..i]) && start == LineStart(text[..i]) && column == i - start + 1
    {
      if i == position {
        break;
      }
      assert text[..i + 1][..i] == text[..i];
      column := column + 1;
      if text[i] == '\n' {
        line, start, column := line + 1, i + 1, 1;
      }
      i := i + 1;
    }
  }
}
