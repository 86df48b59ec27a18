/** The words of the language, said with the characters themselves. */
module Alphabet {
  import opened Types
  import opened Syntax
  import opened Tokens
  import opened Lexemes
  import opened Munch

  predicate Letter(c: char) {
    'a' <= c <= 'z' || 'A' <= c <= 'Z'
  }

  predicate Digit(c: char) {
    c in {'0', '1', '2', '3', '4', '5', '6', '7', '8', '9'}
  }

  predicate NameChar(c: char) {
    Letter(c) || Digit(c) || c == '_'
  }

  /** Letters, digits and underscores, the first one no digit. */
  predicate Name(x: string) {
    x != "" && !Digit(x[0]) && forall c | c in x :: NameChar(c)
  }

  const KEYWORDS: seq<(string, Tok)> := [
    ("proc", TProc), ("let", TLet), ("if", TIf), ("for", TFor), ("else", TElse), ("elsif", TElsif), ("while", TWhile),
    ("table", TTable), ("return", TReturn), ("void", TVoid), ("char", TChar), ("int", TInt), ("long", TLong)
  ]

  const ONE_CHAR: seq<(string, Tok)> := [
    ("+", TPlus), ("-", TMinus), ("*", TAsterisk), ("/", TSlash), ("(", TLParen), (")", TRParen), ("{", TLBrace),
    ("}", TRBrace), ("[", TLBracket), ("]", TRBracket), (";", TSemicolon), (",", TComma), (":", TColon), ("<", TLt),
    (">", TGt), ("!", TBang), ("=", TAssign), ("|", TPipe), ("&", TAmpersand)
  ]

  const TWO_CHARS: seq<(string, Tok)> := [
    ("<=", TLtEq), (">=", TGtEq), ("!=", TNeq), ("==", TEq), ("||", TLogOr), ("&&", TLogAnd)
  ]

  /** The text begins with one of the words. */
  predicate BeginsWith(words: seq<(string, Tok)>, src: string) {
    exists i | 0 <= i < |words| :: words[i].0 <= src
  }

  lemma Alphabets(c: char)
    ensures IsDigit(c) <==> Digit(c)
    ensures IsHead(c) <==> Letter(c) || c == '_'
    ensures IsTail(c) <==> NameChar(c)
  {
  }

  lemma NamesAre(x: string)
    ensures IsIdent(x) <==> Name(x)
  {
    if x != "" {
      Alphabets(x[0]);
    }
    forall c | c in x ensures IsTail(c) <==> NameChar(c) {
      Alphabets(c);
    }
    if IsIdent(x) {
      assert NameChar(x[0]);
    }
    if Name(x) {
      assert x[0] in x && NameChar(x[0]);
    }
  }

  /** A keyword in the list is found by its number, and nothing else is. */
  lemma KeywordsAre(src: string)
    ensures forall i | 0 <= i < |KEYWORDS| :: KEYWORDS[i].0 <= src ==> Keyword(src) == Some(KEYWORDS[i].1)
    ensures Keyword(src).Some? <==> BeginsWith(KEYWORDS, src)
  {
    forall i | 0 <= i < |KEYWORDS| && KEYWORDS[i].0 <= src ensures Keyword(src) == Some(KEYWORDS[i].1) {
      OneKeyword(i, src);
    }
    if Keyword(src).Some? {
      SomeKeyword(src);
    }
  }

  lemma OneKeyword(i: nat, src: string)
    requires i < |KEYWORDS| && KEYWORDS[i].0 <= src
    ensures Keyword(src) == Some(KEYWORDS[i].1)
  {
    forall j | 0 <= j < i ensures !(KEYWORDS[j].0 <= src) {
      OtherKeyword(j, i, src);
    }
    FirstKeyword(i, src);
  }

  /** No keyword begins like another one. */
  lemma KeywordsApart(i: nat, j: nat)
    requires i < j < |KEYWORDS|
    ensures exists n :: 0 <= n < |KEYWORDS[i].0| && n < |KEYWORDS[j].0| && KEYWORDS[i].0[n] != KEYWORDS[j].0[n]
  {
    var a, b := KEYWORDS[i].0, KEYWORDS[j].0;
    assert a[0] != b[0] || a[1] != b[1] || (i == 4 && j == 5 && a[3] == 'e' && b[3] == 'i');
  }

  lemma OtherKeyword(i: nat, j: nat, src: string)
    requires i < j < |KEYWORDS| && KEYWORDS[j].0 <= src
    ensures !(KEYWORDS[i].0 <= src)
  {
    KeywordsApart(i, j);
    var a, b := KEYWORDS[i].0, KEYWORDS[j].0;
    var n :| 0 <= n < |a| && n < |b| && a[n] != b[n];
    assert src[n] == b[n];
  }

  lemma FirstKeyword(i: nat, src: string)
    requires i < |KEYWORDS| && KEYWORDS[i].0 <= src && forall j | 0 <= j < i :: !(KEYWORDS[j].0 <= src)
    ensures Keyword(src) == Some(KEYWORDS[i].1)
  {
    assert forall j | 0 <= j < i :: !(KEYWORDS[j].0 <= src);
    assert KEYWORDS[0].0 == "proc" && KEYWORDS[1].0 == "let" && KEYWORDS[2].0 == "if" && KEYWORDS[3].0 == "for";
    assert KEYWORDS[4].0 == "else" && KEYWORDS[5].0 == "elsif" && KEYWORDS[6].0 == "while" && KEYWORDS[7].0 == "table";
    assert KEYWORDS[8].0 == "return" && KEYWORDS[9].0 == "void" && KEYWORDS[10].0 == "char" && KEYWORDS[11].0 == "int";
  }

  lemma SomeKeyword(src: string)
    requires Keyword(src).Some?
    ensures BeginsWith(KEYWORDS, src)
  {
    if "proc" <= src { assert KEYWORDS[0].0 <= src; }
    else if "let" <= src { assert KEYWORDS[1].0 <= src; }
    else if "if" <= src { assert KEYWORDS[2].0 <= src; }
    else if "for" <= src { assert KEYWORDS[3].0 <= src; }
    else if "else" <= src { assert KEYWORDS[4].0 <= src; }
    else if "elsif" <= src { assert KEYWORDS[5].0 <= src; }
    else if "while" <= src { assert KEYWORDS[6].0 <= src; }
    else if "table" <= src { assert KEYWORDS[7].0 <= src; }
    else if "return" <= src { assert KEYWORDS[8].0 <= src; }
    else if "void" <= src { assert KEYWORDS[9].0 <= src; }
    else if "char" <= src { assert KEYWORDS[10].0 <= src; }
    else if "int" <= src { assert KEYWORDS[11].0 <= src; }
    else { assert KEYWORDS[12].0 <= src; }
  }

  /** What a name is taken for, whatever other character follows it. */
  lemma NameTaken(x: string, more: string)
    requires Name(x) && (more != "" ==> !NameChar(more[0]))
    ensures First(x + more) == if |x| > 64 then Error else Lexeme(Word(x), |x|)
  {
    hide Word, Single, Double;
    NamesAre(x);
    var src := x + more;
    assert src[0] == x[0];
    HeadIsNoSign(x[0]);
    if more != "" {
      Alphabets(more[0]);
    }
    TailsEnd(x, more);
    assert src[..|x|] == x;
  }

  /** A name of at most 64 characters that begins with no keyword is that identifier, one that begins
      with a keyword is this keyword, and a longer one is an error. */
  lemma NamesLexed(x: string, more: string)
    requires Name(x) && (more != "" ==> !NameChar(more[0]))
    ensures |x| <= 64 && !BeginsWith(KEYWORDS, x) ==> First(x + more) == Lexeme(TIdent(x), |x|)
    ensures forall i | 0 <= i < |KEYWORDS| ::
              |x| <= 64 && KEYWORDS[i].0 <= x ==> First(x + more) == Lexeme(KEYWORDS[i].1, |x|)
    ensures |x| > 64 ==> First(x + more) == Error
  {
    hide First, Keyword, BeginsWith, Name;
    NameTaken(x, more);
    KeywordsAre(x);
  }

  /** Exactly such a name is ever taken for an identifier: no other character is inside one, and it
      ends only where no character that could be follows. */
  lemma IdentifierExact(src: string, x: string, n: nat)
    requires src != ""
    ensures First(src) == Lexeme(TIdent(x), n) <==>
            n == |x| <= 64 && x <= src && Name(x) && !BeginsWith(KEYWORDS, x) &&
            (n < |src| ==> !NameChar(src[n]))
  {
    hide BeginsWith, Name, NameChar, Keyword;
    if n == |x| <= 64 && x <= src && Name(x) && !BeginsWith(KEYWORDS, x) && (n < |src| ==> !NameChar(src[n])) {
      assert src == x + src[n..];
      NamesLexed(x, src[n..]);
    }
    if First(src) == Lexeme(TIdent(x), n) {
      IdentifierTaken(src, x, n);
      NamesAre(x);
      KeywordsAre(x);
      if n < |src| {
        Alphabets(src[n]);
      }
    }
  }

  lemma IdentifierTaken(src: string, x: string, n: nat)
    requires src != "" && First(src) == Lexeme(TIdent(x), n)
    ensures n == |x| <= 64 && x == src[..n] && IsIdent(x) && Keyword(x).None? && (n < |src| ==> !IsTail(src[n]))
  {
    hide Keyword, NumberLexeme, StringLexeme, CharLexeme;
    OtherKinds(src);
    TailsAre(src);
    var t := src[..Tails(src)];
    assert t != "" && t[0] == src[0];
  }

  /** Only the lexer's branch for words makes identifiers. */
  lemma OtherKinds(src: string)
    requires src != ""
    ensures Single(src[0]).Some? ==> !Single(src[0]).value.TIdent?
    ensures Double(src[0]).Some? ==> !Double(src[0]).value.0.TIdent? && !Double(src[0]).value.2.TIdent?
    ensures CharLexeme(src).Lexeme? ==> !CharLexeme(src).tok.TIdent?
    ensures StringLexeme(src).Lexeme? ==> !StringLexeme(src).tok.TIdent?
    ensures IsDigit(src[0]) && NumberLexeme(src).Lexeme? ==> !NumberLexeme(src).tok.TIdent?
  {
  }

  /** The two-character signs come first; each sign is taken as its token, whatever follows. */
  lemma SignsLexed(more: string)
    ensures forall i | 0 <= i < |TWO_CHARS| :: First(TWO_CHARS[i].0 + more) == Lexeme(TWO_CHARS[i].1, 2)
    ensures forall i | 0 <= i < |ONE_CHAR| ::
              !BeginsWith(TWO_CHARS, ONE_CHAR[i].0 + more) ==> First(ONE_CHAR[i].0 + more) == Lexeme(ONE_CHAR[i].1, 1)
  {
    forall i | 0 <= i < |TWO_CHARS| ensures First(TWO_CHARS[i].0 + more) == Lexeme(TWO_CHARS[i].1, 2) {
      TwoLexed(i, more);
    }
    forall i | 0 <= i < |ONE_CHAR| && !BeginsWith(TWO_CHARS, ONE_CHAR[i].0 + more)
      ensures First(ONE_CHAR[i].0 + more) == Lexeme(ONE_CHAR[i].1, 1)
    {
      OneLexed(i, more);
    }
  }

  lemma TwoLexed(i: nat, more: string)
    requires i < |TWO_CHARS|
    ensures First(TWO_CHARS[i].0 + more) == Lexeme(TWO_CHARS[i].1, 2)
  {
    hide NumberLexeme, WordLexeme, StringLexeme, CharLexeme;
    var src := TWO_CHARS[i].0 + more;
    assert src[0] == TWO_CHARS[i].0[0] && src[1] == TWO_CHARS[i].0[1];
  }

  lemma OneLexed(i: nat, more: string)
    requires i < |ONE_CHAR| && !BeginsWith(TWO_CHARS, ONE_CHAR[i].0 + more)
    ensures First(ONE_CHAR[i].0 + more) == Lexeme(ONE_CHAR[i].1, 1)
  {
    hide NumberLexeme, WordLexeme, StringLexeme, CharLexeme;
    var src := ONE_CHAR[i].0 + more;
    assert src[0] == ONE_CHAR[i].0[0];
    if i >= 13 && more != "" {
      assert src[1] == more[0];
      forall j | 0 <= j < |TWO_CHARS| ensures TWO_CHARS[j].0[0] != src[0] || TWO_CHARS[j].0[1] != src[1] {
        assert src[..2] == [src[0], src[1]];
        assert !(TWO_CHARS[j].0 <= src);
      }
      SecondSign(i, src[1]);
    }
  }

  lemma SecondSign(i: nat, c: char)
    requires 13 <= i < |ONE_CHAR|
    requires forall j | 0 <= j < |TWO_CHARS| :: TWO_CHARS[j].0[0] != ONE_CHAR[i].0[0] || TWO_CHARS[j].0[1] != c
    ensures Double(ONE_CHAR[i].0[0]).Some? && c != Double(ONE_CHAR[i].0[0]).value.1
    ensures Double(ONE_CHAR[i].0[0]).value.0 == ONE_CHAR[i].1
  {
    assert TWO_CHARS[0].0 == "<=" && TWO_CHARS[1].0 == ">=" && TWO_CHARS[2].0 == "!=";
    assert TWO_CHARS[3].0 == "==" && TWO_CHARS[4].0 == "||" && TWO_CHARS[5].0 == "&&";
  }

  /** Digits and the suffix of a kind. */
  predicate SuffixIs(k: NumberKind, s: string) {
    (k == NumLong && s == "L") || (k == NumChar && s == "B") || (k == NumInt && s == "I") || (k == NumAny && s == "")
  }

  /** A run of digits is one number, with the kind that its suffix says; more than 64 characters, or
      a number of 2^63 and more, are an error. */
  lemma NumbersLexed(d: string, k: NumberKind, s: string, more: string)
    requires d != "" && (forall c | c in d :: Digit(c)) && SuffixIs(k, s)
    requires s == "" && more != "" ==> !Digit(more[0]) && more[0] !in {'L', 'B', 'I'}
    ensures forall c | c in d :: IsDigit(c)
    ensures First(d + s + more) ==
              if |d + s| > 64 || Decimal(d) >= 0x8000_0000_0000_0000 then Error
              else Lexeme(TNumber(k, Decimal(d)), |d + s|)
  {
    hide Decimal, Single, Double, NumberLexeme, WordLexeme, StringLexeme, CharLexeme;
    forall c | c in d ensures IsDigit(c) {
      Alphabets(c);
    }
    var src := d + s + more;
    assert src[0] == d[0] && d[0] in d;
    DigitNoSign(d[0]);
    NumberCut(d, k, s, more);
  }

  lemma NumberCut(d: string, k: NumberKind, s: string, more: string)
    requires d != "" && (forall c | c in d :: IsDigit(c)) && SuffixIs(k, s)
    requires s == "" && more != "" ==> !Digit(more[0]) && more[0] !in {'L', 'B', 'I'}
    ensures NumberLexeme(d + s + more) ==
              if |d + s| > 64 || Decimal(d) >= 0x8000_0000_0000_0000 then Error
              else Lexeme(TNumber(k, Decimal(d)), |d + s|)
  {
    hide Decimal, Suffix;
    var rest := s + more;
    var src := d + rest;
    assert d + s + more == src && src[0] == d[0];
    SuffixCut(k, s, more);
    DigitsEnd(d, rest);
    assert src[|d|..] == rest && src[..|d|] == d;
  }

  lemma SuffixCut(k: NumberKind, s: string, more: string)
    requires SuffixIs(k, s) && (s == "" && more != "" ==> !Digit(more[0]) && more[0] !in {'L', 'B', 'I'})
    ensures Suffix(s + more) == (k, |s|) && (s + more != "" ==> !IsDigit((s + more)[0]))
  {
  }

  lemma DigitNoSign(c: char)
    requires IsDigit(c)
    ensures Single(c).None? && Double(c).None? && c != '\'' && c != '"'
  {
  }

  /** A character between single quotes is the number of the character, if it is ASCII; what stands
      between two double quotes is a string. */
  lemma QuotedLexed(c: char, x: string, more: string)
    requires '"' !in x
    ensures First(['\'', c, '\''] + more) == if c as nat < 128 then Lexeme(TNumber(NumChar, c as nat), 3) else Error
    ensures First(['"'] + x + ['"'] + more) == Lexeme(TString(x), |x| + 2)
    ensures First(['"'] + x) == Error
  {
    var src := ['\'', c, '\''] + more;
    assert src[0] == '\'' && src[1] == c && src[2] == '\'';
    var s := ['"'] + x + ['"'];
    QuotedFound(x, more);
    assert (s + more)[0] == '"';
    NoQuote(x);
    assert (['"'] + x)[1..] == x;
  }

  lemma QuotedFound(x: string, more: string)
    requires '"' !in x
    ensures StringLexeme(['"'] + x + ['"'] + more) == Lexeme(TString(x), |x| + 2)
  {
    var src := ['"'] + x + ['"'] + more;
    assert src[1..] == x + ['"'] + more;
    QuoteEnds(x, more);
    assert src[1..|x| + 1] == x;
  }

  lemma {:induction false} NoQuote(x: string)
    requires '"' !in x
    ensures Quote(x) == |x|
    decreases |x|
  {
    if x != "" {
      NoQuote(x[1..]);
    }
  }

  /** Between tokens a tab, a carriage return, a blank and a newline are skipped, and so is everything
      from a hash sign to the end of its line; nothing else is. */
  lemma GapsLexed(c: char, note: string, rest: string)
    requires '\n' !in note
    ensures c in {'\t', '\r', ' ', '\n'} ==> LexAll([c] + rest) == LexAll(rest)
    ensures LexAll(['#'] + note + ['\n'] + rest) == LexAll(rest)
    ensures LexAll(['#'] + note) == None
    ensures c !in {'\t', '\r', ' ', '\n', '#'} ==> GapOf([c] + rest) == Gap(0, 0)
  {
    hide First;
    var blank, line := [c] + rest, ['#'] + note + ['\n'] + rest;
    assert blank[1..] == rest;
    NoteEnds(note, rest);
    assert line[|note| + 2..] == rest;
    NoteOpen(note);
    SkippedAlike(blank, 1, rest);
    SkippedAlike(line, |note| + 2, rest);
  }

  lemma NoteEnds(note: string, rest: string)
    requires '\n' !in note
    ensures ToNewline(['#'] + note + ['\n'] + rest) == |note| + 1
  {
    NewlineAt(['#'] + note, rest);
    assert ['#'] + note + ['\n'] + rest == (['#'] + note) + ['\n'] + rest;
  }

  lemma NoteOpen(note: string)
    requires '\n' !in note
    ensures ToNewline(['#'] + note) == |note| + 1
  {
    NoNewline(['#'] + note);
  }

  lemma {:induction false} NewlineAt(s: string, rest: string)
    requires '\n' !in s
    ensures ToNewline(s + ['\n'] + rest) == |s|
    decreases |s|
  {
    if s != "" {
      assert (s + ['\n'] + rest)[1..] == s[1..] + ['\n'] + rest;
      NewlineAt(s[1..], rest);
    }
  }

  lemma {:induction false} NoNewline(s: string)
    requires '\n' !in s
    ensures ToNewline(s) == |s|
    decreases |s|
  {
    if s != "" {
      NoNewline(s[1..]);
    }
  }

  /** Two texts with the same text behind what is skipped have the same tokens. */
  lemma SkippedAlike(src: string, n: nat, rest: string)
    requires n <= |src| && src[n..] == rest
    ensures var g, h := GapOf(src), GapOf(rest);
            (g.Gap? && h.Gap? && g.length == n + h.length) || (g.Unterminated? && h.Unterminated?) ==>
              LexAll(src) == LexAll(rest)
  {
    hide First;
    var g, h := GapOf(src), GapOf(rest);
    if g.Gap? && h.Gap? && g.length == n + h.length {
      assert src[g.length..] == rest[h.length..];
    }
  }
}
