/** The lexer takes the longest spelling at the front of the text, and finds every spelling that a
    blank follows. */
module Munch {
  import opened Types
  import opened Syntax
  import opened Tokens
  import opened Lexemes

  lemma WordSpelled(src: string)
    requires src != [] && IsHead(src[0]) && WordLexeme(src).Lexeme?
    ensures var l := WordLexeme(src); Spells(l.tok, src[..l.len])
  {
    TailsAre(src);
    WordKinds(src[..Tails(src)]);
  }

  lemma WordKinds(s: string)
    ensures Sign(Word(s)).None? && !Word(s).TNumber? && !Word(s).TString?
    ensures Word(s).TIdent? ==> Word(s) == TIdent(s) && Keyword(s).None?
  {
    hide Keyword;
  }

  lemma NumberSpelled(src: string)
    requires src != [] && IsDigit(src[0]) && NumberLexeme(src).Lexeme?
    ensures var l := NumberLexeme(src); Spells(l.tok, src[..l.len])
  {
    DigitsAre(src);
    var n := Digits(src);
    var suffix, d := Suffix(src[n..]), src[..n];
    assert src[..n + suffix.1] == d + SuffixOf(suffix.0);
    assert IsNumeral(d);
    assert SpellsNumber(suffix.0, Decimal(d), d + SuffixOf(suffix.0));
  }

  lemma StringSpelled(src: string)
    requires src != [] && src[0] == '"' && StringLexeme(src).Lexeme?
    ensures var l := StringLexeme(src); Spells(l.tok, src[..l.len])
  {
    QuoteIs(src[1..]);
    var n := Quote(src[1..]);
    assert src[1..n + 1] == src[1..][..n];
    assert src[..n + 2] == ['"'] + src[1..n + 1] + ['"'];
  }

  /** What the lexer takes is a spelling of the token it gives. */
  lemma FirstSpells(src: string)
    requires src != [] && First(src).Lexeme?
    ensures Spells(First(src).tok, src[..First(src).len])
  {
    hide NumberLexeme, WordLexeme, StringLexeme, Word;
    var c := src[0];
    if Single(c).Some? {
      assert src[..1] == [c];
    } else if Double(c).Some? {
      assert src[..1] == [c];
      assert |src| > 1 ==> src[..2] == [c, src[1]];
    } else if c == '\'' {
      assert src[..3] == [c, src[1], src[2]];
    } else if c == '"' {
      StringSpelled(src);
    } else if IsDigit(c) {
      NumberSpelled(src);
    } else {
      WordSpelled(src);
    }
  }

  lemma SignStarts(t: Tok)
    ensures Sign(t).Some? ==> var s := Sign(t).value; s != "" && (Single(s[0]).Some? || Double(s[0]).Some?)
    ensures Sign(t).Some? ==> !t.TNumber? && !t.TString?
  {
  }

  /** How the spelling of a token begins tells which kind of token it is. */
  lemma SpellingStarts(t: Tok, s: string)
    requires Spells(t, s)
    ensures s != []
    ensures Sign(t).Some? ==> Single(s[0]).Some? || Double(s[0]).Some?
    ensures t.TNumber? ==> IsDigit(s[0]) || s[0] == '\''
    ensures t.TString? ==> s[0] == '"'
    ensures Sign(t).None? && !t.TNumber? && !t.TString? ==> IsHead(s[0])
  {
    hide Sign, Single, Double, Decimal, Keyword;
    SignStarts(t);
    if t.TNumber? && !(t.kind.NumChar? && SpellsChar(t.value, s)) {
      var d: string :| IsNumeral(d) && s == d + SuffixOf(t.kind) && Decimal(d) == t.value;
      assert s[0] == d[0];
    }
  }

  lemma {:induction false} DigitsBound(src: string, d: string)
    requires d <= src && forall c | c in d :: IsDigit(c)
    ensures |d| <= Digits(src)
    decreases |d|
  {
    if d != [] {
      DigitsBound(src[1..], d[1..]);
    }
  }

  lemma {:induction false} TailsBound(src: string, s: string)
    requires s <= src && forall c | c in s :: IsTail(c)
    ensures |s| <= Tails(src)
    decreases |s|
  {
    if s != [] {
      TailsBound(src[1..], s[1..]);
    }
  }

  lemma NumberIsLongest(src: string, m: nat, k: NumberKind, n: nat)
    requires src != [] && IsDigit(src[0]) && m <= |src| && SpellsNumber(k, n, src[..m])
    ensures m <= Digits(src) + Suffix(src[Digits(src)..]).1
  {
    hide Decimal, Suffix, SuffixOf, Digits, IsDigit;
    var s := src[..m];
    var d: string :| IsNumeral(d) && s == d + SuffixOf(k) && Decimal(d) == n;
    assert d <= src;
    DigitsBound(src, d);
    if |d| == Digits(src) {
      SuffixTaken(k, src, |d|, m);
    } else {
      ShortSuffix(k);
    }
  }

  lemma ShortSuffix(k: NumberKind)
    ensures |SuffixOf(k)| <= 1
  {
  }

  lemma SuffixTaken(k: NumberKind, src: string, n: nat, m: nat)
    requires n <= m <= |src| && src[n..m] == SuffixOf(k)
    ensures m <= n + Suffix(src[n..]).1
  {
    if m > n {
      assert src[n..][0] == src[n..m][0];
    }
  }

  lemma {:induction false} QuoteEnds(x: string, rest: string)
    requires '"' !in x
    ensures Quote(x + ['"'] + rest) == |x|
    decreases |x|
  {
    var s := x + ['"'] + rest;
    if x != [] {
      assert s[1..] == x[1..] + ['"'] + rest;
      QuoteEnds(x[1..], rest);
    }
  }

  lemma StringIsLongest(src: string, m: nat, x: string)
    requires m <= |src| && src[..m] == ['"'] + x + ['"'] && '"' !in x
    ensures m == Quote(src[1..]) + 2
  {
    assert src == src[..m] + src[m..];
    assert src[1..] == x + ['"'] + src[m..];
    QuoteEnds(x, src[m..]);
  }

  lemma WordIsLongest(src: string, m: nat)
    requires src != [] && m <= |src| && IsIdent(src[..m])
    ensures m <= Tails(src)
  {
    TailsBound(src, src[..m]);
  }

  lemma SignIsLongest(src: string, m: nat, t: Tok)
    requires src != [] && m <= |src| && Sign(t) == Some(src[..m])
    ensures First(src).Lexeme? && m <= First(src).len
  {
    hide NumberLexeme, WordLexeme, StringLexeme, CharLexeme;
    SignShape(t);
    assert src[..m][0] == src[0] && (m > 1 ==> src[..m][1] == src[1]);
  }

  /** The tokens of two characters are those that a second character makes. */
  lemma SignShape(t: Tok)
    requires Sign(t).Some?
    ensures var s := Sign(t).value;
            if |s| == 1 then
              Single(s[0]) == Some(t) ||
              (Single(s[0]).None? && Double(s[0]).Some? && Double(s[0]).value.0 == t)
            else
              |s| == 2 && Single(s[0]).None? && Double(s[0]).Some? && Double(s[0]).value.1 == s[1] &&
              Double(s[0]).value.2 == t
  {
  }

  /** Maximal munch: of all the beginnings of the text that spell a token, the lexer takes the longest. */
  lemma FirstIsLongest(src: string, m: nat, t: Tok)
    requires src != [] && First(src).Lexeme? && m <= |src| && Spells(t, src[..m])
    ensures m <= First(src).len
  {
    hide Word, Decimal, Sign, Single, Double;
    var s, c := src[..m], src[0];
    SpellingStarts(t, s);
    SignsApart(c);
    assert s[0] == c;
    if Sign(t).Some? {
      SignIsLongest(src, m, t);
    } else if t.TNumber? {
      if IsDigit(c) {
        NumberIsLongest(src, m, t.kind, t.value);
      }
    } else if t.TString? {
      StringIsLongest(src, m, t.text);
    } else {
      WordIsLongest(src, m);
    }
  }

  lemma SignsApart(c: char)
    ensures Single(c).Some? || Double(c).Some? ==>
              !IsDigit(c) && !IsHead(c) && c != '"' && c != '\'' && c != '#' &&
              !IsSpace(c)
  {
  }

  /** A blank or the beginning of a comment. */
  predicate Separates(more: string) {
    more != [] && (IsSpace(more[0]) || more[0] == '#')
  }

  lemma {:induction false} DigitsEnd(d: string, rest: string)
    requires (forall c | c in d :: IsDigit(c)) && (rest != [] ==> !IsDigit(rest[0]))
    ensures Digits(d + rest) == |d|
    decreases |d|
  {
    if d == [] {
      assert d + rest == rest;
    } else {
      assert (d + rest)[1..] == d[1..] + rest;
      DigitsEnd(d[1..], rest);
    }
  }

  lemma {:induction false} TailsEnd(s: string, rest: string)
    requires (forall c | c in s :: IsTail(c)) && (rest != [] ==> !IsTail(rest[0]))
    ensures Tails(s + rest) == |s|
    decreases |s|
  {
    if s == [] {
      assert s + rest == rest;
    } else {
      assert (s + rest)[1..] == s[1..] + rest;
      TailsEnd(s[1..], rest);
    }
  }

  lemma SeparatorEnds(c: char)
    requires IsSpace(c) || c == '#'
    ensures !IsDigit(c) && !IsTail(c) && c != 'L' && c != 'B' && c != 'I' && c != '=' && c != '|' && c != '&'
  {
  }

  lemma NumberFound(k: NumberKind, n: nat, s: string, more: string)
    requires |s| <= MAX_LEN && n < NUMBER_LIMIT && SpellsNumber(k, n, s) && Separates(more)
    ensures s != [] && IsDigit(s[0]) && NumberLexeme(s + more) == Lexeme(TNumber(k, n), |s|)
  {
    hide Decimal;
    var d: string :| IsNumeral(d) && s == d + SuffixOf(k) && Decimal(d) == n;
    var src, rest := s + more, SuffixOf(k) + more;
    SeparatorEnds(more[0]);
    assert src == d + rest && src[0] == d[0];
    DigitsEnd(d, rest);
    assert src[|d|..] == rest && src[..|d|] == d;
  }

  lemma WordFound(t: Tok, s: string, more: string)
    requires |s| <= MAX_LEN && IsIdent(s) && Word(s) == t && Separates(more)
    ensures WordLexeme(s + more) == Lexeme(t, |s|)
  {
    hide Word;
    SeparatorEnds(more[0]);
    TailsEnd(s, more);
    assert (s + more)[..|s|] == s;
  }

  lemma StringFound(x: string, s: string, more: string)
    requires s == ['"'] + x + ['"'] && '"' !in x && more != []
    ensures StringLexeme(s + more) == Lexeme(TString(x), |s|)
  {
    var src := s + more;
    assert src[1..] == x + ['"'] + more;
    QuoteEnds(x, more);
    assert src[1..|x| + 1] == x;
  }

  /** Every spelling of a token is found as that token, if a blank or a comment follows. */
  lemma SpelledIsFirst(t: Tok, s: string, more: string)
    requires Spells(t, s) && Separates(more)
    ensures First(s + more) == Lexeme(t, |s|)
  {
    hide Word, Decimal, Sign, Single, Double, NumberLexeme, WordLexeme, StringLexeme;
    SpellingStarts(t, s);
    var c, src := s[0], s + more;
    SignsApart(c);
    SeparatorEnds(more[0]);
    if Sign(t).Some? {
      SignFound(t, s, more);
    } else if t.TNumber? {
      if SpellsNumber(t.kind, t.value, s) && |s| <= MAX_LEN && t.value < NUMBER_LIMIT {
        NumberFound(t.kind, t.value, s, more);
      }
    } else if t.TString? {
      StringFound(t.text, s, more);
    } else {
      HeadIsNoSign(c);
      WordFound(t, s, more);
    }
  }

  lemma HeadIsNoSign(c: char)
    requires IsHead(c)
    ensures !IsDigit(c) && c != '"' && c != '\'' && Single(c).None? && Double(c).None?
  {
  }

  lemma SignFound(t: Tok, s: string, more: string)
    requires Sign(t) == Some(s) && Separates(more)
    ensures First(s + more) == Lexeme(t, |s|)
  {
    hide Sign, Single, Double, NumberLexeme, WordLexeme, StringLexeme, CharLexeme;
    SignShape(t);
    SeparatorEnds(more[0]);
    SecondChar(s[0]);
    assert (s + more)[0] == s[0] && (s + more)[1] == if |s| == 1 then more[0] else s[1];
  }

  lemma SecondChar(c: char)
    ensures Double(c).Some? ==> Double(c).value.1 in {'=', '|', '&'}
  {
  }
}
