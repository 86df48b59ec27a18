/** From text to trees and back. */
module Texts {
  import opened Types
  import opened Syntax
  import opened Tokens
  import opened Lexemes
  import opened Munch
  import opened Lexing
  import opened Grammar
  import opened Printing
  import opened RoundTrip
  import opened Parsing

  /** Blanks and comments between two tokens. */
  predicate Separator(g: string) {
    Separates(g) && Blank(g)
  }

  /** The spellings, each with a separator behind it. */
  function Join(ss: seq<string>, gs: seq<string>): string
    requires |ss| == |gs|
  {
    if ss == [] then "" else ss[0] + (gs[0] + Join(ss[1..], gs[1..]))
  }

  ghost predicate SpellsAll(ts: seq<Tok>, ss: seq<string>) {
    |ts| == |ss| && forall i | 0 <= i < |ts| :: Spells(ts[i], ss[i])
  }

  predicate Separators(gs: seq<string>) {
    forall g | g in gs :: Separator(g)
  }

  lemma {:induction false} NewlineAhead(s: string, rest: string)
    requires ToNewline(s) < |s|
    ensures ToNewline(s + rest) == ToNewline(s)
    decreases |s|
  {
    if s[0] != '\n' {
      assert (s + rest)[1..] == s[1..] + rest;
      NewlineAhead(s[1..], rest);
    }
  }

  /** Blanks and comments in front only add to the gap. */
  lemma {:induction false} GapAhead(g: string, rest: string)
    requires Blank(g)
    ensures var whole, gap := GapOf(g + rest), GapOf(rest);
            if gap.Gap? then whole.Gap? && whole.length == |g| + gap.length else whole.Unterminated?
    decreases |g|
  {
    var s := g + rest;
    if g == [] {
      assert s == rest;
    } else if IsSpace(g[0]) {
      assert s[1..] == g[1..] + rest;
      GapAhead(g[1..], rest);
    } else {
      var n := ToNewline(g);
      NewlineAhead(g, rest);
      assert s[n + 1..] == g[n + 1..] + rest;
      GapAhead(g[n + 1..], rest);
    }
  }

  lemma SeparatorSkipped(g: string, rest: string)
    requires Blank(g)
    ensures LexAll(g + rest) == LexAll(rest)
  {
    hide First;
    GapAhead(g, rest);
    var gap := GapOf(rest);
    if gap.Gap? {
      assert (g + rest)[|g| + gap.length..] == rest[gap.length..];
    }
  }

  lemma TokenAhead(t: Tok, s: string, more: string)
    requires Spells(t, s) && Separates(more)
    ensures LexAll(s + more) == var ts := LexAll(more); if ts.Some? then Some([t] + ts.value) else None
  {
    hide First, Spells;
    SpelledIsFirst(t, s, more);
    NoGap(t, s, more);
    assert (s + more)[0..] == s + more;
    assert (s + more)[|s|..] == more;
  }

  lemma NoGap(t: Tok, s: string, more: string)
    requires Spells(t, s)
    ensures s != [] && GapOf(s + more) == Gap(0, 0)
  {
    hide Sign, Word;
    SpellingStarts(t, s);
    SignsApart(s[0]);
    assert (s + more)[0] == s[0];
  }

  /** Any way of spelling a list of tokens with separators is lexed as that list. */
  lemma {:induction false} JoinedLexes(ts: seq<Tok>, ss: seq<string>, gs: seq<string>)
    requires SpellsAll(ts, ss) && |gs| == |ss| && Separators(gs)
    ensures LexAll(Join(ss, gs)) == Some(ts)
    decreases |ts|
  {
    hide Spells, LexAll, Separates, Blank;
    if ts == [] {
      NothingLexes();
    } else {
      var rest := Join(ss[1..], gs[1..]);
      JoinedLexes(ts[1..], ss[1..], gs[1..]);
      assert gs[0] in gs && Separator(gs[0]);
      SeparatorAhead(gs[0], rest);
      SeparatorSkipped(gs[0], rest);
      TokenAhead(ts[0], ss[0], gs[0] + rest);
      assert [ts[0]] + ts[1..] == ts;
    }
  }

  lemma NothingLexes()
    ensures LexAll("") == Some([])
  {
  }

  lemma SeparatorAhead(g: string, rest: string)
    requires Separates(g)
    ensures Separates(g + rest)
  {
  }

  /** The parser on a text. */
  method ParseText(src: string) returns (ds: Option<seq<Decl>>)
    ensures var ts := LexAll(src); ds == if ts.Some? then ParseProgram(ts.value) else None
  {
    var tokens, kinds := Collect(src);
    if tokens.None? {
      return None;
    }
    var parser := new Parser(kinds);
    ds := parser.Program();
  }

  /** However a conforming program is written out, with blanks and comments around its tokens, reading
      the text gives the program back. */
  lemma TextRoundTrip(ds: seq<Decl>, lead: string, ss: seq<string>, gs: seq<string>)
    requires ConformsProgram(ds) && SpellsAll(PrintProgram(ds), ss) && |gs| == |ss| && Separators(gs) && Blank(lead)
    ensures LexAll(lead + Join(ss, gs)) == Some(PrintProgram(ds)) && ParseProgram(PrintProgram(ds)) == Some(ds)
  {
    JoinedLexes(PrintProgram(ds), ss, gs);
    SeparatorSkipped(lead, Join(ss, gs));
    ProgramRoundTrip(ds);
  }

  /** A token that can be written: identifiers begin with no keyword and are not too long, numbers are
      below 2^63, and strings have no quote in them. */
  predicate Writable(t: Tok) {
    match t
    case TIdent(x) => IsIdent(x) && |x| <= MAX_LEN && Keyword(x).None?
    case TNumber(_, n) => n < NUMBER_LIMIT
    case TString(x) => '"' !in x
    case _ => true
  }

  function Numeral(n: nat): (s: string)
    decreases n
  {
    if n < 10 then [DigitChar(n)] else Numeral(n / 10) + [DigitChar(n % 10)]
  }

  function DigitChar(d: nat): (c: char)
    requires d < 10
    ensures IsDigit(c) && DigitValue(c) == d
  {
    ('0' as nat + d) as char
  }

  function Pow10(k: nat): nat {
    if k == 0 then 1 else 10 * Pow10(k - 1)
  }

  lemma {:induction false} NumeralReads(n: nat, k: nat)
    requires n < Pow10(k) && k > 0
    ensures IsNumeral(Numeral(n)) && Decimal(Numeral(n)) == n && |Numeral(n)| <= k
    decreases n
  {
    var s := Numeral(n);
    if n < 10 {
      assert s[..0] == [];
      assert Decimal(s) == 10 * Decimal(s[..0]) + DigitValue(s[0]);
    } else {
      NumeralReads(n / 10, k - 1);
      assert s[..|s| - 1] == Numeral(n / 10);
    }
  }

  function KeywordText(t: Tok): string {
    match t
    case TProc => "proc"
    case TLet => "let" case TIf => "if" case TFor => "for" case TElse => "else" case TElsif => "elsif"
    case TWhile => "while" case TTable => "table" case TReturn => "return" case TVoid => "void" case TChar => "char"
    case TInt => "int" case TLong => "long"
    case _ => ""
  }

  function Render(t: Tok): string {
    match t
    case TIdent(x) => x
    case TNumber(k, n) => Numeral(n) + SuffixOf(k)
    case TString(x) => ['"'] + x + ['"']
    case _ => if Sign(t).Some? then Sign(t).value else KeywordText(t)
  }

  lemma KeywordSpelled(t: Tok)
    requires IsKeyword(t)
    ensures var s := KeywordText(t); Keyword(s) == Some(t)
  {
    var s := KeywordText(t);
    match t
    case TProc => assert s == "proc" && s[0] == 'p';
    case TLet => assert s == "let" && s[0] == 'l';
    case TIf => assert s == "if" && s[0] == 'i';
    case TFor => assert s == "for" && s[0] == 'f';
    case TElse => assert s == "else" && s[0] == 'e';
    case TElsif => assert s == "elsif" && s[0] == 'e' && s[3] == 'i';
    case TWhile => assert s == "while" && s[0] == 'w';
    case TTable => assert s == "table" && s[0] == 't';
    case TReturn => assert s == "return" && s[0] == 'r';
    case TVoid => assert s == "void" && s[0] == 'v';
    case TChar => assert s == "char" && s[0] == 'c';
    case TInt => assert s == "int" && s[0] == 'i' && s[1] == 'n';
    case TLong => assert s == "long" && s[0] == 'l' && s[1] == 'o';
  }

  lemma KeywordReads(t: Tok)
    requires IsKeyword(t)
    ensures var s := KeywordText(t); IsIdent(s) && |s| <= MAX_LEN && Keyword(s) == Some(t)
  {
    KeywordSpelled(t);
    hide Keyword;
  }

  lemma NumberRendered(k: NumberKind, n: nat)
    requires n < NUMBER_LIMIT
    ensures SpellsNumber(k, n, Numeral(n) + SuffixOf(k)) && |Numeral(n) + SuffixOf(k)| <= MAX_LEN
  {
    assert Pow10(4) == 10_000;
    assert Pow10(8) == 100_000_000;
    assert Pow10(12) == 1_000_000_000_000;
    assert Pow10(16) == 10_000_000_000_000_000;
    assert Pow10(19) == 10_000_000_000_000_000_000;
    NumeralReads(n, 19);
  }

  /** A token has a spelling if and only if it can be written. */
  lemma WritableSpelled(t: Tok)
    ensures Writable(t) <==> exists s :: Spells(t, s)
    ensures Writable(t) ==> Spells(t, Render(t))
  {
    hide Word, Keyword;
    if Writable(t) {
      RenderSpells(t);
    }
    if s :| Spells(t, s) {
      SpelledWritable(t, s);
    }
  }

  lemma SignTokens(t: Tok)
    ensures Sign(t).Some? ==> !t.TNumber? && !t.TString? && !t.TIdent?
    ensures Sign(t).None? ==> t.TNumber? || t.TString? || t.TIdent? || IsKeyword(t)
  {
  }

  lemma RenderSpells(t: Tok)
    requires Writable(t)
    ensures Spells(t, Render(t))
  {
    hide Keyword, Decimal, Numeral, IsIdent, KeywordText, Sign, IsKeyword, SpellsNumber, SpellsChar;
    SignTokens(t);
    if Sign(t).None? {
      match t
      case TNumber(k, n) => NumberRendered(k, n);
      case TString(_) =>
      case TIdent(_) =>
      case _ => KeywordReads(t);
    }
  }

  lemma SpelledWritable(t: Tok, s: string)
    requires Spells(t, s)
    ensures Writable(t)
  {
    hide Keyword, Decimal;
    if t.TIdent? {
      WordKinds(s);
    }
  }

  function RenderAll(ts: seq<Tok>): (ss: seq<string>)
    ensures |ss| == |ts| && forall i | 0 <= i < |ts| :: ss[i] == Render(ts[i])
  {
    if ts == [] then [] else [Render(ts[0])] + RenderAll(ts[1..])
  }

  /** Rendering a program whose tokens can be written, with a blank behind each, and reading it gives
      the program back. */
  lemma RenderRoundTrip(ds: seq<Decl>)
    requires ConformsProgram(ds) && forall t | t in PrintProgram(ds) :: Writable(t)
    ensures var ts := PrintProgram(ds);
            LexAll(Join(RenderAll(ts), seq(|ts|, _ => " "))) == Some(ts) && ParseProgram(ts) == Some(ds)
  {
    hide Render, Writable, Spells, LexAll, Join;
    var ts := PrintProgram(ds);
    var gs := seq(|ts|, _ => " ");
    forall i | 0 <= i < |ts| ensures Spells(ts[i], RenderAll(ts)[i]) {
      assert ts[i] in ts;
      WritableSpelled(ts[i]);
    }
    assert Separator(" ");
    TextRoundTrip(ds, "", RenderAll(ts), gs);
    assert "" + Join(RenderAll(ts), gs) == Join(RenderAll(ts), gs);
  }
}
