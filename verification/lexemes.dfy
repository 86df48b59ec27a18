/** How tokens are spelled, and what the lexer takes from the front of a text. */
module Lexemes {
  import opened Types
  import opened Syntax
  import opened Tokens

  const MAX_LEN := 64
  const NUMBER_LIMIT := 0x8000_0000_0000_0000

  predicate IsDigit(c: char) {
    '0' <= c <= '9'
  }

  predicate IsHead(c: char) {
    'a' <= c <= 'z' || 'A' <= c <= 'Z' || c == '_'
  }

  predicate IsTail(c: char) {
    IsHead(c) || IsDigit(c)
  }

  predicate IsKeyword(t: Tok) {
    t.TProc? || t.TLet? || t.TIf? || t.TFor? || t.TElse? || t.TElsif? || t.TWhile? || t.TTable? || t.TReturn? ||
    t.TVoid? || t.TChar? || t.TInt? || t.TLong?
  }

  /** The first keyword the text begins with; what comes behind it does not matter. */
  function Keyword(src: string): (r: Option<Tok>)
    ensures r.Some? ==> IsKeyword(r.value)
  {
    if "proc" <= src then Some(TProc)
    else if "let" <= src then Some(TLet)
    else if "if" <= src then Some(TIf)
    else if "for" <= src then Some(TFor)
    else if "else" <= src then Some(TElse)
    else if "elsif" <= src then Some(TElsif)
    else if "while" <= src then Some(TWhile)
    else if "table" <= src then Some(TTable)
    else if "return" <= src then Some(TReturn)
    else if "void" <= src then Some(TVoid)
    else if "char" <= src then Some(TChar)
    else if "int" <= src then Some(TInt)
    else if "long" <= src then Some(TLong)
    else None
  }

  /** Identifiers that begin with a keyword are that keyword. */
  function Word(src: string): Tok {
    var k := Keyword(src);
    if k.Some? then k.value else TIdent(src)
  }

  function Digits(src: string): (n: nat)
    ensures n <= |src|
  {
    if src == [] || !IsDigit(src[0]) then 0 else 1 + Digits(src[1..])
  }

  function Tails(src: string): (n: nat)
    ensures n <= |src|
  {
    if src == [] || !IsTail(src[0]) then 0 else 1 + Tails(src[1..])
  }

  function Quote(src: string): (n: nat)
    ensures n <= |src|
  {
    if src == [] || src[0] == '"' then 0 else 1 + Quote(src[1..])
  }

  function DigitValue(c: char): nat
    requires IsDigit(c)
  {
    c as nat - '0' as nat
  }

  /** The number a string of digits stands for. */
  function Decimal(s: string): nat
    requires forall c | c in s :: IsDigit(c)
    decreases |s|
  {
    if s == [] then 0 else 10 * Decimal(s[..|s| - 1]) + DigitValue(s[|s| - 1])
  }

  function Suffix(src: string): (NumberKind, nat) {
    if src == [] then (NumAny, 0)
    else if src[0] == 'L' then (NumLong, 1)
    else if src[0] == 'B' then (NumChar, 1)
    else if src[0] == 'I' then (NumInt, 1)
    else (NumAny, 0)
  }

  /** Tokens of one character. */
  function Single(c: char): Option<Tok> {
    match c
    case '+' => Some(TPlus)
    case '-' => Some(TMinus)
    case '*' => Some(TAsterisk)
    case '/' => Some(TSlash)
    case '(' => Some(TLParen)
    case ')' => Some(TRParen)
    case '{' => Some(TLBrace)
    case '}' => Some(TRBrace)
    case '[' => Some(TLBracket)
    case ']' => Some(TRBracket)
    case ';' => Some(TSemicolon)
    case ',' => Some(TComma)
    case ':' => Some(TColon)
    case _ => None
  }

  /** Tokens of one character that a second character turns into others. */
  function Double(c: char): Option<(Tok, char, Tok)> {
    match c
    case '<' => Some((TLt, '=', TLtEq))
    case '>' => Some((TGt, '=', TGtEq))
    case '!' => Some((TBang, '=', TNeq))
    case '=' => Some((TAssign, '=', TEq))
    case '|' => Some((TPipe, '|', TLogOr))
    case '&' => Some((TAmpersand, '&', TLogAnd))
    case _ => None
  }

  /** A token and how many characters of the text it takes. */
  datatype Lexeme = Lexeme(tok: Tok, len: nat) | Error

  function NumberLexeme(src: string): (r: Lexeme)
    requires src != [] && IsDigit(src[0])
    ensures r.Lexeme? ==> 0 < r.len <= |src|
  {
    var n := Digits(src);
    var suffix := Suffix(src[n..]);
    DigitsAre(src);
    var v := Decimal(src[..n]);
    if n + suffix.1 > MAX_LEN || v >= NUMBER_LIMIT then Error else Lexeme(TNumber(suffix.0, v), n + suffix.1)
  }

  function WordLexeme(src: string): (r: Lexeme)
    requires src != [] && IsHead(src[0])
    ensures r.Lexeme? ==> 0 < r.len <= |src|
  {
    var n := Tails(src);
    if n > MAX_LEN then Error else Lexeme(Word(src[..n]), n)
  }

  function CharLexeme(src: string): (r: Lexeme)
    ensures r.Lexeme? ==> 0 < r.len <= |src|
  {
    if |src| >= 3 && src[1] as nat < 128 && src[2] == '\'' then Lexeme(TNumber(NumChar, src[1] as nat), 3) else Error
  }

  function StringLexeme(src: string): (r: Lexeme)
    requires src != []
    ensures r.Lexeme? ==> 0 < r.len <= |src|
  {
    var n := Quote(src[1..]);
    if n == |src| - 1 then Error else Lexeme(TString(src[1..n + 1]), n + 2)
  }

  /** The token at the front of a text that begins with none of the characters between tokens. */
  function First(src: string): (r: Lexeme)
    requires src != []
    ensures r.Lexeme? ==> 0 < r.len <= |src|
  {
    var c := src[0];
    if Single(c).Some? then Lexeme(Single(c).value, 1)
    else if Double(c).Some? then
      var d := Double(c).value;
      if |src| > 1 && src[1] == d.1 then Lexeme(d.2, 2) else Lexeme(d.0, 1)
    else if c == '\'' then CharLexeme(src)
    else if c == '"' then StringLexeme(src)
    else if IsDigit(c) then NumberLexeme(src)
    else if IsHead(c) then WordLexeme(src)
    else Error
  }

  predicate IsSpace(c: char) {
    c == ' ' || c == '\t' || c == '\r' || c == '\n'
  }

  /** What lies in front of the next token: its length, and how much of it belongs to comments. */
  datatype Gap = Gap(length: nat, comments: nat) | Unterminated

  function ToNewline(src: string): (n: nat)
    ensures n <= |src|
  {
    if src == [] || src[0] == '\n' then 0 else 1 + ToNewline(src[1..])
  }

  /** Blanks and comments; a comment reaches to the end of its line, which must be there. */
  function GapOf(src: string): (g: Gap)
    ensures g.Gap? ==> g.comments <= g.length <= |src|
    decreases |src|
  {
    if src == [] then Gap(0, 0)
    else if IsSpace(src[0]) then
      var g := GapOf(src[1..]);
      if g.Gap? then Gap(1 + g.length, g.comments) else g
    else if src[0] == '#' then
      var n := ToNewline(src);
      if n == |src| then Unterminated
      else
        var g := GapOf(src[n + 1..]);
        if g.Gap? then Gap(n + 1 + g.length, n + 1 + g.comments) else g
    else Gap(0, 0)
  }

  /** All tokens of a text, or nothing after the first error. */
  function LexAll(src: string): Option<seq<Tok>>
    decreases |src|
  {
    var g := GapOf(src);
    if g.Unterminated? then None
    else
      var rest := src[g.length..];
      if rest == [] then Some([])
      else
        var l := First(rest);
        if l.Error? then None
        else
          var ts := LexAll(rest[l.len..]);
          if ts.None? then None else Some([l.tok] + ts.value)
  }

  lemma {:induction false} DigitsAre(src: string)
    ensures forall c | c in src[..Digits(src)] :: IsDigit(c)
    ensures Digits(src) < |src| ==> !IsDigit(src[Digits(src)])
    decreases |src|
  {
    if src != [] && IsDigit(src[0]) {
      DigitsAre(src[1..]);
      assert src[..Digits(src)] == [src[0]] + src[1..][..Digits(src[1..])];
    }
  }

  lemma {:induction false} TailsAre(src: string)
    ensures forall c | c in src[..Tails(src)] :: IsTail(c)
    ensures Tails(src) < |src| ==> !IsTail(src[Tails(src)])
    decreases |src|
  {
    if src != [] && IsTail(src[0]) {
      TailsAre(src[1..]);
      assert src[..Tails(src)] == [src[0]] + src[1..][..Tails(src[1..])];
    }
  }

  lemma {:induction false} QuoteIs(src: string)
    ensures '"' !in src[..Quote(src)]
    ensures Quote(src) < |src| ==> src[Quote(src)] == '"'
    decreases |src|
  {
    if src != [] && src[0] != '"' {
      QuoteIs(src[1..]);
      assert src[..Quote(src)] == [src[0]] + src[1..][..Quote(src[1..])];
    }
  }

  predicate IsIdent(s: string) {
    s != [] && IsHead(s[0]) && forall c | c in s :: IsTail(c)
  }

  /** The spelling of the tokens that have just one. */
  function Sign(t: Tok): Option<string> {
    match t
    case TPlus => Some("+") case TMinus => Some("-") case TAsterisk => Some("*") case TSlash => Some("/")
    case TLParen => Some("(") case TRParen => Some(")") case TLBrace => Some("{") case TRBrace => Some("}")
    case TLBracket => Some("[") case TRBracket => Some("]") case TSemicolon => Some(";") case TComma => Some(",")
    case TColon => Some(":") case TLt => Some("<")
    case TLtEq => Some("<=") case TGt => Some(">") case TGtEq => Some(">=")
    case TBang => Some("!") case TNeq => Some("!=") case TAssign => Some("=") case TEq => Some("==")
    case TPipe => Some("|") case TLogOr => Some("||") case TAmpersand => Some("&") case TLogAnd => Some("&&")
    case _ => None
  }

  function SuffixOf(k: NumberKind): string {
    match k
    case NumLong => "L"
    case NumChar => "B"
    case NumInt => "I"
    case NumAny => ""
  }

  /** A number is written in digits with the suffix of its kind. */
  ghost predicate SpellsNumber(k: NumberKind, n: nat, s: string) {
    exists d: string :: IsNumeral(d) && s == d + SuffixOf(k) && Decimal(d) == n
  }

  predicate IsNumeral(d: string) {
    d != [] && forall c | c in d :: IsDigit(c)
  }

  predicate SpellsChar(n: nat, s: string) {
    |s| == 3 && s[0] == '\'' && s[1] as nat == n < 128 && s[2] == '\''
  }

  /** The spellings of a token. */
  ghost predicate Spells(t: Tok, s: string) {
    if Sign(t).Some? then s == Sign(t).value
    else
      match t
      case TNumber(k, n) => (|s| <= MAX_LEN && n < NUMBER_LIMIT && SpellsNumber(k, n, s)) ||
        (k.NumChar? && SpellsChar(n, s))
      case TString(x) => s == ['"'] + x + ['"'] && '"' !in x
      case _ => |s| <= MAX_LEN && IsIdent(s) && Word(s) == t
  }
}
