/** The whole compiler: from the text of a program to its code, and what the code does. */
module Compiler {
  import opened Types
  import opened Words
  import opened Memory
  import opened Syntax
  import opened Typing
  import opened Machine
  import opened Emission
  import opened Semantics
  import opened Expand
  import opened Layout
  import opened Scopes
  import opened Linking
  import opened Desugar
  import opened Operators
  import opened Frames
  import opened Simulation
  import opened Relation
  import opened Correctness
  import opened Codegen
  import opened Tokens
  import opened Grammar
  import opened Printing
  import opened Lexemes
  import opened Lexing
  import opened Texts
  import opened Soundness
  import opened Tidying
  import opened Pipeline
  import opened Bare

  /** The declarations that stand for the procedures, as the parser leaves them: nothing laid out. */
  ghost predicate Declares(ds: seq<Decl>, ps: seq<Proc>) {
    |ds| == |ps| &&
    forall i | 0 <= i < |ds| ::
      ds[i] == ProcDecl(ps[i].name, ps[i].sig, Some(ps[i].body)) && ps[i].slots == [] && ps[i].stackSize == 0
  }

  /** A declaration without code: a table, or a procedure without a body. */
  predicate Bodiless(d: Decl) {
    match d
    case ProcDecl(_, _, body) => body.None?
    case TableDecl(_, _) => true
  }

  /** The text spells the tokens of the declarations one after the other, with any blanks and
      comments around them. */
  ghost predicate Spelling(src: string, ds: seq<Decl>, lead: string, ss: seq<string>, gs: seq<string>) {
    SpellsAll(PrintProgram(ds), ss) && |gs| == |ss| && Separators(gs) && Blank(lead) && src == lead + Join(ss, gs)
  }

  ghost predicate Writes(src: string, ds: seq<Decl>) {
    ConformsProgram(ds) && exists lead, ss, gs :: Spelling(src, ds, lead, ss, gs)
  }

  /** The procedures of a parsed program; a program with a table or a procedure without a body is
      outside the model of the later passes. */
  function ProcsOf(ds: seq<Decl>): Option<seq<Proc>> {
    if ds == [] then Some([])
    else if !ds[0].ProcDecl? || ds[0].body.None? then None
    else
      var rest := ProcsOf(ds[1..]);
      if rest.None? then None else Some([Proc(ds[0].name, ds[0].sig, ds[0].body.value, [], 0)] + rest.value)
  }

  /** They are the declared ones, and there are none only if some declaration has no code. */
  lemma {:induction false} ProcsDeclared(ds: seq<Decl>)
    ensures ProcsOf(ds).Some? ==> Declares(ds, ProcsOf(ds).value)
    ensures ProcsOf(ds).None? <==> exists d | d in ds :: Bodiless(d)
    decreases |ds|
  {
    if ds != [] {
      var rest := ds[1..];
      ProcsDeclared(rest);
      assert ds == [ds[0]] + rest;
      if !Bodiless(ds[0]) && ProcsOf(rest).None? {
        var d :| d in rest && Bodiless(d);
        assert d in ds;
      }
    }
  }

  lemma OneDeclared(ds: seq<Decl>, ps: seq<Proc>, qs: seq<Proc>)
    requires Declares(ds, ps) && Declares(ds, qs)
    ensures ps == qs
  {
    forall i | 0 <= i < |ps| ensures ps[i] == qs[i] {
      assert ds[i] == ProcDecl(ps[i].name, ps[i].sig, Some(ps[i].body));
      assert ds[i] == ProcDecl(qs[i].name, qs[i].sig, Some(qs[i].body));
    }
  }

  lemma DeclaredProcs(ds: seq<Decl>, ps: seq<Proc>)
    requires Declares(ds, ps)
    ensures ProcsOf(ds) == Some(ps)
  {
    ProcsDeclared(ds);
    NoneBodiless(ds, ps);
    OneDeclared(ds, ps, ProcsOf(ds).value);
  }

  lemma NoneBodiless(ds: seq<Decl>, ps: seq<Proc>)
    requires Declares(ds, ps)
    ensures !exists d | d in ds :: Bodiless(d)
  {
    forall d | d in ds ensures !Bodiless(d) {
      var i :| 0 <= i < |ds| && ds[i] == d;
      assert ds[i] == ProcDecl(ps[i].name, ps[i].sig, Some(ps[i].body));
    }
  }

  /** What the front end makes of a text. */
  function Front(src: string): Option<seq<Proc>> {
    var ts := LexAll(src);
    if ts.None? then None
    else
      var ds := ParseProgram(ts.value);
      if ds.None? then None else ProcsOf(ds.value)
  }

  /** What the later passes make of the procedures. */
  function Back(guard: Guard, procs: seq<Proc>): Option<Code>
  {
    LaidSlots(procs);
    var laid := LayProgram(ExpandProcs(procs)).0;
    if ProgramAccepted(guard, laid) then Some(ProgramCode(laid, GlobalEnv(laid), 0)) else None
  }

  /** What the compiler makes of a text. */
  function Output(guard: Guard, src: string): Option<Code> {
    var procs := Front(src);
    if procs.Some? then Back(guard, procs.value) else None
  }

  lemma LaidSlots(procs: seq<Proc>)
    ensures SlotsMatch(LayProgram(ExpandProcs(procs)).0)
  {
    hide LayProgram;
    ScopesAgree(ExpandProcs(procs));
  }

  /** A text that spells a program is read as that program. */
  lemma TextRead(src: string, ds: seq<Decl>)
    requires Writes(src, ds)
    ensures LexAll(src) == Some(PrintProgram(ds)) && ParseProgram(PrintProgram(ds)) == Some(ds)
  {
    hide LexAll, ParseProgram, ConformsProgram, SpellsAll, Join, PrintProgram;
    var lead, ss, gs :| Spelling(src, ds, lead, ss, gs);
    TextRoundTrip(ds, lead, ss, gs);
  }

  /** Whatever procedures a text spells, the compiler gives what the later passes make of exactly
      these procedures; of a text with a table or a procedure without a body it gives nothing. */
  lemma TextMeans(guard: Guard, src: string, ds: seq<Decl>)
    requires Writes(src, ds)
    ensures forall ps | Declares(ds, ps) :: Output(guard, src) == Back(guard, ps)
    ensures (exists d | d in ds :: Bodiless(d)) ==> Output(guard, src).None?
  {
    hide LexAll, ParseProgram, Writes, Declares, Back, ProcsOf, PrintProgram;
    TextRead(src, ds);
    ProcsDeclared(ds);
    forall ps | Declares(ds, ps) ensures Output(guard, src) == Back(guard, ps) {
      DeclaredProcs(ds, ps);
    }
  }

  /** And code comes only from a text that is written like a program of such procedures, up to list
      commas and empty statements. */
  lemma CodeMeans(guard: Guard, src: string) returns (ts: seq<Tok>, ds: seq<Decl>, ps: seq<Proc>)
    requires Output(guard, src).Some?
    ensures LexAll(src) == Some(ts) && ConformsProgram(ds) && Declares(ds, ps)
    ensures Tidy(BEGINNING, ts) == Tidy(BEGINNING, PrintProgram(ds)) && Output(guard, src) == Back(guard, ps)
  {
    hide LexAll, ParseProgram, ProcsOf, Back, Tidy, PrintProgram, ConformsProgram, Declares;
    ts := LexAll(src).value;
    ProgramSound(ts);
    ds := ParseProgram(ts).value;
    ProcsDeclared(ds);
    ps := ProcsOf(ds).value;
  }

  /** A text whose procedures are in the fragment gets through all passes, and what comes out is the
      program's part of the code that the theorems are about. */
  lemma TextCompiles(src: string, ds: seq<Decl>, procs: seq<Proc>, laid: seq<Proc>, post: Code, limit: nat)
    requires Writes(src, ds) && Declares(ds, procs) && Compiled(procs, laid, post)
    ensures Output(Pointed, src).Some? && Program(laid, post, limit).code == Output(Pointed, src).value + post
  {
    hide LayProgram, ProgramCode, LinkMap, KeepsNames, Output, SupportedProc, ProgramAccepted, Writes, Declares;
    LaidSlots(procs);
    SupportedProgram(laid);
    TextMeans(Pointed, src, ds);
  }

  /** Every procedure that the rules of the source speak of is one of the text's own, with places for
      its objects filled in. */
  lemma TextPlaced(src: string, ds: seq<Decl>, procs: seq<Proc>, p: Proc)
    requires Writes(src, ds) && Declares(ds, procs) && p in Pipeline.Placed(procs)
    ensures BareProc(p) in procs
  {
    hide Spelling, BareBlock, PlaceProcs, ConformsBlock, Pipeline.Placed;
    PlacementFills(procs);
    var i :| 0 <= i < |procs| && Pipeline.Placed(procs)[i] == p;
    assert ds[i] == ProcDecl(procs[i].name, procs[i].sig, Some(procs[i].body)) && ds[i] in ds;
    assert ConformsDecl(ds[i]);
    BlockBare(procs[i].body);
    assert BareProc(procs[i]) == procs[i];
  }

  /** From text to machine: whatever procedures a text spells, the compiler turns it into code, and
      that code, linked in front of other code, comes back from every call that returns by the rules
      of these procedures, with that result and that memory. */
  lemma TextReturns(src: string, ds: seq<Decl>, procs: seq<Proc>, laid: seq<Proc>, post: Code, limit: nat, p: Proc,
                    vs: seq<nat>, fuel: nat, s: State, acc: set<int>, mem: Mem)
    returns (code: Code, n: nat, t: State)
    requires Writes(src, ds) && Declares(ds, procs) && Compiled(procs, laid, post) && p in Pipeline.Placed(procs)
    requires var w := Program(laid, post, limit);
             Calling(w, ExpandProc(p), vs, s, acc, mem) &&
             CallProc(SourceCtx(procs, w.c), fuel, p, vs, s.regs.rsp, acc, mem).Done?
    ensures Output(Pointed, src) == Some(code) && BareProc(p) in procs
    ensures var r := CallProc(SourceCtx(procs, Program(laid, post, limit).c), fuel, p, vs, s.regs.rsp, acc, mem);
            Run(code + post, n, s) == Some(t) && t.pc == s.pc + 1 && t.regs.rsp == s.regs.rsp &&
            t.regs.rbp == s.regs.rbp &&
            t.regs.rax % Modulus(Size(p.sig.ret)) == r.value &&
            forall x :: !(limit <= x < s.regs.rsp) ==> Get(t.mem, x) == if x in r.mem then r.mem[x] else Get(s.mem, x)
  {
    hide Run, CallProc, ProgramCode, LinkMap, SupportedProc, KeepsNames, LayProgram, At, Passed, Output, Stays,
      Compiled, Writes, Declares, BareProc;
    TextCompiles(src, ds, procs, laid, post, limit);
    TextPlaced(src, ds, procs, p);
    code := Output(Pointed, src).value;
    n, t := SourceReturns(procs, laid, post, limit, p, vs, fuel, s, acc, mem);
  }

  /** And a call that never returns there never stops the machine. */
  lemma TextDiverges(src: string, ds: seq<Decl>, procs: seq<Proc>, laid: seq<Proc>, post: Code, limit: nat, p: Proc,
                     vs: seq<nat>, s: State, acc: set<int>, mem: Mem, n: nat)
    returns (code: Code)
    requires Writes(src, ds) && Declares(ds, procs) && Compiled(procs, laid, post) && p in Pipeline.Placed(procs)
    requires var w := Program(laid, post, limit);
             Calling(w, ExpandProc(p), vs, s, acc, mem) &&
             forall fuel: nat :: CallProc(SourceCtx(procs, w.c), fuel, p, vs, s.regs.rsp, acc, mem).OutOfFuel?
    ensures Output(Pointed, src) == Some(code) && BareProc(p) in procs && Run(code + post, n, s).Some?
  {
    hide Run, CallProc, ProgramCode, LinkMap, SupportedProc, KeepsNames, LayProgram, At, Passed, Output, InStack,
      Compiled, Writes, Declares, BareProc;
    TextCompiles(src, ds, procs, laid, post, limit);
    TextPlaced(src, ds, procs, p);
    code := Output(Pointed, src).value;
    SourceDiverges(procs, laid, post, limit, p, vs, s, acc, mem, n);
  }

  /** The compiler: text in, code out, or nothing if any pass stops with an error. */
  method CompileText(src: string, guard: Guard) returns (text: Option<Code>)
    ensures text == Output(guard, src)
    ensures forall ds, ps | Writes(src, ds) && Declares(ds, ps) :: text == Back(guard, ps)
    ensures forall ds, d | Writes(src, ds) && d in ds && Bodiless(d) :: text.None?
  {
    hide LexAll, ParseProgram, ProcsOf, LayProgram, ProgramAccepted, ProgramCode, Writes, Declares;
    text := None;
    forall ds, ps | Writes(src, ds) && Declares(ds, ps) ensures Output(guard, src) == Back(guard, ps) {
      TextMeans(guard, src, ds);
    }
    forall ds, d | Writes(src, ds) && d in ds && Bodiless(d) ensures Output(guard, src).None? {
      TextMeans(guard, src, ds);
    }
    var ds := ParseText(src);
    if ds.None? {
      return;
    }
    var procs := ProcsOf(ds.value);
    if procs.None? {
      return;
    }
    var ok, laid, code := Compile(guard, ExpandProcs(procs.value));
    if ok {
      text := Some(code);
    }
  }
}
