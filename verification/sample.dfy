/** One program all the way from its text to the number it leaves in the machine. */
module Sample {
  import opened Types
  import opened Memory
  import opened Words
  import opened Syntax
  import opened Typing
  import opened Machine
  import opened Emission
  import opened Semantics
  import opened Expand
  import opened Desugar
  import opened Layout
  import opened Operators
  import opened Leaves
  import opened Frames
  import opened Simulation
  import opened Relation
  import opened Linking
  import opened Correctness
  import opened Codegen
  import opened Tokens
  import opened Lexemes
  import opened Lexing
  import opened Munch
  import opened Texts
  import opened Alphabet
  import opened Grammar
  import opened Printing
  import opened Pipeline
  import opened Bare
  import opened Compiler

  const WORDS := ["proc", "main", "(", ")", "int", "{", "return", "1", "+", "2", "*", "3", ";", "}"]

  /** The words with a blank behind each. */
  function Spaced(words: seq<string>): string {
    if words == [] then "" else words[0] + (" " + Spaced(words[1..]))
  }

  const TEXT := Spaced(WORDS)

  const ONE := Num(NumAny, 1)
  const TWO := Num(NumAny, 2)
  const THREE := Num(NumAny, 3)
  const SIX := Binary(Mul, TWO, THREE)
  const SEVEN := Binary(Add, ONE, SIX)

  function Body(table: nat): Block {
    Block([Return(Some(SEVEN))], table)
  }

  function Main(table: nat): Proc {
    Proc("main", Signature([], Int), Body(table), [], 0)
  }

  const TOKENS := [
    TProc, TIdent("main"), TLParen, TRParen, TInt, TLBrace, TReturn, TNumber(NumAny, 1), TPlus, TNumber(NumAny, 2),
    TAsterisk, TNumber(NumAny, 3), TSemicolon, TRBrace
  ]

  const DECLS := [ProcDecl("main", Signature([], Int), Some(Body(0)))]

  /** The code the program is linked with: it calls `main` and ends. */
  const START: Code := [GlobalLabel("start"), MovProc("main"), CallReg(RAX)]

  lemma ExprPrinted()
    ensures Print(SEVEN) == [TNumber(NumAny, 1), TPlus, TNumber(NumAny, 2), TAsterisk, TNumber(NumAny, 3)]
    ensures Conforms(SEVEN)
  {
    assert Print(SIX) == [TNumber(NumAny, 2), TAsterisk, TNumber(NumAny, 3)];
  }

  lemma Printed()
    ensures PrintProgram(DECLS) == TOKENS && ConformsProgram(DECLS)
  {
    hide Print, Conforms;
    ExprPrinted();
    var s := Return(Some(SEVEN));
    assert PrintStmt(s) == [TReturn] + Print(SEVEN) + [TSemicolon];
    assert [s][1..] == [] && PrintStmts([s]) == PrintStmt(s) + [];
    assert PrintBlock(Body(0)) == [TLBrace] + PrintStmts([s]) + [TRBrace];
    assert PrintSignature(Signature([], Int)) == [TLParen] + [] + [TRParen] + [TInt];
    assert DECLS[1..] == [] && PrintProgram(DECLS) == PrintDecl(DECLS[0]) + [];
  }

  lemma DigitSpelled(c: char, n: nat)
    requires IsDigit(c) && DigitValue(c) == n
    ensures Spells(TNumber(NumAny, n), [c])
  {
    assert [c][..0] == [] && Decimal([c]) == 10 * Decimal([]) + n;
    assert IsNumeral([c]) && [c] == [c] + SuffixOf(NumAny);
  }

  lemma NameSpelled()
    ensures Spells(TIdent("main"), "main")
  {
    assert "main"[0] == 'm';
    assert Keyword("main").None?;
    assert IsIdent("main");
  }

  lemma SignSpelled(t: Tok, s: string)
    requires Sign(t) == Some(s)
    ensures Spells(t, s)
  {
  }

  lemma KeywordWord(t: Tok, s: string)
    requires IsKeyword(t) && KeywordText(t) == s
    ensures Spells(t, s)
  {
    KeywordReads(t);
    hide Keyword, IsIdent;
  }

  lemma WordSpelled(i: nat)
    requires i < 14
    ensures Spells(TOKENS[i], WORDS[i])
  {
    hide Spells;
    match i
    case 0 => KeywordWord(TProc, "proc");
    case 1 => NameSpelled();
    case 2 => SignSpelled(TLParen, "(");
    case 3 => SignSpelled(TRParen, ")");
    case 4 => KeywordWord(TInt, "int");
    case 5 => SignSpelled(TLBrace, "{");
    case 6 => KeywordWord(TReturn, "return");
    case 7 => DigitSpelled('1', 1);
    case 8 => SignSpelled(TPlus, "+");
    case 9 => DigitSpelled('2', 2);
    case 10 => SignSpelled(TAsterisk, "*");
    case 11 => DigitSpelled('3', 3);
    case 12 => SignSpelled(TSemicolon, ";");
    case 13 => SignSpelled(TRBrace, "}");
  }

  lemma WordsSpelled()
    ensures SpellsAll(TOKENS, WORDS)
  {
    hide Spells;
    forall i | 0 <= i < 14 ensures Spells(TOKENS[i], WORDS[i]) {
      WordSpelled(i);
    }
  }

  lemma {:induction false} SpacedJoined(words: seq<string>)
    ensures Spaced(words) == Join(words, seq(|words|, _ => " "))
    decreases |words|
  {
    if words != [] {
      SpacedJoined(words[1..]);
      assert seq(|words|, _ => " ")[1..] == seq(|words| - 1, _ => " ");
    }
  }

  lemma TextWritten()
    ensures Writes(TEXT, DECLS)
  {
    hide Spells, ConformsProgram, PrintProgram, Spaced, Join;
    Printed();
    WordsSpelled();
    var gs := seq(14, _ => " ");
    assert Separator(" ");
    SpacedJoined(WORDS);
    assert "" + Join(WORDS, gs) == TEXT;
    assert Spelling(TEXT, DECLS, "", WORDS, gs);
  }

  lemma MainPlaced()
    ensures Pipeline.Placed([Main(0)]) == [Main(1)] == LayProgram(ExpandProcs([Main(0)])).0
  {
    var l := Lay(0, [Scope(map[], None)], 0);
    var l0 := l.Insert("main", Routine(Signature([], Int))).(size := 0);
    ReturnLaid(l0.Push());
    assert PlaceBlock(Body(0), l0).0 == Body(1);
    assert LayBlock(Body(0), l0).0 == Body(1);
    assert ExpandBlock(Body(0)) == Body(0) by { BodyExpanded(); }
    assert [Main(0)][1..] == [];
    hide PlaceBlock, LayBlock, ExpandBlock;
    assert PlaceProc(Main(0), l).0 == Main(1);
    assert LayProc(Main(0), l).0 == Main(1);
    hide PlaceProc, LayProc;
    assert ExpandProcs([Main(0)]) == [Main(0)];
    assert LayProcs([Main(0)], l).0 == [Main(1)] + [];
    assert PlaceProcs([Main(0)], l).0 == [Main(1)] + [];
  }

  lemma BodyExpanded()
    ensures ExpandBlock(Body(0)) == Body(0)
  {
    assert ExpandExpr(SIX) == SIX && ExpandExpr(SEVEN) == SEVEN;
    assert Body(0).stmts[1..] == [];
  }

  lemma SevenLaid(size: nat)
    ensures LayExpr(SEVEN, size) == (SEVEN, size)
  {
    assert LayExpr(ONE, size) == (ONE, size) && LayExpr(TWO, size) == (TWO, size);
    assert LayExpr(THREE, size) == (THREE, size);
    assert LayExpr(SIX, size) == (SIX, size);
  }

  lemma ReturnLaid(l: Lay)
    requires l.Valid()
    ensures PlaceStmts([Return(Some(SEVEN))], l).0 == [Return(Some(SEVEN))]
    ensures LayStmts([Return(Some(SEVEN))], l).0 == [Return(Some(SEVEN))]
  {
    var s := Return(Some(SEVEN));
    SevenLaid(l.size);
    OneStatement(s, l);
  }

  /** A list of one statement that needs no room. */
  lemma OneStatement(s: Stmt, l: Lay)
    requires l.Valid() && LayStmt(s, l) == (s, l) == PlaceStmt(s, l)
    ensures PlaceStmts([s], l).0 == [s] && LayStmts([s], l).0 == [s]
  {
    hide LayStmt, PlaceStmt;
    assert [s][1..] == [];
  }

  lemma SevenTyped(env: Env)
    ensures Supported(SEVEN, env) && TypeOf(SEVEN, env) == Some(Int)
    ensures |ExprCode(SEVEN, env)| == 9
  {
    LiteralTyped(1, env);
    LiteralTyped(2, env);
    LiteralTyped(3, env);
    OperationTyped(Mul, TWO, THREE, env);
    OperationTyped(Add, ONE, SIX, env);
    assert |BinaryTail(Mul, Int, Int)| == 2 && |BinaryTail(Add, Int, Int)| == 2;
  }

  lemma LiteralTyped(n: nat, env: Env)
    ensures var e := Num(NumAny, n);
            Supported(e, env) && TypeOf(e, env) == Some(Int) && |ExprCode(e, env)| == 1
  {
  }

  /** An operation on two numbers of the fragment is in the fragment. */
  lemma OperationTyped(op: BinOp, l: Expr, r: Expr, env: Env)
    requires op != Div
    requires Supported(l, env) && TypeOf(l, env) == Some(Int) && Supported(r, env) && TypeOf(r, env) == Some(Int)
    ensures var e := Binary(op, l, r);
            Supported(e, env) && TypeOf(e, env) == Some(Int) &&
            |ExprCode(e, env)| == |ExprCode(l, env)| + |ExprCode(r, env)| + 1 + |BinaryTail(op, Int, Int)|
  {
  }

  lemma MainSupported(globals: Env)
    ensures SupportedProc(Main(1), globals) && |ProcCode(Main(1), globals, 0)| == 18
  {
    var env := ProcEnv(Main(1), globals) + Declared(Body(1).stmts);
    SevenTyped(env);
    hide ExprCode, Supported, TypeOf;
    var s := Return(Some(SEVEN));
    assert [s][1..] == [];
    assert StmtCode(s, env, 0) == ExprCode(SEVEN, env) + [Jmp(ReturnLabel)];
    assert StmtsCode([s], env, 0) == StmtCode(s, env, 0) + [];
    assert |BlockCode(Body(1), ProcEnv(Main(1), globals), 0)| == 10;
    assert SupportedStmt(s, env) && SupportedBlock(Body(1), ProcEnv(Main(1), globals));
  }

  /** The program and the code that calls it meet what the theorems about compiled code ask for. */
  lemma MainCompiled()
    ensures Compiled([Main(0)], [Main(1)], START)
    ensures |ProgramCode([Main(1)], GlobalEnv([Main(1)]), 0)| == 18
  {
    hide ProgramCode, LayProgram, ExpandProcs, SupportedProc, LinkMap;
    var procs, g := [Main(1)], GlobalEnv([Main(1)]);
    MainPlaced();
    MainSupported(g);
    OneProcedure(Main(1), g);
    LinkBounds(procs, START);
    NamesKept();
  }

  lemma OneProcedure(p: Proc, globals: Env)
    requires |p.slots| == |p.sig.params|
    ensures ProgramCode([p], globals, 0) == ProcCode(p, globals, 0)
  {
    hide ProcCode;
    assert [p][1..] == [];
    assert ProcCode(p, globals, 0) + [] == ProcCode(p, globals, 0);
  }

  lemma NamesKept()
    ensures KeepsNames([Main(0)])
  {
  }

  lemma SevenComputed(c: Ctx, fuel: nat, a: Act, sp: int, mem: Mem)
    requires mem.Keys <= a.acc && c.limit <= sp - 8
    ensures Eval(c, fuel, SEVEN, a, sp, mem) == Done(7, mem)
  {
    SevenTyped(a.env);
    assert TypeOf(SIX, a.env) == Some(Int);
    assert BinaryValue(Mul, Int, Int, 2, 3) == 6 && BinaryValue(Add, Int, Int, 1, 6) == 7;
    hide BinaryValue;
    assert Eval(c, fuel, THREE, a, sp, mem) == Done(3, mem);
    assert Eval(c, fuel, TWO, a, sp - 8, mem) == Done(2, mem);
    assert EvalBinary(c, fuel, SIX, a, sp, mem) == Done(6, mem);
    assert Eval(c, fuel, SIX, a, sp, mem) == Done(6, mem);
    assert Eval(c, fuel, ONE, a, sp - 8, mem) == Done(1, mem);
    assert EvalBinary(c, fuel, SEVEN, a, sp, mem) == Done(7, mem);
  }

  lemma MainMeans(c: Ctx, fuel: nat, sp: int)
    requires c.limit <= sp - 24
    ensures CallProc(c, fuel, Main(1), [], sp, {}, map[]) == Done(7, map[])
  {
    var p, s := Main(1), Return(Some(SEVEN));
    var a := Act(ProcEnv(p, c.globals), sp - 16, {} + Range(sp - 16, 0));
    var inner := a.(env := a.env + Declared([s]));
    SevenComputed(c, fuel, inner, sp - 16, map[]);
    SevenTyped(inner.env);
    hide Eval, TypeOf;
    assert ExecStmt(c, fuel, s, inner, sp - 16, map[]) == Done(Returned(7, 4), map[]);
    assert ExecStmts(c, fuel, [s], inner, sp - 16, map[]) == Done(Returned(7, 4), map[]);
    assert ExecBlock(c, fuel, Body(1), a, sp - 16, map[]) == Done(Returned(7, 4), map[]);
    hide ExecBlock;
    assert FinishCall(Int, {}, Done(Returned(7, 4), map[])) == Done(7, map[]);
  }

  /** From the label `start` to the call. */
  lemma StartRuns(w: World, s: State) returns (t: State)
    requires At(w.code, s.pc, START) && Resolved(w) && "main" in w.c.link
    ensures Run(w.code, 2, s) == Some(t) && t.pc == s.pc + 2 && t.mem == s.mem
    ensures t.regs == s.regs.(rax := w.c.link["main"]) && At(w.code, t.pc, [CallReg(RAX)])
  {
    var entry, name, call := [GlobalLabel("start")], [MovProc("main")], [CallReg(RAX)];
    assert START == entry + (name + call);
    AtSplit(w.code, s.pc, entry, name + call);
    AtSplit(w.code, s.pc + 1, name, call);
    AtOne(w.code, s.pc, GlobalLabel("start"));
    AtOne(w.code, s.pc + 1, MovProc("main"));
    var s1 := s.(pc := s.pc + 1);
    t := s1.(regs := s.regs.(rax := w.c.link["main"]), pc := s.pc + 2);
    assert EntryPoint(w.code, "main") == Some(w.c.link["main"] as int);
    assert Step(w.code, s) == Some(s1) && Step(w.code, s1) == Some(t);
    hide Step;
    RunStep(w.code, s, s1);
    RunStep(w.code, s1, t);
    RunAdd(w.code, 1, 1, s, s1);
  }

  lemma MainCalled(w: World, s: State)
    requires w.c.procs == [Main(1)] && "main" in w.c.link && s.regs.rax == w.c.link["main"]
    requires At(w.code, s.pc, [CallReg(RAX)])
    ensures ExpandProc(Main(1)) == Main(1) && Calling(w, ExpandProc(Main(1)), [], s, {}, map[])
  {
    assert ExpandExpr(SIX) == SIX && ExpandExpr(SEVEN) == SEVEN;
    assert Body(1).stmts[1..] == [];
    assert ExpandBlock(Body(1)) == Body(1);
    assert Main(1) in w.c.procs;
    assert Passed(s.regs, s.mem, s.regs.rsp, [], [], 0);
  }

  /** From the call on. */
  lemma SevenCalled(src: string, ds: seq<Decl>, procs: seq<Proc>, laid: seq<Proc>, limit: nat, p: Proc, s: State)
    returns (code: Code, n: nat, t: State)
    requires Writes(src, ds) && Declares(ds, procs) && Compiled(procs, laid, START) && p in Pipeline.Placed(procs)
    requires Calling(Program(laid, START, limit), ExpandProc(p), [], s, {}, map[]) && p.sig.ret == Int
    requires CallProc(SourceCtx(procs, Program(laid, START, limit).c), 0, p, [], s.regs.rsp, {}, map[]) ==
             Done(7, map[])
    ensures Output(Pointed, src) == Some(code) && Run(code + START, n, s) == Some(t) && t.pc == s.pc + 1
    ensures t.regs.rax % TWO_32 == 7 && t.regs.rsp == s.regs.rsp && t.regs.rbp == s.regs.rbp
    ensures forall x :: !(limit <= x < s.regs.rsp) ==> Get(t.mem, x) == Get(s.mem, x)
  {
    hide Run, CallProc, Compiled, Output, Writes, Declares, Calling, Pipeline.Placed, ExpandProc, BareProc, Program,
      SourceCtx;
    code, n, t := TextReturns(src, ds, procs, laid, START, limit, p, [], 0, s, {}, map[]);
  }

  /** The machine in front of the call. */
  lemma Started(src: string, ds: seq<Decl>, procs: seq<Proc>, laid: seq<Proc>, limit: nat, s: State)
    returns (code: Code, t: State)
    requires Writes(src, ds) && Declares(ds, procs) && Compiled(procs, laid, START)
    requires "main" in Program(laid, START, limit).c.link
    requires s.pc + |START| == |Program(laid, START, limit).code|
    ensures Output(Pointed, src) == Some(code) && Program(laid, START, limit).code == code + START && s.pc == |code|
    ensures Run(code + START, 2, s) == Some(t) && t.pc == s.pc + 2 && t.mem == s.mem
    ensures t.regs == s.regs.(rax := Program(laid, START, limit).c.link["main"])
    ensures At(code + START, t.pc, [CallReg(RAX)])
  {
    hide Run, Output, Linked, Writes, Declares, Resolved, At, KeepsNames, LayProgram, LinkMap, ProgramCode,
      SupportedProc;
    TextCompiles(src, ds, procs, laid, START, limit);
    code := Output(Pointed, src).value;
    var w := Program(laid, START, limit);
    ProgramLinked(laid, START, limit);
    LinkedResolved(w);
    StartPlaced(w.code, code);
    t := StartRuns(w, s);
  }

  /** The compiler turns the text into code. On every machine that begins at `start` with 24 bytes of
      free stack, and whatever is in its registers and memory, that code leaves 7, which is 1 + (2 * 3),
      and ends with the stack pointer where it was. */
  lemma SevenLeft(limit: nat, s: State) returns (code: Code, n: nat, t: State)
    requires s.pc == 18 && limit <= s.regs.rsp - 24
    ensures Output(Pointed, TEXT) == Some(code) && |code| == 18
    ensures Run(code + START, n, s) == Some(t) && t.pc == |code + START|
    ensures t.regs.rax % TWO_32 == 7 && t.regs.rsp == s.regs.rsp && t.regs.rbp == s.regs.rbp
    ensures forall x :: !(limit <= x < s.regs.rsp) ==> Get(t.mem, x) == Get(s.mem, x)
  {
    hide Run, Output, Calling, At, Pipeline.Placed, ExpandProc, Writes, Spaced, CallProc, ProgramCode,
      LinkMap, KeepsNames, LayProgram, SupportedProc, BlockLabels;
    TextWritten();
    MainCompiled();
    MainPlaced();
    MainDeclared();
    var w := Program([Main(1)], START, limit);
    MainLinked(w, limit);
    var s2, m;
    code, s2 := Started(TEXT, DECLS, [Main(0)], [Main(1)], limit, s);
    MainCalled(w, s2);
    MainMeans(SourceCtx([Main(0)], w.c), 0, s.regs.rsp);
    code, m, t := SevenCalled(TEXT, DECLS, [Main(0)], [Main(1)], limit, Main(1), s2);
    n := 2 + m;
    RunAdd(code + START, 2, m, s, s2);
  }

  lemma MainDeclared()
    ensures Declares(DECLS, [Main(0)])
  {
  }

  lemma MainLinked(w: World, limit: nat)
    requires Compiled([Main(0)], [Main(1)], START) && w == Program([Main(1)], START, limit)
    ensures "main" in w.c.link && w.c.procs == [Main(1)] && |w.code| == |ProgramCode([Main(1)], w.c.globals, 0)| + 3
    ensures w.c.globals == GlobalEnv([Main(1)]) && w.c.limit == limit
  {
    hide ProgramCode, KeepsNames, LayProgram, SupportedProc, ProcCode;
  }

  lemma StartPlaced(whole: Code, code: Code)
    requires whole == code + START
    ensures At(whole, |code|, START)
  {
  }
}
