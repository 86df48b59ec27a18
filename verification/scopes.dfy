/** Scope chains: the table the symbol-table pass leaves at a block, followed through its parents,
    means what the nesting of the blocks says. */
module Scopes {
  import opened Types
  import opened Syntax
  import opened Typing
  import opened Layout

  predicate WellFounded(scopes: seq<Scope>) {
    forall i | 0 <= i < |scopes| :: scopes[i].parent.Some? ==> scopes[i].parent.value < i
  }

  /** What a lookup finds that begins at table id and goes outwards. */
  function Find(scopes: seq<Scope>, id: nat, x: string): Option<Symbol>
    requires WellFounded(scopes) && id < |scopes|
    decreases id
  {
    var s := scopes[id];
    if x in s.entries then Some(s.entries[x])
    else if s.parent.None? then None
    else Find(scopes, s.parent.value, x)
  }

  /** All names visible from table id. */
  function EnvAt(scopes: seq<Scope>, id: nat): Env
    requires WellFounded(scopes) && id < |scopes|
    decreases id
  {
    var s := scopes[id];
    if s.parent.None? then s.entries else EnvAt(scopes, s.parent.value) + s.entries
  }

  lemma {:induction false} FindIsEnvAt(scopes: seq<Scope>, id: nat, x: string)
    requires WellFounded(scopes) && id < |scopes|
    ensures Find(scopes, id, x) == if x in EnvAt(scopes, id) then Some(EnvAt(scopes, id)[x]) else None
    decreases id
  {
    if scopes[id].parent.Some? {
      FindIsEnvAt(scopes, scopes[id].parent.value, x);
    }
  }

  /** The blocks of a statement have their own tables lo..hi, hanging below table `up`. */
  predicate BuiltStmt(s: Stmt, scopes: seq<Scope>, up: nat, lo: nat, hi: nat)
    decreases s
  {
    lo <= hi <= |scopes| &&
    match s
    case BlockStmt(b) => BuiltBlock(b, scopes, up, lo, hi)
    case If(_, thn, els) =>
      if els.None? then BuiltBlock(thn, scopes, up, lo, hi)
      else
        var mid := els.value.table;
        lo <= mid <= hi && BuiltBlock(thn, scopes, up, lo, mid) && BuiltBlock(els.value, scopes, up, mid, hi)
    case While(_, body) => BuiltBlock(body, scopes, up, lo, hi)
    case _ => true
  }

  predicate BuiltBlock(b: Block, scopes: seq<Scope>, up: nat, lo: nat, hi: nat)
    decreases b
  {
    lo < hi <= |scopes| && b.table == lo && scopes[lo] == Scope(Declared(b.stmts), Some(up)) &&
    BuiltStmts(b.stmts, scopes, lo, lo + 1, hi)
  }

  predicate BuiltStmts(stmts: seq<Stmt>, scopes: seq<Scope>, up: nat, lo: nat, hi: nat)
    decreases stmts
  {
    lo <= hi <= |scopes| &&
    (stmts != [] ==> exists mid ::
      lo <= mid <= hi && BuiltStmt(stmts[0], scopes, up, lo, mid) &&
      BuiltStmts(stmts[1..], scopes, up, mid, hi))
  }

  predicate SameTables(s0: seq<Scope>, s1: seq<Scope>, lo: nat, hi: nat) {
    hi <= |s0| && hi <= |s1| && forall i | lo <= i < hi :: s0[i] == s1[i]
  }

  lemma {:induction false} StmtStable(s: Stmt, s0: seq<Scope>, s1: seq<Scope>, up: nat, lo: nat, hi: nat)
    requires BuiltStmt(s, s0, up, lo, hi) && SameTables(s0, s1, lo, hi)
    ensures BuiltStmt(s, s1, up, lo, hi)
    decreases s
  {
    match s
    case BlockStmt(b) => BlockStable(b, s0, s1, up, lo, hi);
    case If(_, thn, els) =>
      if els.None? {
        BlockStable(thn, s0, s1, up, lo, hi);
      } else {
        BlockStable(thn, s0, s1, up, lo, els.value.table);
        BlockStable(els.value, s0, s1, up, els.value.table, hi);
      }
    case While(_, body) => BlockStable(body, s0, s1, up, lo, hi);
    case _ =>
  }

  lemma {:induction false} BlockStable(b: Block, s0: seq<Scope>, s1: seq<Scope>, up: nat, lo: nat, hi: nat)
    requires BuiltBlock(b, s0, up, lo, hi) && SameTables(s0, s1, lo, hi)
    ensures BuiltBlock(b, s1, up, lo, hi)
    decreases b
  {
    StmtsStable(b.stmts, s0, s1, lo, lo + 1, hi);
  }

  lemma {:induction false} StmtsStable(stmts: seq<Stmt>, s0: seq<Scope>, s1: seq<Scope>, up: nat, lo: nat, hi: nat)
    requires BuiltStmts(stmts, s0, up, lo, hi) && SameTables(s0, s1, lo, hi)
    ensures BuiltStmts(stmts, s1, up, lo, hi)
    decreases stmts
  {
    if stmts != [] {
      var mid :| lo <= mid <= hi && BuiltStmt(stmts[0], s0, up, lo, mid) && BuiltStmts(stmts[1..], s0, up, mid, hi);
      StmtStable(stmts[0], s0, s1, up, lo, mid);
      StmtsStable(stmts[1..], s0, s1, up, mid, hi);
    }
  }

  /** The pass changes no old table but the open one, to which it only adds symbols. */
  predicate Grown(l: Lay, r: Lay, added: Env)
    requires l.Valid()
  {
    r.head == l.head && |l.scopes| <= |r.scopes| && (WellFounded(l.scopes) ==> WellFounded(r.scopes)) &&
    (forall i | 0 <= i < |l.scopes| && i != l.head :: r.scopes[i] == l.scopes[i]) &&
    r.scopes[l.head] == Scope(added + l.scopes[l.head].entries, l.scopes[l.head].parent)
  }

  lemma {:induction false} StmtBuilds(s: Stmt, l: Lay)
    requires l.Valid()
    ensures Grown(l, LayStmt(s, l).1, Declared([LayStmt(s, l).0]))
    ensures BuiltStmt(LayStmt(s, l).0, LayStmt(s, l).1.scopes, l.head, |l.scopes|, |LayStmt(s, l).1.scopes|)
    decreases s
  {
    hide BuiltBlock, LayExpr;
    var r := LayStmt(s, l);
    DeclaredOne(r.0);
    assert map[] + l.scopes[l.head].entries == l.scopes[l.head].entries;
    match s
    case BlockStmt(b) => BlockBuilds(b, l);
    case If(cond, thn, els) =>
      var l1 := l.(size := LayExpr(cond, l.size).1);
      BlockBuilds(thn, l1);
      if els.Some? {
        var r2 := LayBlock(thn, l1);
        BlockBuilds(els.value, r2.1);
        BlockStable(r2.0, r2.1.scopes, r.1.scopes, l.head, |l.scopes|, |r2.1.scopes|);
      }
    case While(cond, body) => BlockBuilds(body, l.(size := LayExpr(cond, l.size).1));
    case _ =>
  }

  lemma DeclaredOne(s: Stmt)
    ensures Declared([s]) == match s case VarDecl(x, ty, _, off) => map[x := Variable(ty, off)] case _ => map[]
  {
    assert [s][1..] == [];
  }

  lemma DeclaredCons(s: Stmt, rest: seq<Stmt>)
    ensures Declared([s] + rest) == Declared(rest) + Declared([s])
  {
    DeclaredOne(s);
    assert ([s] + rest)[1..] == rest;
  }

  lemma {:induction false} StmtsBuild(stmts: seq<Stmt>, l: Lay)
    requires l.Valid()
    ensures Grown(l, LayStmts(stmts, l).1, Declared(LayStmts(stmts, l).0))
    ensures BuiltStmts(LayStmts(stmts, l).0, LayStmts(stmts, l).1.scopes, l.head, |l.scopes|,
            |LayStmts(stmts, l).1.scopes|)
    decreases stmts
  {
    hide LayStmt, BuiltStmt;
    if stmts == [] {
      assert map[] + l.scopes[l.head].entries == l.scopes[l.head].entries;
    } else {
      StmtBuilds(stmts[0], l);
      var r1 := LayStmt(stmts[0], l);
      StmtsBuild(stmts[1..], r1.1);
      var r2 := LayStmts(stmts[1..], r1.1);
      DeclaredCons(r1.0, r2.0);
      StmtStable(r1.0, r1.1.scopes, r2.1.scopes, l.head, |l.scopes|, |r1.1.scopes|);
      assert ([r1.0] + r2.0)[1..] == r2.0;
    }
  }

  lemma {:induction false} BlockBuilds(b: Block, l: Lay)
    requires l.Valid()
    ensures Grown(l, LayBlock(b, l).1, map[])
    ensures BuiltBlock(LayBlock(b, l).0, LayBlock(b, l).1.scopes, l.head, |l.scopes|, |LayBlock(b, l).1.scopes|)
    decreases b
  {
    hide LayStmts, BuiltStmts;
    StmtsBuild(b.stmts, l.Push());
    var d := Declared(LayStmts(b.stmts, l.Push()).0);
    assert d + map[] == d;
    assert map[] + l.scopes[l.head].entries == l.scopes[l.head].entries;
  }

  lemma InsertGrown(l: Lay, size: nat, x: string, sym: Symbol, r: Lay, added: Env)
    requires l.Valid() && Grown(l.(size := size).Insert(x, sym), r, added)
    ensures Grown(l, r, added[x := sym])
  {
    var e := l.scopes[l.head].entries;
    assert added + (map[x := sym] + e) == added[x := sym] + e;
  }

  lemma {:induction false} ParamsBuild(params: seq<Param>, l: Lay)
    requires l.Valid()
    ensures Grown(l, LayParams(params, l).1, Parameters(params, LayParams(params, l).0))
    ensures |LayParams(params, l).1.scopes| == |l.scopes|
    decreases |params|
  {
    if params == [] {
      assert map[] + l.scopes[l.head].entries == l.scopes[l.head].entries;
    } else {
      hide Grown;
      var off := l.size + Size(params[0].ty);
      var sym := Parameter(params[0].ty, off);
      var l1 := l.(size := off).Insert(params[0].ident, sym);
      ParamsBuild(params[1..], l1);
      var r := LayParams(params[1..], l1);
      assert ([off] + r.0)[1..] == r.0;
      InsertGrown(l, off, params[0].ident, sym, r.1, Parameters(params[1..], r.0));
    }
  }

  /** Whenever the code generator stands in a block, the chain it follows from the block's table
      finds the innermost declaration, block-wide. */
  predicate ScopedBlock(b: Block, scopes: seq<Scope>, env: Env)
    requires WellFounded(scopes)
    decreases b
  {
    b.table < |scopes| && EnvAt(scopes, b.table) == env + Declared(b.stmts) &&
    forall s | s in b.stmts :: ScopedStmt(s, scopes, env + Declared(b.stmts))
  }

  predicate ScopedStmt(s: Stmt, scopes: seq<Scope>, env: Env)
    requires WellFounded(scopes)
    decreases s
  {
    match s
    case BlockStmt(b) => ScopedBlock(b, scopes, env)
    case If(_, thn, els) => ScopedBlock(thn, scopes, env) && (els.Some? ==> ScopedBlock(els.value, scopes, env))
    case While(_, body) => ScopedBlock(body, scopes, env)
    case _ => true
  }

  lemma {:induction false} BuiltIsScoped(b: Block, scopes: seq<Scope>, up: nat, lo: nat, hi: nat)
    requires WellFounded(scopes) && BuiltBlock(b, scopes, up, lo, hi) && up < lo
    ensures ScopedBlock(b, scopes, EnvAt(scopes, up))
    decreases b, 1
  {
    StmtsScoped(b.stmts, scopes, lo, lo + 1, hi);
  }

  lemma {:induction false} StmtsScoped(stmts: seq<Stmt>, scopes: seq<Scope>, up: nat, lo: nat, hi: nat)
    requires WellFounded(scopes) && BuiltStmts(stmts, scopes, up, lo, hi) && up < lo
    ensures forall s | s in stmts :: ScopedStmt(s, scopes, EnvAt(scopes, up))
    decreases stmts, 0
  {
    if stmts != [] {
      var mid :| lo <= mid <= hi && BuiltStmt(stmts[0], scopes, up, lo, mid) &&
          BuiltStmts(stmts[1..], scopes, up, mid, hi);
      StmtScoped(stmts[0], scopes, up, lo, mid);
      StmtsScoped(stmts[1..], scopes, up, mid, hi);
    }
  }

  lemma {:induction false} StmtScoped(s: Stmt, scopes: seq<Scope>, up: nat, lo: nat, hi: nat)
    requires WellFounded(scopes) && BuiltStmt(s, scopes, up, lo, hi) && up < lo
    ensures ScopedStmt(s, scopes, EnvAt(scopes, up))
    decreases s, 1
  {
    match s
    case BlockStmt(b) => BuiltIsScoped(b, scopes, up, lo, hi);
    case If(_, thn, els) =>
      if els.None? {
        BuiltIsScoped(thn, scopes, up, lo, hi);
      } else {
        BuiltIsScoped(thn, scopes, up, lo, els.value.table);
        BuiltIsScoped(els.value, scopes, up, els.value.table, hi);
      }
    case While(_, body) => BuiltIsScoped(body, scopes, up, lo, hi);
    case _ =>
  }

  /** A procedure's body, whose table also has the parameters that no variable hides. */
  predicate BuiltProc(p: Proc, scopes: seq<Scope>, up: nat, hi: nat)
    requires |p.slots| == |p.sig.params|
  {
    var lo := p.body.table;
    up < lo < hi <= |scopes| &&
    scopes[lo] == Scope(Parameters(p.sig.params, p.slots) + Declared(p.body.stmts), Some(up)) &&
    BuiltStmts(p.body.stmts, scopes, lo, lo + 1, hi)
  }

  lemma ProcBuilds(p: Proc, l: Lay)
    requires l.Valid()
    ensures Grown(l, LayProc(p, l).1, map[p.name := Routine(p.sig)])
    ensures BuiltProc(LayProc(p, l).0, LayProc(p, l).1.scopes, l.head, |LayProc(p, l).1.scopes|)
    ensures |l.scopes| <= LayProc(p, l).0.body.table
  {
    hide LayBlock, LayParams, BuiltStmts;
    var l0 := l.Insert(p.name, Routine(p.sig)).(size := 0);
    BlockBuilds(p.body, l0);
    var r1 := LayBlock(p.body, l0);
    var l1 := r1.1.(head := r1.0.table);
    ParamsBuild(p.sig.params, l1);
    var r2 := LayParams(p.sig.params, l1);
    var lo, hi := r1.0.table, |r1.1.scopes|;
    StmtsStable(r1.0.stmts, r1.1.scopes, r2.1.scopes, lo, lo + 1, hi);
    var e := map[p.name := Routine(p.sig)] + l.scopes[l.head].entries;
    assert map[] + e == e;
  }

  lemma {:induction false} ProcsBuild(procs: seq<Proc>, l: Lay)
    requires l.Valid()
    ensures Grown(l, LayProcs(procs, l).1, GlobalEnv(LayProcs(procs, l).0))
    ensures forall p | p in LayProcs(procs, l).0 ::
              |p.slots| == |p.sig.params| && |l.scopes| <= p.body.table &&
              exists hi :: BuiltProc(p, LayProcs(procs, l).1.scopes, l.head, hi)
    decreases |procs|
  {
    hide LayProc, BuiltProc, GlobalEnv;
    if procs == [] {
      NoGlobals();
      assert map[] + l.scopes[l.head].entries == l.scopes[l.head].entries;
    } else {
      ProcBuilds(procs[0], l);
      var r1 := LayProc(procs[0], l);
      ProcsBuild(procs[1..], r1.1);
      var r2 := LayProcs(procs[1..], r1.1);
      ProcStable(r1.0, r1.1.scopes, r2.1.scopes, l.head, |r1.1.scopes|);
      GlobalsCons(r1.0, r2.0, l.scopes[l.head].entries);
    }
  }

  lemma NoGlobals()
    ensures GlobalEnv([]) == map[]
  {
  }

  lemma ProcStable(p: Proc, s0: seq<Scope>, s1: seq<Scope>, up: nat, hi: nat)
    requires |p.slots| == |p.sig.params| && BuiltProc(p, s0, up, hi)
    requires SameTables(s0, s1, p.body.table, hi)
    ensures BuiltProc(p, s1, up, hi)
  {
    StmtsStable(p.body.stmts, s0, s1, p.body.table, p.body.table + 1, hi);
  }

  lemma GlobalsCons(p: Proc, procs: seq<Proc>, e: Env)
    ensures GlobalEnv(procs) + (map[p.name := Routine(p.sig)] + e) == GlobalEnv([p] + procs) + e
  {
    assert ([p] + procs)[1..] == procs;
  }

  /** Two-pass agreement: in the tree the pass leaves, every block's table, followed outwards, gives
      the procedures, hidden by the parameters, hidden by the declarations of the enclosing blocks,
      each of them visible in the whole of its block. */
  lemma ScopesAgree(procs: seq<Proc>)
    ensures var r := LayProgram(procs);
            WellFounded(r.1.scopes) &&
            forall p | p in r.0 ::
              |p.slots| == |p.sig.params| && ScopedBlock(p.body, r.1.scopes, ProcEnv(p, GlobalEnv(r.0)))
  {
    var l := Lay(0, [Scope(map[], None)], 0);
    ProcsBuild(procs, l);
    hide BuiltProc, LayProcs, GlobalEnv, ScopedBlock;
    var r := LayProgram(procs);
    var g := GlobalEnv(r.0);
    assert g + map[] == g;
    forall p | p in r.0 ensures ScopedBlock(p.body, r.1.scopes, ProcEnv(p, g)) {
      var hi :| BuiltProc(p, r.1.scopes, 0, hi);
      ProcScoped(p, r.1.scopes, g, hi);
    }
  }

  lemma ProcScoped(p: Proc, scopes: seq<Scope>, g: Env, hi: nat)
    requires |p.slots| == |p.sig.params| && WellFounded(scopes) && BuiltProc(p, scopes, 0, hi)
    requires scopes[0] == Scope(g, None)
    ensures ScopedBlock(p.body, scopes, ProcEnv(p, g))
  {
    hide BuiltStmts, ScopedStmt;
    StmtsScoped(p.body.stmts, scopes, p.body.table, p.body.table + 1, hi);
    var q, d := Parameters(p.sig.params, p.slots), Declared(p.body.stmts);
    assert EnvAt(scopes, 0) == g;
    assert g + (q + d) == (g + q) + d;
  }
}
