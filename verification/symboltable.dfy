/** The symbol-table pass on its own state: the tables it creates, the innermost open one and the
    bytes of the current frame. Tables are numbered in the order of creation, and the number stands
    for the pointer that a block or a table keeps. */
module SymbolTables {
  import opened Types
  import opened Syntax
  import opened Typing
  import opened Layout
  import opened Scopes
  import opened HashTables

  const BUCKETS := 50

  /** A result for the rest of a list, put behind the items that are done. */
  ghost function Behind<T, U>(done: seq<T>, rest: (seq<T>, U)): (r: (seq<T>, U))
    ensures done == [] ==> r == rest
    ensures rest.0 == [] ==> r == (done, rest.1)
  {
    assert done == [] ==> done + rest.0 == rest.0;
    assert rest.0 == [] ==> done + rest.0 == done;
    (done + rest.0, rest.1)
  }

  lemma OneMore<T, U>(done: seq<T>, x: T, rest: (seq<T>, U))
    ensures Behind(done, ([x] + rest.0, rest.1)) == Behind(done + [x], rest)
  {
    assert done + ([x] + rest.0) == done + [x] + rest.0;
  }

  ghost predicate Apart(s: Hashtable, t: Hashtable)
    reads s, t
  {
    s != t && s.buckets != t.buckets && s.nodes !! t.nodes
  }

  class Symboltable {
    var stackSize: nat
    var head: Option<nat>
    var tables: seq<Hashtable>
    ghost var scopes: seq<Scope>
    ghost var repr: set<object>

    ghost predicate Owns(t: Hashtable)
      reads this`repr, repr
    {
      t in repr && t.buckets in repr && t.nodes <= repr
    }

    ghost predicate Shows(t: Hashtable, s: Scope)
      reads t
    {
      t.contents == s.entries && t.parent == s.parent
    }

    ghost predicate Valid()
      reads this`tables, this`scopes, this`repr, repr
    {
      this !in repr && |tables| == |scopes| &&
      (forall i :: 0 <= i < |tables| ==> Owns(tables[i]) && tables[i].Valid() && Shows(tables[i], scopes[i])) &&
      forall i, j :: 0 <= i < j < |tables| ==> Apart(tables[i], tables[j])
    }

    ghost predicate Open()
      reads this
    {
      head.Some? && head.value < |scopes|
    }

    /** The state of the pass, seen with table id open. */
    ghost function View(id: nat): Lay
      reads this
    {
      Lay(stackSize, scopes, id)
    }

    constructor ()
      ensures Valid() && stackSize == 0 && head == None && scopes == [] && fresh(repr)
    {
      stackSize, head, tables, scopes, repr := 0, None, [], [], {};
    }

    /** Follows the tables outwards until one of them has the name. */
    method Lookup(id: nat, key: string) returns (sym: Option<Symbol>)
      requires Valid() && WellFounded(scopes) && id < |scopes|
      ensures sym == Find(scopes, id, key)
    {
      var scope: Option<nat> := Some(id);
      sym := None;
      while scope.Some?
        invariant sym.None? && (scope.Some? ==> scope.value < |tables|)
        invariant Find(scopes, id, key) == if scope.Some? then Find(scopes, scope.value, key) else None
        decreases if scope.Some? then scope.value + 1 else 0
      {
        var t := tables[scope.value];
        assert Shows(t, scopes[scope.value]);
        sym := t.Get(key);
        if sym.Some? {
          return;
        }
        scope := t.parent;
      }
    }

    /** Opens a new table inside the open one. */
    method Push() returns (id: nat)
      requires Valid()
      modifies this
      ensures Valid() && fresh(repr - old(repr)) && old(repr) <= repr
      ensures id == |old(scopes)| && head == Some(id) && stackSize == old(stackSize)
      ensures scopes == old(scopes) + [Scope(map[], old(head))]
    {
      var t := new Hashtable(BUCKETS, head);
      id := |tables|;
      tables, scopes, repr := tables + [t], scopes + [Scope(map[], head)], repr + {t, t.buckets};
      head := Some(id);
    }

    /** Goes back to the table that was open when the open one was created. */
    method Pop()
      requires Valid() && Open()
      requires scopes[head.value].parent.Some? ==> scopes[head.value].parent.value < |scopes|
      modifies this`head
      ensures Valid() && head == scopes[old(head).value].parent
    {
      assert Shows(tables[head.value], scopes[head.value]);
      head := tables[head.value].parent;
    }

    /** Enters a symbol in table id, unless the name is there already. */
    method Define(id: nat, key: string, sym: Symbol)
      requires Valid() && id < |scopes|
      modifies this`scopes, this`repr, repr
      ensures Valid() && fresh(repr - old(repr)) && old(repr) <= repr
      ensures View(id) == old(View(id)).Insert(key, sym)
    {
      hide Hashtable.Valid;
      var t := tables[id];
      assert Owns(t) && Shows(t, scopes[id]);
      ghost var before := t.nodes;
      var _ := t.Insert(key, sym);
      scopes := scopes[id := Scope(t.contents, t.parent)];
      repr := repr + t.nodes;
      forall i | 0 <= i < |tables| ensures Owns(tables[i]) && tables[i].Valid() && Shows(tables[i], scopes[i]) {
        assert i < id ==> old(Apart(tables[i], tables[id]));
        assert id < i ==> old(Apart(tables[id], tables[i]));
        assert old(Owns(tables[i]) && tables[i].Valid() && Shows(tables[i], scopes[i]));
      }
      forall i, j | 0 <= i < j < |tables| ensures Apart(tables[i], tables[j]) {
        assert old(Apart(tables[i], tables[j]) && Owns(tables[i]) && Owns(tables[j]));
      }
    }

    method LayoutExpr(e: Expr) returns (r: Expr)
      modifies this`stackSize
      ensures (r, stackSize) == LayExpr(e, old(stackSize))
      decreases e
    {
      match e
      case Grouping(inner) =>
        var x := LayoutExpr(inner);
        r := Grouping(x);
      case Binary(op, lhs, rhs) =>
        var x := LayoutExpr(lhs);
        var y := LayoutExpr(rhs);
        r := Binary(op, x, y);
      case Unary(op, node) =>
        var x := LayoutExpr(node);
        r := Unary(op, x);
      case Call(callee, args) =>
        var f := LayoutExpr(callee);
        var xs := LayoutExprs(args);
        r := Call(f, xs);
      case Assign(target, v) =>
        var x := LayoutExpr(v);
        r := Assign(target, x);
      case Array(vs, elem, _) =>
        var size := Align16(Size(elem));
        var offset := stackSize + size;
        stackSize := stackSize + size * |vs| + size;
        var xs := LayoutExprs(vs);
        r := Array(xs, elem, offset);
      case Index(x, i) =>
        var y := LayoutExpr(x);
        var j := LayoutExpr(i);
        r := Index(y, j);
      case _ =>
        r := e;
    }

    method LayoutExprs(es: seq<Expr>) returns (rs: seq<Expr>)
      modifies this`stackSize
      ensures (rs, stackSize) == LayExprs(es, old(stackSize))
      decreases es
    {
      rs := [];
      assert es[0..] == es;
      for i := 0 to |es|
        invariant LayExprs(es, old(stackSize)) == Behind(rs, LayExprs(es[i..], stackSize))
      {
        assert es[i..][0] == es[i];
        var x := LayoutExpr(es[i]);
        assert es[i..][1..] == es[i + 1..];
        OneMore(rs, x, LayExprs(es[i + 1..], stackSize));
        rs := rs + [x];
      }
    }

    method LayoutOption(e: Option<Expr>) returns (r: Option<Expr>)
      modifies this`stackSize
      ensures (r, stackSize) == LayOption(e, old(stackSize))
    {
      r := None;
      if e.Some? {
        var x := LayoutExpr(e.value);
        r := Some(x);
      }
    }

    method LayoutStmt(s: Stmt) returns (r: Stmt)
      requires Valid() && Open()
      modifies this, repr
      ensures Valid() && fresh(repr - old(repr)) && old(repr) <= repr
      ensures head == old(head) && Open() && (r, View(head.value)) == LayStmt(s, old(View(head.value)))
      decreases s
    {
      hide LayExpr, LayBlock, LayOption;
      match s
      case ExprStmt(e) =>
        var x := LayoutExpr(e);
        r := ExprStmt(x);
      case BlockStmt(b) =>
        var x := LayoutBlock(b);
        r := BlockStmt(x);
      case VarDecl(x, ty, init, _) =>
        stackSize := stackSize + Align16(Size(ty));
        var offset := stackSize;
        Define(head.value, x, Variable(ty, offset));
        var e := LayoutOption(init);
        r := VarDecl(x, ty, e, offset);
      case If(cond, thn, els) =>
        var e := LayoutExpr(cond);
        var t := LayoutBlock(thn);
        if els.None? {
          r := If(e, t, None);
        } else {
          var f := LayoutBlock(els.value);
          r := If(e, t, Some(f));
        }
      case While(cond, body) =>
        var e := LayoutExpr(cond);
        var b := LayoutBlock(body);
        r := While(e, b);
      case Return(e) =>
        var x := LayoutOption(e);
        r := Return(x);
      case For(_, _, _, _, _, _, _, _) =>
        r := s;
    }

    method LayoutBlock(b: Block) returns (r: Block)
      requires Valid() && Open()
      modifies this, repr
      ensures Valid() && fresh(repr - old(repr)) && old(repr) <= repr
      ensures head == old(head) && Open() && (r, View(head.value)) == LayBlock(b, old(View(head.value)))
      decreases b
    {
      hide LayStmt, Valid;
      ghost var before := View(head.value);
      var id := Push();
      ghost var whole := LayStmts(b.stmts, before.Push());
      var stmts := [];
      assert b.stmts[0..] == b.stmts;
      for i := 0 to |b.stmts|
        invariant Valid() && fresh(repr - old(repr)) && old(repr) <= repr && head == Some(id) && Open()
        invariant whole == Behind(stmts, LayStmts(b.stmts[i..], View(id)))
      {
        var s := LayoutStmt(b.stmts[i]);
        assert b.stmts[i..][1..] == b.stmts[i + 1..];
        OneMore(stmts, s, LayStmts(b.stmts[i + 1..], View(id)));
        stmts := stmts + [s];
      }
      StmtsBuild(b.stmts, before.Push());
      Pop();
      r := Block(stmts, id);
    }

    /** Hands out the slot of a parameter and enters it in table id. */
    method LayoutParam(p: Param, id: nat) returns (slot: nat)
      requires Valid() && id < |scopes|
      modifies this`stackSize, this`scopes, this`repr, repr
      ensures Valid() && fresh(repr - old(repr)) && old(repr) <= repr
      ensures slot == old(stackSize) + Size(p.ty)
      ensures View(id) == old(View(id)).(size := slot).Insert(p.ident, Parameter(p.ty, slot))
    {
      stackSize := stackSize + Size(p.ty);
      slot := stackSize;
      Define(id, p.ident, Parameter(p.ty, slot));
    }

    method LayoutParams(params: seq<Param>, id: nat) returns (slots: seq<nat>)
      requires Valid() && id < |scopes|
      modifies this`stackSize, this`scopes, this`repr, repr
      ensures Valid() && fresh(repr - old(repr)) && old(repr) <= repr
      ensures (slots, View(id)) == LayParams(params, old(View(id)))
    {
      hide Valid;
      ghost var whole := LayParams(params, View(id));
      slots := [];
      assert params[0..] == params;
      for i := 0 to |params|
        invariant Valid() && fresh(repr - old(repr)) && old(repr) <= repr && id < |scopes|
        invariant whole == Behind(slots, LayParams(params[i..], View(id)))
      {
        assert params[i..][0] == params[i] && params[i..][1..] == params[i + 1..];
        var slot := LayoutParam(params[i], id);
        OneMore(slots, slot, LayParams(params[i + 1..], View(id)));
        slots := slots + [slot];
      }
    }

    method LayoutProc(p: Proc) returns (r: Proc)
      requires Valid() && Open()
      modifies this, repr
      ensures Valid() && fresh(repr - old(repr)) && old(repr) <= repr
      ensures head == old(head) && Open() && (r, View(head.value)) == LayProc(p, old(View(head.value)))
    {
      hide LayBlock, LayParams;
      Define(head.value, p.name, Routine(p.sig));
      stackSize := 0;
      var body := LayoutBlock(p.body);
      var slots := LayoutParams(p.sig.params, body.table);
      r := Proc(p.name, p.sig, body, slots, stackSize);
    }
  }

  /** The pass over a whole program: every node gets the offset, table and size, and every table the
      symbols, that the layout assigns. */
  method Build(procs: seq<Proc>) returns (laid: seq<Proc>, st: Symboltable)
    ensures st.Valid() && fresh(st) && fresh(st.repr)
    ensures laid == LayProgram(procs).0 && st.scopes == LayProgram(procs).1.scopes
  {
    hide LayProc, Symboltable.Valid;
    st := new Symboltable();
    var root := st.Push();
    laid := [];
    assert procs[0..] == procs && st.scopes == [Scope(map[], None)];
    for i := 0 to |procs|
      invariant st.Valid() && fresh(st) && fresh(st.repr) && st.head == Some(root) && st.Open()
      invariant LayProgram(procs) == Behind(laid, LayProcs(procs[i..], st.View(root)))
    {
      var p := st.LayoutProc(procs[i]);
      assert procs[i..][1..] == procs[i + 1..];
      OneMore(laid, p, LayProcs(procs[i + 1..], st.View(root)));
      laid := laid + [p];
    }
    ProcsBuild(procs, Lay(0, [Scope(map[], None)], 0));
    st.Pop();
  }
}
