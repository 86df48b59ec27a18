/** A whole program: where its procedures lie, and that names and labels resolve in it. */
module Linking {
  import opened Types
  import opened Words
  import opened Syntax
  import opened Typing
  import opened Machine
  import opened Emission
  import opened Semantics
  import opened Operators
  import opened Relation
  import opened Leaves
  import opened Control
  import opened Labels
  import opened Simulation

  lemma {:induction false} ParamsPlain(params: seq<Param>, slots: seq<nat>, i: nat, up: nat)
    requires |params| == |slots|
    ensures Plain(ParamsCode(params, slots, i, up))
    decreases |params|
  {
    if params != [] {
      ParamsPlain(params[1..], slots[1..], i + 1, if i < 6 then up else up + 8);
    }
  }

  /** A procedure's code: one procedure label in front, distinct local labels, and no jump out. */
  ghost predicate WellLabeled(c: Code, name: string) {
    c != [] && c[0] == GlobalLabel(name) &&
    (forall i :: 0 < i < |c| ==> !c[i].GlobalLabel?) &&
    (forall i, j :: 0 < i < |c| && 0 < j < |c| && c[i].LocalLabel? && c[i] == c[j] ==> i == j) &&
    (forall i :: 0 <= i < |c| && JumpLabel(c[i]).Some? ==> LocalLabel(JumpLabel(c[i]).value) in c)
  }

  lemma Assembled(name: string, y: Code, n: nat, hi: nat)
    requires Fresh(y, n, hi) && Closed(y)
    ensures WellLabeled([GlobalLabel(name)] + y + EPILOGUE, name)
  {
    var c, k := [GlobalLabel(name)] + y + EPILOGUE, 1 + |y|;
    assert forall i :: 0 <= i < |y| ==> c[1 + i] == y[i];
    assert c[k] == LocalLabel(ReturnLabel) && c[k + 1] == EPILOGUE[1] && c[k + 2] == EPILOGUE[2] &&
           c[k + 3] == EPILOGUE[3];
    forall i | 0 < i < |c|
      ensures !c[i].GlobalLabel?
      ensures c[i].LocalLabel? ==> i == k || (i < k && c[i] == y[i - 1])
      ensures JumpLabel(c[i]).Some? ==> i < k && c[i] == y[i - 1]
    {
    }
    assert forall l :: l in y ==> l in c;
  }

  lemma ProcWellLabeled(p: Proc, globals: Env, n: nat)
    requires |p.slots| == |p.sig.params|
    ensures WellLabeled(ProcCode(p, globals, n), p.name)
  {
    hide Fresh, Closed, BlockCode, ParamsCode, WellLabeled;
    var head, env := [Push(RBP), Mov(SubReg(RBP, 8), SubReg(RSP, 8)), SubRsp(p.stackSize)], ProcEnv(p, globals);
    var params, body := ParamsCode(p.sig.params, p.slots, 0, 16), BlockCode(p.body, env, n);
    ParamsPlain(p.sig.params, p.slots, 0, 16);
    PlainConcat(head, params);
    PlainIsFresh(head + params, n);
    BlockLabelsFresh(p.body, env, n);
    FreshConcat(head + params, n, n, body, n + BlockLabels(p.body));
    ClosedConcat(head + params, body);
    Assembled(p.name, head + params + body, n, n + BlockLabels(p.body));
    assert [GlobalLabel(p.name)] + (head + params + body) + EPILOGUE == ProcCode(p, globals, n);
  }

  /** What a piece of code may follow: nothing, or another procedure. */
  ghost predicate StartsProc(c: Code) {
    c == [] || c[0].GlobalLabel?
  }

  lemma RegionOf(code: Code, pre: Code, c: Code, post: Code, name: string)
    requires code == pre + c + post && WellLabeled(c, name) && StartsProc(post)
    ensures At(code, |pre|, c) && Region(code, |pre|, |pre| + |c|) && code[|pre|] == GlobalLabel(name)
  {
    assert code[|pre|..|pre| + |c|] == c;
    assert forall i :: 0 <= i < |c| ==> code[|pre| + i] == c[i];
    assert post != [] ==> code[|pre| + |c|] == post[0];
    forall i | |pre| < i < |pre| + |c| ensures code[i] == c[i - |pre|] {
    }
  }

  predicate Named(procs: seq<Proc>, x: string) {
    exists p :: p in procs && p.name == x
  }

  predicate DistinctNames(procs: seq<Proc>) {
    forall i, j :: 0 <= i < j < |procs| ==> procs[i].name != procs[j].name
  }

  /** The place of every procedure when the code of the list begins at position `at`. */
  function LinkMap(procs: seq<Proc>, globals: Env, n: nat, at: nat): map<string, nat>
    requires SlotsMatch(procs)
  {
    if procs == [] then map[]
    else
      LinkMap(procs[1..], globals, n + BlockLabels(procs[0].body),
              at + |ProcCode(procs[0], globals, n)|)[procs[0].name := at]
  }

  ghost predicate PlacedIn(code: Code, globals: Env, p: Proc, at: nat, n: nat)
    requires |p.slots| == |p.sig.params|
  {
    var c := ProcCode(p, globals, n);
    At(code, at, c) && Region(code, at, at + |c|) && WellLabeled(c, p.name)
  }

  lemma {:induction false} LinkKeys(procs: seq<Proc>, globals: Env, n: nat, at: nat)
    requires SlotsMatch(procs)
    ensures forall x :: x in LinkMap(procs, globals, n, at) <==> Named(procs, x)
    decreases |procs|
  {
    hide ProcCode;
    if procs != [] {
      LinkKeys(procs[1..], globals, n + BlockLabels(procs[0].body), at + |ProcCode(procs[0], globals, n)|);
      forall x ensures Named(procs, x) <==> x == procs[0].name || Named(procs[1..], x) {
        if Named(procs[1..], x) {
          var p :| p in procs[1..] && p.name == x;
          assert p in procs;
        }
        if Named(procs, x) && x != procs[0].name {
          var p :| p in procs && p.name == x;
          assert p in procs[1..];
        }
      }
    }
  }

  lemma {:induction false} ProgramStart(procs: seq<Proc>, globals: Env, n: nat, post: Code)
    requires SlotsMatch(procs) && StartsProc(post)
    ensures StartsProc(ProgramCode(procs, globals, n) + post)
  {
    if procs != [] {
      ProcWellLabeled(procs[0], globals, n);
    }
  }

  lemma Regroup(pre: Code, c: Code, rest: Code, post: Code)
    ensures pre + (c + rest) + post == pre + c + (rest + post) == (pre + c) + rest + post
  {
  }

  lemma HeadPlaced(code: Code, pre: Code, p: Proc, globals: Env, n: nat, post: Code)
    requires |p.slots| == |p.sig.params| && StartsProc(post)
    requires code == pre + ProcCode(p, globals, n) + post
    ensures PlacedIn(code, globals, p, |pre|, n)
  {
    hide ProcCode, WellLabeled, Region, At, StartsProc;
    ProcWellLabeled(p, globals, n);
    RegionOf(code, pre, ProcCode(p, globals, n), post, p.name);
  }

  /** Every procedure of the list lies where the link map says, and only there. */
  lemma {:induction false} ProgramPlaced(code: Code, pre: Code, procs: seq<Proc>, globals: Env, n: nat, post: Code,
                                         p: Proc)
    returns (k: nat)
    requires SlotsMatch(procs) && DistinctNames(procs) && p in procs && StartsProc(post)
    requires code == pre + ProgramCode(procs, globals, n) + post
    ensures p.name in LinkMap(procs, globals, n, |pre|)
    ensures PlacedIn(code, globals, p, LinkMap(procs, globals, n, |pre|)[p.name], k)
    decreases |procs|
  {
    hide ProcCode, WellLabeled, Region, At, PlacedIn, StartsProc, DistinctNames, Named;
    var c, m := ProcCode(procs[0], globals, n), n + BlockLabels(procs[0].body);
    var rest := ProgramCode(procs[1..], globals, m);
    FirstName(procs);
    Regroup(pre, c, rest, post);
    if p == procs[0] {
      k := n;
      ProgramStart(procs[1..], globals, m, post);
      HeadPlaced(code, pre, p, globals, n, rest + post);
    } else {
      assert p in procs[1..];
      k := ProgramPlaced(code, pre + c, procs[1..], globals, m, post, p);
      LinkKeys(procs[1..], globals, m, |pre + c|);
    }
  }

  /** A procedure label of the program code is the entry of the procedure of that name. */
  lemma {:induction false} OnlyEntries(procs: seq<Proc>, globals: Env, n: nat, at: nat, x: string, q: nat)
    requires SlotsMatch(procs) && DistinctNames(procs)
    requires q < |ProgramCode(procs, globals, n)| && ProgramCode(procs, globals, n)[q] == GlobalLabel(x)
    ensures x in LinkMap(procs, globals, n, at) && LinkMap(procs, globals, n, at)[x] == at + q
    decreases |procs|
  {
    hide ProcCode, WellLabeled, DistinctNames, Named;
    if procs != [] {
      var c, m := ProcCode(procs[0], globals, n), n + BlockLabels(procs[0].body);
      ProcWellLabeled(procs[0], globals, n);
      FirstName(procs);
      if q < |c| {
        HeadEntry(c, procs[0].name, x, q);
      } else {
        OnlyEntries(procs[1..], globals, m, at + |c|, x, q - |c|);
        LinkKeys(procs[1..], globals, m, at + |c|);
      }
    }
  }

  lemma HeadEntry(c: Code, name: string, x: string, q: nat)
    requires WellLabeled(c, name) && q < |c| && c[q] == GlobalLabel(x)
    ensures q == 0 && x == name
  {
  }

  lemma FirstName(procs: seq<Proc>)
    requires procs != [] && DistinctNames(procs)
    ensures !Named(procs[1..], procs[0].name) && DistinctNames(procs[1..])
  {
  }

  /** A program linked in front of some other code, as the world it runs in. */
  function Program(procs: seq<Proc>, post: Code, limit: nat): World
    requires SlotsMatch(procs)
    requires |ProgramCode(procs, GlobalEnv(procs), 0) + post| < TWO_64
    requires forall x :: x in LinkMap(procs, GlobalEnv(procs), 0, 0) ==>
             LinkMap(procs, GlobalEnv(procs), 0, 0)[x] < TWO_64
  {
    var g := GlobalEnv(procs);
    var places := LinkMap(procs, g, 0, 0);
    World(Ctx(procs, map x | x in places :: places[x], g, limit), ProgramCode(procs, g, 0) + post)
  }

  /** The code the program is linked with: whole procedures, none of which has a name of the program. */
  ghost predicate Foreign(post: Code, procs: seq<Proc>) {
    StartsProc(post) && forall i :: 0 <= i < |post| && post[i].GlobalLabel? ==> !Named(procs, post[i].name)
  }

  lemma LinkBounds(procs: seq<Proc>, post: Code)
    requires SlotsMatch(procs) && DistinctNames(procs) && StartsProc(post)
    requires |ProgramCode(procs, GlobalEnv(procs), 0) + post| < TWO_64
    ensures forall x :: x in LinkMap(procs, GlobalEnv(procs), 0, 0) ==>
            LinkMap(procs, GlobalEnv(procs), 0, 0)[x] < TWO_64
  {
    hide ProcCode, ProgramCode, LinkMap, Region;
    var g := GlobalEnv(procs);
    var code := ProgramCode(procs, g, 0) + post;
    forall x | x in LinkMap(procs, g, 0, 0) ensures LinkMap(procs, g, 0, 0)[x] < TWO_64 {
      LinkKeys(procs, g, 0, 0);
      var p :| p in procs && p.name == x;
      assert code == [] + ProgramCode(procs, g, 0) + post;
      var k := ProgramPlaced(code, [], procs, g, 0, post, p);
    }
  }

  /** A compiled program is linked: every procedure and every name is where the source expects it. */
  lemma ProgramLinked(procs: seq<Proc>, post: Code, limit: nat)
    requires SlotsMatch(procs) && DistinctNames(procs) && Foreign(post, procs)
    requires forall p | p in procs :: SupportedProc(p, GlobalEnv(procs))
    requires |ProgramCode(procs, GlobalEnv(procs), 0) + post| < TWO_64
    requires forall x :: x in LinkMap(procs, GlobalEnv(procs), 0, 0) ==>
             LinkMap(procs, GlobalEnv(procs), 0, 0)[x] < TWO_64
    ensures Linked(Program(procs, post, limit))
    ensures forall p | p in procs :: p.name in Program(procs, post, limit).c.link
  {
    hide ProcCode, ProgramCode, LinkMap, Region, At, SupportedProc, WellLabeled;
    var g := GlobalEnv(procs);
    var w := Program(procs, post, limit);
    LinkKeys(procs, g, 0, 0);
    assert w.code == [] + ProgramCode(procs, g, 0) + post;
    forall p | p in procs ensures p.name in w.c.link && exists n :: Placed(w, p, n) {
      var k := ProgramPlaced(w.code, [], procs, g, 0, post, p);
      assert Placed(w, p, k);
    }
    forall x | x in w.c.link ensures EntryPoint(w.code, x) == Some(w.c.link[x] as int) {
      EntryResolved(procs, g, post, x);
    }
  }

  /** The name of a procedure of the program resolves to the place the link map gives. */
  lemma EntryResolved(procs: seq<Proc>, g: Env, post: Code, x: string)
    requires SlotsMatch(procs) && DistinctNames(procs) && Foreign(post, procs) && Named(procs, x)
    ensures x in LinkMap(procs, g, 0, 0)
    ensures EntryPoint(ProgramCode(procs, g, 0) + post, x) == Some(LinkMap(procs, g, 0, 0)[x] as int)
  {
    hide ProcCode, ProgramCode, LinkMap, Region, At, WellLabeled;
    var code, k0 := ProgramCode(procs, g, 0) + post, |ProgramCode(procs, g, 0)|;
    assert code == [] + ProgramCode(procs, g, 0) + post;
    var p :| p in procs && p.name == x;
    var k := ProgramPlaced(code, [], procs, g, 0, post, p);
    EntryAt(code, p, g, LinkMap(procs, g, 0, 0)[x], k);
    assert forall i :: k0 <= i < |code| ==> code[i] == post[i - k0];
    forall q | IsEntry(code, x, q) ensures q == LinkMap(procs, g, 0, 0)[x] {
      if q < k0 {
        OnlyEntries(procs, g, 0, 0, x, q);
      }
    }
  }

  lemma EntryAt(code: Code, p: Proc, g: Env, at: nat, k: nat)
    requires |p.slots| == |p.sig.params| && PlacedIn(code, g, p, at, k)
    ensures IsEntry(code, p.name, at)
  {
    hide ProcCode, Region;
    var c := ProcCode(p, g, k);
    assert code[at] == code[at..at + |c|][0];
  }

  /** The numbered local labels of a piece of code lie in lo..hi, each defined at most once; return
      labels may be there besides. */
  ghost predicate Numbered(c: Code, lo: nat, hi: nat) {
    (forall i | 0 <= i < |c| :: c[i].LocalLabel? && c[i].label_ != ReturnLabel ==> lo <= c[i].label_.n < hi) &&
    forall i, j | 0 <= i < |c| && 0 <= j < |c| ::
      c[i].LocalLabel? && c[i].label_ != ReturnLabel && c[i] == c[j] ==> i == j
  }

  lemma NumberedConcat(c0: Code, lo: nat, mid: nat, c1: Code, hi: nat)
    requires Numbered(c0, lo, mid) && Numbered(c1, mid, hi) && lo <= mid <= hi
    ensures Numbered(c0 + c1, lo, hi)
  {
    var c := c0 + c1;
    forall i | 0 <= i < |c| ensures c[i] == if i < |c0| then c0[i] else c1[i - |c0|] {
    }
  }

  lemma ProcNumbered(p: Proc, globals: Env, n: nat)
    requires |p.slots| == |p.sig.params|
    ensures Numbered(ProcCode(p, globals, n), n, n + BlockLabels(p.body))
  {
    hide BlockCode, ParamsCode;
    var head, body := Prologue(p), BlockCode(p.body, ProcEnv(p, globals), n);
    ParamsPlain(p.sig.params, p.slots, 0, 16);
    BlockLabelsFresh(p.body, ProcEnv(p, globals), n);
    assert Numbered(head, n, n) && Numbered(body, n, n + BlockLabels(p.body));
    NumberedConcat(head, n, n, body, n + BlockLabels(p.body));
    NumberedConcat(head + body, n, n + BlockLabels(p.body), EPILOGUE, n + BlockLabels(p.body));
  }

  /** The labels a whole program uses up. */
  function ProgramLabels(procs: seq<Proc>): nat {
    if procs == [] then 0 else BlockLabels(procs[0].body) + ProgramLabels(procs[1..])
  }

  /** Labels are numbered once for the whole program: every label of a condition or a loop has a
      number of the program's range, and no two places of the code define the same one. */
  lemma {:induction false} ProgramNumbered(procs: seq<Proc>, globals: Env, n: nat)
    requires SlotsMatch(procs)
    ensures Numbered(ProgramCode(procs, globals, n), n, n + ProgramLabels(procs))
    decreases |procs|
  {
    hide ProcCode, Numbered;
    if procs == [] {
      NothingNumbered(n);
    } else {
      var k := n + BlockLabels(procs[0].body);
      ProcNumbered(procs[0], globals, n);
      ProgramNumbered(procs[1..], globals, k);
      NumberedConcat(ProcCode(procs[0], globals, n), n, k, ProgramCode(procs[1..], globals, k),
                     k + ProgramLabels(procs[1..]));
    }
  }

  lemma NothingNumbered(n: nat)
    ensures Numbered([], n, n)
  {
  }

  ghost predicate OnlyTarget(code: Code, pc: int, l: Label, q: int) {
    forall j :: IsTarget(code, pc, l, j) ==> j == q
  }

  /** Label resolution: a jump of any procedure of the program has exactly one target, and it lies
      in the code of the same procedure. */
  lemma JumpsResolve(procs: seq<Proc>, globals: Env, post: Code, p: Proc, i: nat) returns (k: nat, q: nat)
    requires SlotsMatch(procs) && DistinctNames(procs) && p in procs && StartsProc(post)
    ensures p.name in LinkMap(procs, globals, 0, 0)
    ensures var code, at, c := ProgramCode(procs, globals, 0) + post, LinkMap(procs, globals, 0, 0)[p.name],
            ProcCode(p, globals, k);
            At(code, at, c) &&
            (i < |c| && JumpLabel(c[i]).Some? ==>
               at < q < at + |c| && JumpTarget(code, at + i, JumpLabel(c[i]).value) == Some(q as int) &&
               OnlyTarget(code, at + i, JumpLabel(c[i]).value, q))
  {
    hide ProcCode, ProgramCode, LinkMap;
    var code := ProgramCode(procs, globals, 0) + post;
    assert code == [] + ProgramCode(procs, globals, 0) + post;
    k := ProgramPlaced(code, [], procs, globals, 0, post, p);
    q := 0;
    var at, c := LinkMap(procs, globals, 0, 0)[p.name], ProcCode(p, globals, k);
    if i < |c| && JumpLabel(c[i]).Some? {
      q := JumpInside(code, at, c, p.name, i);
    }
  }

  lemma JumpInside(code: Code, at: nat, c: Code, name: string, i: nat) returns (q: nat)
    requires At(code, at, c) && Region(code, at, at + |c|) && WellLabeled(c, name)
    requires i < |c| && JumpLabel(c[i]).Some?
    ensures at < q < at + |c| && JumpTarget(code, at + i, JumpLabel(c[i]).value) == Some(q as int)
    ensures OnlyTarget(code, at + i, JumpLabel(c[i]).value, q)
  {
    hide Region, IsTarget;
    var l := JumpLabel(c[i]).value;
    var j := LabelPlace(c, name, i);
    q := at + j;
    assert code[at..at + |c|][i] == c[i] && code[at..at + |c|][j] == c[j];
    JumpResolves(code, at, at + |c|, at + i, q, l);
    var pc := at + i;
    forall r | IsTarget(code, pc, l, r) ensures r == q {
      OneTarget(code, at, at + |c|, pc, q, l, r);
    }
  }

  lemma LabelPlace(c: Code, name: string, i: nat) returns (j: nat)
    requires WellLabeled(c, name) && i < |c| && JumpLabel(c[i]).Some?
    ensures 0 < i && 0 < j < |c| && c[j] == LocalLabel(JumpLabel(c[i]).value)
  {
    j :| 0 <= j < |c| && c[j] == LocalLabel(JumpLabel(c[i]).value);
  }
}
