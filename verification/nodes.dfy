/** Desugaring as it happens: a traversal of linked nodes that rewrites the node it is visiting,
    moves its children below new nodes, and appends to the statement list of one of them before it
    goes on with what it finds there. */
module Nodes {
  import opened Types
  import opened Syntax
  import opened Expand

  datatype Kind =
    | KNum(kind: NumberKind, value: nat) | KStr(text: string) | KIdent(name: string)
    | KGrouping | KBinary(op: BinOp) | KUnary(uop: UnaryOp) | KCall | KAssign | KArray(elem: Type) | KIndex
    | KBlock | KVarDecl(ident: string, ty: Type) | KIf | KWhile | KFor(ident: string, ty: Type) | KReturn
    | KProc(name: string, sig: Signature)

  /** What a node and everything below it stand for; the children are in the order of the visits. */
  datatype Tree = Tree(kind: Kind, kids: seq<Tree>)

  predicate Shaped(t: Tree)
    decreases t
  {
    (t.kind.KIndex? || t.kind.KAssign? ==> |t.kids| == 2) &&
    (t.kind.KFor? ==> |t.kids| == 4 && t.kids[3].kind.KBlock?) &&
    forall k | k in t.kids :: Shaped(k)
  }

  /** A bound for the nodes that are visited: sugar counts for what replaces it. */
  function Weight(t: Tree): (w: nat)
    ensures w >= 1
    decreases t, 1
  {
    (if t.kind.KFor? then 3 else if t.kind.KIndex? then 2 else 1) + WeightAll(t.kids)
  }

  function WeightAll(ts: seq<Tree>): nat
    decreases ts, 0
  {
    if ts == [] then 0 else Weight(ts[0]) + WeightAll(ts[1..])
  }

  lemma {:induction false} WeightConcat(s: seq<Tree>, t: seq<Tree>)
    ensures WeightAll(s + t) == WeightAll(s) + WeightAll(t)
    decreases |s|
  {
    if s == [] {
      assert s + t == t;
    } else {
      WeightConcat(s[1..], t);
      assert (s + t)[1..] == s[1..] + t;
    }
  }

  lemma {:induction false} KidWeighsLess(ts: seq<Tree>, i: nat)
    requires i < |ts|
    ensures Weight(ts[i]) <= WeightAll(ts)
    decreases i
  {
    if i > 0 {
      KidWeighsLess(ts[1..], i - 1);
    }
  }

  /** What the callback makes of the node it is called on. */
  function Rewritten(t: Tree): Tree
    requires Shaped(t)
  {
    match t.kind
    case KIndex => Tree(KUnary(Deref), [Tree(KBinary(Add), t.kids)])
    case KFor(x, ty) =>
      Tree(KBlock, [Tree(KVarDecl(x, ty), [t.kids[0]]),
                    Tree(KWhile, [t.kids[1], Tree(KBlock, t.kids[3].kids + [t.kids[2]])])])
    case _ => t
  }

  lemma RewrittenShaped(t: Tree)
    requires Shaped(t)
    ensures Shaped(Rewritten(t))
  {
    if t.kind.KFor? {
      assert t.kids[0] in t.kids && t.kids[1] in t.kids && t.kids[2] in t.kids && t.kids[3] in t.kids;
    }
  }

  lemma RewrittenFor(t: Tree)
    requires Shaped(t) && t.kind.KFor?
    ensures var a, c, u, b := t.kids[0], t.kids[1], t.kids[2], t.kids[3];
            Rewritten(t) ==
            Tree(KBlock, [Tree(KVarDecl(t.kind.ident, t.kind.ty), [a]), Tree(KWhile, [c, b.(kids := b.kids + [u])])])
  {
  }

  lemma OneWeight(t: Tree)
    ensures WeightAll([t]) == Weight(t)
  {
  }

  /** Rewriting does not add weight, so the traversal ends. */
  lemma RewrittenWeight(t: Tree)
    requires Shaped(t)
    ensures Weight(Rewritten(t)) == Weight(t)
  {
    match t.kind
    case KIndex => OneWeight(Tree(KBinary(Add), t.kids));
    case KFor(x, ty) =>
      var a, b, c, d := t.kids[0], t.kids[1], t.kids[2], t.kids[3];
      assert t.kids == [a] + ([b] + ([c] + [d]));
      WeightConcat([a], [b] + ([c] + [d]));
      WeightConcat([b], [c] + [d]);
      WeightConcat([c], [d]);
      OneWeight(a);
      OneWeight(b);
      OneWeight(c);
      OneWeight(d);
      var body := Tree(KBlock, d.kids + [c]);
      WeightConcat(d.kids, [c]);
      var decl, loop := Tree(KVarDecl(x, ty), [a]), Tree(KWhile, [b, body]);
      assert loop.kids == [b] + [body];
      WeightConcat([b], [body]);
      OneWeight(body);
      OneWeight(decl);
      OneWeight(loop);
      assert Rewritten(t).kids == [decl] + [loop];
      WeightConcat([decl], [loop]);
    case _ =>
  }

  /** The first child of an assignment is its target, which is not visited. */
  function FirstVisited(k: Kind): nat {
    if k.KAssign? then 1 else 0
  }

  /** The whole traversal: rewrite, then visit the children that are there now. */
  function Expanded(t: Tree): Tree
    requires Shaped(t)
    decreases Weight(t), 0
  {
    RewrittenWeight(t);
    RewrittenShaped(t);
    var r := Rewritten(t);
    Tree(r.kind, ExpandedKids(r.kids, FirstVisited(r.kind)))
  }

  function ExpandedKids(ts: seq<Tree>, skip: nat): (r: seq<Tree>)
    requires forall k | k in ts :: Shaped(k)
    ensures |r| == |ts|
    decreases WeightAll(ts), 1
  {
    if ts == [] then []
    else if skip > 0 then [ts[0]] + ExpandedKids(ts[1..], skip - 1)
    else [Expanded(ts[0])] + ExpandedKids(ts[1..], 0)
  }

  lemma {:induction false} ExpandedAt(ts: seq<Tree>, skip: nat, i: nat)
    requires (forall k | k in ts :: Shaped(k)) && i < |ts|
    ensures ExpandedKids(ts, skip)[i] == if i < skip then ts[i] else Expanded(ts[i])
    decreases i
  {
    if i > 0 {
      ExpandedAt(ts[1..], if skip > 0 then skip - 1 else 0, i - 1);
    }
  }

  class Node {
    var kind: Kind
    var kids: seq<Node>
    ghost var repr: set<Node>

    constructor (kind: Kind, kids: seq<Node>, ghost repr: set<Node>)
      ensures this.kind == kind && this.kids == kids && this.repr == repr + {this}
    {
      this.kind, this.kids := kind, kids;
      this.repr := repr + {this};
    }
  }

  /** The children have their nodes for themselves. */
  ghost predicate Sealed(n: Node)
    reads n, n.repr
  {
    n in n.repr &&
    (forall i :: 0 <= i < |n.kids| ==> n.kids[i] in n.repr && n.kids[i].repr <= n.repr && n !in n.kids[i].repr) &&
    forall i, j :: 0 <= i < j < |n.kids| ==> n.kids[i].repr !! n.kids[j].repr
  }

  /** The nodes from n on form the tree t, and no node is shared. */
  ghost predicate Shows(n: Node, t: Tree)
    reads n, n.repr
    decreases t
  {
    n.kind == t.kind && |n.kids| == |t.kids| && Sealed(n) &&
    forall i :: 0 <= i < |n.kids| ==> Shows(n.kids[i], t.kids[i])
  }

  /** Turns an index node into a dereference, in place. */
  method IndexPre(n: Node, ghost t: Tree)
    requires Shows(n, t) && Shaped(t) && t.kind.KIndex?
    modifies n
    ensures Shows(n, Rewritten(t)) && fresh(n.repr - old(n.repr)) && old(n.repr) <= n.repr
  {
    var binop := new Node(KBinary(Add), n.kids, n.repr - {n});
    assert Shows(binop, Tree(KBinary(Add), t.kids));
    n.kind := KUnary(Deref);
    n.kids := [binop];
    n.repr := n.repr + {binop};
    assert Shows(binop, Tree(KBinary(Add), t.kids));
  }

  lemma ShowsTop(n: Node, t: Tree)
    requires Shows(n, t)
    ensures n.kind == t.kind && |n.kids| == |t.kids|
  {
  }

  lemma ShowsKid(n: Node, t: Tree, i: nat)
    requires Shows(n, t) && i < |t.kids|
    ensures i < |n.kids| && Shows(n.kids[i], t.kids[i])
    ensures n.kids[i] in n.kids[i].repr && n.kids[i].repr <= n.repr && n in n.repr && n !in n.kids[i].repr
  {
  }

  lemma KidsApart(n: Node, t: Tree, i: nat, j: nat)
    requires Shows(n, t) && i < j < |t.kids|
    ensures j < |n.kids| && n.kids[i].repr !! n.kids[j].repr
  {
  }

  lemma SealedTwo(n: Node, k: Node, l: Node)
    requires n.kids == [k, l] && n in n.repr && n !in k.repr && n !in l.repr
    requires k in k.repr && k.repr <= n.repr && l in l.repr && l.repr <= n.repr && k.repr !! l.repr
    ensures Sealed(n)
  {
  }

  lemma ShowsTwo(n: Node, t: Tree, k: Node, l: Node)
    requires n.kind == t.kind && n.kids == [k, l] && |t.kids| == 2 && Shows(k, t.kids[0]) && Shows(l, t.kids[1])
    requires k in k.repr && k.repr <= n.repr && l in l.repr && l.repr <= n.repr && k.repr !! l.repr
    requires n in n.repr && n !in k.repr && n !in l.repr
    ensures Shows(n, t)
  {
    SealedTwo(n, k, l);
    hide Sealed;
    forall i | 0 <= i < |n.kids| ensures Shows(n.kids[i], t.kids[i]) {
      assert i == 0 || i == 1;
    }
  }

  /** Appends a child to the list of a node. */
  method Append(n: Node, kid: Node, ghost t: Tree, ghost k: Tree)
    requires Shows(n, t) && Shows(kid, k) && n.repr !! kid.repr
    modifies n
    ensures Shows(n, t.(kids := t.kids + [k])) && n.repr == old(n.repr) + kid.repr
  {
    n.kids := n.kids + [kid];
    n.repr := n.repr + kid.repr;
  }

  method NewOne(kind: Kind, kid: Node, ghost k: Tree) returns (n: Node)
    requires Shows(kid, k)
    ensures fresh(n) && Shows(n, Tree(kind, [k])) && n.repr == {n} + kid.repr
  {
    n := new Node(kind, [kid], kid.repr);
  }

  method NewTwo(kind: Kind, kid: Node, lid: Node, ghost k: Tree, ghost l: Tree) returns (n: Node)
    requires Shows(kid, k) && Shows(lid, l) && kid.repr !! lid.repr
    ensures fresh(n) && n.kids == [kid, lid] && Shows(n, Tree(kind, [k, l])) && n.repr == {n} + kid.repr + lid.repr
  {
    n := new Node(kind, [kid, lid], kid.repr + lid.repr);
    ShowsTwo(n, Tree(kind, [k, l]), kid, lid);
  }

  /** Appends a child to the list of the second child of a node. */
  method AppendBelow(n: Node, kid: Node, ghost a: Tree, ghost b: Tree, ghost k: Tree)
    requires |n.kids| == 2 && Shows(n, Tree(n.kind, [a, b])) && Shows(kid, k) && n.repr !! kid.repr
    modifies n, n.kids[1]
    ensures n.kind == old(n.kind) && Shows(n, Tree(n.kind, [a, b.(kids := b.kids + [k])])) &&
            n.repr == old(n.repr) + kid.repr
  {
    var first, second := n.kids[0], n.kids[1];
    assert first.repr <= n.repr && second.repr <= n.repr;
    Append(second, kid, b, k);
    n.repr := n.repr + kid.repr;
    ShowsTwo(n, Tree(n.kind, [a, b.(kids := b.kids + [k])]), first, second);
  }

  ghost method Regrown(n: Node, t: Tree, k: Node, l: Node)
    requires n.kind == t.kind && n.kids == [k, l] && |t.kids| == 2 && Shows(k, t.kids[0]) && Shows(l, t.kids[1])
    requires k.repr !! l.repr && n in n.repr && n !in k.repr && n !in l.repr
    modifies n`repr
    ensures Shows(n, t) && n.repr == old(n.repr) + k.repr + l.repr
  {
    n.repr := n.repr + k.repr + l.repr;
    ShowsTwo(n, t, k, l);
  }

  /** Puts a declaration and a loop below the node; the update is left over. */
  method Wrap(n: Node, ghost t: Tree) returns (while_: Node, update: Node)
    requires Shows(n, t) && Shaped(t) && t.kind.KFor?
    modifies n
    ensures n.kind == KBlock && |n.kids| == 2 && n.kids[1] == while_ && fresh(n.kids[0]) && fresh(while_)
    ensures |while_.kids| == 2 && while_.kids[1] == old(n.kids[3]) && while_.kind == KWhile
    ensures Shows(n.kids[0], Tree(KVarDecl(t.kind.ident, t.kind.ty), [t.kids[0]]))
    ensures Shows(while_, Tree(KWhile, [t.kids[1], t.kids[3]])) && Shows(update, t.kids[2])
    ensures n.kids[0].repr !! while_.repr && n.kids[0].repr !! update.repr && while_.repr !! update.repr
    ensures n !in n.kids[0].repr && n !in while_.repr && n !in update.repr && update.repr <= old(n.repr)
    ensures fresh(n.kids[0].repr + while_.repr - old(n.repr)) && n in n.repr && n.repr == old(n.repr)
  {
    ShowsTop(n, t);
    hide Shaped, Shows, Sealed;
    var start, cond, body := n.kids[0], n.kids[1], n.kids[3];
    update := n.kids[2];
    ShowsKid(n, t, 0);
    ShowsKid(n, t, 1);
    ShowsKid(n, t, 2);
    ShowsKid(n, t, 3);
    KidsApart(n, t, 0, 1);
    KidsApart(n, t, 0, 2);
    KidsApart(n, t, 0, 3);
    KidsApart(n, t, 1, 2);
    KidsApart(n, t, 1, 3);
    KidsApart(n, t, 2, 3);
    var vardecl := NewOne(KVarDecl(n.kind.ident, n.kind.ty), start, t.kids[0]);
    while_ := NewTwo(KWhile, cond, body, t.kids[1], t.kids[3]);
    n.kind := KBlock;
    n.kids := [vardecl, while_];
  }

  /** Turns a for node into a block, in place; the update goes behind the statements of the body. */
  method ForPre(n: Node, ghost t: Tree)
    requires Shows(n, t) && Shaped(t) && t.kind.KFor?
    modifies n, n.kids[3]
    ensures Shows(n, Rewritten(t)) && fresh(n.repr - old(n.repr)) && old(n.repr) <= n.repr
  {
    RewrittenFor(t);
    ShowsTop(n, t);
    ShowsKid(n, t, 3);
    hide Shaped, Shows, Sealed, Rewritten;
    var while_, update := Wrap(n, t);
    AppendBelow(while_, update, t.kids[1], t.kids[3], t.kids[2]);
    Regrown(n, Rewritten(t), n.kids[0], while_);
  }

  /** The callback: it acts on for and index nodes only. */
  method Pre(n: Node, ghost t: Tree)
    requires Shows(n, t) && Shaped(t)
    modifies n.repr
    ensures Shows(n, Rewritten(t)) && fresh(n.repr - old(n.repr)) && old(n.repr) <= n.repr
  {
    ShowsTop(n, t);
    assert n in n.repr;
    if n.kind.KFor? {
      ShowsKid(n, t, 3);
      ForPre(n, t);
    } else if n.kind.KIndex? {
      IndexPre(n, t);
    }
  }

  method Traverse(n: Node, ghost t: Tree)
    requires Shows(n, t) && Shaped(t)
    modifies n.repr
    ensures Shows(n, Expanded(t)) && fresh(n.repr - old(n.repr)) && old(n.repr) <= n.repr
    decreases Weight(t), 1
  {
    RewrittenShaped(t);
    RewrittenWeight(t);
    hide Shows, Sealed, Shaped, Expanded, ExpandedKids, Rewritten, Weight;
    Pre(n, t);
    VisitKids(n, Rewritten(t));
    ExpandedIs(t);
  }

  /** The children of a node as the callback has left it, after their visits. */
  ghost function Visited(r: Tree): (ts: seq<Tree>)
    requires Shaped(r)
    ensures |ts| == |r.kids|
  {
    ExpandedKids(r.kids, FirstVisited(r.kind))
  }

  lemma VisitedAt(r: Tree, i: nat)
    requires Shaped(r) && FirstVisited(r.kind) <= i < |r.kids|
    ensures Shaped(r.kids[i]) && Weight(r.kids[i]) < Weight(r)
    ensures Visited(r)[i] == Expanded(r.kids[i])
    ensures var now := Halfway(Visited(r), r.kids, i);
            |now| == |r.kids| && now[i] == r.kids[i] && now[i := Expanded(now[i])] == Halfway(Visited(r), r.kids, i + 1)
  {
    hide Expanded, ExpandedKids, Weight;
    KidIsSmaller(r, i);
    ExpandedAt(r.kids, FirstVisited(r.kind), i);
    Replaced(Visited(r), r.kids, i);
  }

  lemma VisitedEnds(r: Tree)
    requires Shaped(r)
    ensures FirstVisited(r.kind) <= |r.kids|
    ensures r.kids == Halfway(Visited(r), r.kids, FirstVisited(r.kind))
    ensures Visited(r) == Halfway(Visited(r), r.kids, |r.kids|)
  {
    hide Expanded, ExpandedKids;
    SkipsTarget(r);
    Unvisited(r.kids, FirstVisited(r.kind));
    AllReplaced(Visited(r), r.kids);
  }

  /** The loop over the children. */
  method VisitKids(n: Node, ghost r: Tree)
    requires Shows(n, r) && Shaped(r)
    modifies n.repr
    ensures Shows(n, Tree(r.kind, Visited(r)))
    ensures fresh(n.repr - old(n.repr)) && old(n.repr) <= n.repr
    decreases Weight(r), 0
  {
    hide Shows, Sealed, Shaped, Expanded, ExpandedKids, Weight, Halfway, FirstVisited, Visited;
    ShowsTop(n, r);
    VisitedEnds(r);
    var size := |n.kids|;
    var first := FirstVisited(n.kind);
    for i := first to size
      invariant Shows(n, Tree(r.kind, Halfway(Visited(r), r.kids, i)))
      invariant fresh(n.repr - old(n.repr)) && old(n.repr) <= n.repr
    {
      VisitedAt(r, i);
      VisitKid(n, Tree(r.kind, Halfway(Visited(r), r.kids, i)), i);
    }
  }

  lemma SkipsTarget(r: Tree)
    requires Shaped(r)
    ensures FirstVisited(r.kind) <= |r.kids|
  {
  }

  lemma ExpandedIs(t: Tree)
    requires Shaped(t) && Shaped(Rewritten(t))
    ensures Expanded(t) == Tree(Rewritten(t).kind, ExpandedKids(Rewritten(t).kids, FirstVisited(Rewritten(t).kind)))
  {
  }

  lemma KidIsSmaller(r: Tree, i: nat)
    requires Shaped(r) && i < |r.kids|
    ensures Shaped(r.kids[i]) && Weight(r.kids[i]) < Weight(r)
  {
    KidWeighsLess(r.kids, i);
    assert r.kids[i] in r.kids;
  }

  /** The children when the first i of them have been visited. */
  ghost function Halfway(whole: seq<Tree>, kids: seq<Tree>, i: nat): seq<Tree>
    requires i <= |whole| == |kids|
  {
    whole[..i] + kids[i..]
  }

  lemma Replaced(whole: seq<Tree>, kids: seq<Tree>, i: nat)
    requires i < |whole| == |kids|
    ensures var now := Halfway(whole, kids, i);
            |now| == |kids| && now[i] == kids[i] && now[i := whole[i]] == Halfway(whole, kids, i + 1)
  {
  }

  lemma AllReplaced(whole: seq<Tree>, kids: seq<Tree>)
    requires |whole| == |kids|
    ensures Halfway(whole, kids, |kids|) == whole
  {
  }

  lemma Unvisited(ts: seq<Tree>, skip: nat)
    requires (forall k | k in ts :: Shaped(k)) && skip <= |ts|
    ensures ts == Halfway(ExpandedKids(ts, skip), ts, skip)
  {
    hide ExpandedKids, Shaped;
    forall i | 0 <= i < skip ensures ExpandedKids(ts, skip)[i] == ts[i] {
      ExpandedAt(ts, skip, i);
    }
  }

  method VisitKid(n: Node, ghost t: Tree, i: nat)
    requires Shows(n, t) && i < |t.kids| && Shaped(t.kids[i])
    modifies n.repr
    ensures Shows(n, t.(kids := t.kids[i := Expanded(t.kids[i])])) && fresh(n.repr - old(n.repr)) &&
            old(n.repr) <= n.repr
    ensures n.kind == old(n.kind)
    decreases Weight(t.kids[i]), 2
  {
    var kid := n.kids[i];
    Traverse(kid, t.kids[i]);
    n.repr := n.repr + kid.repr;
  }
}
