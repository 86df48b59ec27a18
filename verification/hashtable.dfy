/** The separate-chaining hash table behind every scope. */
module HashTables {
  import opened Types
  import opened Syntax

  /** The characters, each weighted by its position. */
  function HashSum(key: string): nat {
    if key == [] then 0 else HashSum(key[..|key| - 1]) + key[|key| - 1] as nat * (|key| - 1)
  }

  function Hash(size: nat, key: string): (h: nat)
    requires size > 0
    ensures h < size
  {
    HashSum(key) % size
  }

  function CharTotal(key: string): nat {
    if key == [] then 0 else key[0] as nat + CharTotal(key[1..])
  }

  lemma HashLast(key: string, c: char)
    ensures HashSum(key + [c]) == HashSum(key) + c as nat * |key|
  {
    assert (key + [c])[..|key|] == key;
  }

  lemma Weights(a: nat, n: nat, t: nat, c: nat, x: nat, y: nat)
    ensures x + y + a * t + c * (a + n) == x + (y + c * n) + a * (t + c)
  {
    assert a * (t + c) == a * t + a * c && c * (a + n) == a * c + c * n;
  }

  /** The sum of a concatenation: the characters of the second part weigh as much more as the first
      part is long. */
  lemma {:induction false} HashConcat(a: string, b: string)
    ensures HashSum(a + b) == HashSum(a) + HashSum(b) + |a| * CharTotal(b)
    decreases |b|
  {
    if b == [] {
      assert a + b == a;
    } else {
      hide HashSum, CharTotal;
      var front, last := b[..|b| - 1], b[|b| - 1];
      HashConcat(a, front);
      TotalLast(b);
      HashLast(a + front, last);
      HashLast(front, last);
      Regrouped(a, front, last, b);
      Weights(|a|, |front|, CharTotal(front), last as nat, HashSum(a), HashSum(front));
    }
  }

  lemma Regrouped(a: string, front: string, last: char, b: string)
    requires b == front + [last]
    ensures a + front + [last] == a + b && |a + front| == |a| + |front|
  {
  }

  /** A single character weighs nothing. */
  lemma HashSingle(c: char)
    ensures HashSum([c]) == 0
  {
    HashLast([], c);
    assert [] + [c] == [c];
  }

  lemma {:induction false} TotalLast(b: string)
    requires b != []
    ensures CharTotal(b) == CharTotal(b[..|b| - 1]) + b[|b| - 1] as nat
    decreases |b|
  {
    if |b| > 1 {
      TotalLast(b[1..]);
      assert b[1..][..|b| - 2] == b[..|b| - 1][1..];
    }
  }

  method ComputeHash(size: nat, key: string) returns (h: nat)
    requires size > 0
    ensures h == Hash(size, key)
  {
    var sum := 0;
    for i := 0 to |key|
      invariant sum == HashSum(key[..i])
    {
      assert key[..i + 1][..i] == key[..i];
      sum := sum + key[i] as nat * i;
    }
    assert key[..|key|] == key;
    h := sum % size;
  }

  class Entry {
    const key: string
    const value: Symbol
    var next: Entry?

    constructor (key: string, value: Symbol)
      ensures this.key == key && this.value == value && next == null
    {
      this.key, this.value, this.next := key, value, null;
    }
  }

  /** The entries reached from `first` by following the links. */
  ghost predicate Linked(first: Entry?, c: seq<Entry>)
    reads c
  {
    first == (if c == [] then null else c[0]) &&
    forall j :: 0 <= j < |c| ==> c[j].next == NextIn(c, j)
  }

  ghost function NextIn(c: seq<Entry>, j: nat): Entry? {
    if j + 1 < |c| then c[j + 1] else null
  }

  ghost predicate HasKey(c: seq<Entry>, x: string) {
    exists j :: 0 <= j < |c| && c[j].key == x
  }

  /** The keys of a bucket all hash to it, and no key occurs twice. */
  ghost predicate Hashed(c: seq<Entry>, i: nat, size: nat)
    requires size > 0
  {
    (forall j :: 0 <= j < |c| ==> Hash(size, c[j].key) == i) &&
    (forall j, k :: 0 <= j < k < |c| ==> c[j].key != c[k].key)
  }

  ghost predicate Owned(c: seq<Entry>, nodes: set<Entry>) {
    forall j :: 0 <= j < |c| ==> c[j] in nodes
  }

  /** The entries of a bucket agree with the table as a map. */
  ghost predicate Listed(c: seq<Entry>, m: Env) {
    forall j :: 0 <= j < |c| ==> c[j].key in m && m[c[j].key] == c[j].value
  }

  /** What the buckets say, apart from the links. */
  ghost predicate Sound(chains: seq<seq<Entry>>, nodes: set<Entry>, m: Env) {
    |chains| > 0 &&
    (forall i :: 0 <= i < |chains| ==>
      Owned(chains[i], nodes) && Hashed(chains[i], i, |chains|) &&
      Listed(chains[i], m)) &&
    (forall x :: x in m ==> HasKey(chains[Hash(|chains|, x)], x))
  }

  lemma LongerChain(c: seq<Entry>, e: Entry, i: nat, size: nat, m: Env)
    requires size > 0 && Hashed(c, i, size) && Listed(c, m) && Hash(size, e.key) == i && e.key !in m
    ensures Hashed(c + [e], i, size) && Listed(c + [e], map[e.key := e.value] + m)
  {
    hide Hash;
  }

  lemma SoundMore(chains: seq<seq<Entry>>, nodes: set<Entry>, m: Env, e: Entry, index: nat)
    requires Sound(chains, nodes, m) && index == Hash(|chains|, e.key) && e.key !in m
    ensures Sound(chains[index := chains[index] + [e]], nodes + {e}, map[e.key := e.value] + m)
  {
    hide Hash;
    var c, longer := chains[index], chains[index := chains[index] + [e]];
    LongerChain(c, e, index, |chains|, m);
    forall i | 0 <= i < |longer|
      ensures Owned(longer[i], nodes + {e}) && Hashed(longer[i], i, |longer|) &&
              Listed(longer[i], map[e.key := e.value] + m)
    {
      assert Owned(chains[i], nodes) && Hashed(chains[i], i, |chains|) && Listed(chains[i], m);
    }
    forall x | x in m || x == e.key ensures HasKey(longer[Hash(|longer|, x)], x) {
      if x == e.key {
        assert (c + [e])[|c|] == e;
      } else if Hash(|longer|, x) == index {
        KeyStays(c, e, x);
      }
    }
  }

  lemma SoundOwns(chains: seq<seq<Entry>>, nodes: set<Entry>, m: Env)
    requires Sound(chains, nodes, m)
    ensures forall i :: 0 <= i < |chains| ==> Owned(chains[i], nodes)
  {
    hide Hashed, Listed, HasKey, Owned;
  }

  lemma OtherChain(chains: seq<seq<Entry>>, nodes: set<Entry>, m: Env, i: nat, j: nat)
    requires Sound(chains, nodes, m) && i < |chains| && j < |chains| && i != j
    ensures forall e :: e in chains[i] ==> e !in chains[j]
  {
    hide Hash;
    assert Hashed(chains[i], i, |chains|) && Hashed(chains[j], j, |chains|);
  }

  lemma ChainDistinct(chains: seq<seq<Entry>>, nodes: set<Entry>, m: Env, i: nat)
    requires Sound(chains, nodes, m) && i < |chains|
    ensures forall j, k :: 0 <= j < k < |chains[i]| ==> chains[i][j] != chains[i][k]
  {
    assert Hashed(chains[i], i, |chains|);
  }

  lemma LinkedLonger(c: seq<Entry>, e: Entry, last: Entry?)
    requires forall j, k :: 0 <= j < k < |c| ==> c[j] != c[k]
    requires last == if c == [] then null else c[|c| - 1]
    requires forall j :: 0 <= j < |c| && c[j] != last ==> c[j].next == NextIn(c, j)
    requires e.next == null && (last != null ==> last.next == e)
    ensures Linked(if c == [] then e else c[0], c + [e])
  {
    var d := c + [e];
    forall j | 0 <= j < |d| ensures d[j].next == NextIn(d, j) {
      if j + 1 < |c| {
        assert d[j] == c[j] && c[j] != last;
      }
    }
  }

  /** All buckets are linked again once the last entry of one of them points to the new entry. */
  lemma Relinked(chains: seq<seq<Entry>>, nodes: set<Entry>, m: Env, e: Entry, last: Entry?, index: nat,
                 buckets: array<Entry?>)
    requires Sound(chains, nodes, m) && index < |chains| == buckets.Length
    requires last == if chains[index] == [] then null else chains[index][|chains[index]| - 1]
    requires forall i, j :: 0 <= i < |chains| && 0 <= j < |chains[i]| && chains[i][j] != last ==>
             chains[i][j].next == NextIn(chains[i], j)
    requires e.next == null && (last != null ==> last.next == e)
    requires forall i :: 0 <= i < |chains| ==>
               buckets[i] == if chains[i] != [] then chains[i][0] else if i == index then e else null
    ensures forall i :: 0 <= i < |chains| ==> Linked(buckets[i], chains[index := chains[index] + [e]][i])
  {
    hide Sound;
    forall i | 0 <= i < |chains| ensures Linked(buckets[i], chains[index := chains[index] + [e]][i]) {
      ChainDistinct(chains, nodes, m, i);
      if i == index {
        LinkedLonger(chains[i], e, last);
      } else {
        OtherChain(chains, nodes, m, index, i);
        assert last != null ==> last in chains[index];
        assert forall j :: 0 <= j < |chains[i]| ==> chains[i][j] in chains[i] && chains[i][j] != last;
      }
    }
  }

  lemma Absent(chains: seq<seq<Entry>>, nodes: set<Entry>, m: Env, x: string)
    requires Sound(chains, nodes, m)
    requires var c := chains[Hash(|chains|, x)]; forall k :: 0 <= k < |c| ==> c[k].key != x
    ensures x !in m
  {
    hide Hash;
  }

  lemma Present(chains: seq<seq<Entry>>, nodes: set<Entry>, m: Env, i: nat, j: nat)
    requires Sound(chains, nodes, m) && i < |chains| && j < |chains[i]|
    ensures chains[i][j].key in m && m[chains[i][j].key] == chains[i][j].value
  {
    assert Listed(chains[i], m);
  }

  lemma KeyStays(c: seq<Entry>, e: Entry, x: string)
    requires HasKey(c, x)
    ensures HasKey(c + [e], x)
  {
    var j :| 0 <= j < |c| && c[j].key == x;
    assert (c + [e])[j].key == x;
  }

  class Hashtable {
    const buckets: array<Entry?>
    const parent: Option<nat>
    ghost var chains: seq<seq<Entry>>
    ghost var nodes: set<Entry>
    ghost var contents: Env

    ghost predicate Valid()
      reads this, buckets, nodes
    {
      |chains| == buckets.Length > 0 && Sound(chains, nodes, contents) &&
      forall i :: 0 <= i < |chains| ==> Owned(chains[i], nodes) && Linked(buckets[i], chains[i])
    }

    constructor (size: nat, parent: Option<nat>)
      requires size > 0
      ensures Valid() && contents == map[] && this.parent == parent && nodes == {} && fresh(buckets)
    {
      this.parent := parent;
      buckets := new Entry?[size](_ => null);
      chains := seq(size, _ => []);
      nodes, contents := {}, map[];
    }

    /** Links a new entry behind the last one of its bucket. */
    /** How the entries hang together. */
    lemma Links()
      requires Valid()
      ensures forall i, j :: 0 <= i < |chains| && 0 <= j < |chains[i]| ==>
                               chains[i][j] in nodes && chains[i][j].next == NextIn(chains[i], j) &&
                               buckets[i] == chains[i][0]
      ensures forall i :: 0 <= i < |chains| && chains[i] == [] ==> buckets[i] == null
    {
      hide Sound;
      forall i | 0 <= i < |chains|
        ensures forall j :: 0 <= j < |chains[i]| ==>
                              chains[i][j] in nodes && chains[i][j].next == NextIn(chains[i], j) &&
                              buckets[i] == chains[i][0]
        ensures chains[i] == [] ==> buckets[i] == null
      {
        assert Owned(chains[i], nodes) && Linked(buckets[i], chains[i]);
      }
    }

    method Attach(index: nat, last: Entry?, key: string, value: Symbol)
      requires Valid() && index == Hash(|chains|, key) && key !in contents
      requires last == if chains[index] == [] then null else chains[index][|chains[index]| - 1]
      modifies this, buckets, nodes
      ensures Valid() && fresh(nodes - old(nodes))
      ensures contents == map[key := value] + old(contents)
    {
      hide Hash, Sound, HasKey, Hashed, Listed, Linked, Owned, NextIn;
      ghost var before, n0, m0 := chains, nodes, contents;
      Links();
      var e := new Entry(key, value);
      if last == null {
        buckets[index] := e;
      } else {
        last.next := e;
      }
      SoundMore(before, nodes, contents, e, index);
      chains, nodes, contents := chains[index := chains[index] + [e]], nodes + {e}, map[key := value] + contents;
      assert forall i, j :: 0 <= i < |before| && 0 <= j < |before[i]| && before[i][j] != last ==>
                              before[i][j].next == NextIn(before[i], j);
      Relinked(before, n0, m0, e, last, index, buckets);
      SoundOwns(chains, nodes, contents);
    }

    /** First insert wins: a key that is already there keeps its value. */
    method Insert(key: string, value: Symbol) returns (inserted: bool)
      requires Valid()
      modifies this, buckets, nodes
      ensures Valid() && fresh(nodes - old(nodes))
      ensures inserted <==> key !in old(contents)
      ensures contents == map[key := value] + old(contents)
    {
      hide Hash, Sound;
      var index := ComputeHash(buckets.Length, key);
      var current := buckets[index];
      ghost var c := chains[index];
      if current == null {
        Absent(chains, nodes, contents, key);
        Attach(index, null, key, value);
        return true;
      }
      ghost var j := 0;
      while true
        invariant 0 <= j < |c| && current == c[j]
        invariant forall k :: 0 <= k < j ==> c[k].key != key
        decreases |c| - j
      {
        if current.key == key {
          Present(chains, nodes, contents, index, j);
          assert map[key := value] + contents == contents;
          return false;
        }
        assert c[j].next == NextIn(c, j);
        if current.next == null {
          assert j + 1 == |c|;
          Absent(chains, nodes, contents, key);
          Attach(index, current, key, value);
          return true;
        }
        current := current.next;
        j := j + 1;
      }
    }

    method Get(key: string) returns (value: Option<Symbol>)
      requires Valid()
      ensures value == if key in contents then Some(contents[key]) else None
    {
      hide Hash, Sound;
      var index := ComputeHash(buckets.Length, key);
      var current := buckets[index];
      ghost var c := chains[index];
      ghost var j := 0;
      while current != null
        invariant 0 <= j <= |c| && current == if j < |c| then c[j] else null
        invariant forall k :: 0 <= k < j ==> c[k].key != key
        decreases |c| - j
      {
        if current.key == key {
          Present(chains, nodes, contents, index, j);
          return Some(current.value);
        }
        assert c[j].next == NextIn(c, j);
        current := current.next;
        j := j + 1;
      }
      Absent(chains, nodes, contents, key);
      value := None;
    }
  }
}
