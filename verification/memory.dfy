/** Byte-addressed little-endian memory. Addresses that a map does not mention read as zero, so a
    finite map describes every possible content of a 64-bit address space. */
module Memory {

  type byte = x: int | 0 <= x < 256
  type Mem = map<int, byte>

  function Pow256(n: nat): (r: int)
    ensures 0 < r
  {
    if n == 0 then 1 else 256 * Pow256(n - 1)
  }

  function Get(m: Mem, a: int): byte {
    if a in m then m[a] else 0
  }

  /** The n-byte little-endian number at address a. */
  function Load(m: Mem, a: int, n: nat): (v: nat)
    ensures v < Pow256(n)
    decreases n
  {
    if n == 0 then 0 else Get(m, a) + 256 * Load(m, a + 1, n - 1)
  }

  /** Writes the low n bytes of v at address a. */
  function Store(m: Mem, a: int, n: nat, v: nat): Mem
    decreases n
  {
    if n == 0 then m else Store(m[a := v % 256], a + 1, n - 1, v / 256)
  }

  function Range(lo: int, n: nat): (s: set<int>)
    ensures forall x :: x in s <==> lo <= x < lo + n
    decreases n
  {
    if n == 0 then {} else {lo} + Range(lo + 1, n - 1)
  }

  lemma {:induction false} StoreKeys(m: Mem, a: int, n: nat, v: nat)
    ensures Store(m, a, n, v).Keys == m.Keys + Range(a, n)
    decreases n
  {
    if n != 0 {
      StoreKeys(m[a := v % 256], a + 1, n - 1, v / 256);
    }
  }

  /** A store changes nothing outside the bytes it writes. */
  lemma {:induction false} StoreOutside(m: Mem, a: int, n: nat, v: nat, x: int)
    requires x < a || a + n <= x
    ensures x in Store(m, a, n, v) <==> x in m
    ensures Get(Store(m, a, n, v), x) == Get(m, x)
    decreases n
  {
    if n != 0 {
      StoreOutside(m[a := v % 256], a + 1, n - 1, v / 256, x);
    }
  }

  /** What a store leaves in the bytes it writes does not depend on the memory before. */
  lemma {:induction false} StoreInside(m0: Mem, m1: Mem, a: int, n: nat, v: nat, x: int)
    requires a <= x < a + n
    ensures x in Store(m0, a, n, v) && x in Store(m1, a, n, v)
    ensures Store(m0, a, n, v)[x] == Store(m1, a, n, v)[x]
    decreases n
  {
    if x == a {
      StoreOutside(m0[a := v % 256], a + 1, n - 1, v / 256, x);
      StoreOutside(m1[a := v % 256], a + 1, n - 1, v / 256, x);
    } else {
      StoreInside(m0[a := v % 256], m1[a := v % 256], a + 1, n - 1, v / 256, x);
    }
  }

  lemma {:induction false} LoadSame(m0: Mem, m1: Mem, a: int, n: nat)
    requires forall x :: a <= x < a + n ==> Get(m0, x) == Get(m1, x)
    ensures Load(m0, a, n) == Load(m1, a, n)
    decreases n
  {
    if n != 0 {
      LoadSame(m0, m1, a + 1, n - 1);
    }
  }

  lemma SplitMod(v: nat, k: nat)
    requires 0 < k
    ensures v % (256 * k) == v % 256 + 256 * ((v / 256) % k)
  {
    var q, d, r := v / 256, v / 256 / k, v / 256 % k;
    assert v == 256 * (k * d + r) + v % 256;
    assert v == (256 * k) * d + (256 * r + v % 256);
    UniqueMod(v, 256 * k, d, 256 * r + v % 256);
  }

  lemma MulGrows(k: int, d: int)
    requires 0 < k
    ensures 1 <= d ==> k <= k * d
    ensures d <= -1 ==> k * d <= -k
  {
  }

  lemma UniqueMod(v: int, k: int, d: int, r: int)
    requires 0 <= r < k
    requires v == k * d + r
    ensures v % k == r && v / k == d
  {
    var d', r' := v / k, v % k;
    assert v == k * d' + r' && 0 <= r' < k;
    assert k * (d' - d) == k * d' - k * d == r - r';
    MulGrows(k, d' - d);
  }

  /** Reading back what was just written gives the value, cut to the bytes written. */
  lemma {:induction false} LoadStore(m: Mem, a: int, n: nat, v: nat)
    ensures Load(Store(m, a, n, v), a, n) == v % Pow256(n)
    decreases n
  {
    if n != 0 {
      LoadStore(m[a := v % 256], a + 1, n - 1, v / 256);
      StoreOutside(m[a := v % 256], a + 1, n - 1, v / 256, a);
      SplitMod(v, Pow256(n - 1));
    }
  }

  /** The low k bytes of an n-byte number are the k bytes at the same address. */
  lemma {:induction false} LoadLow(m: Mem, a: int, n: nat, k: nat)
    requires k <= n
    ensures Load(m, a, n) % Pow256(k) == Load(m, a, k)
    decreases n
  {
    if k != 0 {
      var low, rest := Get(m, a) as int, Load(m, a + 1, n - 1);
      LoadLow(m, a + 1, n - 1, k - 1);
      SplitMod(low + 256 * rest, Pow256(k - 1));
      assert (low + 256 * rest) / 256 == rest && (low + 256 * rest) % 256 == low;
      assert Pow256(k) == 256 * Pow256(k - 1);
    } else {
      assert Pow256(0) == 1;
    }
  }
}
