/** Machine words of one, four and eight bytes as naturals: two's complement, bitwise operations,
    the flags a comparison leaves, and the low half of a signed product. */
module Words {
  import opened Memory

  const TWO_32 := 0x1_0000_0000
  const TWO_64 := 0x1_0000_0000_0000_0000

  /** The number of values n bytes can hold, for the operand sizes 0, 1, 4 and 8. */
  function Modulus(n: nat): (m: int)
    ensures 0 < m
  {
    if n == 0 then 1 else if n == 1 then 256 else if n == 4 then TWO_32 else TWO_64
  }

  /** Operand sizes of the instructions, in bytes. */
  type opsize = n: int | n == 1 || n == 4 || n == 8 witness 8

  type word = x: int | 0 <= x < TWO_64

  lemma ModulusIsPow256(n: nat)
    requires n == 0 || n == 1 || n == 4 || n == 8
    ensures Modulus(n) == Pow256(n)
  {
    assert Pow256(0) == 1 && Pow256(1) == 256 && Pow256(4) == TWO_32 && Pow256(8) == TWO_64;
  }

  /** The two's complement reading of the n-byte word x. */
  function Signed(x: nat, n: nat): int {
    if 2 * x < Modulus(n) then x else x - Modulus(n)
  }

  /** x with its lowest byte replaced by b, which is what writing to `al` does to rax. */
  function WithLowByte(x: nat, b: byte): nat {
    x - x % 256 + b
  }

  function Bit(b: bool): (v: byte) {
    if b then 1 else 0
  }

  function BitAnd(x: nat, y: nat): (r: nat)
    ensures r <= x && r <= y
  {
    if x == 0 || y == 0 then 0 else 2 * BitAnd(x / 2, y / 2) + (x % 2) * (y % 2)
  }

  function BitOr(x: nat, y: nat): (r: nat)
    ensures x <= r && y <= r && r <= x + y
  {
    if x == 0 then y else if y == 0 then x
    else 2 * BitOr(x / 2, y / 2) + if x % 2 == 1 || y % 2 == 1 then 1 else 0
  }

  function Pow2(n: nat): (r: int)
    ensures 0 < r
  {
    if n == 0 then 1 else 2 * Pow2(n - 1)
  }

  lemma {:induction false} Pow2OfBytes(n: nat)
    ensures Pow2(8 * n) == Pow256(n)
  {
    if n != 0 {
      Pow2OfBytes(n - 1);
      var k := 8 * n - 8;
      assert Pow2(k + 2) == 2 * Pow2(k + 1) && Pow2(k + 1) == 2 * Pow2(k);
      assert Pow2(k + 4) == 2 * Pow2(k + 3) && Pow2(k + 3) == 2 * Pow2(k + 2);
      assert Pow2(k + 6) == 2 * Pow2(k + 5) && Pow2(k + 5) == 2 * Pow2(k + 4);
      assert Pow2(k + 8) == 2 * Pow2(k + 7) && Pow2(k + 7) == 2 * Pow2(k + 6);
    }
  }

  /** Bit i of a word. */
  predicate HasBit(x: nat, i: nat) {
    if i == 0 then x % 2 == 1 else HasBit(x / 2, i - 1)
  }

  lemma {:induction false} NoBits(i: nat)
    ensures !HasBit(0, i)
  {
    if i != 0 { NoBits(i - 1); }
  }

  /** BitAnd and BitOr are the bit-by-bit operations. */
  lemma {:induction false} BitwiseMeaning(x: nat, y: nat, i: nat)
    ensures HasBit(BitAnd(x, y), i) <==> HasBit(x, i) && HasBit(y, i)
    ensures HasBit(BitOr(x, y), i) <==> HasBit(x, i) || HasBit(y, i)
  {
    NoBits(i);
    if x != 0 && y != 0 {
      var a, o := (x % 2) * (y % 2), if x % 2 == 1 || y % 2 == 1 then 1 else 0;
      assert a == 0 || a == 1;
      assert BitAnd(x, y) / 2 == BitAnd(x / 2, y / 2) && BitAnd(x, y) % 2 == a;
      assert BitOr(x, y) / 2 == BitOr(x / 2, y / 2) && BitOr(x, y) % 2 == o;
      if i != 0 {
        BitwiseMeaning(x / 2, y / 2, i - 1);
      }
    }
  }

  lemma {:induction false} BitOrBound(x: nat, y: nat, n: nat)
    requires x < Pow2(n) && y < Pow2(n)
    ensures BitOr(x, y) < Pow2(n)
  {
    if x != 0 && y != 0 {
      BitOrBound(x / 2, y / 2, n - 1);
    }
  }

  /** A bitwise operation on two n-byte words is an n-byte word. */
  lemma BitwiseBound(x: nat, y: nat, n: opsize)
    requires x < Modulus(n) && y < Modulus(n)
    ensures BitAnd(x, y) < Modulus(n) && BitOr(x, y) < Modulus(n)
  {
    Pow2OfBytes(n);
    ModulusIsPow256(n);
    BitOrBound(x, y, 8 * n);
  }

  /** On the numbers 0 and 1 the bitwise operations are the logical ones. */
  lemma BitwiseOnBits(p: bool, q: bool)
    ensures BitAnd(Bit(p), Bit(q)) == Bit(p && q)
    ensures BitOr(Bit(p), Bit(q)) == Bit(p || q)
  {
  }

  /** The flags `cmp` leaves for n-byte operands, by the rules of the processor. */
  datatype Flags = Flags(zero: bool, sign: bool, overflow: bool)

  function Compare(x: nat, y: nat, n: nat): Flags {
    var m := Modulus(n);
    var d := (x - y) % m;
    var exact := Signed(x, n) - Signed(y, n);
    Flags(d == 0, 2 * d >= m, 2 * exact >= m || 2 * exact < -m)
  }

  datatype Condition = E | NE | L | LE | G | GE

  predicate Holds(c: Condition, f: Flags) {
    match c
    case E => f.zero
    case NE => !f.zero
    case L => f.sign != f.overflow
    case LE => f.zero || f.sign != f.overflow
    case G => !f.zero && f.sign == f.overflow
    case GE => f.sign == f.overflow
  }

  /** The order each condition code stands for. */
  predicate Order(c: Condition, x: int, y: int) {
    match c
    case E => x == y
    case NE => x != y
    case L => x < y
    case LE => x <= y
    case G => x > y
    case GE => x >= y
  }

  lemma ReduceDifference(d: int, m: int)
    requires -m < d < m
    ensures d % m == if d < 0 then d + m else d
  {
    UniqueMod(d, m, if d < 0 then -1 else 0, if d < 0 then d + m else d);
  }

  /** Reading the flags of a comparison decides the signed order of the operands. */
  lemma CompareDecides(c: Condition, x: nat, y: nat, n: opsize)
    requires x < Modulus(n) && y < Modulus(n)
    ensures Holds(c, Compare(x, y, n)) <==> Order(c, Signed(x, n), Signed(y, n))
  {
    ReduceDifference(x - y, Modulus(n));
  }

  lemma ModOfMultiple(v: int, k: int, m: int)
    requires 0 < m
    ensures (v + k * m) % m == v % m
  {
    var q, r := v / m, v % m;
    assert v + k * m == m * (q + k) + r;
    UniqueMod(v + k * m, m, q + k, r);
  }

  /** The low half of the signed product is the product of the words modulo the word size. */
  lemma SignedProduct(x: nat, y: nat, n: nat)
    ensures (Signed(x, n) * Signed(y, n)) % Modulus(n) == (x * y) % Modulus(n)
  {
    var m := Modulus(n);
    var i, j := if 2 * x < m then 0 else 1, if 2 * y < m then 0 else 1;
    assert Signed(x, n) == x - i * m && Signed(y, n) == y - j * m;
    var k := -j * x - i * y + i * j * m;
    assert (x - i * m) * (y - j * m) == x * y + k * m;
    ModOfMultiple(x * y, k, m);
  }

  /** The low part of a word whose lowest byte was replaced. */
  lemma LowByteOfPart(x: nat, b: byte, n: opsize)
    requires x < TWO_64
    ensures WithLowByte(x, b) < TWO_64
    ensures WithLowByte(x, b) % Modulus(n) == WithLowByte(x % Modulus(n), b)
  {
    if n == 1 {
      LowByte(x, b, 256);
    } else if n == 4 {
      LowByte(x, b, TWO_32);
    } else {
      UniqueMod(x, TWO_64, 0, x);
      UniqueMod(WithLowByte(x, b), TWO_64, 0, WithLowByte(x, b));
    }
  }

  lemma LowByte(x: nat, b: byte, m: nat)
    requires m == 256 || m == TWO_32
    ensures WithLowByte(x, b) % m == WithLowByte(x % m, b)
  {
    var q, r := x / m, x % m;
    assert x == m * q + r;
    assert x % 256 == r % 256;
    UniqueMod(WithLowByte(x, b), m, q, WithLowByte(r, b));
  }

  /** Division that rounds toward zero. */
  function Truncated(a: int, b: int): int
    requires b != 0
  {
    if a >= 0 then (if b > 0 then a / b else -(a / -b))
    else if b > 0 then -(-a / b)
    else -a / -b
  }

  predicate FitsSigned(v: int, n: nat) {
    -Modulus(n) <= 2 * v < Modulus(n)
  }

  /** What is left of the dividend is smaller than the divisor and has the sign of the dividend. */
  lemma TruncatedRest(a: int, b: int)
    requires b != 0
    ensures a >= 0 ==> a - b * Truncated(a, b) >= 0
    ensures a <= 0 ==> a - b * Truncated(a, b) <= 0
    ensures -Abs(b) < a - b * Truncated(a, b) < Abs(b)
  {
    var x, y := Abs(a), Abs(b);
    assert x == y * (x / y) + x % y;
  }

  function Abs(v: int): (r: int)
    ensures r >= 0
  {
    if v < 0 then -v else v
  }
}
