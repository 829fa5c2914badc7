/**
 * 32-bit words as integers, and the operators of JavaScript on Numbers that are integers.
 *
 * JavaScript's bitwise operators take the 32-bit pattern of a Number and give a SIGNED result;
 * only `>>> 0` makes it non-negative again. Sums in between are ordinary sums of Numbers.
 */
module Words {

  const WORDS: int := 0x1_0000_0000

  type Word = x: int | 0 <= x < 0x1_0000_0000

  function Pow2(k: nat): (p: nat)
    ensures p > 0
  {
    if k == 0 then 1 else 2 * Pow2(k - 1)
  }

  /** The k low bits of a and b combined bit by bit. */
  function Combine(f: (bool, bool) -> bool, a: nat, b: nat, k: nat): (r: nat)
    ensures r < Pow2(k)
    decreases k
  {
    if k == 0 then 0
    else 2 * Combine(f, a / 2, b / 2, k - 1) + (if f(a % 2 == 1, b % 2 == 1) then 1 else 0)
  }

  function XorBit(p: bool, q: bool): bool { p != q }

  function AndBit(p: bool, q: bool): bool { p && q }

  function OrBit(p: bool, q: bool): bool { p || q }

  lemma Pow2Of32()
    ensures Pow2(8) == 0x100 && Pow2(16) == 0x1_0000 && Pow2(24) == 0x100_0000 && Pow2(32) == 0x1_0000_0000
  {
    assert Pow2(4) == 16;
    assert Pow2(8) == 0x100;
    assert Pow2(12) == 0x1000;
    assert Pow2(16) == 0x1_0000;
    assert Pow2(20) == 0x10_0000;
    assert Pow2(24) == 0x100_0000;
    assert Pow2(28) == 0x1000_0000;
  }

  // ---------------------------------------------------------------- operators on words

  function Xor(a: Word, b: Word): Word { Pow2Of32(); Combine(XorBit, a, b, 32) }

  function And(a: Word, b: Word): Word { Pow2Of32(); Combine(AndBit, a, b, 32) }

  function Or(a: Word, b: Word): Word { Pow2Of32(); Combine(OrBit, a, b, 32) }

  function Not(a: Word): Word { WORDS - 1 - a }

  function Add(a: int, b: int): Word { (a + b) % WORDS }

  // ---------------------------------------------------------------- operators of JavaScript

  /** An integer a Number holds exactly. */
  function Number(x: int): int
    requires -0x20_0000_0000_0000 <= x <= 0x20_0000_0000_0000
  {
    x
  }

  /** ToUint32: x >>> 0 */
  function U32(x: int): Word { x % WORDS }

  /** ToInt32 */
  function I32(x: int): (r: int)
    ensures -0x8000_0000 <= r < 0x8000_0000
    ensures U32(r) == U32(x)
    ensures r == U32(x) || r == U32(x) - WORDS
  {
    var u := U32(x);
    if u >= 0x8000_0000 then SignedAgain(u); u - WORDS else u
  }

  lemma SignedAgain(u: Word)
    ensures U32(u - WORDS) == u && U32(u) == u
  {
  }

  function JsXor(x: int, y: int): (r: int)
    ensures -0x8000_0000 <= r < 0x8000_0000
  {
    I32(Xor(U32(x), U32(y)))
  }

  function JsAnd(x: int, y: int): (r: int)
    ensures -0x8000_0000 <= r < 0x8000_0000
  {
    I32(And(U32(x), U32(y)))
  }

  function JsOr(x: int, y: int): (r: int)
    ensures -0x8000_0000 <= r < 0x8000_0000
  {
    I32(Or(U32(x), U32(y)))
  }

  function JsNot(x: int): (r: int)
    ensures -0x8000_0000 <= r < 0x8000_0000
  {
    I32(Not(U32(x)))
  }

  function JsShl(x: int, n: nat): (r: int)
    ensures -0x8000_0000 <= r < 0x8000_0000
  {
    I32(U32(x) * Pow2(n))
  }

  /** x >>> n */
  function JsShr(x: int, n: nat): Word { ShrBound(U32(x), Pow2(n)); U32(x) / Pow2(n) }

  lemma ShrBound(u: Word, p: int)
    requires p > 0
    ensures 0 <= u / p <= u
  {
    assert u == u / p * p + u % p;
    MulGrows(u / p, p);
  }

  lemma MulGrows(q: nat, p: int)
    requires p > 0
    ensures q * p >= q
  {
  }

  lemma U32Word(x: Word)
    ensures U32(x) == x
  {
  }

  // ---------------------------------------------------------------- disjoint bits and masks

  lemma Halves(a: nat, b: nat, p: nat)
    requires p > 0
    ensures (a * (2 * p)) / 2 == a * p && (a * (2 * p)) % 2 == 0
    ensures b < 2 * p ==> b / 2 < p
  {
    assert a * (2 * p) == 2 * (a * p);
  }

  lemma {:induction false} OrZero(a: nat, n: nat)
    requires a < Pow2(n)
    ensures Combine(OrBit, a, 0, n) == a
    decreases n
  {
    if n > 0 {
      OrZero(a / 2, n - 1);
    }
  }

  /** `|` of disjoint bits is a sum. */
  lemma {:induction false} OrDisjoint(a: nat, b: nat, k: nat, n: nat)
    requires b < Pow2(k) && k <= n && a * Pow2(k) < Pow2(n)
    ensures Combine(OrBit, a * Pow2(k), b, n) == a * Pow2(k) + b
    decreases k
  {
    if k == 0 {
      OrZero(a, n);
    } else {
      Halves(a, b, Pow2(k - 1));
      assert 2 * (a * Pow2(k - 1)) < 2 * Pow2(n - 1);
      OrDisjoint(a, b / 2, k - 1, n - 1);
    }
  }

  lemma {:induction false} AndZero(x: nat, n: nat)
    ensures Combine(AndBit, x, 0, n) == 0
    decreases n
  {
    if n > 0 {
      AndZero(x / 2, n - 1);
    }
  }

  lemma ModTwice(x: nat, p: nat)
    requires p > 0
    ensures x % (2 * p) == 2 * (x / 2 % p) + x % 2
  {
    var q, r := x / 2 / p, x / 2 % p;
    assert x == 2 * (q * p + r) + x % 2;
    assert x == q * (2 * p) + (2 * r + x % 2);
    ModUnique(x, 2 * p, q, 2 * r + x % 2);
  }

  lemma ModUnique(x: int, m: int, q: int, r: int)
    requires m > 0 && 0 <= r < m && x == q * m + r
    ensures x % m == r
  {
    var d := q - x / m;
    assert d * m == x % m - r;
    MulSign(d, m);
  }

  lemma MulSign(d: int, m: int)
    requires m > 0
    ensures d > 0 ==> d * m >= m
    ensures d < 0 ==> d * m <= -m
  {
  }

  /** `&` with a mask of k ones is a remainder. */
  lemma {:induction false} AndMask(x: nat, k: nat, n: nat)
    requires k <= n
    ensures Combine(AndBit, x, Pow2(k) - 1, n) == x % Pow2(k)
    decreases k
  {
    if k == 0 {
      AndZero(x, n);
    } else {
      assert (Pow2(k) - 1) / 2 == Pow2(k - 1) - 1 && (Pow2(k) - 1) % 2 == 1;
      AndMask(x / 2, k - 1, n - 1);
      ModTwice(x, Pow2(k - 1));
    }
  }

  /** `& 0xff` */
  lemma LowByte(x: Word)
    ensures And(x, 0xff) == x % 0x100
  {
    Pow2Of32();
    AndMask(x, 8, 32);
  }
}
