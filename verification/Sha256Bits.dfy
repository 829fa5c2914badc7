/**
 * The functions of section 4.1.2 of FIPS 180-4 and the padding of section 5.1.1, bit by bit: what the arithmetic of
 * Words and Sha256 does to each bit of a word and of a message.
 */
module Sha256Bits {
  import opened Basics
  import opened Utf8
  import opened Words
  import opened Sha256
  import Base64

  // ---------------------------------------------------------------- the bits of a number

  /** Bit i of n; bit 0 is the lowest. */
  predicate Bit(n: nat, i: nat) {
    if i == 0 then n % 2 == 1 else Bit(n / 2, i - 1)
  }

  lemma {:induction false} CombineBit(f: (bool, bool) -> bool, a: nat, b: nat, k: nat, i: nat)
    requires i < k
    ensures Bit(Combine(f, a, b, k), i) == f(Bit(a, i), Bit(b, i))
    decreases k
  {
    var r := Combine(f, a / 2, b / 2, k - 1);
    var c := Combine(f, a, b, k);
    assert c / 2 == r && (c % 2 == 1) == f(a % 2 == 1, b % 2 == 1);
    if i > 0 {
      CombineBit(f, a / 2, b / 2, k - 1, i - 1);
    }
    hide Combine;
  }

  /** The operators act on each bit. */
  lemma OperatorBits(x: Word, y: Word, i: nat)
    requires i < 32
    ensures Bit(Xor(x, y), i) == (Bit(x, i) != Bit(y, i))
    ensures Bit(And(x, y), i) == (Bit(x, i) && Bit(y, i))
    ensures Bit(Or(x, y), i) == (Bit(x, i) || Bit(y, i))
  {
    CombineBit(XorBit, x, y, 32, i);
    CombineBit(AndBit, x, y, 32, i);
    CombineBit(OrBit, x, y, 32, i);
    hide Bit, Combine;
  }

  lemma {:induction false} NotBits(x: nat, k: nat, i: nat)
    requires x < Pow2(k) && i < k
    ensures Pow2(k) - 1 - x >= 0 && Bit(Pow2(k) - 1 - x, i) == !Bit(x, i)
    decreases k
  {
    var n := Pow2(k) - 1 - x;
    assert n / 2 == Pow2(k - 1) - 1 - x / 2 && n % 2 != x % 2;
    if i > 0 {
      NotBits(x / 2, k - 1, i - 1);
    }
  }

  lemma NotBit(x: Word, i: nat)
    requires i < 32
    ensures Bit(Not(x), i) == !Bit(x, i)
  {
    Pow2Of32();
    NotBits(x, 32, i);
    hide Bit, Pow2;
  }

  // ---------------------------------------------------------------- choice and majority

  /** Ch chooses by the bit of x. */
  lemma ChoiceBit(x: Word, y: Word, z: Word, i: nat)
    requires i < 32
    ensures Bit(Ch(x, y, z), i) == if Bit(x, i) then Bit(y, i) else Bit(z, i)
  {
    OperatorBits(x, y, i);
    OperatorBits(Not(x), z, i);
    OperatorBits(And(x, y), And(Not(x), z), i);
    NotBit(x, i);
    hide Bit, Xor, And, Or, Not;
  }

  /** Maj is the bit that at least two of the three have. */
  lemma MajorityBit(x: Word, y: Word, z: Word, i: nat)
    requires i < 32
    ensures Bit(Maj(x, y, z), i) <==>
      (if Bit(x, i) then 1 else 0) + (if Bit(y, i) then 1 else 0) + (if Bit(z, i) then 1 else 0) >= 2
  {
    OperatorBits(x, y, i);
    OperatorBits(x, z, i);
    OperatorBits(y, z, i);
    OperatorBits(And(x, y), And(x, z), i);
    OperatorBits(Xor(And(x, y), And(x, z)), And(y, z), i);
    hide Bit, Xor, And, Or;
  }

  // ---------------------------------------------------------------- shifts and rotations

  lemma DivTwice(n: nat, p: nat)
    requires p > 0
    ensures n / 2 / p == n / (2 * p)
  {
    var q, r := n / 2 / p, n / 2 % p;
    assert n == 2 * (q * p + r) + n % 2;
    assert n == q * (2 * p) + (2 * r + n % 2);
    DivUnique(n, 2 * p, q, 2 * r + n % 2);
  }

  lemma DivUnique(x: int, m: int, q: int, r: int)
    requires m > 0 && 0 <= r < m && x == q * m + r
    ensures x / m == q
  {
    var d := q - x / m;
    assert d * m == x % m - r;
    MulSign(d, m);
  }

  function Down(n: nat, k: nat): nat { if k == 0 then n else Down(n / 2, k - 1) }

  lemma {:induction false} DownIs(n: nat, k: nat)
    ensures Down(n, k) == n / Pow2(k)
    decreases k
  {
    if k > 0 {
      DivTwice(n, Pow2(k - 1));
      DownIs(n / 2, k - 1);
    }
  }

  lemma {:induction false} ShiftedDown(n: nat, k: nat, i: nat)
    ensures Bit(Down(n, k), i) == Bit(n, i + k)
    decreases k
  {
    if k > 0 {
      ShiftedDown(n / 2, k - 1, i);
    }
  }

  lemma {:induction false} ShiftedUp(n: nat, p: nat, k: nat, i: nat)
    requires p == Pow2(k)
    ensures Bit(n * p, i) == (i >= k && Bit(n, i - k))
    decreases k
  {
    if k > 0 {
      var m := n * (p / 2);
      assert n * p == 2 * m;
      if i > 0 {
        ShiftedUp(n, p / 2, k - 1, i - 1);
      }
    }
  }

  lemma {:induction false} LowBits(n: nat, p: nat, k: nat, i: nat)
    requires p == Pow2(k) && i < k
    ensures Bit(n % p, i) == Bit(n, i)
    decreases k
  {
    ModTwice(n, p / 2);
    if i > 0 {
      LowBits(n / 2, p / 2, k - 1, i - 1);
    }
  }

  lemma {:induction false} HighBits(n: nat, k: nat, i: nat)
    requires n < Pow2(k) && i >= k
    ensures !Bit(n, i)
    decreases i
  {
    if i > 0 {
      HighBits(n / 2, if k == 0 then 0 else k - 1, i - 1);
    }
  }

  /** SHR moves every bit down by n places. */
  lemma ShrBit(x: Word, n: nat, i: nat)
    requires i < 32
    ensures Bit(Shr(x, n), i) == (i + n < 32 && Bit(x, i + n))
  {
    Pow2Of32();
    DownIs(x, n);
    ShiftedDown(x, n, i);
    if i + n >= 32 { HighBits(x, 32, i + n); }
    hide Bit, Pow2, Down;
  }

  lemma ShlBit(x: Word, n: nat, i: nat)
    requires i < 32 && n <= 32
    ensures Bit(x * Pow2(n) % WORDS, i) == (i >= n && Bit(x, i - n))
  {
    Pow2Of32();
    assert WORDS == Pow2(32);
    hide *;
    var y: nat := x * Pow2(n);
    ShiftedUp(x, Pow2(n), n, i);
    LowBits(y, WORDS, 32, i);
  }

  /** ROTR moves every bit down by n places, and those that leave come in again at the top. */
  lemma RotrBit(x: Word, n: nat, i: nat)
    requires 0 < n < 32 && i < 32
    ensures Bit(Rotr(x, n), i) == Bit(x, (i + n) % 32)
  {
    RotrIs(x, n);
    OperatorBits(Shr(x, n), x * Pow2(32 - n) % WORDS, i);
    ShrBit(x, n, i);
    ShlBit(x, 32 - n, i);
    hide *;
    AroundTheCorner(i, n);
  }

  lemma RotrIs(x: Word, n: nat)
    requires n < 32
    ensures Rotr(x, n) == Or(Shr(x, n), x * Pow2(32 - n) % WORDS)
  {
    hide Or, Shr, Pow2;
  }

  lemma AroundTheCorner(i: nat, n: nat)
    requires i < 32 && n < 32
    ensures (i + n) % 32 == if i + n < 32 then i + n else i - (32 - n)
  {
  }

  lemma RotrBits(x: Word, a: nat, b: nat, i: nat)
    requires 0 < a < 32 && 0 < b < 32 && i < 32
    ensures Bit(Xor(Rotr(x, a), Rotr(x, b)), i) == (Bit(x, (i + a) % 32) != Bit(x, (i + b) % 32))
  {
    OperatorBits(Rotr(x, a), Rotr(x, b), i);
    RotrBit(x, a, i);
    RotrBit(x, b, i);
    hide Bit, Rotr, Xor;
  }

  /** The four functions of one word, as sums of bits modulo two. */
  lemma BigSigmaBits(x: Word, i: nat)
    requires i < 32
    ensures Bit(BigSigma0(x), i) == ((Bit(x, (i + 2) % 32) != Bit(x, (i + 13) % 32)) != Bit(x, (i + 22) % 32))
    ensures Bit(BigSigma1(x), i) == ((Bit(x, (i + 6) % 32) != Bit(x, (i + 11) % 32)) != Bit(x, (i + 25) % 32))
  {
    SigmasAre(x);
    hide *;
    RotrBits(x, 2, 13, i);
    RotrBits(x, 6, 11, i);
    RotrBit(x, 22, i);
    RotrBit(x, 25, i);
    OperatorBits(Xor(Rotr(x, 2), Rotr(x, 13)), Rotr(x, 22), i);
    OperatorBits(Xor(Rotr(x, 6), Rotr(x, 11)), Rotr(x, 25), i);
  }

  lemma SmallSigmaBits(x: Word, i: nat)
    requires i < 32
    ensures Bit(SmallSigma0(x), i) == ((Bit(x, (i + 7) % 32) != Bit(x, (i + 18) % 32)) != (i + 3 < 32 && Bit(x, i + 3)))
    ensures Bit(SmallSigma1(x), i) == ((Bit(x, (i + 17) % 32) != Bit(x, (i + 19) % 32)) != (i + 10 < 32 && Bit(x, i + 10)))
  {
    SigmasAre(x);
    hide *;
    RotrBits(x, 7, 18, i);
    RotrBits(x, 17, 19, i);
    ShrBit(x, 3, i);
    ShrBit(x, 10, i);
    OperatorBits(Xor(Rotr(x, 7), Rotr(x, 18)), Shr(x, 3), i);
    OperatorBits(Xor(Rotr(x, 17), Rotr(x, 19)), Shr(x, 10), i);
  }

  lemma SigmasAre(x: Word)
    ensures BigSigma0(x) == Xor(Xor(Rotr(x, 2), Rotr(x, 13)), Rotr(x, 22))
    ensures BigSigma1(x) == Xor(Xor(Rotr(x, 6), Rotr(x, 11)), Rotr(x, 25))
    ensures SmallSigma0(x) == Xor(Xor(Rotr(x, 7), Rotr(x, 18)), Shr(x, 3))
    ensures SmallSigma1(x) == Xor(Xor(Rotr(x, 17), Rotr(x, 19)), Shr(x, 10))
  {
    hide Rotr, Shr, Xor;
  }

  // ---------------------------------------------------------------- the padding

  lemma {:induction false} BytesConcat(a: Bytes, b: Bytes)
    ensures Base64.ByteBits(a + b) == Base64.ByteBits(a) + Base64.ByteBits(b)
  {
    hide Base64.BitsOf;
    if a == [] {
      assert a + b == b;
    } else {
      BytesConcat(a[1..], b);
      assert (a + b)[1..] == a[1..] + b;
      Assoc(Base64.BitsOf(a[0], 8), Base64.ByteBits(a[1..]), Base64.ByteBits(b));
    }
  }

  function Falses(k: nat): seq<bool> { seq(k, _ => false) }

  lemma {:induction false} ZeroBits(w: nat)
    ensures Base64.BitsOf(0, w) == Falses(w)
  {
    if w > 0 {
      ZeroBits(w - 1);
    }
  }

  lemma {:induction false} ZeroByteBits(k: nat)
    ensures Base64.ByteBits(Zeros(k)) == Falses(8 * k)
  {
    if k > 0 {
      ZeroByteBits(k - 1);
      ZeroBits(8);
      assert Zeros(k)[1..] == Zeros(k - 1);
      hide Base64.BitsOf;
    }
  }

  /** The byte 0x80 is a one bit and seven zeros. */
  lemma OneBit()
    ensures Base64.ByteBits([0x80]) == [true] + Falses(7)
  {
    Base64.JoinBits(1, 0, 1, 7);
    assert Pow2(4) == 16 && Pow2(7) == 0x80;
    ZeroBits(7);
    assert Base64.BitsOf(1, 1) == [true] by { assert Base64.BitsOf(0, 0) == []; }
    hide Base64.BitsOf;
    assert Base64.ByteBits([0x80]) == Base64.BitsOf(0x80, 8) + [];
  }

  lemma OneByte(b: Byte)
    ensures Base64.ByteBits([b]) == Base64.BitsOf(b, 8)
  {
    hide Base64.BitsOf;
    assert Base64.ByteBits([b]) == Base64.BitsOf(b, 8) + [];
  }

  lemma FourBytes(a: Byte, b: Byte, c: Byte, d: Byte)
    ensures Base64.ByteBits([a, b, c, d]) ==
      Base64.BitsOf(a, 8) + Base64.BitsOf(b, 8) + Base64.BitsOf(c, 8) + Base64.BitsOf(d, 8)
  {
    hide *;
    OneByte(a);
    OneByte(b);
    OneByte(c);
    OneByte(d);
    BytesConcat([a], [b]);
    BytesConcat([a] + [b], [c]);
    BytesConcat([a] + [b] + [c], [d]);
    assert [a] + [b] + [c] + [d] == [a, b, c, d];
  }

  lemma Joined(n: nat, q: nat, r: nat, w: nat, k: nat)
    requires r < Pow2(k) && n == q * Pow2(k) + r
    ensures Base64.BitsOf(n, w + k) == Base64.BitsOf(q, w) + Base64.BitsOf(r, k)
  {
    hide *;
    Base64.JoinBits(q, r, w, k);
  }

  /** The bytes of a word spell its bits, the highest first. */
  lemma WordBits(x: Word)
    ensures Base64.ByteBits(WordBytes(x)) == Base64.BitsOf(x, 32)
  {
    var y, z := x / 0x100, x / 0x1_0000;
    var a := x / 0x100_0000;
    DivTwo(x);
    Pow2Of32();
    assert WordBytes(x) == [a, z % 0x100, y % 0x100, x % 0x100];
    hide *;
    FourBytes(a, z % 0x100, y % 0x100, x % 0x100);
    Joined(z, a, z % 0x100, 8, 8);
    Joined(y, z, y % 0x100, 16, 8);
    Joined(x, y, x % 0x100, 24, 8);
  }

  lemma DivTwo(x: Word)
    ensures x / 0x1_0000 == x / 0x100 / 0x100 && x / 0x100_0000 == x / 0x1_0000 / 0x100
  {
  }

  lemma LengthBits(x: nat)
    requires x < 0x1_0000_0000_0000_0000
    ensures Base64.ByteBits(Length64(x)) == Base64.BitsOf(x, 64)
  {
    var q, r := x / WORDS, x % WORDS;
    Pow2Of32();
    assert Length64(x) == WordBytes(q) + WordBytes(r) && x == q * Pow2(32) + r && r < Pow2(32);
    hide *;
    WordBits(q);
    WordBits(r);
    BytesConcat(WordBytes(q), WordBytes(r));
    Joined(x, q, r, 32, 32);
  }

  /** SECTION 5.1.1, in bits: the message of l bits, a one bit, k zero bits, and l in 64 bits; k is the smallest number that
      makes the length before the last 64 bits 448 modulo 512. */
  lemma PaddingInBits(m: Bytes) returns (k: nat)
    requires |m| < 0x2000_0000_0000_0000
    ensures Base64.ByteBits(FipsPad(m)) == Base64.ByteBits(m) + ([true] + Falses(k)) + Base64.BitsOf(8 * |m|, 64)
    ensures IsSmallest(8 * |m|, k)
  {
    hide *;
    var z := ZeroCount(|m|);
    k := 7 + 8 * z;
    PaddedIs(m);
    OneBit();
    ZeroByteBits(z);
    LengthBits(8 * |m|);
    SmallestBits(|m|);
    FalsesJoin(7, 8 * z);
    FourParts(m, [0x80], Zeros(z), Length64(8 * |m|));
    Regroup(Base64.ByteBits(m), [true], Falses(7), Falses(8 * z), Falses(k));
  }

  lemma FourParts(a: Bytes, b: Bytes, c: Bytes, d: Bytes)
    ensures Base64.ByteBits(a + b + c + d) ==
      Base64.ByteBits(a) + Base64.ByteBits(b) + Base64.ByteBits(c) + Base64.ByteBits(d)
  {
    hide *;
    BytesConcat(a + b + c, d);
    BytesConcat(a + b, c);
    BytesConcat(a, b);
  }

  lemma Regroup<X>(a: seq<X>, b: seq<X>, c: seq<X>, d: seq<X>, e: seq<X>)
    requires c + d == e
    ensures a + (b + c) + d == a + (b + e)
  {
    Assoc(a, b + c, d);
    Assoc(b, c, d);
  }

  lemma FalsesJoin(a: nat, b: nat)
    ensures Falses(a) + Falses(b) == Falses(a + b)
  {
  }

  lemma PaddedIs(m: Bytes)
    requires |m| < 0x2000_0000_0000_0000
    ensures FipsPad(m) == m + [0x80] + Zeros(ZeroCount(|m|)) + Length64(8 * |m|)
  {
    hide Zeros, ZeroCount, Length64;
  }

  /** l bits, a one, and k zeros come to 448 modulo 512. */
  predicate Fills(l: nat, k: nat) { (l + 1 + k) % 512 == 448 }

  /** k is the smallest number that does. */
  predicate IsSmallest(l: nat, k: nat) {
    Fills(l, k) && forall j | 0 <= j < k :: !Fills(l, j)
  }

  lemma SmallestBits(n: nat)
    ensures IsSmallest(8 * n, 7 + 8 * ZeroCount(n))
  {
    var k := 7 + 8 * ZeroCount(n);
    var q, r := n / 64, n % 64;
    var end := if r < 56 then 448 else 960;
    assert 8 * n == 512 * q + 8 * r && 8 * r + 1 + k == end;
    hide ZeroCount;
    forall j | 0 <= j <= k ensures Fills(8 * n, j) <==> j == k {
      Remainder(q, 8 * r + 1 + j, 8 * n + 1 + j);
    }
  }

  lemma Remainder(q: nat, s: nat, t: nat)
    requires t == 512 * q + s
    ensures t % 512 == s % 512
  {
  }

  // ---------------------------------------------------------------- section 6.2.2

  lemma WordAtBytes(m: Bytes, p: nat, t: nat)
    requires p + 4 * t + 4 <= |m|
    ensures WordBytes(WordAt(m, p, t)) == m[p + 4 * t..p + 4 * t + 4]
  {
    var q := p + 4 * t;
    var x, y, z := WordAt(m, p, t), m[q] as int * 0x1_0000 + m[q + 1] as int * 0x100 + m[q + 2], m[q] as int * 0x100 + m[q + 1];
    assert x == y * 0x100 + m[q + 3] && y == z * 0x100 + m[q + 2];
    DivTwo(x);
  }

  /** The word that is appended to the words before t. */
  lemma ScheduleStep(m: Bytes, p: nat, t: nat)
    requires p + 64 <= |m|
    ensures var w := Schedule(m, p, t);
      Schedule(m, p, t + 1) ==
        w + [if t < 16 then WordAt(m, p, t)
             else (SmallSigma1(w[t - 2]) + w[t - 7] + SmallSigma0(w[t - 15]) + w[t - 16]) % 0x1_0000_0000]
  {
    hide WordAt, SmallSigma0, SmallSigma1;
  }

  lemma {:induction false} SchedulePrefix(m: Bytes, p: nat, n: nat, k: nat)
    requires p + 64 <= |m| && k <= n
    ensures Schedule(m, p, k) <= Schedule(m, p, n)
  {
    hide *;
    if k < n {
      SchedulePrefix(m, p, n - 1, k);
      ScheduleStep(m, p, n - 1);
    }
  }

  /** Step 1: the first sixteen words spell the bits of the block, and each later one is made of four before it. */
  lemma FirstWords(m: Bytes, p: nat, t: nat)
    requires p + 64 <= |m| && t < 16
    ensures Base64.BitsOf(Schedule(m, p, 64)[t], 32) == Base64.ByteBits(m[p + 4 * t..p + 4 * t + 4])
  {
    hide *;
    SchedulePrefix(m, p, 64, t + 1);
    ScheduleStep(m, p, t);
    WordAtBytes(m, p, t);
    WordBits(WordAt(m, p, t));
  }

  lemma LaterWords(m: Bytes, p: nat, t: nat)
    requires p + 64 <= |m| && 16 <= t < 64
    ensures var w := Schedule(m, p, 64);
      w[t] == (SmallSigma1(w[t - 2]) + w[t - 7] + SmallSigma0(w[t - 15]) + w[t - 16]) % 0x1_0000_0000
  {
    hide *;
    SchedulePrefix(m, p, 64, t + 1);
    SchedulePrefix(m, p, 64, t);
    ScheduleStep(m, p, t);
    var w, done := Schedule(m, p, 64), Schedule(m, p, t);
    assert w[t - 2] == done[t - 2] && w[t - 7] == done[t - 7] && w[t - 15] == done[t - 15] && w[t - 16] == done[t - 16];
  }

  /** Step 3: six of the eight words move down by one place, and the two sums come in. */
  lemma RoundEquations(x: State, k: Word, w: Word) returns (t1: Word, t2: Word)
    ensures t1 == (x.h + BigSigma1(x.e) + Ch(x.e, x.f, x.g) + k + w) % 0x1_0000_0000
    ensures t2 == (BigSigma0(x.a) + Maj(x.a, x.b, x.c)) % 0x1_0000_0000
    ensures var y := Round(x, k, w);
      && y.b == x.a && y.c == x.b && y.d == x.c && y.f == x.e && y.g == x.f && y.h == x.g
      && y.e == Add(x.d, t1) && y.a == Add(t1, t2)
  {
    hide BigSigma0, BigSigma1, Ch, Maj, Add;
    t1 := (x.h + BigSigma1(x.e) + Ch(x.e, x.f, x.g) + k + w) % WORDS;
    t2 := (BigSigma0(x.a) + Maj(x.a, x.b, x.c)) % WORDS;
  }

  lemma WordsBits4(a: Word, b: Word, c: Word, d: Word)
    ensures Base64.ByteBits(WordBytes(a) + WordBytes(b) + WordBytes(c) + WordBytes(d)) ==
      Base64.BitsOf(a, 32) + Base64.BitsOf(b, 32) + Base64.BitsOf(c, 32) + Base64.BitsOf(d, 32)
  {
    hide *;
    WordBits(a);
    WordBits(b);
    WordBits(c);
    WordBits(d);
    FourParts(WordBytes(a), WordBytes(b), WordBytes(c), WordBytes(d));
  }

  /** The digest: the bits of the eight words in order. */
  lemma DigestInBits(s: State)
    ensures Base64.ByteBits(Digest(s)) ==
      (Base64.BitsOf(s.a, 32) + Base64.BitsOf(s.b, 32) + Base64.BitsOf(s.c, 32) + Base64.BitsOf(s.d, 32))
      + (Base64.BitsOf(s.e, 32) + Base64.BitsOf(s.f, 32) + Base64.BitsOf(s.g, 32) + Base64.BitsOf(s.h, 32))
  {
    hide *;
    DigestHalves(s);
    WordsBits4(s.a, s.b, s.c, s.d);
    WordsBits4(s.e, s.f, s.g, s.h);
    BytesConcat(WordBytes(s.a) + WordBytes(s.b) + WordBytes(s.c) + WordBytes(s.d),
                WordBytes(s.e) + WordBytes(s.f) + WordBytes(s.g) + WordBytes(s.h));
  }

  lemma DigestHalves(s: State)
    ensures Digest(s) == (WordBytes(s.a) + WordBytes(s.b) + WordBytes(s.c) + WordBytes(s.d))
                         + (WordBytes(s.e) + WordBytes(s.f) + WordBytes(s.g) + WordBytes(s.h))
  {
    hide WordBytes;
    var front := WordBytes(s.a) + WordBytes(s.b) + WordBytes(s.c) + WordBytes(s.d);
    Assoc(front, WordBytes(s.e), WordBytes(s.f));
    Assoc(front, WordBytes(s.e) + WordBytes(s.f), WordBytes(s.g));
    Assoc(front, WordBytes(s.e) + WordBytes(s.f) + WordBytes(s.g), WordBytes(s.h));
  }
}
