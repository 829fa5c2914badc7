/** sha256bytes of extensions/taffy.js and extensions/aws_sigv4.js. */
module Sha256Loops {
  import opened Utf8
  import opened Words
  import opened Sha256

  // ---------------------------------------------------------------- expressions of the source

  function Ror(x: Word, n: nat): Word
    requires n < 32
  {
    U32(JsOr(JsShr(x, n), JsShl(x, 32 - n)))
  }

  function S0(a: Word): (r: int)
    ensures -0x8000_0000 <= r < 0x8000_0000
  {
    JsXor(JsXor(Ror(a, 2), Ror(a, 13)), Ror(a, 22))
  }

  function S1(e: Word): (r: int)
    ensures -0x8000_0000 <= r < 0x8000_0000
  {
    JsXor(JsXor(Ror(e, 6), Ror(e, 11)), Ror(e, 25))
  }

  function Small0(x: Word): (r: int)
    ensures -0x8000_0000 <= r < 0x8000_0000
  {
    JsXor(JsXor(Ror(x, 7), Ror(x, 18)), JsShr(x, 3))
  }

  function Small1(x: Word): (r: int)
    ensures -0x8000_0000 <= r < 0x8000_0000
  {
    JsXor(JsXor(Ror(x, 17), Ror(x, 19)), JsShr(x, 10))
  }

  function Choice(e: Word, f: Word, g: Word): (r: int)
    ensures -0x8000_0000 <= r < 0x8000_0000
  {
    JsXor(JsAnd(e, f), JsAnd(JsNot(e), g))
  }

  function Majority(a: Word, b: Word, c: Word): (r: int)
    ensures -0x8000_0000 <= r < 0x8000_0000
  {
    JsXor(JsXor(JsAnd(a, b), JsAnd(a, c)), JsAnd(b, c))
  }

  /** (b0<<24)|(b1<<16)|(b2<<8)|b3, and >>> 0 */
  function Packed(b0: Byte, b1: Byte, b2: Byte, b3: Byte): Word {
    U32(JsOr(JsOr(JsOr(JsShl(b0, 24), JsShl(b1, 16)), JsShl(b2, 8)), b3))
  }

  /** x is a signed reading of the word u. */
  predicate Reads(x: int, u: Word) { x == u || x == u - WORDS }

  lemma XorReads(x: int, y: int, u: Word, v: Word)
    requires U32(x) == u && U32(y) == v
    ensures Reads(JsXor(x, y), Xor(u, v)) && U32(JsXor(x, y)) == Xor(u, v)
  {
    U32Word(Xor(u, v));
    hide Xor, U32, I32;
  }

  lemma AndReads(x: int, y: int, u: Word, v: Word)
    requires U32(x) == u && U32(y) == v
    ensures U32(JsAnd(x, y)) == And(u, v)
  {
    U32Word(And(u, v));
    hide And, U32, I32;
  }

  lemma NotReads(x: Word)
    ensures U32(JsNot(x)) == Not(x)
  {
    U32Word(x);
    U32Word(Not(x));
    hide Not, U32, I32;
  }

  lemma RorIsRotr(x: Word, n: nat)
    requires n < 32
    ensures Ror(x, n) == Rotr(x, n) && U32(Ror(x, n)) == Rotr(x, n) && JsShr(x, n) == Shr(x, n) && U32(Shr(x, n)) == Shr(x, n)
  {
    U32Word(x);
    U32Word(Shr(x, n));
    U32Word(Or(Shr(x, n), U32(x * Pow2(32 - n))));
    hide Or, I32, Pow2;
  }

  lemma SigmaReads(x: Word)
    ensures Reads(S0(x), BigSigma0(x)) && Reads(S1(x), BigSigma1(x))
    ensures Reads(Small0(x), SmallSigma0(x)) && Reads(Small1(x), SmallSigma1(x))
  {
    hide Ror, Rotr, Xor, JsXor, JsShr, Shr, U32, Reads;
    RorIsRotr(x, 2); RorIsRotr(x, 13); RorIsRotr(x, 22);
    RorIsRotr(x, 6); RorIsRotr(x, 11); RorIsRotr(x, 25);
    RorIsRotr(x, 7); RorIsRotr(x, 18); RorIsRotr(x, 3);
    RorIsRotr(x, 17); RorIsRotr(x, 19); RorIsRotr(x, 10);
    XorReads(Ror(x, 2), Ror(x, 13), Rotr(x, 2), Rotr(x, 13));
    XorReads(JsXor(Ror(x, 2), Ror(x, 13)), Ror(x, 22), Xor(Rotr(x, 2), Rotr(x, 13)), Rotr(x, 22));
    XorReads(Ror(x, 6), Ror(x, 11), Rotr(x, 6), Rotr(x, 11));
    XorReads(JsXor(Ror(x, 6), Ror(x, 11)), Ror(x, 25), Xor(Rotr(x, 6), Rotr(x, 11)), Rotr(x, 25));
    XorReads(Ror(x, 7), Ror(x, 18), Rotr(x, 7), Rotr(x, 18));
    XorReads(JsXor(Ror(x, 7), Ror(x, 18)), JsShr(x, 3), Xor(Rotr(x, 7), Rotr(x, 18)), Shr(x, 3));
    XorReads(Ror(x, 17), Ror(x, 19), Rotr(x, 17), Rotr(x, 19));
    XorReads(JsXor(Ror(x, 17), Ror(x, 19)), JsShr(x, 10), Xor(Rotr(x, 17), Rotr(x, 19)), Shr(x, 10));
  }

  lemma ChReads(x: Word, y: Word, z: Word)
    ensures Reads(Choice(x, y, z), Ch(x, y, z)) && Reads(Majority(x, y, z), Maj(x, y, z))
  {
    hide And, Not, Xor, JsXor, JsAnd, JsNot, U32, Reads;
    U32Word(x); U32Word(y); U32Word(z);
    NotReads(x);
    AndReads(x, y, x, y);
    AndReads(JsNot(x), z, Not(x), z);
    AndReads(x, z, x, z);
    AndReads(y, z, y, z);
    XorReads(JsAnd(x, y), JsAnd(JsNot(x), z), And(x, y), And(Not(x), z));
    XorReads(JsAnd(x, y), JsAnd(x, z), And(x, y), And(x, z));
    XorReads(JsXor(JsAnd(x, y), JsAnd(x, z)), JsAnd(y, z), Xor(And(x, y), And(x, z)), And(y, z));
  }

  lemma OrReads(x: int, y: int, u: Word, v: Word)
    requires U32(x) == u && U32(y) == v
    ensures U32(JsOr(x, y)) == Or(u, v)
  {
    U32Word(Or(u, v));
    hide Or, U32, I32;
  }

  lemma ShlByte(b: Byte, n: nat)
    requires n == 8 || n == 16 || n == 24
    ensures b * Pow2(n) < WORDS && U32(JsShl(b, n)) == b * Pow2(n)
  {
    Pow2Of32();
    hide Pow2;
    assert U32(b) == b;
    U32Word(b * Pow2(n));
  }

  lemma OrIsSum(a: nat, b: nat, k: nat)
    requires b < Pow2(k) && k <= 32 && a * Pow2(k) < WORDS
    ensures a * Pow2(k) + b < WORDS && Or(a * Pow2(k), b) == a * Pow2(k) + b
  {
    Pow2Of32();
    OrDisjoint(a, b, k, 32);
    hide Pow2, Combine;
  }

  lemma PackedIsWord(b0: Byte, b1: Byte, b2: Byte, b3: Byte)
    ensures Packed(b0, b1, b2, b3) == b0 * 0x100_0000 + b1 * 0x1_0000 + b2 * 0x100 + b3
  {
    Pow2Of32();
    hide Pow2, Or, U32, JsOr, JsShl;
    ShlByte(b0, 24); ShlByte(b1, 16); ShlByte(b2, 8); U32Word(b3);
    OrReads(JsShl(b0, 24), JsShl(b1, 16), b0 * 0x100_0000, b1 * 0x1_0000);
    OrIsSum(b0, b1 * 0x1_0000, 24);
    var x := b0 * 0x100 + b1;
    OrReads(JsOr(JsShl(b0, 24), JsShl(b1, 16)), JsShl(b2, 8), x * 0x1_0000, b2 * 0x100);
    OrIsSum(x, b2 * 0x100, 16);
    var y := x * 0x100 + b2;
    OrReads(JsOr(JsOr(JsShl(b0, 24), JsShl(b1, 16)), JsShl(b2, 8)), b3, y * 0x100, b3);
    OrIsSum(y, b3, 8);
  }

  lemma SignedSum(x: int, i: int, j: int)
    requires 0 <= i <= 1 && 0 <= j <= 1
    ensures U32(x - i * WORDS - j * WORDS) == x % WORDS
  {
  }

  /** The sums of the source, reduced only at the end, are sums modulo 2^32. */
  lemma SumReads(x: int, y: int, z: int, u: Word, v: Word)
    requires Reads(y, u) && Reads(z, v)
    ensures U32(x + y + z) == (x + u + v) % WORDS && U32(x + y) == (x + u) % WORDS
  {
    SignedSum(x + u + v, if y == u then 0 else 1, if z == v then 0 else 1);
    SignedSum(x + u, if y == u then 0 else 1, 0);
    hide U32;
  }

  // ---------------------------------------------------------------- padding, in two ways

  /** x & 0xff */
  function MaskByte(x: int): Byte { MaskReads(x); JsAnd(x, 0xff) }

  /** The four bytes of n's 32-bit pattern, as the source shifts and masks them. */
  function Shifted(n: int): Bytes {
    [MaskByte(JsShr(n, 24)), MaskByte(JsShr(n, 16)), MaskByte(JsShr(n, 8)), MaskByte(n)]
  }

  lemma ByteOf(n: int, k: nat)
    ensures MaskByte(JsShr(n, k)) == U32(n) / Pow2(k) % 0x100
    ensures MaskByte(n) == U32(n) % 0x100
  {
    hide Pow2, JsAnd, U32;
    var x := JsShr(n, k);
    assert x == U32(n) / Pow2(k);
    MaskReads(x);
    MaskReads(n);
    U32Word(x);
    hide JsShr;
  }

  lemma MaskReads(x: int)
    ensures JsAnd(x, 0xff) == U32(x) % 0x100
  {
    U32Word(0xff);
    LowByte(U32(x));
    U32Word(U32(x) % 0x100);
    hide And, U32;
  }

  lemma ShiftedIs(n: int)
    ensures Shifted(n) == WordBytes(n % WORDS)
  {
    var u := U32(n);
    assert u / 0x100_0000 % 0x100 == u / 0x100_0000;
    Pow2Of32();
    hide Pow2, JsAnd, JsShr, MaskByte;
    ByteOf(n, 24); ByteOf(n, 16); ByteOf(n, 8); ByteOf(n, 0);
  }

  /** The message with its one bit and k zero bytes. */
  function Partial(m: Bytes, k: nat): (p: Bytes)
    ensures |p| == |m| + 1 + k
  {
    m + [0x80] + Zeros(k)
  }

  lemma PartialTurn(m: Bytes, k: nat)
    ensures Partial(m, 0) == m + [0x80] && Partial(m, k) + [0] == Partial(m, k + 1)
  {
    assert Zeros(0) == [] && Zeros(k) + [0] == Zeros(k + 1);
    hide Zeros;
  }

  lemma PartialDone(m: Bytes, k: nat)
    requires k <= ZeroCount(|m|)
    ensures (|m| + 1 + k) % 64 == 56 <==> k == ZeroCount(|m|)
  {
    ZeroCountIsSmallest(|m|, k);
    hide ZeroCount;
  }

  lemma CodePadIs(m: Bytes)
    ensures CodePad(m) == Partial(m, ZeroCount(|m|)) + [0, 0, 0, 0] + WordBytes(8 * |m| % WORDS)
  {
    hide WordBytes, Zeros, ZeroCount;
  }

  lemma Appended(m: Bytes, a: Bytes, b: Bytes)
    ensures m + (a + b) == m + a + b
    ensures |b| == 4 ==> m + b == m + [b[0]] + [b[1]] + [b[2]] + [b[3]]
  {
  }

  /** extensions/taffy.js: a copy of the message, then push. */
  method PadTaffy(bytes: Bytes) returns (m: Bytes)
    ensures m == CodePad(bytes)
  {
    hide *;
    m := bytes;
    m := m + [0x80];
    ghost var k := 0;
    PartialTurn(bytes, 0);
    while |m| % 64 != 56
      invariant k <= ZeroCount(|bytes|) && m == Partial(bytes, k)
      decreases ZeroCount(|bytes|) - k
    {
      PartialTurn(bytes, k);
      PartialDone(bytes, k);
      m := m + [0];
      k := k + 1;
    }
    PartialDone(bytes, k);
    CodePadIs(bytes);
    var bitLen := |bytes| * 8;
    ShiftedIs(bitLen);
    Appended(m, [0, 0, 0, 0], Shifted(bitLen));
    m := m + ([0, 0, 0, 0] + Shifted(bitLen));
  }

  /** extensions/aws_sigv4.js: a new array filled in place, then push. */
  method PadAws(bytes: Bytes) returns (withOne: Bytes)
    ensures withOne == CodePad(bytes)
  {
    hide *;
    var n := |bytes|;
    var first := new Byte[n + 1];
    for i := 0 to n
      invariant first[..i] == bytes[..i]
    {
      first[i] := bytes[i];
    }
    first[n] := 0x80;
    assert first[..n] == bytes[..n] == bytes;
    withOne := first[..];
    assert withOne == bytes + [0x80];
    ghost var k := 0;
    PartialTurn(bytes, 0);
    while |withOne| % 64 != 56
      invariant k <= ZeroCount(n) && withOne == Partial(bytes, k)
      decreases ZeroCount(n) - k
    {
      PartialTurn(bytes, k);
      PartialDone(bytes, k);
      withOne := withOne + [0];
      k := k + 1;
    }
    PartialDone(bytes, k);
    CodePadIs(bytes);
    ghost var before := withOne;
    for i := 0 to 4
      invariant withOne == before + [0, 0, 0, 0][..i]
    {
      withOne := withOne + [0];
    }
    assert withOne == before + [0, 0, 0, 0];
    var bitLen := n * 8;
    ShiftedIs(bitLen);
    var length := Shifted(bitLen);
    Appended(withOne, [], length);
    withOne := withOne + [length[0]];
    withOne := withOne + [length[1]];
    withOne := withOne + [length[2]];
    withOne := withOne + [length[3]];
  }

  // ---------------------------------------------------------------- the block loop

  lemma ScheduleTurn(m: Bytes, p: nat, t: nat)
    requires p + 64 <= |m| && t < 64
    ensures var w := Schedule(m, p, t);
      Schedule(m, p, t + 1) ==
        w + [if t < 16 then WordAt(m, p, t)
             else (SmallSigma1(w[t - 2]) + w[t - 7] + SmallSigma0(w[t - 15]) + w[t - 16]) % WORDS]
  {
    hide WordAt, SmallSigma0, SmallSigma1;
  }

  lemma NumberIs(x: int)
    requires -0x20_0000_0000_0000 <= x <= 0x20_0000_0000_0000
    ensures Number(x) == x
  {
  }

  lemma ExpandReads(w2: Word, w7: Word, w15: Word, w16: Word)
    ensures U32(Number(w16 + Small0(w15) + w7 + Small1(w2))) == (SmallSigma1(w2) + w7 + SmallSigma0(w15) + w16) % WORDS
  {
    hide *;
    SigmaReads(w2);
    SigmaReads(w15);
    SumReads(w16 + w7 as int, Small0(w15), Small1(w2), SmallSigma0(w15), SmallSigma1(w2));
    NumberIs(w16 + w7 as int + Small0(w15) + Small1(w2));
  }

  /** The message schedule of the block at blk. */
  method Expand(m: Bytes, blk: nat) returns (w: array<Word>)
    requires blk + 64 <= |m|
    ensures fresh(w) && w.Length == 64 && w[..] == Schedule(m, blk, 64)
  {
    hide *;
    w := new Word[64];
    for t := 0 to 16
      invariant w[..t] == Schedule(m, blk, t)
    {
      var q := blk + t * 4;
      PackedIsWord(m[q], m[q + 1], m[q + 2], m[q + 3]);
      WordAtIs(m, blk, t);
      ScheduleTurn(m, blk, t);
      w[t] := Packed(m[q], m[q + 1], m[q + 2], m[q + 3]);
    }
    for t := 16 to 64
      invariant w[..t] == Schedule(m, blk, t)
    {
      ScheduleTurn(m, blk, t);
      ExpandReads(w[t - 2], w[t - 7], w[t - 15], w[t - 16]);
      ghost var done := w[..t];
      assert done[t - 2] == w[t - 2] && done[t - 7] == w[t - 7] && done[t - 15] == w[t - 15] && done[t - 16] == w[t - 16];
      var s0 := Small0(w[t - 15]);
      var s1 := Small1(w[t - 2]);
      w[t] := U32(Number(w[t - 16] + s0 + w[t - 7] + s1));
      assert w[..t] == done;
    }
    assert w[..64] == w[..];
  }

  lemma WordAtIs(m: Bytes, p: nat, t: nat)
    requires p + 64 <= |m| && t < 16
    ensures var q := p + t * 4;
      WordAt(m, p, t) == m[q] as int * 0x100_0000 + m[q + 1] as int * 0x1_0000 + m[q + 2] as int * 0x100 + m[q + 3]
  {
  }

  /** The new values of a round, in the source's order of summation. */
  function T1(e: Word, f: Word, g: Word, h: Word, k: Word, w: Word): Word {
    U32(Number(h as int + S1(e) + Choice(e, f, g) + k + w))
  }

  function T2(a: Word, b: Word, c: Word): Word { U32(Number(S0(a) + Majority(a, b, c))) }

  lemma T1Reads(e: Word, f: Word, g: Word, h: Word, k: Word, w: Word)
    ensures T1(e, f, g, h, k, w) == (h as int + BigSigma1(e) + Ch(e, f, g) + k + w) % WORDS
  {
    hide *;
    SigmaReads(e);
    ChReads(e, f, g);
    SumReads(h as int + k + w, S1(e), Choice(e, f, g), BigSigma1(e), Ch(e, f, g));
    T1Is(e, f, g, h, k, w);
  }

  lemma T1Is(e: Word, f: Word, g: Word, h: Word, k: Word, w: Word)
    ensures T1(e, f, g, h, k, w) == U32(h as int + k + w + S1(e) + Choice(e, f, g))
  {
    hide S1, Choice, U32;
  }

  lemma T2Reads(a: Word, b: Word, c: Word)
    ensures T2(a, b, c) == (BigSigma0(a) as int + Maj(a, b, c)) % WORDS
  {
    hide *;
    SigmaReads(a);
    ChReads(a, b, c);
    SumReads(0, S0(a), Majority(a, b, c), BigSigma0(a), Maj(a, b, c));
    T2Is(a, b, c);
  }

  lemma T2Is(a: Word, b: Word, c: Word)
    ensures T2(a, b, c) == U32(0 + S0(a) + Majority(a, b, c))
  {
    hide S0, Majority, U32;
  }

  lemma RoundReads(s: State, k: Word, w: Word)
    ensures var t1, t2 := T1(s.e, s.f, s.g, s.h, k, w), T2(s.a, s.b, s.c);
      Round(s, k, w) == State(U32(t1 as int + t2), s.a, s.b, s.c, U32(s.d as int + t1), s.e, s.f, s.g)
  {
    hide T1, T2, BigSigma0, BigSigma1, Ch, Maj;
    T1Reads(s.e, s.f, s.g, s.h, k, w);
    T2Reads(s.a, s.b, s.c);
  }

  /** The sixty-four rounds over one block, into the array of hash words. */
  method Mix(w: array<Word>, H: array<Word>)
    requires w.Length == 64 && H.Length == 8 && w != H
    modifies H
    ensures AsState(H[..]) == AddStates(old(AsState(H[..])), Rounds(old(AsState(H[..])), w[..], 64))
  {
    hide *;
    var a: Word, b: Word, c: Word, d: Word := H[0], H[1], H[2], H[3];
    var e: Word, f: Word, g: Word, h: Word := H[4], H[5], H[6], H[7];
    ghost var s := State(a, b, c, d, e, f, g, h);
    AsStateIs(H[..]);
    RoundsTurn(s, w[..], 0);
    for t := 0 to 64
      invariant State(a, b, c, d, e, f, g, h) == Rounds(s, w[..], t)
      invariant H[..] == old(H[..])
    {
      RoundsTurn(s, w[..], t);
      RoundReads(State(a, b, c, d, e, f, g, h), K256(t), w[t]);
      var t1 := T1(e, f, g, h, K256(t), w[t]);
      var t2 := T2(a, b, c);
      h := g; g := f; f := e; e := U32(d as int + t1);
      d := c; c := b; b := a; a := U32(t1 as int + t2);
    }
    AddStatesIs(s, State(a, b, c, d, e, f, g, h));
    H[0] := U32(H[0] as int + a); H[1] := U32(H[1] as int + b); H[2] := U32(H[2] as int + c); H[3] := U32(H[3] as int + d);
    H[4] := U32(H[4] as int + e); H[5] := U32(H[5] as int + f); H[6] := U32(H[6] as int + g); H[7] := U32(H[7] as int + h);
    AsStateIs(H[..]);
  }

  function AsState(h: seq<Word>): State
    requires |h| == 8
  {
    State(h[0], h[1], h[2], h[3], h[4], h[5], h[6], h[7])
  }

  lemma AsStateIs(h: seq<Word>)
    requires |h| == 8
    ensures AsState(h) == State(h[0], h[1], h[2], h[3], h[4], h[5], h[6], h[7])
  {
  }

  lemma AddStatesIs(x: State, y: State)
    ensures AddStates(x, y) == State(
      U32(x.a as int + y.a), U32(x.b as int + y.b), U32(x.c as int + y.c), U32(x.d as int + y.d),
      U32(x.e as int + y.e), U32(x.f as int + y.f), U32(x.g as int + y.g), U32(x.h as int + y.h))
  {
  }

  lemma RoundsTurn(s: State, w: seq<Word>, t: nat)
    requires t < |w| && t < 64
    ensures Rounds(s, w, t + 1) == Round(Rounds(s, w, t), K256(t), w[t]) && Rounds(s, w, 0) == s
  {
    hide Round, K256;
  }

  /** The loop over the blocks of a padded message, and the digest. */
  method HashBlocks(m: Bytes) returns (out: Bytes)
    requires |m| % 64 == 0
    ensures out == HashPadded(m)
  {
    hide *;
    var H := new Word[] [0x6a09e667, 0xbb67ae85, 0x3c6ef372, 0xa54ff53a, 0x510e527f, 0x9b05688c, 0x1f83d9ab, 0x5be0cd19];
    AsStateIs(H[..]);
    InitialState();
    BlocksTurn(m, 0);
    var blk := 0;
    while blk < |m|
      invariant 0 <= blk <= |m| && blk % 64 == 0 && fresh(H)
      invariant AsState(H[..]) == Blocks(m, blk / 64)
    {
      BlocksTurn(m, blk / 64);
      var w := Expand(m, blk);
      Mix(w, H);
      blk := blk + 64;
    }
    AsStateIs(H[..]);
    HashPaddedIs(m);
    out := [];
    ghost var words := H[..];
    Output([], words);
    for i := 0 to 8
      invariant H[..] == words && out == Bytes8(words[..i])
    {
      ShiftedIs(H[i]);
      Output(words[..i], [H[i]]);
      assert words[..i] + [H[i]] == words[..i + 1];
      out := out + Shifted(H[i]);
    }
    assert words[..8] == words;
    DigestIs(words);
  }

  function Bytes8(h: seq<Word>): Bytes {
    if h == [] then [] else Bytes8(h[..|h| - 1]) + WordBytes(h[|h| - 1])
  }

  lemma Output(h: seq<Word>, x: seq<Word>)
    ensures |x| == 1 ==> Bytes8(h + x) == Bytes8(h) + WordBytes(x[0] % WORDS)
    ensures Bytes8([]) == []
  {
    if |x| == 1 {
      assert (h + x)[..|h|] == h;
      U32Word(x[0]);
    }
    hide WordBytes;
  }

  lemma InitialState()
    ensures H0 == State(0x6a09e667, 0xbb67ae85, 0x3c6ef372, 0xa54ff53a, 0x510e527f, 0x9b05688c, 0x1f83d9ab, 0x5be0cd19)
  {
  }

  lemma BlocksTurn(m: Bytes, n: nat)
    ensures Blocks(m, 0) == H0
    ensures 64 * n + 64 <= |m| ==>
      Blocks(m, n + 1) == AddStates(Blocks(m, n), Rounds(Blocks(m, n), Schedule(m, 64 * n, 64), 64))
  {
    hide AddStates, Rounds, Schedule;
  }

  lemma HashPaddedIs(m: Bytes)
    requires |m| % 64 == 0
    ensures HashPadded(m) == Digest(Blocks(m, |m| / 64))
  {
    hide Digest, Blocks;
  }

  lemma DigestIs(h: seq<Word>)
    requires |h| == 8
    ensures Digest(AsState(h)) == Bytes8(h)
  {
    assert [] + WordBytes(h[0]) == WordBytes(h[0]);
    assert h[..8] == h;
    hide WordBytes, Bytes8;
    Bytes8Turn(h, 7); Bytes8Turn(h, 6); Bytes8Turn(h, 5); Bytes8Turn(h, 4);
    Bytes8Turn(h, 3); Bytes8Turn(h, 2); Bytes8Turn(h, 1); Bytes8Turn(h, 0);
  }

  lemma Bytes8Turn(h: seq<Word>, i: nat)
    requires i < |h|
    ensures Bytes8(h[..i + 1]) == Bytes8(h[..i]) + WordBytes(h[i])
    ensures i == 0 ==> Bytes8(h[..i]) == []
  {
    assert h[..i + 1][..i] == h[..i];
    hide WordBytes;
  }

  /** sha256bytes of extensions/taffy.js. */
  method Sha256Taffy(bytes: Bytes) returns (out: Bytes)
    ensures out == CodeHash(bytes)
  {
    var m := PadTaffy(bytes);
    out := HashBlocks(m);
  }

  /** sha256bytes of extensions/aws_sigv4.js. */
  method Sha256Aws(bytes: Bytes) returns (out: Bytes)
    ensures out == CodeHash(bytes)
  {
    var withOne := PadAws(bytes);
    out := HashBlocks(withOne);
  }
}
