/**
 * SHA-256 as FIPS 180-4 defines it, and the padding that sha256bytes of extensions/taffy.js and
 * extensions/aws_sigv4.js uses instead.
 */
module Sha256 {
  import opened Utf8
  import opened Words

  // ---------------------------------------------------------------- sections 3.2, 4.1.2 and 4.2.2

  function Shr(x: Word, n: nat): Word { ShrBound(x, Pow2(n)); x / Pow2(n) }

  function Rotr(x: Word, n: nat): Word
    requires n < 32
  {
    Or(Shr(x, n), x * Pow2(32 - n) % WORDS)
  }

  function Ch(x: Word, y: Word, z: Word): Word { Xor(And(x, y), And(Not(x), z)) }

  function Maj(x: Word, y: Word, z: Word): Word { Xor(Xor(And(x, y), And(x, z)), And(y, z)) }

  function BigSigma0(x: Word): Word { Xor(Xor(Rotr(x, 2), Rotr(x, 13)), Rotr(x, 22)) }

  function BigSigma1(x: Word): Word { Xor(Xor(Rotr(x, 6), Rotr(x, 11)), Rotr(x, 25)) }

  function SmallSigma0(x: Word): Word { Xor(Xor(Rotr(x, 7), Rotr(x, 18)), Shr(x, 3)) }

  function SmallSigma1(x: Word): Word { Xor(Xor(Rotr(x, 17), Rotr(x, 19)), Shr(x, 10)) }

  function K256(t: nat): Word
    requires t < 64
  {
    match t
    case 0 => 0x428a2f98 case 1 => 0x71374491 case 2 => 0xb5c0fbcf case 3 => 0xe9b5dba5
    case 4 => 0x3956c25b case 5 => 0x59f111f1 case 6 => 0x923f82a4 case 7 => 0xab1c5ed5
    case 8 => 0xd807aa98 case 9 => 0x12835b01 case 10 => 0x243185be case 11 => 0x550c7dc3
    case 12 => 0x72be5d74 case 13 => 0x80deb1fe case 14 => 0x9bdc06a7 case 15 => 0xc19bf174
    case 16 => 0xe49b69c1 case 17 => 0xefbe4786 case 18 => 0x0fc19dc6 case 19 => 0x240ca1cc
    case 20 => 0x2de92c6f case 21 => 0x4a7484aa case 22 => 0x5cb0a9dc case 23 => 0x76f988da
    case 24 => 0x983e5152 case 25 => 0xa831c66d case 26 => 0xb00327c8 case 27 => 0xbf597fc7
    case 28 => 0xc6e00bf3 case 29 => 0xd5a79147 case 30 => 0x06ca6351 case 31 => 0x14292967
    case 32 => 0x27b70a85 case 33 => 0x2e1b2138 case 34 => 0x4d2c6dfc case 35 => 0x53380d13
    case 36 => 0x650a7354 case 37 => 0x766a0abb case 38 => 0x81c2c92e case 39 => 0x92722c85
    case 40 => 0xa2bfe8a1 case 41 => 0xa81a664b case 42 => 0xc24b8b70 case 43 => 0xc76c51a3
    case 44 => 0xd192e819 case 45 => 0xd6990624 case 46 => 0xf40e3585 case 47 => 0x106aa070
    case 48 => 0x19a4c116 case 49 => 0x1e376c08 case 50 => 0x2748774c case 51 => 0x34b0bcb5
    case 52 => 0x391c0cb3 case 53 => 0x4ed8aa4a case 54 => 0x5b9cca4f case 55 => 0x682e6ff3
    case 56 => 0x748f82ee case 57 => 0x78a5636f case 58 => 0x84c87814 case 59 => 0x8cc70208
    case 60 => 0x90befffa case 61 => 0xa4506ceb case 62 => 0xbef9a3f7 case _ => 0xc67178f2
  }

  /** The first sixty-four primes. */
  function Prime(t: nat): int
    requires t < 64
  {
    match t
    case 0 => 2 case 1 => 3 case 2 => 5 case 3 => 7 case 4 => 11 case 5 => 13 case 6 => 17 case 7 => 19
    case 8 => 23 case 9 => 29 case 10 => 31 case 11 => 37 case 12 => 41 case 13 => 43 case 14 => 47 case 15 => 53
    case 16 => 59 case 17 => 61 case 18 => 67 case 19 => 71 case 20 => 73 case 21 => 79 case 22 => 83 case 23 => 89
    case 24 => 97 case 25 => 101 case 26 => 103 case 27 => 107 case 28 => 109 case 29 => 113 case 30 => 127 case 31 => 131
    case 32 => 137 case 33 => 139 case 34 => 149 case 35 => 151 case 36 => 157 case 37 => 163 case 38 => 167 case 39 => 173
    case 40 => 179 case 41 => 181 case 42 => 191 case 43 => 193 case 44 => 197 case 45 => 199 case 46 => 211 case 47 => 223
    case 48 => 227 case 49 => 229 case 50 => 233 case 51 => 239 case 52 => 241 case 53 => 251 case 54 => 257 case 55 => 263
    case 56 => 269 case 57 => 271 case 58 => 277 case 59 => 281 case 60 => 283 case 61 => 293 case 62 => 307 case _ => 311
  }

  function Square(x: int): int { x * x }

  function Cube(x: int): int { x * x * x }

  /** k is the first 32 bits of the fractional part of the square root of p. */
  ghost predicate SquareRootBits(k: Word, p: int) {
    exists n | 0 <= n < 8 :: Square(n * WORDS + k) <= p * Square(WORDS) < Square(n * WORDS + k + 1)
  }

  /** k is the first 32 bits of the fractional part of the cube root of p. */
  ghost predicate CubeRootBits(k: Word, p: int) {
    exists n | 0 <= n < 8 :: Cube(n * WORDS + k) <= p * Cube(WORDS) < Cube(n * WORDS + k + 1)
  }

  /** The table of round constants is the one section 4.2.2 describes. */
  lemma RoundConstants(t: nat)
    requires t < 64
    ensures CubeRootBits(K256(t), Prime(t))
  {
    var p := Prime(t);
    var n := if p < 8 then 1 else if p < 27 then 2 else if p < 64 then 3 else if p < 125 then 4 else if p < 216 then 5 else 6;
    assert Cube(n * WORDS + K256(t)) <= p * Cube(WORDS) < Cube(n * WORDS + K256(t) + 1);
  }

  // ---------------------------------------------------------------- sections 5.2.1, 5.3.3 and 6.2

  datatype State = State(a: Word, b: Word, c: Word, d: Word, e: Word, f: Word, g: Word, h: Word)

  const H0 := State(0x6a09e667, 0xbb67ae85, 0x3c6ef372, 0xa54ff53a, 0x510e527f, 0x9b05688c, 0x1f83d9ab, 0x5be0cd19)

  /** The initial hash value is the one section 5.3.3 describes. */
  lemma InitialConstants()
    ensures SquareRootBits(H0.a, Prime(0)) && SquareRootBits(H0.b, Prime(1)) && SquareRootBits(H0.c, Prime(2))
         && SquareRootBits(H0.d, Prime(3)) && SquareRootBits(H0.e, Prime(4)) && SquareRootBits(H0.f, Prime(5))
         && SquareRootBits(H0.g, Prime(6)) && SquareRootBits(H0.h, Prime(7))
  {
    assert Square(1 * WORDS + H0.a) <= 2 * Square(WORDS) < Square(1 * WORDS + H0.a + 1);
    assert Square(1 * WORDS + H0.b) <= 3 * Square(WORDS) < Square(1 * WORDS + H0.b + 1);
    assert Square(2 * WORDS + H0.c) <= 5 * Square(WORDS) < Square(2 * WORDS + H0.c + 1);
    assert Square(2 * WORDS + H0.d) <= 7 * Square(WORDS) < Square(2 * WORDS + H0.d + 1);
    assert Square(3 * WORDS + H0.e) <= 11 * Square(WORDS) < Square(3 * WORDS + H0.e + 1);
    assert Square(3 * WORDS + H0.f) <= 13 * Square(WORDS) < Square(3 * WORDS + H0.f + 1);
    assert Square(4 * WORDS + H0.g) <= 17 * Square(WORDS) < Square(4 * WORDS + H0.g + 1);
    assert Square(4 * WORDS + H0.h) <= 19 * Square(WORDS) < Square(4 * WORDS + H0.h + 1);
  }

  /** Word i of the block at byte p. */
  function WordAt(m: Bytes, p: nat, i: nat): Word
    requires p + 4 * i + 4 <= |m|
  {
    var q := p + 4 * i;
    m[q] as int * 0x100_0000 + m[q + 1] as int * 0x1_0000 + m[q + 2] as int * 0x100 + m[q + 3]
  }

  /** The first n words of the message schedule of the block at byte p. */
  function Schedule(m: Bytes, p: nat, n: nat): (w: seq<Word>)
    requires p + 64 <= |m|
    ensures |w| == n
  {
    if n == 0 then []
    else
      var w, t := Schedule(m, p, n - 1), n - 1;
      w + [if t < 16 then WordAt(m, p, t)
           else (SmallSigma1(w[t - 2]) + w[t - 7] + SmallSigma0(w[t - 15]) + w[t - 16]) % WORDS]
  }

  function Round(s: State, k: Word, w: Word): State {
    var t1 := (s.h + BigSigma1(s.e) + Ch(s.e, s.f, s.g) + k + w) % WORDS;
    var t2 := (BigSigma0(s.a) + Maj(s.a, s.b, s.c)) % WORDS;
    State(Add(t1, t2), s.a, s.b, s.c, Add(s.d, t1), s.e, s.f, s.g)
  }

  function Rounds(s: State, w: seq<Word>, n: nat): State
    requires n <= |w| && n <= 64
  {
    if n == 0 then s else Round(Rounds(s, w, n - 1), K256(n - 1), w[n - 1])
  }

  function AddStates(x: State, y: State): State {
    State(Add(x.a, y.a), Add(x.b, y.b), Add(x.c, y.c), Add(x.d, y.d), Add(x.e, y.e), Add(x.f, y.f), Add(x.g, y.g), Add(x.h, y.h))
  }

  function BlockStep(s: State, m: Bytes, p: nat): State
    requires p + 64 <= |m|
  {
    AddStates(s, Rounds(s, Schedule(m, p, 64), 64))
  }

  /** The hash value after n blocks. */
  function Blocks(m: Bytes, n: nat): State
    requires 64 * n <= |m|
  {
    if n == 0 then H0 else BlockStep(Blocks(m, n - 1), m, 64 * (n - 1))
  }

  function WordBytes(x: Word): (b: Bytes)
    ensures |b| == 4
  {
    [x / 0x100_0000, x / 0x1_0000 % 0x100, x / 0x100 % 0x100, x % 0x100]
  }

  function Digest(s: State): (b: Bytes)
    ensures |b| == 32
  {
    WordBytes(s.a) + WordBytes(s.b) + WordBytes(s.c) + WordBytes(s.d)
    + WordBytes(s.e) + WordBytes(s.f) + WordBytes(s.g) + WordBytes(s.h)
  }

  function HashPadded(m: Bytes): Bytes
    requires |m| % 64 == 0
  {
    Digest(Blocks(m, |m| / 64))
  }

  // ---------------------------------------------------------------- section 5.1.1

  function Zeros(k: nat): (z: Bytes)
    ensures |z| == k && forall i | 0 <= i < k :: z[i] == 0
  {
    seq(k, _ => 0)
  }

  function ZeroCount(n: nat): (k: nat) { if n % 64 < 56 then 55 - n % 64 else 119 - n % 64 }

  /** ZeroCount(n) is the smallest k with n + 1 + k == 56 modulo 64 (448 modulo 512 in bits). */
  lemma ZeroCountIsSmallest(n: nat, k: nat)
    ensures (n + 1 + ZeroCount(n)) % 64 == 56 && (n + ZeroCount(n) + 9) % 64 == 0
    ensures (n + 1 + k) % 64 == 56 ==> ZeroCount(n) <= k
  {
    var q, r := n / 64, n % 64;
    assert n + 1 + ZeroCount(n) == 64 * (q + (if r < 56 then 0 else 1)) + 56;
    if k < ZeroCount(n) {
      assert (n + 1 + k) % 64 == if r + 1 + k < 64 then r + 1 + k else r + k - 63;
    }
  }

  /** The message, a one bit, zeros, and eight bytes of length. */
  function Padded(m: Bytes, length: Bytes): (p: Bytes)
    requires |length| == 8
    ensures |p| == |m| + ZeroCount(|m|) + 9 && |p| % 64 == 0
  {
    ZeroCountIsSmallest(|m|, 0);
    m + [0x80] + Zeros(ZeroCount(|m|)) + length
  }

  /** x as eight bytes, the highest first. */
  function Length64(x: nat): (b: Bytes)
    requires x < 0x1_0000_0000_0000_0000
    ensures |b| == 8
  {
    WordBytes(x / WORDS) + WordBytes(x % WORDS)
  }

  function FipsPad(m: Bytes): (p: Bytes)
    requires |m| < 0x2000_0000_0000_0000
    ensures |p| % 64 == 0
  {
    Padded(m, Length64(8 * |m|))
  }

  function FipsHash(m: Bytes): (b: Bytes)
    requires |m| < 0x2000_0000_0000_0000
    ensures |b| == 32
  {
    HashPadded(FipsPad(m))
  }

  /** What both functions append: the high half of the length is always zero. */
  function CodePad(m: Bytes): (p: Bytes)
    ensures |p| % 64 == 0
  {
    Padded(m, [0, 0, 0, 0] + WordBytes(8 * |m| % WORDS))
  }

  /** What both functions compute, for messages of any length. */
  function CodeHash(m: Bytes): (b: Bytes)
    ensures |b| == 32
  {
    HashPadded(CodePad(m))
  }

  // ---------------------------------------------------------------- padding

  lemma WordBytesBack(x: Word)
    ensures WordAt(WordBytes(x), 0, 0) == x
  {
    var y, z := x / 0x100, x / 0x1_0000;
    assert z == y / 0x100 && x / 0x100_0000 == z / 0x100;
  }

  lemma Length64Back(x: nat, y: nat)
    requires x < 0x1_0000_0000_0000_0000 && y < 0x1_0000_0000_0000_0000 && Length64(x) == Length64(y)
    ensures x == y
  {
    assert Length64(x)[..4] == WordBytes(x / WORDS) && Length64(x)[4..] == WordBytes(x % WORDS);
    assert Length64(y)[..4] == WordBytes(y / WORDS) && Length64(y)[4..] == WordBytes(y % WORDS);
    WordBytesBack(x / WORDS);
    WordBytesBack(x % WORDS);
    WordBytesBack(y / WORDS);
    WordBytesBack(y % WORDS);
    hide WordBytes, WordAt;
  }

  /** PADDING IS INJECTIVE: no two messages are hashed as the same blocks. */
  lemma PaddingIsInjective(m: Bytes, n: Bytes)
    requires |m| < 0x2000_0000_0000_0000 && |n| < 0x2000_0000_0000_0000 && FipsPad(m) == FipsPad(n)
    ensures m == n
  {
    var p := FipsPad(m);
    assert p[|p| - 8..] == Length64(8 * |m|) && p[|p| - 8..] == Length64(8 * |n|);
    hide Length64;
    Length64Back(8 * |m|, 8 * |n|);
    assert p[..|m|] == m && p[..|n|] == n;
  }

  /** THE CODE PADS AS FIPS 180-4 DOES exactly for messages shorter than 2^29 bytes. */
  lemma CodePadIsFips(m: Bytes)
    requires |m| < 0x2000_0000_0000_0000
    ensures CodePad(m) == FipsPad(m) <==> |m| < 0x2000_0000
    ensures |m| < 0x2000_0000 ==> CodeHash(m) == FipsHash(m)
  {
    var low := WordBytes(8 * |m| % WORDS);
    var high := WordBytes(8 * |m| / WORDS);
    assert high == [0, 0, 0, 0] <==> 8 * |m| / WORDS == 0 by {
      WordBytesBack(8 * |m| / WORDS);
      WordBytesBack(0);
    }
    assert WordBytes(0) == [0, 0, 0, 0];
    hide WordBytes, HashPadded;
    var p, q := CodePad(m), FipsPad(m);
    assert p[|p| - 8..|p| - 4] == [0, 0, 0, 0] && q[|q| - 8..|q| - 4] == high;
  }
}
