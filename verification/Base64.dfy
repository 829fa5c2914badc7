/** b64encodeBytes and b64decodeToBytes of extensions/taffy.js, against section 4 of RFC 4648. */
module Base64 {
  import opened Basics
  import opened Text
  import opened Utf8
  import opened Words

  type Sextet = x: int | 0 <= x < 64

  const PAD: Unit := 0x3d

  /** [A-Za-z0-9+/] */
  predicate InAlphabet(c: Unit) {
    || 'A' as int <= c <= 'Z' as int || 'a' as int <= c <= 'z' as int || '0' as int <= c <= '9' as int
    || c == '+' as int || c == '/' as int
  }

  /** B64[k]: A to Z, a to z, 0 to 9, + and /. */
  function Letter(k: Sextet): (c: Unit)
    ensures InAlphabet(c)
  {
    if k < 26 then 'A' as int + k else if k < 52 then 'a' as int + k - 26 else if k < 62 then '0' as int + k - 52
    else if k == 62 then '+' as int else '/' as int
  }

  /** B64.indexOf(c) for a character of the alphabet. */
  function ValueOf(c: Unit): Sextet
    requires InAlphabet(c)
  {
    if c >= 'a' as int then c - 'a' as int + 26 else if c >= 'A' as int then c - 'A' as int
    else if c >= '0' as int then c - '0' as int + 52 else if c == '+' as int then 62 else 63
  }

  lemma LetterValue(k: Sextet)
    ensures ValueOf(Letter(k)) == k && Letter(k) != PAD
  {
  }

  // ---------------------------------------------------------------- encoding

  function First(b0: Byte): Sextet { b0 / 4 }

  function Second(b0: Byte, b1: Byte): Sextet { b0 % 4 * 16 + b1 / 16 }

  function Third(b1: Byte, b2: Byte): Sextet { b1 % 16 * 4 + b2 / 64 }

  function Fourth(b2: Byte): Sextet { b2 % 64 }

  /** The sextets of a byte sequence, without padding. */
  function Sextets(b: Bytes): seq<Sextet> {
    if |b| == 0 then []
    else if |b| == 1 then [First(b[0]), Second(b[0], 0)]
    else if |b| == 2 then [First(b[0]), Second(b[0], b[1]), Third(b[1], 0)]
    else [First(b[0]), Second(b[0], b[1]), Third(b[1], b[2]), Fourth(b[2])] + Sextets(b[3..])
  }

  predicate AllLetters(t: Text) {
    forall i | 0 <= i < |t| :: InAlphabet(t[i])
  }

  function Letters(k: seq<Sextet>): (t: Text)
    ensures |t| == |k| && AllLetters(t)
  {
    seq(|k|, i requires 0 <= i < |k| => Letter(k[i]))
  }

  function Padding(n: nat): Text {
    if n % 3 == 0 then [] else if n % 3 == 1 then [PAD, PAD] else [PAD]
  }

  function Encode64(b: Bytes): Text { Letters(Sextets(b)) + Padding(|b|) }

  /** One turn of the encoding loop. */
  function Put4(out: Text, b: Bytes, i: nat): Text
    requires i < |b|
  {
    var b0, b1, b2 := b[i], ByteAt(b, i + 1), ByteAt(b, i + 2);
    out + [Letter(First(b0))] + [Letter(Second(b0, b1))]
    + [if i + 1 < |b| then Letter(Third(b1, b2)) else PAD] + [if i + 2 < |b| then Letter(Fourth(b2)) else PAD]
  }

  method B64EncodeBytes(bytes: Bytes) returns (out: Text)
    ensures out == Encode64(bytes)
  {
    out := [];
    var i := 0;
    assert |bytes| == 0 ==> Encode64(bytes) == [];
    assert [] + Encode64(bytes[0..]) == Encode64(bytes) by { assert bytes[0..] == bytes; }
    while i < |bytes|
      invariant 0 <= i && (i < |bytes| ==> out + Encode64(bytes[i..]) == Encode64(bytes))
      invariant i >= |bytes| ==> out == Encode64(bytes)
    {
      hide Encode64, Letter, First, Second, Third, Fourth, ByteAt;
      EncodeTurn64(bytes, i, out);
      var b0, b1, b2 := bytes[i], ByteAt(bytes, i + 1), ByteAt(bytes, i + 2);
      out := out + [Letter(First(b0))];
      out := out + [Letter(Second(b0, b1))];
      out := out + [if i + 1 < |bytes| then Letter(Third(b1, b2)) else PAD];
      out := out + [if i + 2 < |bytes| then Letter(Fourth(b2)) else PAD];
      i := i + 3;
    }
  }

  function Quad(b: Bytes): Text
    requires b != []
  {
    [Letter(First(b[0])), Letter(Second(b[0], ByteAt(b, 1))),
     if 1 < |b| then Letter(Third(b[1], ByteAt(b, 2))) else PAD, if 2 < |b| then Letter(Fourth(b[2])) else PAD]
  }

  lemma EncodeQuad(b: Bytes)
    requires b != []
    ensures Encode64(b) == Quad(b) + (if |b| > 3 then Encode64(b[3..]) else [])
  {
    hide Letter, First, Second, Third, Fourth, InAlphabet;
    if |b| >= 3 {
      LettersFront(b);
      PaddingPeriod(|b|);
      hide Sextets, Letters;
      if |b| == 3 {
        NoLetters(b[3..]);
      }
    } else {
      assert Encode64(b) == Quad(b);
    }
  }

  lemma LettersConcat(a: seq<Sextet>, b: seq<Sextet>)
    ensures Letters(a + b) == Letters(a) + Letters(b)
  {
    hide Letter, InAlphabet, AllLetters;
  }

  lemma QuadLetters(b: Bytes)
    requires |b| >= 3
    ensures Letters([First(b[0]), Second(b[0], b[1]), Third(b[1], b[2]), Fourth(b[2])]) == Quad(b)
  {
    hide Letter, First, Second, Third, Fourth, InAlphabet, AllLetters;
  }

  lemma LettersFront(b: Bytes)
    requires |b| >= 3
    ensures Letters(Sextets(b)) == Quad(b) + Letters(Sextets(b[3..]))
  {
    QuadLetters(b);
    LettersConcat([First(b[0]), Second(b[0], b[1]), Third(b[1], b[2]), Fourth(b[2])], Sextets(b[3..]));
    hide Letter, Letters, Quad, First, Second, Third, Fourth, InAlphabet, AllLetters;
  }

  lemma NoLetters(b: Bytes)
    requires b == []
    ensures Letters(Sextets(b)) == []
  {
  }

  lemma PaddingPeriod(n: nat)
    requires n >= 3
    ensures Padding(n - 3) == Padding(n)
  {
  }

  lemma PutQuad(out: Text, b: Bytes, i: nat)
    requires i < |b|
    ensures Put4(out, b, i) == out + Quad(b[i..])
  {
    assert b[i..][0] == b[i] && ByteAt(b[i..], 1) == ByteAt(b, i + 1) && ByteAt(b[i..], 2) == ByteAt(b, i + 2);
    hide Letter, First, Second, Third, Fourth;
  }

  lemma EncodeTurn64(b: Bytes, i: nat, out: Text)
    requires i < |b|
    ensures i + 3 < |b| ==> out + Encode64(b[i..]) == Put4(out, b, i) + Encode64(b[i + 3..])
    ensures i + 3 >= |b| ==> out + Encode64(b[i..]) == Put4(out, b, i)
  {
    hide *;
    EncodeQuad(b[i..]);
    PutQuad(out, b, i);
    if i + 3 < |b| {
      assert b[i..][3..] == b[i + 3..];
    }
  }

  // ---------------------------------------------------------------- decoding

  /** replace(/[^A-Za-z0-9+/]/g, "") */
  function Clean(t: Text): (r: Text)
    ensures AllLetters(r)
  {
    Filter(t, InAlphabet)
  }

  function Word24(e0: int, e1: int, e2: int, e3: int): int { e0 * 0x4_0000 + e1 * 0x1000 + e2 * 0x40 + e3 }

  /** The word of the group at the start of c; with one character left, indexOf gives -1 and the word is negative. */
  function GroupWord(c: Text): int
    requires c != [] && AllLetters(c)
  {
    if |c| == 1 then -0x1000
    else Word24(ValueOf(c[0]), ValueOf(c[1]), if |c| > 2 then ValueOf(c[2]) else 0, if |c| > 3 then ValueOf(c[3]) else 0)
  }

  function High(n: int): Byte { n / 0x1_0000 % 0x100 }

  function Middle(n: int): Byte { n / 0x100 % 0x100 }

  function Low(n: int): Byte { n % 0x100 }

  /** One turn of the decoding loop, with `left` characters left. */
  function Put3(out: Bytes, n: int, left: nat): Bytes {
    var a := out + [High(n)];
    var b := if left > 2 then a + [Middle(n)] else a;
    if left > 3 then b + [Low(n)] else b
  }

  function DecodeClean(c: Text): Bytes
    requires AllLetters(c)
  {
    if c == [] then []
    else Put3([], GroupWord(c), |c|) + (if |c| > 4 then DecodeClean(c[4..]) else [])
  }

  function Decode64(t: Text): Bytes { DecodeClean(Clean(t)) }

  lemma LetterAt(c: Text)
    requires AllLetters(c)
    ensures forall i | 0 <= i < |c| :: InAlphabet(c[i])
  {
  }

  method B64DecodeToBytes(str: Text) returns (out: Bytes)
    ensures out == Decode64(str)
  {
    var clean := Clean(str);
    out := [];
    var i := 0;
    assert [] + DecodeClean(clean[0..]) == DecodeClean(clean) by { assert clean[0..] == clean; }
    while i < |clean|
      invariant 0 <= i && (i < |clean| ==> out + DecodeClean(clean[i..]) == DecodeClean(clean))
      invariant i >= |clean| ==> out == DecodeClean(clean)
    {
      hide DecodeClean, Clean, ValueOf, InAlphabet, GroupWord, Word24, High, Middle, Low, AllLetters;
      LetterAt(clean);
      DecodeTurn64(clean, i, out);
      var has2, has3 := i + 2 < |clean|, i + 3 < |clean|;
      var e0 := ValueOf(clean[i]);
      var e2 := if has2 then ValueOf(clean[i + 2]) else 0;
      var e3 := if has3 then ValueOf(clean[i + 3]) else 0;
      var n := if i + 1 < |clean| then Word24(e0, ValueOf(clean[i + 1]), e2, e3) else -0x1000;
      GroupAt(clean, i);
      out := out + [High(n)];
      if has2 { out := out + [Middle(n)]; }
      if has3 { out := out + [Low(n)]; }
      i := i + 4;
    }
  }

  lemma LettersFrom(c: Text, i: nat)
    requires AllLetters(c) && i <= |c|
    ensures AllLetters(c[i..])
  {
    hide InAlphabet;
  }

  lemma GroupAt(c: Text, i: nat)
    requires AllLetters(c) && i < |c|
    ensures GroupWord(c[i..]) ==
      if i + 1 < |c| then
        Word24(ValueOf(c[i]), ValueOf(c[i + 1]), if i + 2 < |c| then ValueOf(c[i + 2]) else 0,
               if i + 3 < |c| then ValueOf(c[i + 3]) else 0)
      else -0x1000
  {
    hide Word24, ValueOf, InAlphabet;
  }

  lemma PutMore(out: Bytes, n: int, left: nat)
    ensures Put3(out, n, left) == out + Put3([], n, left)
  {
    hide High, Middle, Low;
  }

  lemma DecodeTurn64(c: Text, i: nat, out: Bytes)
    requires AllLetters(c) && i < |c|
    ensures i + 4 < |c| ==>
      out + DecodeClean(c[i..]) == Put3(out, GroupWord(c[i..]), |c| - i) + DecodeClean(c[i + 4..])
    ensures i + 4 >= |c| ==> out + DecodeClean(c[i..]) == Put3(out, GroupWord(c[i..]), |c| - i)
  {
    hide AllLetters, GroupWord, Put3;
    LettersFrom(c, i);
    PutMore(out, GroupWord(c[i..]), |c| - i);
    if i + 4 < |c| {
      LettersFrom(c, i + 4);
      assert c[i..][4..] == c[i + 4..];
    }
  }

  // ---------------------------------------------------------------- round trip

  /** A character outside the alphabet can be put anywhere in the text. */
  lemma NoiseIsDropped(a: Text, c: Unit, b: Text)
    requires !InAlphabet(c)
    ensures Decode64(a + [c] + b) == Decode64(a + b)
  {
    hide Filter, InAlphabet, AllLetters, DecodeClean;
    FilterNoise(a, c, b, InAlphabet);
  }

  lemma CleanEncoded(b: Bytes)
    ensures Clean(Encode64(b)) == Letters(Sextets(b))
  {
    assert Filter([PAD], InAlphabet) == [] && Filter([PAD, PAD], InAlphabet) == [] by { assert [PAD, PAD][1..] == [PAD]; }
    hide Filter, Sextets, InAlphabet;
    FilterConcat(Letters(Sextets(b)), Padding(|b|), InAlphabet);
    FilterAll(Letters(Sextets(b)), InAlphabet);
    assert Filter([], InAlphabet) == [] by { FilterAll([], InAlphabet); }
  }

  lemma WordOfBytes(b0: Byte, b1: Byte, b2: Byte)
    ensures Word24(First(b0), Second(b0, b1), Third(b1, b2), Fourth(b2)) == b0 * 0x1_0000 + b1 * 0x100 + b2
  {
  }

  lemma BytesOfWord(b0: Byte, b1: Byte, b2: Byte)
    ensures var n := b0 * 0x1_0000 + b1 * 0x100 + b2; High(n) == b0 && Middle(n) == b1 && Low(n) == b2
  {
    var n := b0 * 0x1_0000 + b1 * 0x100 + b2;
    assert n / 0x100 == b0 * 0x100 + b1;
  }

  lemma SextetsFront(b: Bytes)
    requires b != []
    ensures var k := Sextets(b);
      && |k| > 1 && k[0] == First(b[0]) && k[1] == Second(b[0], ByteAt(b, 1))
      && (|k| > 2 <==> |b| > 1) && (|k| > 2 ==> k[2] == Third(b[1], ByteAt(b, 2)))
      && (|k| > 3 <==> |b| > 2) && (|k| > 3 ==> k[3] == Fourth(b[2]))
      && (|k| > 4 <==> |b| > 3) && (|k| > 4 ==> k[4..] == Sextets(b[3..]))
  {
    hide First, Second, Third, Fourth;
    if |b| > 2 {
      assert Sextets(b)[4..] == Sextets(b[3..]);
      assert |b| == 3 ==> b[3..] == [];
      assert |b| > 3 ==> Sextets(b[3..]) != [];
    }
  }

  lemma GroupOfSextets(k: seq<Sextet>)
    requires |k| > 1
    ensures GroupWord(Letters(k)) == Word24(k[0], k[1], if |k| > 2 then k[2] else 0, if |k| > 3 then k[3] else 0)
  {
    forall i | 0 <= i < |k| ensures ValueOf(Letters(k)[i]) == k[i] {
      LetterValue(k[i]);
    }
    hide Word24, Letter, ValueOf, InAlphabet;
  }

  lemma NoByte()
    ensures Third(0, 0) == 0 && Fourth(0) == 0
  {
  }

  /** The word of the first group of letters holds the first three bytes. */
  lemma GroupOfLetters(b: Bytes)
    requires b != []
    ensures var c := Letters(Sextets(b));
      c != [] && GroupWord(c) == b[0] * 0x1_0000 + ByteAt(b, 1) * 0x100 + ByteAt(b, 2)
  {
    hide Word24, Letter, Letters, GroupWord, Sextets, ValueOf, First, Second, Third, Fourth, InAlphabet;
    SextetsFront(b);
    GroupOfSextets(Sextets(b));
    NoByte();
    WordOfBytes(b[0], ByteAt(b, 1), ByteAt(b, 2));
  }

  lemma LettersDrop(k: seq<Sextet>, n: nat)
    requires n <= |k|
    ensures Letters(k)[n..] == Letters(k[n..])
  {
    hide Letter;
  }

  /** The first group gives back the first three bytes, or as many as there are. */
  lemma PutBack(b: Bytes)
    requires b != []
    ensures var c := Letters(Sextets(b));
      c != [] && Put3([], GroupWord(c), |c|) == b[..if |b| < 3 then |b| else 3]
  {
    hide GroupWord, High, Middle, Low, Letter, Letters, Sextets, First, Second, Third, Fourth, InAlphabet;
    GroupOfLetters(b);
    BytesOfWord(b[0], ByteAt(b, 1), ByteAt(b, 2));
    SextetsFront(b);
  }

  /** One turn of the decoder takes one group of letters off. */
  lemma DecodeFront(b: Bytes)
    requires b != []
    ensures DecodeClean(Letters(Sextets(b))) ==
      if |b| > 3 then b[..3] + DecodeClean(Letters(Sextets(b[3..]))) else b
  {
    hide GroupWord, Letters, Sextets, First, Second, Third, Fourth, Put3, AllLetters;
    hide Word24, High, Middle, Low, Letter, ValueOf, InAlphabet, ByteAt;
    PutBack(b);
    SextetsFront(b);
    if |b| > 3 {
      LettersDrop(Sextets(b), 4);
    } else {
      assert b[..|b|] == b;
    }
  }

  lemma {:induction false} DecodeLetters(b: Bytes)
    ensures DecodeClean(Letters(Sextets(b))) == b
  {
    if b != [] {
      hide DecodeClean, Letters, Sextets;
      DecodeFront(b);
      if |b| > 3 {
        DecodeLetters(b[3..]);
        assert b == b[..3] + b[3..];
      }
    }
  }

  /** DECODING UNDOES ENCODING, also when characters outside the alphabet were added to or removed from the text. */
  lemma DecodeEncode64(b: Bytes, t: Text)
    requires Clean(t) == Clean(Encode64(b))
    ensures Decode64(t) == b
  {
    CleanEncoded(b);
    DecodeLetters(b);
  }

  /** Three bytes for four characters of the alphabet; a single one left over still gives a byte. */
  lemma {:induction false} DecodedLength(c: Text)
    requires AllLetters(c)
    ensures |DecodeClean(c)| == |c| / 4 * 3 + (if |c| % 4 == 0 then 0 else if |c| % 4 == 3 then 2 else 1)
    ensures |c| % 4 == 1 ==> DecodeClean(c)[|DecodeClean(c)| - 1] == 0xff
  {
    hide High, Middle, Low, InAlphabet, Word24;
    if |c| > 4 {
      DecodedLength(c[4..]);
    } else if |c| == 1 {
      LoneWord();
    }
  }

  lemma LoneWord()
    ensures High(-0x1000) == 0xff
  {
  }

  // ---------------------------------------------------------------- section 4 of RFC 4648

  /** The w low bits of n, the highest first. */
  function BitsOf(n: nat, w: nat): seq<bool>
    decreases w
  {
    if w == 0 then [] else BitsOf(n / 2, w - 1) + [n % 2 == 1]
  }

  function ByteBits(b: Bytes): seq<bool> { if b == [] then [] else BitsOf(b[0], 8) + ByteBits(b[1..]) }

  function SextetBits(k: seq<Sextet>): seq<bool> { if k == [] then [] else BitsOf(k[0], 6) + SextetBits(k[1..]) }

  lemma {:induction false} JoinBits(a: nat, b: nat, w: nat, k: nat)
    requires b < Pow2(k)
    ensures BitsOf(a * Pow2(k) + b, w + k) == BitsOf(a, w) + BitsOf(b, k)
    decreases k
  {
    if k == 0 {
      assert BitsOf(a, w) + [] == BitsOf(a, w);
    } else {
      var m, n := a * Pow2(k - 1), a * Pow2(k) + b;
      assert n == 2 * m + b;
      assert n / 2 == m + b / 2 && n % 2 == b % 2;
      JoinBits(a, b / 2, w, k - 1);
    }
  }

  lemma Powers()
    ensures Pow2(2) == 4 && Pow2(4) == 16 && Pow2(6) == 64
  {
    assert Pow2(1) == 2 && Pow2(3) == 8 && Pow2(5) == 32;
  }

  lemma ByteSplits(b: Byte)
    ensures BitsOf(b, 8) == BitsOf(b / 4, 6) + BitsOf(b % 4, 2)
    ensures BitsOf(b, 8) == BitsOf(b / 16, 4) + BitsOf(b % 16, 4)
    ensures BitsOf(b, 8) == BitsOf(b / 64, 2) + BitsOf(b % 64, 6)
  {
    Powers();
    hide Pow2, BitsOf;
    JoinBits(b / 4, b % 4, 6, 2);
    JoinBits(b / 16, b % 16, 4, 4);
    JoinBits(b / 64, b % 64, 2, 6);
  }

  lemma SextetSplits(b0: Byte, b1: Byte, b2: Byte)
    ensures BitsOf(Second(b0, b1), 6) == BitsOf(b0 % 4, 2) + BitsOf(b1 / 16, 4)
    ensures BitsOf(Third(b1, b2), 6) == BitsOf(b1 % 16, 4) + BitsOf(b2 / 64, 2)
  {
    Powers();
    hide Pow2, BitsOf;
    JoinBits(b0 % 4, b1 / 16, 2, 4);
    JoinBits(b1 % 16, b2 / 64, 4, 2);
  }

  lemma Regroup<X>(a: seq<X>, b: seq<X>, c: seq<X>, d: seq<X>, e: seq<X>, f: seq<X>)
    ensures a + (b + c) + (d + e) + f == (a + b) + (c + d) + (e + f)
    ensures a + (b + c) == (a + b) + c
    ensures a + (b + c) + (d + e) == (a + b) + (c + d) + e
  {
  }

  /** Four sextets are the same 24 bits as three bytes. */
  lemma GroupBits(b0: Byte, b1: Byte, b2: Byte)
    ensures BitsOf(First(b0), 6) + BitsOf(Second(b0, b1), 6) + BitsOf(Third(b1, b2), 6) + BitsOf(Fourth(b2), 6)
         == BitsOf(b0, 8) + BitsOf(b1, 8) + BitsOf(b2, 8)
  {
    hide BitsOf, Second, Third;
    ByteSplits(b0);
    ByteSplits(b1);
    ByteSplits(b2);
    SextetSplits(b0, b1, b2);
    Regroup(BitsOf(b0 / 4, 6), BitsOf(b0 % 4, 2), BitsOf(b1 / 16, 4), BitsOf(b1 % 16, 4), BitsOf(b2 / 64, 2), BitsOf(b2 % 64, 6));
  }

  /** Two and three sextets are one and two bytes and zeros. */
  lemma ShortGroupBits(b0: Byte, b1: Byte)
    ensures BitsOf(First(b0), 6) + BitsOf(Second(b0, 0), 6) == BitsOf(b0, 8) + BitsOf(0, 4)
    ensures BitsOf(First(b0), 6) + BitsOf(Second(b0, b1), 6) + BitsOf(Third(b1, 0), 6) == BitsOf(b0, 8) + BitsOf(b1, 8) + BitsOf(0, 2)
  {
    hide BitsOf, Second, Third;
    ByteSplits(b0);
    ByteSplits(b1);
    SextetSplits(b0, 0, 0);
    SextetSplits(b0, b1, 0);
    assert 0 / 16 == 0 && 0 / 64 == 0;
    Regroup(BitsOf(b0 / 4, 6), BitsOf(b0 % 4, 2), BitsOf(b1 / 16, 4), BitsOf(b1 % 16, 4), BitsOf(0, 2), []);
    Regroup(BitsOf(b0 / 4, 6), BitsOf(b0 % 4, 2), BitsOf(0, 4), [], [], []);
  }

  lemma FirstByteBits(b: Bytes)
    requires b != []
    ensures ByteBits(b) == BitsOf(b[0], 8) + ByteBits(b[1..])
  {
    hide BitsOf;
  }

  lemma FirstSextetBits(k: seq<Sextet>)
    requires k != []
    ensures SextetBits(k) == BitsOf(k[0], 6) + SextetBits(k[1..])
  {
    hide BitsOf;
  }

  lemma TakeBytes(b: Bytes)
    requires |b| >= 3
    ensures ByteBits(b) == BitsOf(b[0], 8) + (BitsOf(b[1], 8) + (BitsOf(b[2], 8) + ByteBits(b[3..])))
  {
    hide BitsOf, ByteBits;
    FirstByteBits(b);
    FirstByteBits(b[1..]);
    FirstByteBits(b[2..]);
    assert b[1..][1..] == b[2..] && b[2..][1..] == b[3..];
  }

  lemma TakeSextets(k: seq<Sextet>)
    requires |k| >= 2
    ensures |k| == 2 ==> SextetBits(k) == BitsOf(k[0], 6) + BitsOf(k[1], 6)
    ensures |k| == 3 ==> SextetBits(k) == BitsOf(k[0], 6) + (BitsOf(k[1], 6) + BitsOf(k[2], 6))
    ensures |k| >= 4 ==>
      SextetBits(k) == BitsOf(k[0], 6) + (BitsOf(k[1], 6) + (BitsOf(k[2], 6) + (BitsOf(k[3], 6) + SextetBits(k[4..]))))
  {
    hide BitsOf, SextetBits;
    FirstSextetBits(k);
    FirstSextetBits(k[1..]);
    assert k[1..][1..] == k[2..];
    if |k| == 2 {
      NoSextets(k[2..]);
    } else {
      FirstSextetBits(k[2..]);
      assert k[2..][1..] == k[3..];
      if |k| == 3 {
        NoSextets(k[3..]);
      } else {
        FirstSextetBits(k[3..]);
        assert k[3..][1..] == k[4..];
      }
    }
  }

  lemma NoSextets(k: seq<Sextet>)
    requires k == []
    ensures forall x: seq<bool> :: x + SextetBits(k) == x
  {
  }

  lemma ShortBytes(b: Bytes)
    ensures |b| == 1 ==> ByteBits(b) == BitsOf(b[0], 8)
    ensures |b| == 2 ==> ByteBits(b) == BitsOf(b[0], 8) + BitsOf(b[1], 8)
  {
    hide BitsOf;
    if |b| == 1 {
      assert BitsOf(b[0], 8) + [] == BitsOf(b[0], 8);
    } else if |b| == 2 {
      assert BitsOf(b[1], 8) + [] == BitsOf(b[1], 8);
    }
  }

  lemma Chain<X>(a: seq<X>, b: seq<X>, c: seq<X>, d: seq<X>, r: seq<X>)
    ensures a + (b + (c + (d + r))) == a + b + c + d + r
    ensures a + (b + c) == a + b + c
    ensures a + (b + (c + r)) == a + b + c + r
  {
  }

  lemma SextetTail(b: Bytes)
    requires |b| >= 3
    ensures |Sextets(b)| >= 4
    ensures Sextets(b)[4..] == Sextets(b[3..])
  {
    hide First, Second, Third, Fourth;
    assert Sextets(b) == [First(b[0]), Second(b[0], b[1]), Third(b[1], b[2]), Fourth(b[2])] + Sextets(b[3..]);
  }

  /** Four characters for every three bytes begun. */
  lemma {:induction false} EncodedLength(b: Bytes)
    ensures |Encode64(b)| == (|b| + 2) / 3 * 4
  {
    hide Letters, First, Second, Third, Fourth;
    if |b| >= 3 {
      EncodedLength(b[3..]);
      hide Sextets, Padding;
      SextetTail(b);
      PaddingPeriod(|b|);
    }
  }

  lemma LastSextets(b: Bytes)
    requires 0 < |b| < 3
    ensures |b| == 1 ==> Sextets(b) == [First(b[0]), Second(b[0], 0)]
    ensures |b| == 2 ==> Sextets(b) == [First(b[0]), Second(b[0], b[1]), Third(b[1], 0)]
  {
    hide First, Second, Third, Fourth;
  }

  lemma LastBits1(b: Bytes)
    requires |b| == 1
    ensures SextetBits(Sextets(b)) == ByteBits(b) + BitsOf(0, 4)
  {
    hide BitsOf, Sextets, SextetBits, ByteBits, First, Second, Third;
    LastSextets(b);
    ShortGroupBits(b[0], 0);
    TakeSextets(Sextets(b));
    ShortBytes(b);
  }

  lemma LastBits2(b: Bytes)
    requires |b| == 2
    ensures SextetBits(Sextets(b)) == ByteBits(b) + BitsOf(0, 2)
  {
    hide BitsOf, Sextets, SextetBits, ByteBits, First, Second, Third;
    LastSextets(b);
    ShortGroupBits(b[0], b[1]);
    TakeSextets(Sextets(b));
    ShortBytes(b);
    var k := Sextets(b);
    Assoc(BitsOf(k[0], 6), BitsOf(k[1], 6), BitsOf(k[2], 6));
  }

  lemma FirstBits(b: Bytes)
    requires |b| >= 3
    ensures SextetBits(Sextets(b)) == BitsOf(b[0], 8) + BitsOf(b[1], 8) + BitsOf(b[2], 8) + SextetBits(Sextets(b[3..]))
    ensures ByteBits(b) == BitsOf(b[0], 8) + BitsOf(b[1], 8) + BitsOf(b[2], 8) + ByteBits(b[3..])
  {
    hide BitsOf, Sextets, SextetBits, ByteBits, First, Second, Third, Fourth;
    var k := Sextets(b);
    SextetTail(b);
    SextetsFront(b);
    GroupBits(b[0], b[1], b[2]);
    TakeSextets(k);
    TakeBytes(b);
    Chain(BitsOf(k[0], 6), BitsOf(k[1], 6), BitsOf(k[2], 6), BitsOf(k[3], 6), SextetBits(k[4..]));
    Chain(BitsOf(b[0], 8), BitsOf(b[1], 8), BitsOf(b[2], 8), [], ByteBits(b[3..]));
  }

  /** The sextets spell the bits of the bytes, with two zero bits for each padding character. */
  lemma {:induction false} EncodeIsBase64(b: Bytes)
    ensures SextetBits(Sextets(b)) == ByteBits(b) + BitsOf(0, 2 * |Padding(|b|)|)
  {
    hide *;
    ShortPadding();
    if b == [] {
      NoBits(b);
    } else if |b| == 1 {
      LastBits1(b);
    } else if |b| == 2 {
      LastBits2(b);
    } else {
      EncodeIsBase64(b[3..]);
      FirstBits(b);
      PaddingPeriod(|b|);
      Assoc(BitsOf(b[0], 8) + BitsOf(b[1], 8) + BitsOf(b[2], 8), ByteBits(b[3..]), BitsOf(0, 2 * |Padding(|b|)|));
    }
  }

  lemma ShortPadding()
    ensures |Padding(1)| == 2 && |Padding(2)| == 1
  {
  }

  lemma NoBits(b: Bytes)
    requires b == []
    ensures SextetBits(Sextets(b)) == ByteBits(b) + BitsOf(0, 2 * |Padding(|b|)|)
  {
    assert BitsOf(0, 0) == [];
  }
}
