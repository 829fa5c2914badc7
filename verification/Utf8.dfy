/** strToBytes and bytesToStr of extensions/taffy.js, against section 3 of RFC 3629. */
module Utf8 {
  import opened Text

  type Byte = x: int | 0 <= x < 0x100

  type Bytes = seq<Byte>

  /** (c & 0xfc00) === 0xd800 */
  predicate IsHigh(c: Unit) { c / 0x400 == 0x36 }

  predicate IsLow(c: Unit) { c / 0x400 == 0x37 }

  /** charCodeAt: past the end it is NaN, which the masks below turn into 0. */
  function CodeAt(s: Text, i: nat): Unit { if i < |s| then s[i] else 0 }

  function ByteAt(b: Bytes, i: nat): Byte { if i < |b| then b[i] else 0 }

  // ---------------------------------------------------------------- the two loops
  // Shifts and masks of non-negative numbers are written with / and %, `|` of disjoint bits with +.

  function Tail(n: nat): Byte { 0x80 + n % 0x40 }

  function Short(c: Unit): Bytes {
    if c < 0x80 then [c]
    else if c < 0x800 then [0xc0 + c / 0x40, Tail(c)]
    else [0xe0 + c / 0x1000, Tail(c / 0x40), Tail(c)]
  }

  /** The code point of two units taken for a surrogate pair. */
  function Joined(c: Unit, c2: Unit): (cp: int)
    ensures 0x1_0000 <= cp < 0x11_0000
  {
    0x1_0000 + (c % 0x400 * 0x400 + c2 % 0x400)
  }

  function Long(cp: int): Bytes
    requires 0x1_0000 <= cp < 0x11_0000
  {
    [0xf0 + cp / 0x4_0000, Tail(cp / 0x1000), Tail(cp / 0x40), Tail(cp)]
  }

  function Drop<X>(s: seq<X>, n: nat): (r: seq<X>)
    ensures |r| == if n <= |s| then |s| - n else 0
  {
    if n <= |s| then s[n..] else []
  }

  lemma DropDrop<X>(s: seq<X>, i: nat, n: nat)
    ensures Drop(Drop(s, i), n) == Drop(s, i + n)
  {
  }

  function Encode(s: Text): Bytes
    decreases |s|
  {
    if s == [] then []
    else if IsHigh(s[0]) then Long(Joined(s[0], CodeAt(s, 1))) + Encode(Drop(s, 2))
    else Short(s[0]) + Encode(Drop(s, 1))
  }

  lemma LongForm(cp: int)
    requires 0x1_0000 <= cp < 0x11_0000
    ensures Long(cp) == [0xf0 + cp / 0x4_0000, Tail(cp / 0x1000), Tail(cp / 0x40), Tail(cp)]
  {
    hide Tail;
  }

  lemma ShortForm(c: Unit)
    ensures Short(c) ==
      if c < 0x80 then [c]
      else if c < 0x800 then [0xc0 + c / 0x40, Tail(c)] else [0xe0 + c / 0x1000, Tail(c / 0x40), Tail(c)]
    ensures c < 0x800 ==> !IsHigh(c)
  {
    hide Tail;
  }

  method StrToBytes(s: Text) returns (out: Bytes)
    ensures out == Encode(s)
  {
    out := [];
    var i := 0;
    while i < |s|
      invariant 0 <= i && out + Encode(Drop(s, i)) == Encode(s)
    {
      hide *;
      var c := s[i];
      EncodeTurn(s, i, out);
      ShortForm(c);
      if c < 0x80 {
        out := out + [c];
      } else if c < 0x800 {
        out := out + [0xc0 + c / 0x40, Tail(c)];
      } else if IsHigh(c) {
        i := i + 1;
        var cp := Joined(c, CodeAt(s, i));
        LongForm(cp);
        out := out + [0xf0 + cp / 0x4_0000, Tail(cp / 0x1000), Tail(cp / 0x40), Tail(cp)];
      } else {
        out := out + [0xe0 + c / 0x1000, Tail(c / 0x40), Tail(c)];
      }
      i := i + 1;
    }
  }

  lemma EncodeTurn(s: Text, i: nat, out: Bytes)
    requires i < |s|
    ensures IsHigh(s[i]) ==>
      out + Encode(Drop(s, i)) == (out + Long(Joined(s[i], CodeAt(s, i + 1)))) + Encode(Drop(s, i + 2))
    ensures !IsHigh(s[i]) ==> out + Encode(Drop(s, i)) == (out + Short(s[i])) + Encode(Drop(s, i + 1))
  {
    DropDrop(s, i, 1);
    DropDrop(s, i, 2);
    assert Drop(s, i)[0] == s[i] && CodeAt(Drop(s, i), 1) == CodeAt(s, i + 1);
    hide Long, Short, Joined, IsHigh;
  }

  function Join2(c: Byte, c1: Byte): Unit { c % 0x20 * 0x40 + c1 % 0x40 }

  function Join3(c: Byte, c1: Byte, c2: Byte): Unit { c % 0x10 * 0x1000 + c1 % 0x40 * 0x40 + c2 % 0x40 }

  function Join4(c: Byte, c1: Byte, c2: Byte, c3: Byte): (cp: int)
    ensures 0 <= cp < 0x20_0000
  {
    c % 8 * 0x4_0000 + c1 % 0x40 * 0x1000 + c2 % 0x40 * 0x40 + c3 % 0x40
  }

  /** The surrogate pair of cp + 0x10000; / and % also say what >> and & do to a negative cp. */
  function Split(cp: int): Text
    requires -0x1_0000 <= cp < 0x20_0000
  {
    [0xd800 + cp / 0x400, 0xdc00 + cp % 0x400]
  }

  /** What one turn of the decoding loop appends. */
  function Head(c: Byte, c1: Byte, c2: Byte, c3: Byte): Text {
    if c < 0x80 then [c]
    else if 0xc0 <= c < 0xe0 then [Join2(c, c1)]
    else if 0xe0 <= c < 0xf0 then [Join3(c, c1, c2)]
    else Split(Join4(c, c1, c2, c3) - 0x1_0000)
  }

  function Used(c: Byte): (n: nat)
    ensures n > 0
  {
    if c < 0x80 then 1 else if 0xc0 <= c < 0xe0 then 2 else if 0xe0 <= c < 0xf0 then 3 else 4
  }

  function Decode(b: Bytes): Text
    decreases |b|
  {
    if b == [] then [] else Head(b[0], ByteAt(b, 1), ByteAt(b, 2), ByteAt(b, 3)) + Decode(Drop(b, Used(b[0])))
  }

  method BytesToStr(b: Bytes) returns (s: Text)
    ensures s == Decode(b)
  {
    s := [];
    var i := 0;
    while i < |b|
      invariant 0 <= i && s + Decode(Drop(b, i)) == Decode(b)
      decreases |b| - i
    {
      hide Decode, Drop, ByteAt, Join2, Join3, Join4, Split;
      DecodeTurn(b, i, s);
      var c := b[i];
      i := i + 1;
      if c < 0x80 {
        s := s + [c];
      } else if 0xc0 <= c < 0xe0 {
        s := s + [Join2(c, ByteAt(b, i))];
        i := i + 1;
      } else if 0xe0 <= c < 0xf0 {
        s := s + [Join3(c, ByteAt(b, i), ByteAt(b, i + 1))];
        i := i + 2;
      } else {
        var cp := Join4(c, ByteAt(b, i), ByteAt(b, i + 1), ByteAt(b, i + 2));
        cp := cp - 0x1_0000;
        s := s + Split(cp);
        i := i + 3;
      }
    }
  }

  lemma DecodeTurn(b: Bytes, i: nat, s: Text)
    requires i < |b|
    ensures s + Decode(Drop(b, i)) ==
      (s + Head(b[i], ByteAt(b, i + 1), ByteAt(b, i + 2), ByteAt(b, i + 3))) + Decode(Drop(b, i + Used(b[i])))
  {
    DropDrop(b, i, Used(b[i]));
    assert Drop(b, i)[0] == b[i];
    assert forall k: nat :: k > 0 ==> ByteAt(Drop(b, i), k) == ByteAt(b, i + k);
    hide Head, Used;
  }

  // ---------------------------------------------------------------- malformed bytes

  /** A single byte, whatever it is: what is missing counts as zeros, and a byte that cannot start a sequence is taken for the
      start of one of four. */
  lemma OneByte(c: Byte)
    ensures Decode([c]) ==
      if c < 0x80 then [c] else if c < 0xc0 || 0xf0 <= c then [0xd7c0 + c % 8 * 0x100, 0xdc00]
      else if c < 0xe0 then [c % 32 * 64] else [c % 16 * 4096]
  {
    hide Head, Used;
    assert Drop([c], Used(c)) == [] && Decode([]) == [];
    assert Decode([c]) == Head(c, 0, 0, 0) + [] == Head(c, 0, 0, 0);
    OneByteHead(c);
  }

  lemma OneByteHead(c: Byte)
    ensures Head(c, 0, 0, 0) ==
      if c < 0x80 then [c] else if c < 0xc0 || 0xf0 <= c then [0xd7c0 + c % 8 * 0x100, 0xdc00]
      else if c < 0xe0 then [c % 32 * 64] else [c % 16 * 4096]
  {
    var r := c % 8;
    assert Join4(c, 0, 0, 0) == r * 0x4_0000;
    SplitMultiple(r);
    hide Join4, Split;
  }

  lemma SplitMultiple(r: int)
    requires 0 <= r < 8
    ensures Split(r * 0x4_0000 - 0x1_0000) == [0xd7c0 + r * 0x100, 0xdc00]
  {
    var q := r * 0x100 - 0x40;
    assert r * 0x4_0000 - 0x1_0000 == 0x400 * q;
  }

  // ---------------------------------------------------------------- round trip

  /** Every high surrogate is followed at once by a low one; lone low surrogates are allowed. */
  predicate Paired(s: Text) {
    forall i | 0 <= i < |s| :: HighIsPaired(s, i)
  }

  predicate HighIsPaired(s: Text, i: nat)
    requires i < |s|
  {
    IsHigh(s[i]) ==> i + 1 < |s| && IsLow(s[i + 1])
  }

  lemma DecodeFront(front: Bytes, rest: Bytes)
    requires front != [] && |front| == Used(front[0])
    ensures Decode(front + rest) ==
      Head(front[0], ByteAt(front + rest, 1), ByteAt(front + rest, 2), ByteAt(front + rest, 3)) + Decode(rest)
    ensures forall k: nat :: k < |front| ==> ByteAt(front + rest, k) == front[k]
  {
    assert Drop(front + rest, |front|) == rest;
    hide Head, Used;
  }

  lemma Join2Short(c: Unit)
    requires 0x80 <= c < 0x800
    ensures Join2(0xc0 + c / 0x40, Tail(c)) == c
  {
    assert (0xc0 + c / 0x40) % 0x20 == c / 0x40;
    TailBack(c);
    hide Tail;
  }

  lemma Join3Short(c: Unit)
    requires 0x800 <= c
    ensures Join3(0xe0 + c / 0x1000, Tail(c / 0x40), Tail(c)) == c
  {
    var q, r := c / 0x40, c / 0x1000;
    assert r == q / 0x40 && (0xe0 + r) % 0x10 == r;
    TailBack(q);
    TailBack(c);
    hide Tail;
  }

  lemma HeadShort(c: Unit, c1: Byte, c2: Byte, c3: Byte)
    requires |Short(c)| > 1 ==> c1 == Short(c)[1]
    requires |Short(c)| > 2 ==> c2 == Short(c)[2]
    ensures |Short(c)| == Used(Short(c)[0]) && Head(Short(c)[0], c1, c2, c3) == [c]
  {
    if 0x80 <= c < 0x800 {
      Join2Short(c);
    } else if 0x800 <= c {
      Join3Short(c);
    }
    hide Tail, Join2, Join3, Join4, Split;
  }

  lemma Join4Long(cp: int)
    requires 0x1_0000 <= cp < 0x11_0000
    ensures Join4(Long(cp)[0], Long(cp)[1], Long(cp)[2], Long(cp)[3]) == cp
  {
    var q1, q2, q3 := cp / 0x40, cp / 0x1000, cp / 0x4_0000;
    assert q2 == q1 / 0x40 && q3 == q2 / 0x40;
    assert (0xf0 + q3) % 8 == q3;
    TailBack(q2);
    TailBack(q1);
    TailBack(cp);
    hide Tail;
  }

  lemma TailBack(n: nat)
    ensures Tail(n) % 0x40 == n % 0x40
  {
  }

  lemma HeadLong(cp: int)
    requires 0x1_0000 <= cp < 0x11_0000
    ensures Used(Long(cp)[0]) == 4
    ensures Head(Long(cp)[0], Long(cp)[1], Long(cp)[2], Long(cp)[3]) == Split(cp - 0x1_0000)
  {
    hide Tail, Join4, Split, Join2, Join3;
    Join4Long(cp);
  }

  lemma DecodeShort(c: Unit, rest: Bytes)
    ensures Decode(Short(c) + rest) == [c] + Decode(rest)
  {
    var front := Short(c);
    HeadShort(c, if |front| > 1 then front[1] else 0, if |front| > 2 then front[2] else 0, 0);
    DecodeFront(front, rest);
    HeadShort(c, ByteAt(front + rest, 1), ByteAt(front + rest, 2), ByteAt(front + rest, 3));
    hide *;
  }

  lemma DecodeLong(c: Unit, c2: Unit, rest: Bytes)
    requires IsHigh(c)
    ensures Decode(Long(Joined(c, c2)) + rest) == [c, 0xdc00 + c2 % 0x400] + Decode(rest)
  {
    var cp := Joined(c, c2);
    assert 0xd800 + (cp - 0x1_0000) / 0x400 == c && (cp - 0x1_0000) % 0x400 == c2 % 0x400;
    assert Split(cp - 0x1_0000) == [c, 0xdc00 + c2 % 0x400];
    assert |Long(cp)| == 4;
    hide *;
    HeadLong(cp);
    DecodeFront(Long(cp), rest);
  }

  lemma PairedRest(s: Text, n: nat)
    requires 0 < n <= |s| && (forall i | 0 <= i < n :: HighIsPaired(s, i))
    ensures Paired(s) <==> Paired(s[n..])
  {
    forall i | n <= i < |s| ensures HighIsPaired(s, i) == HighIsPaired(s[n..], i - n) {
    }
    if Paired(s[n..]) {
      forall i | 0 <= i < |s| ensures HighIsPaired(s, i) {
        assert i >= n ==> HighIsPaired(s[n..], i - n);
      }
    }
    if Paired(s) {
      forall i | 0 <= i < |s[n..]| ensures HighIsPaired(s[n..], i) {
        assert HighIsPaired(s, i + n);
      }
    }
  }

  lemma EncodeFront(s: Text)
    requires s != []
    ensures IsHigh(s[0]) ==> Encode(s) == Long(Joined(s[0], CodeAt(s, 1))) + Encode(Drop(s, 2))
    ensures !IsHigh(s[0]) ==> Encode(s) == Short(s[0]) + Encode(s[1..])
  {
    hide Long, Short, Joined, IsHigh;
  }

  lemma LowUnit(c: Unit)
    ensures IsLow(c) <==> c == 0xdc00 + c % 0x400
    ensures IsLow(c) ==> !IsHigh(c)
  {
  }

  /** THE ROUND TRIP holds exactly when no high surrogate lacks its low one. */
  lemma {:induction false} DecodeEncode(s: Text)
    ensures Decode(Encode(s)) == s <==> Paired(s)
    ensures |Decode(Encode(s))| >= |s|
    decreases |s|
  {
    hide Encode, Decode, Long, Short, Joined, Paired, IsLow, IsHigh;
    if s == [] {
      EmptyText();
    } else if !IsHigh(s[0]) {
      EncodeFront(s);
      DecodeEncode(s[1..]);
      DecodeShort(s[0], Encode(s[1..]));
      PairedRest(s, 1);
      assert s == [s[0]] + s[1..];
    } else {
      var rest := Drop(s, 2);
      EncodeFront(s);
      DecodeLong(s[0], CodeAt(s, 1), Encode(rest));
      DecodeEncode(rest);
      PairedFront(s);
      if |s| >= 2 {
        LowUnit(s[1]);
        assert s == [s[0], s[1]] + rest;
      }
    }
  }

  lemma EmptyText()
    ensures Decode(Encode([])) == [] && Paired([])
  {
  }

  lemma PairedFront(s: Text)
    requires s != [] && IsHigh(s[0])
    ensures Paired(s) <==> |s| >= 2 && IsLow(s[1]) && Paired(s[2..])
  {
    if |s| >= 2 && IsLow(s[1]) {
      LowUnit(s[1]);
      assert HighIsPaired(s, 0) && HighIsPaired(s, 1);
      PairedRest(s, 2);
    } else {
      assert !HighIsPaired(s, 0);
    }
    hide IsHigh, IsLow, HighIsPaired;
  }

  // ---------------------------------------------------------------- section 3 of RFC 3629

  /** The code points of a string without lone surrogates (section 2.1 of RFC 2781). */
  function CodePoints(s: Text): seq<int>
    requires WellFormed(s)
  {
    if s == [] then []
    else if IsHigh(s[0]) then [0x1_0000 + (s[0] - 0xd800) * 0x400 + (s[1] - 0xdc00)] + CodePoints(s[2..])
    else [s[0]] + CodePoints(s[1..])
  }

  predicate WellFormed(s: Text) {
    if s == [] then true
    else if IsHigh(s[0]) then |s| > 1 && IsLow(s[1]) && WellFormed(s[2..])
    else !IsLow(s[0]) && WellFormed(s[1..])
  }

  /** Octet i of a sequence carries six payload bits behind `10`. */
  predicate IsTail(o: Byte) { 0x80 <= o <= 0xbf }

  function Payload(o: Byte, marker: int): int { o - marker }

  /** `os` is the UTF-8 sequence of `cp`: the row of the table its range selects, and its payload bits. */
  predicate IsUtf8Of(os: Bytes, cp: int) {
    || (0 <= cp <= 0x7f && os == [cp])
    || (0x80 <= cp <= 0x7ff && |os| == 2 && 0xc0 <= os[0] <= 0xdf && IsTail(os[1])
        && cp == Payload(os[0], 0xc0) * 64 + Payload(os[1], 0x80))
    || (0x800 <= cp <= 0xffff && !(0xd800 <= cp <= 0xdfff) && |os| == 3 && 0xe0 <= os[0] <= 0xef && IsTail(os[1]) && IsTail(os[2])
        && cp == (Payload(os[0], 0xe0) * 64 + Payload(os[1], 0x80)) * 64 + Payload(os[2], 0x80))
    || (0x1_0000 <= cp <= 0x10_ffff && |os| == 4 && 0xf0 <= os[0] <= 0xf7 && IsTail(os[1]) && IsTail(os[2]) && IsTail(os[3])
        && cp == ((Payload(os[0], 0xf0) * 64 + Payload(os[1], 0x80)) * 64 + Payload(os[2], 0x80)) * 64 + Payload(os[3], 0x80))
  }

  /** `b` is the concatenation of the UTF-8 sequences of `cps`. */
  ghost predicate IsUtf8Text(b: Bytes, cps: seq<int>) {
    if cps == [] then b == []
    else exists n | 0 < n <= |b| :: IsUtf8Of(b[..n], cps[0]) && IsUtf8Text(b[n..], cps[1..])
  }

  lemma ShortIsUtf8(c: Unit)
    requires !IsHigh(c) && !IsLow(c)
    ensures IsUtf8Of(Short(c), c)
  {
  }

  lemma LongIsUtf8(cp: int)
    requires 0x1_0000 <= cp < 0x11_0000
    ensures IsUtf8Of(Long(cp), cp)
  {
    assert cp / 0x1000 == cp / 0x40 / 0x40 && cp / 0x4_0000 == cp / 0x1000 / 0x40;
    var o0, o1, o2, o3 := cp / 0x4_0000, cp / 0x1000 % 0x40, cp / 0x40 % 0x40, cp % 0x40;
    assert o0 * 0x4_0000 + o1 * 0x1000 + o2 * 0x40 + o3 == cp;
  }

  lemma {:induction false} EncodeIsUtf8(s: Text)
    requires WellFormed(s)
    ensures IsUtf8Text(Encode(s), CodePoints(s))
  {
    if s != [] {
      var n, head, cp := 1, Short(s[0]), s[0];
      if IsHigh(s[0]) {
        n, cp := 2, Joined(s[0], s[1]);
        head := Long(cp);
        LongIsUtf8(cp);
      } else {
        ShortIsUtf8(s[0]);
      }
      EncodeIsUtf8(s[n..]);
      hide IsUtf8Of, Short, Long;
      var b := Encode(s);
      assert b == head + Encode(s[n..]);
      assert b[..|head|] == head && b[|head|..] == Encode(s[n..]);
      assert CodePoints(s)[0] == cp && CodePoints(s)[1..] == CodePoints(s[n..]);
    }
  }
}
