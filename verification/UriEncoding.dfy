/** uriEncode of extensions/aws_sigv4.js, against sections 2.1 and 2.3 of RFC 3986. */
module UriEncoding {
  import opened Basics
  import opened Text
  import opened Utf8
  import Hex

  const PERCENT: Unit := 0x25
  const SLASH: Unit := 0x2f

  /** Section 2.3 of RFC 3986. */
  predicate IsUnreserved(c: Unit) {
    || 'A' as int <= c <= 'Z' as int || 'a' as int <= c <= 'z' as int || '0' as int <= c <= '9' as int
    || c == '-' as int || c == '_' as int || c == '.' as int || c == '~' as int
  }

  /** toString(16).toUpperCase() of a half byte. */
  function UpperHex(d: int): Unit
    requires 0 <= d < 16
  {
    if d < 10 then '0' as int + d else 'A' as int + d - 10
  }

  function Escape(b: Byte): Text { [PERCENT, UpperHex(b / 16), UpperHex(b % 16)] }

  function EscapeAll(b: Bytes): Text { if b == [] then [] else Escape(b[0]) + EscapeAll(b[1..]) }

  predicate IsLiteral(c: Unit, encodeSlash: bool) { IsUnreserved(c) || (c == SLASH && !encodeSlash) }

  /** One character of the string: the code handles UTF-16 units one at a time. */
  function EncodeUnit(c: Unit, encodeSlash: bool): Text {
    if IsLiteral(c, encodeSlash) then [c] else EscapeAll(Encode([c]))
  }

  function EncodeUri(s: Text, encodeSlash: bool): Text {
    if s == [] then [] else EncodeUnit(s[0], encodeSlash) + EncodeUri(s[1..], encodeSlash)
  }

  method UriEncode(s: Text, encodeSlash: bool) returns (out: Text)
    ensures out == EncodeUri(s, encodeSlash)
  {
    hide *;
    out := [];
    UriTurn(s, 0, encodeSlash, out);
    for i := 0 to |s|
      invariant out + EncodeUri(s[i..], encodeSlash) == EncodeUri(s, encodeSlash)
    {
      UriTurn(s, i, encodeSlash, out);
      EncodeUnitIs(s[i], encodeSlash);
      if IsUnreserved(s[i]) {
        out := out + [s[i]];
      } else if s[i] == SLASH && !encodeSlash {
        out := out + [SLASH];
      } else {
        var bs := StrToBytes([s[i]]);
        var escaped := EscapeBytes(bs);
        out := out + escaped;
      }
    }
    UriTurn(s, |s|, encodeSlash, out);
  }

  lemma UriTurn(s: Text, i: nat, encodeSlash: bool, out: Text)
    requires i <= |s|
    ensures i < |s| ==>
      out + EncodeUri(s[i..], encodeSlash) == (out + EncodeUnit(s[i], encodeSlash)) + EncodeUri(s[i + 1..], encodeSlash)
    ensures i == |s| ==> out + EncodeUri(s[i..], encodeSlash) == out
    ensures [] + EncodeUri(s[0..], encodeSlash) == EncodeUri(s, encodeSlash)
  {
    hide EncodeUnit;
    assert s[0..] == s;
    if i < |s| {
      assert s[i..][1..] == s[i + 1..];
    }
  }

  lemma EncodeUnitIs(c: Unit, encodeSlash: bool)
    ensures EncodeUnit(c, encodeSlash) ==
      if IsUnreserved(c) then [c] else if c == SLASH && !encodeSlash then [SLASH] else EscapeAll(Encode([c]))
  {
    hide EscapeAll, Encode;
  }

  /** The inner loop over the bytes of one character. */
  method EscapeBytes(bs: Bytes) returns (out: Text)
    ensures out == EscapeAll(bs)
  {
    out := [];
    for j := 0 to |bs|
      invariant out + EscapeAll(bs[j..]) == EscapeAll(bs)
    {
      hide Escape;
      assert bs[j..][1..] == bs[j + 1..];
      assert out + (Escape(bs[j]) + EscapeAll(bs[j + 1..])) == (out + Escape(bs[j])) + EscapeAll(bs[j + 1..]);
      out := out + Escape(bs[j]);
    }
    assert bs[|bs|..] == [] && out + [] == out;
  }

  // ---------------------------------------------------------------- section 2.1 of RFC 3986

  /** The octets a URI component stands for: %XX is one octet, any other ASCII character itself. */
  function PercentDecode(t: Text): seq<int>
    decreases |t|
  {
    if t == [] then []
    else if t[0] == PERCENT && |t| >= 3 && Hex.IsHexDigit(t[1]) && Hex.IsHexDigit(t[2])
    then [Hex.DigitValue(t[1]) * 16 + Hex.DigitValue(t[2])] + PercentDecode(t[3..])
    else [t[0]] + PercentDecode(t[1..])
  }

  lemma DecodeLiteral(c: Unit, rest: Text)
    requires c != PERCENT
    ensures PercentDecode([c] + rest) == [c] + PercentDecode(rest)
  {
    assert ([c] + rest)[1..] == rest;
    hide Hex.IsHexDigit, Hex.DigitValue;
  }

  lemma HexBack(b: Byte)
    ensures Hex.IsHexDigit(UpperHex(b / 16)) && Hex.IsHexDigit(UpperHex(b % 16))
    ensures Hex.DigitValue(UpperHex(b / 16)) * 16 + Hex.DigitValue(UpperHex(b % 16)) == b
  {
  }

  lemma DecodeEscape(b: Byte, rest: Text)
    ensures PercentDecode(Escape(b) + rest) == [b] + PercentDecode(rest)
  {
    HexBack(b);
    assert (Escape(b) + rest)[3..] == rest;
    hide Hex.IsHexDigit, Hex.DigitValue, UpperHex;
  }

  lemma {:induction false} DecodeEscapes(b: Bytes, rest: Text)
    ensures PercentDecode(EscapeAll(b) + rest) == b + PercentDecode(rest)
  {
    hide PercentDecode, Escape;
    if b == [] {
      assert [] + rest == rest;
    } else {
      DecodeEscapes(b[1..], rest);
      DecodeEscape(b[0], EscapeAll(b[1..]) + rest);
      Assoc(Escape(b[0]), EscapeAll(b[1..]), rest);
      Assoc([b[0]], b[1..], PercentDecode(rest));
      assert b == [b[0]] + b[1..];
    }
  }

  /** The UTF-8 of each unit on its own. */
  function UnitBytes(s: Text): Bytes { if s == [] then [] else Encode([s[0]]) + UnitBytes(s[1..]) }

  lemma LiteralBytes(c: Unit, encodeSlash: bool)
    requires IsLiteral(c, encodeSlash)
    ensures Encode([c]) == [c] && c != PERCENT
  {
    assert Drop([c], 1) == [] && Encode([]) == [];
  }

  lemma DecodeUnit(c: Unit, encodeSlash: bool, rest: Text)
    ensures PercentDecode(EncodeUnit(c, encodeSlash) + rest) == Encode([c]) + PercentDecode(rest)
  {
    hide PercentDecode, EscapeAll, Encode, IsLiteral;
    if IsLiteral(c, encodeSlash) {
      LiteralBytes(c, encodeSlash);
      DecodeLiteral(c, rest);
    } else {
      DecodeEscapes(Encode([c]), rest);
    }
  }

  lemma {:induction false} DecodeUri(s: Text, encodeSlash: bool)
    ensures PercentDecode(EncodeUri(s, encodeSlash)) == UnitBytes(s)
  {
    if s != [] {
      hide PercentDecode, EncodeUnit, Encode;
      DecodeUri(s[1..], encodeSlash);
      DecodeUnit(s[0], encodeSlash, EncodeUri(s[1..], encodeSlash));
    }
  }

  /** A high surrogate that is not the last unit. */
  predicate HighAt(s: Text, i: nat) { i + 1 < |s| && IsHigh(s[i]) }

  predicate NoInnerHigh(s: Text) { forall i | 0 <= i < |s| :: !HighAt(s, i) }

  lemma InnerHighRest(s: Text)
    requires s != []
    ensures NoInnerHigh(s) <==> !HighAt(s, 0) && NoInnerHigh(s[1..])
  {
    hide IsHigh;
    forall i | 1 <= i < |s| ensures HighAt(s, i) == HighAt(s[1..], i - 1) {
    }
    if !HighAt(s, 0) && NoInnerHigh(s[1..]) {
      forall i | 0 <= i < |s| ensures !HighAt(s, i) {
        assert i > 0 ==> HighAt(s, i) == HighAt(s[1..], i - 1);
      }
    }
    if NoInnerHigh(s) {
      forall i | 0 <= i < |s[1..]| ensures !HighAt(s[1..], i) {
        assert HighAt(s, i + 1) == HighAt(s[1..], i);
      }
    }
  }

  lemma EncodeOne(c: Unit)
    ensures !IsHigh(c) ==> Encode([c]) == Short(c)
    ensures IsHigh(c) ==> Encode([c]) == Long(Joined(c, 0))
    ensures |Encode([c])| > 0
  {
    assert Drop([c], 1) == [] && Drop([c], 2) == [] && Encode([]) == [];
  }

  /** Unit by unit the bytes are those of the string, and no more, exactly when no pair is taken apart. */
  lemma {:induction false} UnitBytesAre(s: Text)
    ensures |UnitBytes(s)| >= |Encode(s)|
    ensures UnitBytes(s) == Encode(s) <==> NoInnerHigh(s)
    ensures !NoInnerHigh(s) ==> |UnitBytes(s)| > |Encode(s)|
    decreases |s|
  {
    hide Encode, Short, Long, Joined, IsHigh;
    if s == [] {
      EmptyText();
    } else {
      EncodeOne(s[0]);
      EncodeFront(s);
      InnerHighRest(s);
      if !IsHigh(s[0]) {
        UnitBytesAre(s[1..]);
      } else if |s| == 1 {
        assert s[1..] == [] && Drop(s, 2) == [];
        EmptyText();
        assert Encode(s) == Encode([s[0]]);
      } else {
        UnitBytesAre(s[2..]);
        EncodeOne(s[1]);
        LongLength(Joined(s[0], s[1]));
        LongLength(Joined(s[0], 0));
        assert s[1..][1..] == s[2..];
      }
    }
  }

  lemma LongLength(cp: int)
    requires 0x1_0000 <= cp < 0x11_0000
    ensures |Long(cp)| == 4
  {
  }

  /** Percent-decoding gives what strToBytes makes of the whole string exactly when no high surrogate is followed by
      anything. */
  lemma DecodedIsEncoding(s: Text, encodeSlash: bool)
    ensures PercentDecode(EncodeUri(s, encodeSlash)) == Encode(s) <==> NoInnerHigh(s)
  {
    DecodeUri(s, encodeSlash);
    UnitBytesAre(s);
    hide PercentDecode, EncodeUri, Encode, UnitBytes, NoInnerHigh;
  }

  /** The digits of a number to base 64. */
  lemma Digits64(n: int, q: int, r: int)
    requires n == q * 64 + r && 0 <= r < 64
    ensures q == n / 64 && r == n % 64
  {
  }

  /** A code point has one UTF-8 sequence. */
  lemma Utf8Unique(a: Bytes, b: Bytes, cp: int)
    requires IsUtf8Of(a, cp) && IsUtf8Of(b, cp)
    ensures a == b
  {
    Utf8Digits(a, cp);
    Utf8Digits(b, cp);
    hide IsUtf8Of;
  }

  lemma Utf8Digits(os: Bytes, cp: int)
    requires IsUtf8Of(os, cp)
    ensures cp >= 0 && |os| == if cp <= 0x7f then 1 else if cp <= 0x7ff then 2 else if cp <= 0xffff then 3 else 4
    ensures |os| == 1 ==> os[0] == cp
    ensures |os| == 2 ==> os[0] == 0xc0 + cp / 64 && os[1] == 0x80 + cp % 64
    ensures |os| == 3 ==> os[0] == 0xe0 + cp / 64 / 64 && os[1] == 0x80 + cp / 64 % 64 && os[2] == 0x80 + cp % 64
    ensures |os| == 4 ==>
      && os[0] == 0xf0 + cp / 64 / 64 / 64 && os[1] == 0x80 + cp / 64 / 64 % 64
      && os[2] == 0x80 + cp / 64 % 64 && os[3] == 0x80 + cp % 64
  {
    if |os| == 2 {
      Digits64(cp, os[0] - 0xc0, os[1] - 0x80);
    } else if |os| == 3 {
      var q := (os[0] - 0xe0) as int * 64 + (os[1] - 0x80);
      Digits64(cp, q, os[2] - 0x80);
      Digits64(q, os[0] - 0xe0, os[1] - 0x80);
    } else if |os| == 4 {
      var p := (os[0] - 0xf0) as int * 64 + (os[1] - 0x80);
      var q := p * 64 + (os[2] - 0x80);
      Digits64(cp, q, os[3] - 0x80);
      Digits64(q, p, os[2] - 0x80);
      Digits64(p, os[0] - 0xf0, os[1] - 0x80);
    }
  }

  lemma FirstSequence(b: Bytes, cps: seq<int>) returns (n: nat)
    requires IsUtf8Text(b, cps) && cps != []
    ensures 0 < n <= |b| && IsUtf8Of(b[..n], cps[0]) && IsUtf8Text(b[n..], cps[1..])
  {
    hide IsUtf8Of;
    n :| 0 < n <= |b| && IsUtf8Of(b[..n], cps[0]) && IsUtf8Text(b[n..], cps[1..]);
  }

  lemma {:induction false} Utf8TextUnique(a: Bytes, b: Bytes, cps: seq<int>)
    requires IsUtf8Text(a, cps) && IsUtf8Text(b, cps)
    ensures a == b
    decreases |cps|
  {
    if cps != [] {
      var m := FirstSequence(a, cps);
      var n := FirstSequence(b, cps);
      hide IsUtf8Of, IsUtf8Text;
      Utf8Unique(a[..m], b[..n], cps[0]);
      Utf8TextUnique(a[m..], b[n..], cps[1..]);
      assert a == a[..m] + a[m..] && b == b[..n] + b[n..];
    }
  }

  predicate NoHigh(s: Text) { forall i | 0 <= i < |s| :: !IsHigh(s[i]) }

  /** Without lone surrogates, no high surrogate is last. */
  lemma {:induction false} HighIsInner(s: Text, i: nat)
    requires WellFormed(s) && i < |s| && IsHigh(s[i])
    ensures HighAt(s, i)
  {
    if i > 0 {
      if IsHigh(s[0]) {
        LowUnit(s[1]);
        HighIsInner(s[2..], i - 2);
      } else {
        HighIsInner(s[1..], i - 1);
      }
    }
  }

  /** PERCENT-DECODING GIVES THE UTF-8 OF THE STRING (section 3 of RFC 3629), for strings without lone surrogates,
      exactly when all its characters are in the Basic Multilingual Plane: others are encoded as their two halves. */
  lemma DecodedIsUtf8(s: Text, encodeSlash: bool)
    requires WellFormed(s)
    ensures PercentDecode(EncodeUri(s, encodeSlash)) == UnitBytes(s)
    ensures IsUtf8Text(UnitBytes(s), CodePoints(s)) <==> NoHigh(s)
  {
    DecodeUri(s, encodeSlash);
    UnitBytesAre(s);
    EncodeIsUtf8(s);
    if IsUtf8Text(UnitBytes(s), CodePoints(s)) {
      Utf8TextUnique(UnitBytes(s), Encode(s), CodePoints(s));
    }
    if NoHigh(s) {
      assert NoInnerHigh(s);
    } else {
      var i :| 0 <= i < |s| && IsHigh(s[i]);
      HighIsInner(s, i);
      assert HighAt(s, i);
    }
    hide PercentDecode, EncodeUri, Encode, UnitBytes, IsUtf8Text, IsHigh, WellFormed, CodePoints;
  }

  // ---------------------------------------------------------------- the output's alphabet

  /** Only literal characters and `%` with two upper-case hexadecimal digits. */
  predicate Escaped(t: Text, encodeSlash: bool)
    decreases |t|
  {
    || t == []
    || (IsLiteral(t[0], encodeSlash) && Escaped(t[1..], encodeSlash))
    || (|t| >= 3 && t[0] == PERCENT && IsUpperHex(t[1]) && IsUpperHex(t[2]) && Escaped(t[3..], encodeSlash))
  }

  predicate IsUpperHex(c: Unit) { '0' as int <= c <= '9' as int || 'A' as int <= c <= 'F' as int }

  lemma {:induction false} EscapesAreEscaped(b: Bytes, rest: Text, encodeSlash: bool)
    requires Escaped(rest, encodeSlash)
    ensures Escaped(EscapeAll(b) + rest, encodeSlash)
  {
    if b == [] {
      assert [] + rest == rest;
    } else {
      EscapesAreEscaped(b[1..], rest, encodeSlash);
      var t, tail := EscapeAll(b) + rest, EscapeAll(b[1..]) + rest;
      assert t == Escape(b[0]) + tail;
      assert t[3..] == tail;
    }
  }

  lemma {:induction false} OutputIsEscaped(s: Text, encodeSlash: bool)
    ensures Escaped(EncodeUri(s, encodeSlash), encodeSlash)
  {
    if s != [] {
      var rest := EncodeUri(s[1..], encodeSlash);
      OutputIsEscaped(s[1..], encodeSlash);
      EscapesAreEscaped(Encode([s[0]]), rest, encodeSlash);
      assert ([s[0]] + rest)[1..] == rest;
      hide IsUnreserved, EscapeAll, Encode;
    }
  }

  predicate AllLiteral(s: Text, encodeSlash: bool) { forall i | 0 <= i < |s| :: IsLiteral(s[i], encodeSlash) }

  /** Literal characters are never escaped, and all others always: the encoding is the string itself exactly when
      every character is literal, and longer otherwise. */
  lemma {:induction false} KeptExactly(s: Text, encodeSlash: bool)
    ensures EncodeUri(s, encodeSlash) == s <==> AllLiteral(s, encodeSlash)
    ensures |EncodeUri(s, encodeSlash)| >= |s| && (!AllLiteral(s, encodeSlash) ==> |EncodeUri(s, encodeSlash)| > |s|)
  {
    if s != [] {
      KeptExactly(s[1..], encodeSlash);
      EncodeOne(s[0]);
      assert Encode([s[0]]) != [] && |EscapeAll(Encode([s[0]]))| >= 3;
      assert s == [s[0]] + s[1..];
      assert AllLiteral(s, encodeSlash) <==> IsLiteral(s[0], encodeSlash) && AllLiteral(s[1..], encodeSlash);
      hide IsLiteral, Encode, EscapeAll;
    }
  }

  lemma EncodeUnits(a: Unit, s: Text, encodeSlash: bool)
    ensures EncodeUri([a] + s, encodeSlash) == EncodeUnit(a, encodeSlash) + EncodeUri(s, encodeSlash)
  {
    assert ([a] + s)[1..] == s;
    hide EncodeUnit;
  }

  /** A blank, a slash and a tilde. */
  lemma ThreeUnits()
    ensures EncodeUri(T(" /~"), true) == T("%20") + T("%2F") + T("~")
    ensures EncodeUri(T(" /~"), false) == T("%20") + T("/") + T("~")
  {
    EncodeOne(0x20);
    EncodeOne(0x2f);
    assert EscapeAll([0x20]) == Escape(0x20) + [] == T("%20");
    assert EscapeAll([0x2f]) == Escape(0x2f) + [] == T("%2F");
    assert T(" /~") == [0x20] + ([0x2f] + [0x7e]) && T("/") == [0x2f] && T("~") == [0x7e] == [0x7e] + [];
    assert !IsHigh(0x20) && !IsHigh(0x2f);
    forall e: bool
      ensures EncodeUnit(0x20, e) == T("%20") && EncodeUnit(0x7e, e) == T("~")
      ensures EncodeUnit(0x2f, e) == if e then T("%2F") else T("/")
      ensures EncodeUri(T(" /~"), e) == EncodeUnit(0x20, e) + EncodeUnit(0x2f, e) + EncodeUnit(0x7e, e)
    {
      hide T, EscapeAll, Encode;
      EncodeUnits(0x20, [0x2f] + [0x7e], e);
      EncodeUnits(0x2f, [0x7e], e);
      EncodeUnits(0x7e, [], e);
      assert EncodeUri([], e) == [];
      assert EncodeUnit(0x7e, e) + [] == EncodeUnit(0x7e, e);
    }
  }
}
