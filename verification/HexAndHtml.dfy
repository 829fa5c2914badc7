/** bytesToHex and hexToBytes of extensions/taffy.js. */
module Hex {
  import opened Text
  import opened Utf8

  /** [0-9a-fA-F] */
  predicate IsHexDigit(c: Unit) {
    '0' as int <= c <= '9' as int || 'a' as int <= c <= 'f' as int || 'A' as int <= c <= 'F' as int
  }

  /** A digit of toString(16). */
  function Digit(d: int): Unit
    requires 0 <= d < 16
  {
    if d < 10 then '0' as int + d else 'a' as int + d - 10
  }

  /** parseInt of one hexadecimal digit. */
  function DigitValue(c: Unit): (d: int)
    requires IsHexDigit(c)
    ensures 0 <= d < 16
  {
    if c >= 'a' as int then c - 'a' as int + 10 else if c >= 'A' as int then c - 'A' as int + 10 else c - '0' as int
  }

  function Pair(b: Byte): Text { [Digit(b / 16), Digit(b % 16)] }

  function EncodeHex(b: Bytes): Text { if b == [] then [] else Pair(b[0]) + EncodeHex(b[1..]) }

  /** b.toString(16): no leading zero. */
  function ToString16(b: Byte): Text { if b < 16 then [Digit(b)] else Pair(b) }

  method BytesToHex(b: Bytes) returns (h: Text)
    ensures h == EncodeHex(b)
  {
    h := [];
    var i := 0;
    while i < |b|
      invariant 0 <= i <= |b| && h + EncodeHex(b[i..]) == EncodeHex(b)
    {
      assert b[i..][1..] == b[i + 1..];
      ghost var before := h;
      var x := ToString16(b[i]);
      if |x| < 2 { x := [Digit(0)] + x; }
      assert x == Pair(b[i]);
      h := h + x;
      hide Pair, ToString16;
      assert before + (x + EncodeHex(b[i + 1..])) == h + EncodeHex(b[i + 1..]);
      i := i + 1;
    }
    assert h + [] == h;
  }

  predicate AllHex(c: Text) {
    forall i | 0 <= i < |c| :: IsHexDigit(c[i])
  }

  function DecodePairs(c: Text): Bytes
    requires AllHex(c)
  {
    if |c| < 2 then [] else [DigitValue(c[0]) * 16 + DigitValue(c[1])] + DecodePairs(c[2..])
  }

  function DecodeHex(s: Text): Bytes { DecodePairs(Filter(s, IsHexDigit)) }

  method HexToBytes(s: Text) returns (out: Bytes)
    ensures out == DecodeHex(s)
  {
    var clean := Filter(s, IsHexDigit);
    out := [];
    var i := 0;
    assert clean[0..] == clean;
    while i + 1 < |clean|
      invariant 0 <= i <= |clean| && AllHex(clean[i..]) && out + DecodePairs(clean[i..]) == DecodePairs(clean)
    {
      hide DigitValue, IsHexDigit;
      var x := DigitValue(clean[i]) * 16 + DigitValue(clean[i + 1]);
      assert clean[i..][2..] == clean[i + 2..];
      assert out + ([x] + DecodePairs(clean[i + 2..])) == (out + [x]) + DecodePairs(clean[i + 2..]);
      out := out + [x];
      i := i + 2;
    }
  }

  lemma DigitBack(d: int, c: Unit)
    requires 0 <= d < 16 && IsHexDigit(c) && LowerUnit(c) == Digit(d)
    ensures DigitValue(c) == d
  {
  }

  lemma {:induction false} PairsBack(b: Bytes, c: Text)
    requires AllHex(c) && Lower(c) == EncodeHex(b)
    ensures DecodePairs(c) == b
  {
    if b == [] {
      assert |c| == |Lower(c)|;
    } else {
      var l := Lower(c);
      assert l[0] == Digit(b[0] / 16) && l[1] == Digit(b[0] % 16) && l[2..] == EncodeHex(b[1..]);
      DigitBack(b[0] / 16, c[0]);
      DigitBack(b[0] % 16, c[1]);
      assert Lower(c[2..]) == l[2..];
      PairsBack(b[1..], c[2..]);
    }
  }

  /** DECODING UNDOES ENCODING, in either case and with any other characters in between. */
  lemma DecodeEncodeHex(b: Bytes, s: Text)
    requires Lower(Filter(s, IsHexDigit)) == EncodeHex(b)
    ensures DecodeHex(s) == b
  {
    PairsBack(b, Filter(s, IsHexDigit));
  }

  lemma {:induction false} EncodeHexIsHex(b: Bytes)
    ensures AllHex(EncodeHex(b)) && Lower(EncodeHex(b)) == EncodeHex(b) && |EncodeHex(b)| == 2 * |b|
  {
    if b != [] {
      EncodeHexIsHex(b[1..]);
      var rest := EncodeHex(b[1..]);
      assert forall i | 0 <= i < |rest| :: LowerUnit(rest[i]) == Lower(rest)[i] == rest[i];
    }
  }

  lemma HexRoundTrip(b: Bytes)
    ensures DecodeHex(EncodeHex(b)) == b
  {
    EncodeHexIsHex(b);
    FilterAll(EncodeHex(b), IsHexDigit);
    DecodeEncodeHex(b, EncodeHex(b));
  }
}

/** htmlEncode of extensions/taffy.js: five replacements in a row. */
module HtmlEntities {
  import opened Basics
  import opened Text

  const AMP: Unit := 0x26
  const LESS: Unit := 0x3c
  const GREATER: Unit := 0x3e
  const QUOTE: Unit := 0x22
  const APOS: Unit := 0x27

  /** s.replace(/c/g, by) */
  function ReplaceAll(s: Text, c: Unit, rep: Text): Text {
    if s == [] then [] else (if s[0] == c then rep else [s[0]]) + ReplaceAll(s[1..], c, rep)
  }

  function HtmlEncode(s: Text): Text {
    var a := ReplaceAll(s, AMP, T("&amp;"));
    var b := ReplaceAll(a, LESS, T("&lt;"));
    var c := ReplaceAll(b, GREATER, T("&gt;"));
    var d := ReplaceAll(c, QUOTE, T("&quot;"));
    ReplaceAll(d, APOS, T("&#39;"))
  }

  /** The character reference of a special character, and any other character itself. */
  function Reference(c: Unit): Text {
    if c == AMP then T("&amp;") else if c == LESS then T("&lt;") else if c == GREATER then T("&gt;")
    else if c == QUOTE then T("&quot;") else if c == APOS then T("&#39;") else [c]
  }

  function Escaped(s: Text): Text { if s == [] then [] else Reference(s[0]) + Escaped(s[1..]) }

  /** What a reader of HTML sees: the five references replaced by their characters, left to right. */
  function Unescaped(s: Text): Text
    decreases |s|
  {
    if s == [] then []
    else if HasPrefix(s, T("&amp;")) then [AMP] + Unescaped(s[5..])
    else if HasPrefix(s, T("&lt;")) then [LESS] + Unescaped(s[4..])
    else if HasPrefix(s, T("&gt;")) then [GREATER] + Unescaped(s[4..])
    else if HasPrefix(s, T("&quot;")) then [QUOTE] + Unescaped(s[6..])
    else if HasPrefix(s, T("&#39;")) then [APOS] + Unescaped(s[5..])
    else [s[0]] + Unescaped(s[1..])
  }

  lemma {:induction false} ReplaceConcat(a: Text, b: Text, c: Unit, rep: Text)
    ensures ReplaceAll(a + b, c, rep) == ReplaceAll(a, c, rep) + ReplaceAll(b, c, rep)
  {
    if a == [] {
      assert a + b == b;
    } else {
      assert (a + b)[1..] == a[1..] + b;
      ReplaceConcat(a[1..], b, c, rep);
    }
  }

  lemma {:induction false} ReplaceNone(a: Text, c: Unit, rep: Text)
    requires c !in a
    ensures ReplaceAll(a, c, rep) == a
  {
    if a != [] {
      ReplaceNone(a[1..], c, rep);
    }
  }

  lemma EncodeConcat(a: Text, b: Text)
    ensures HtmlEncode(a + b) == HtmlEncode(a) + HtmlEncode(b)
  {
    ReplaceConcat(a, b, AMP, T("&amp;"));
    var a1, b1 := ReplaceAll(a, AMP, T("&amp;")), ReplaceAll(b, AMP, T("&amp;"));
    ReplaceConcat(a1, b1, LESS, T("&lt;"));
    var a2, b2 := ReplaceAll(a1, LESS, T("&lt;")), ReplaceAll(b1, LESS, T("&lt;"));
    ReplaceConcat(a2, b2, GREATER, T("&gt;"));
    var a3, b3 := ReplaceAll(a2, GREATER, T("&gt;")), ReplaceAll(b2, GREATER, T("&gt;"));
    ReplaceConcat(a3, b3, QUOTE, T("&quot;"));
    var a4, b4 := ReplaceAll(a3, QUOTE, T("&quot;")), ReplaceAll(b3, QUOTE, T("&quot;"));
    ReplaceConcat(a4, b4, APOS, T("&#39;"));
    hide ReplaceAll, T;
  }

  lemma ReplaceOne(c: Unit, x: Unit, rep: Text)
    ensures ReplaceAll([x], c, rep) == if x == c then rep else [x]
  {
    assert rep + [] == rep;
  }

  /** The first replacement must be the one of `&`: no later one touches what an earlier one wrote. */
  lemma EncodeOne(x: Unit)
    ensures HtmlEncode([x]) == Reference(x)
  {
    var ref := Reference(x);
    assert LESS !in ref && GREATER !in ref && QUOTE !in ref && APOS !in ref;
    hide ReplaceAll, T;
    ReplaceOne(AMP, x, T("&amp;"));
    ReplaceOne(LESS, x, T("&lt;"));
    ReplaceOne(GREATER, x, T("&gt;"));
    ReplaceOne(QUOTE, x, T("&quot;"));
    ReplaceOne(APOS, x, T("&#39;"));
    ReplaceNone(ref, LESS, T("&lt;"));
    ReplaceNone(ref, GREATER, T("&gt;"));
    ReplaceNone(ref, QUOTE, T("&quot;"));
    ReplaceNone(ref, APOS, T("&#39;"));
  }

  /** The five passes are one pass over the characters. */
  lemma {:induction false} HtmlEncodeIsEscaped(s: Text)
    ensures HtmlEncode(s) == Escaped(s)
  {
    hide ReplaceAll, HtmlEncode, Reference, T;
    if s == [] {
      EncodeNothing();
    } else {
      assert s == [s[0]] + s[1..];
      EncodeConcat([s[0]], s[1..]);
      EncodeOne(s[0]);
      HtmlEncodeIsEscaped(s[1..]);
    }
  }

  lemma EncodeNothing()
    ensures HtmlEncode([]) == []
  {
  }

  /** No markup character is left. */
  lemma {:induction false} EscapedIsSafe(s: Text)
    ensures var e := Escaped(s); LESS !in e && GREATER !in e && QUOTE !in e && APOS !in e
  {
    if s != [] {
      EscapedIsSafe(s[1..]);
      ReferenceIsSafe(s[0]);
      hide Reference;
    }
  }

  lemma ReferenceIsSafe(c: Unit)
    ensures var e := Reference(c); LESS !in e && GREATER !in e && QUOTE !in e && APOS !in e
  {
  }

  /** NOTHING IS LOST: reading the references back gives the text. */
  lemma {:induction false} EscapedIsReadBack(s: Text)
    ensures Unescaped(Escaped(s)) == s
  {
    if s != [] {
      hide Reference, Unescaped;
      EscapedIsReadBack(s[1..]);
      UnescapeFront(s[0], Escaped(s[1..]));
      assert s == [s[0]] + s[1..];
    } else {
      assert Unescaped([]) == [];
    }
  }

  lemma UnescapeFront(c: Unit, rest: Text)
    ensures Unescaped(Reference(c) + rest) == [c] + Unescaped(rest)
  {
    var r := Reference(c);
    var s := r + rest;
    assert s[0] == r[0] && (|r| > 1 ==> s[1] == r[1]);
    Starts(r, rest);
    hide HasPrefix, Reference;
    var i := if r[0] == AMP then 1 else 0;
    if c != AMP {
      Differs(s, T("&amp;"), i);
      if c != LESS {
        Differs(s, T("&lt;"), i);
        if c != GREATER {
          Differs(s, T("&gt;"), i);
          if c != QUOTE {
            Differs(s, T("&quot;"), i);
            if c != APOS {
              Differs(s, T("&#39;"), i);
            }
          }
        }
      }
    }
  }

  /** `<&"'>` */
  lemma FiveMarks()
    ensures HtmlEncode(T("<&\"'>")) == T("&lt;") + T("&amp;") + T("&quot;") + T("&#39;") + T("&gt;")
  {
    var s := T("<&\"'>");
    HtmlEncodeIsEscaped(s);
    assert s == [LESS, AMP, QUOTE, APOS, GREATER];
    assert [LESS, AMP, QUOTE, APOS, GREATER][1..] == [AMP, QUOTE, APOS, GREATER];
    assert [AMP, QUOTE, APOS, GREATER][1..] == [QUOTE, APOS, GREATER] && [QUOTE, APOS, GREATER][1..] == [APOS, GREATER];
    assert [APOS, GREATER][1..] == [GREATER] && [GREATER][1..] == [];
    hide T, HtmlEncode;
    assert Escaped([GREATER]) == T("&gt;") + [];
    assert Escaped([APOS, GREATER]) == T("&#39;") + T("&gt;");
    assert Escaped([QUOTE, APOS, GREATER]) == T("&quot;") + (T("&#39;") + T("&gt;"));
    assert Escaped([AMP, QUOTE, APOS, GREATER]) == T("&amp;") + (T("&quot;") + (T("&#39;") + T("&gt;")));
  }
}
