/** hmacSha256 of extensions/aws_sigv4.js, which extends its key argument in place, and the key chain of signRequest. */
module Hmac {
  import opened Text
  import opened Utf8
  import opened Words
  import opened Sha256
  import opened Sha256Loops

  /** A JavaScript array of bytes: shared by reference, and push changes it for all its holders. */
  class ByteArray {
    var data: Bytes

    constructor (bytes: Bytes)
      ensures data == bytes
    {
      data := bytes;
    }

    method Push(b: Byte)
      modifies this
      ensures data == old(data) + [b]
    {
      data := data + [b];
    }
  }

  // ---------------------------------------------------------------- section 2 of RFC 2104

  function ZeroPad(k: Bytes): (p: Bytes)
    ensures |k| <= 64 ==> |p| == 64
  {
    if |k| < 64 then k + Zeros(64 - |k|) else k
  }

  function XorByte(a: Byte, b: Byte): Byte { Pow2Of32(); Combine(XorBit, a, b, 8) }

  function XorPad(k: Bytes, pad: Byte): (x: Bytes)
    ensures |x| == |k|
  {
    seq(|k|, i requires 0 <= i < |k| => XorByte(k[i], pad))
  }

  const OPAD: Byte := 0x5c
  const IPAD: Byte := 0x36

  /** HMAC over SHA-256, for keys and messages SHA-256 accepts. */
  function Rfc2104(k: Bytes, m: Bytes): Bytes
    requires |k| < 0x2000_0000_0000_0000 && |m| + 64 < 0x2000_0000_0000_0000
  {
    var block := ZeroPad(if |k| > 64 then FipsHash(k) else k);
    FipsHash(XorPad(block, OPAD) + FipsHash(XorPad(block, IPAD) + m))
  }

  /** The same over the hash the code computes. */
  function CodeHmac(k: Bytes, m: Bytes): (h: Bytes)
    ensures |h| == 32
  {
    var block := ZeroPad(if |k| > 64 then CodeHash(k) else k);
    CodeHash(XorPad(block, OPAD) + CodeHash(XorPad(block, IPAD) + m))
  }

  lemma CodeHmacIsRfc2104(k: Bytes, m: Bytes)
    requires |k| < 0x2000_0000 && |m| + 64 < 0x2000_0000
    ensures CodeHmac(k, m) == Rfc2104(k, m)
  {
    hide CodeHash, FipsHash, CodePad, FipsPad, XorPad, ZeroPad;
    CodePadIsFips(k);
    var block := ZeroPad(if |k| > 64 then CodeHash(k) else k);
    CodePadIsFips(XorPad(block, IPAD) + m);
    CodePadIsFips(XorPad(block, OPAD) + CodeHash(XorPad(block, IPAD) + m));
  }

  /** Section 2, steps 1 to 7: a key longer than 64 bytes is hashed first, and zeros are appended to make a block; the block
      with each byte xored with 0x36 goes before the message, and with 0x5c before the hash of that. */
  lemma Rfc2104Steps(k: Bytes, m: Bytes) returns (block: Bytes)
    requires |k| < 0x2000_0000_0000_0000 && |m| + 64 < 0x2000_0000_0000_0000
    ensures |block| == 64 && block == (if |k| > 64 then FipsHash(k) + Zeros(32) else k + Zeros(64 - |k|))
    ensures Rfc2104(k, m) == FipsHash(XorPad(block, 0x5c) + FipsHash(XorPad(block, 0x36) + m))
  {
    var key := if |k| > 64 then FipsHash(k) else k;
    block := ZeroPad(key);
    ZeroPadTurn(key, 0);
    hide FipsHash, Zeros, XorPad, ZeroPad;
  }

  lemma PadAt(k: Bytes, pad: Byte, i: nat)
    requires i < |k|
    ensures |XorPad(k, pad)| == |k| && XorPad(k, pad)[i] == Xor(k[i], pad)
  {
    XorByteIs(k[i], pad);
    hide XorByte, Xor;
  }

  lemma XorByteIs(a: Byte, b: Byte)
    ensures XorByte(a, b) == Xor(a, b)
  {
    Pow2Of32();
    CombineWider(a, b, 8, 32);
    hide Combine, Pow2;
  }

  /** THE EXTENSION IS INVISIBLE: a key and the key extended to 64 bytes give the same code. */
  lemma ExtendedKey(k: Bytes, m: Bytes)
    requires |k| <= 64
    ensures CodeHmac(ZeroPad(k), m) == CodeHmac(k, m)
  {
    hide CodeHash, XorPad;
  }

  // ---------------------------------------------------------------- the method

  lemma {:induction false} CombineWider(a: nat, b: nat, k: nat, n: nat)
    requires a < Pow2(k) && b < Pow2(k) && k <= n
    ensures Combine(XorBit, a, b, n) == Combine(XorBit, a, b, k)
    decreases n
  {
    if k > 0 {
      CombineWider(a / 2, b / 2, k - 1, n - 1);
    } else if n > 0 {
      CombineWider(0, 0, 0, n - 1);
    }
  }

  /** The `^` of two bytes is their exclusive or as bytes. */
  lemma XorOfBytes(a: Byte, b: Byte)
    ensures JsXor(a, b) == XorByte(a, b)
  {
    Pow2Of32();
    CombineWider(a, b, 8, 32);
    U32Word(a);
    U32Word(b);
    U32Word(XorByte(a, b));
    hide Combine, Pow2;
  }

  /** The loop over the 64 bytes of the extended key. */
  method KeyPads(key: ByteArray) returns (o: Bytes, i: Bytes)
    requires |key.data| == 64
    ensures o == XorPad(key.data, OPAD) && i == XorPad(key.data, IPAD)
  {
    hide *;
    var oKeyPad, iKeyPad := new Byte[64], new Byte[64];
    for j := 0 to 64
      invariant oKeyPad[..j] == XorPad(key.data, OPAD)[..j] && iKeyPad[..j] == XorPad(key.data, IPAD)[..j]
    {
      XorOfBytes(key.data[j], 0x5c);
      XorOfBytes(key.data[j], 0x36);
      XorPadAt(key.data, j);
      oKeyPad[j] := JsXor(key.data[j], 0x5c);
      iKeyPad[j] := JsXor(key.data[j], 0x36);
    }
    o, i := oKeyPad[..64], iKeyPad[..64];
  }

  /** After it, the caller's key is extended with zeros to 64 bytes if it was shorter; a longer key is left alone.
      The message is read after that: it may be the very same array. */
  method HmacSha256(key: ByteArray, msg: ByteArray) returns (out: ByteArray)
    modifies key
    ensures fresh(out) && out.data == CodeHmac(old(key.data), msg.data)
    ensures key.data == ZeroPad(old(key.data))
    ensures msg != key ==> msg.data == old(msg.data)
  {
    hide *;
    ghost var k := key.data;
    ZeroPadTurn(k, 0);
    var padded := key;
    if |key.data| > 64 {
      var hash := Sha256Aws(key.data);
      padded := new ByteArray(hash);
    }
    ghost var start := padded.data;
    ZeroPadTurn(start, 0);
    while |padded.data| < 64
      invariant |start| <= |padded.data| <= 64 && padded.data == start + Zeros(|padded.data| - |start|)
      invariant padded != key ==> key.data == k
      invariant padded == key || fresh(padded)
      decreases 64 - |padded.data|
    {
      ZeroPadTurn(start, |padded.data| - |start|);
      padded.Push(0);
    }
    ghost var block := ZeroPad(start);
    var oKeyPad, iKeyPad := KeyPads(padded);
    var inner := Sha256Aws(iKeyPad + msg.data);
    var outer := Sha256Aws(oKeyPad + inner);
    CodeHmacIs(k, msg.data);
    out := new ByteArray(outer);
  }

  lemma ZeroPadTurn(k: Bytes, n: nat)
    ensures k + Zeros(n) + [0] == k + Zeros(n + 1) && k + Zeros(0) == k
    ensures |k| >= 64 ==> ZeroPad(k) == k
    ensures |k| < 64 ==> ZeroPad(k) == k + Zeros(64 - |k|)
  {
    OneMore(n);
    hide Zeros;
  }

  lemma OneMore(n: nat)
    ensures Zeros(n) + [0] == Zeros(n + 1) && Zeros(0) == []
  {
  }

  lemma XorPadAt(k: Bytes, i: nat)
    requires i < |k|
    ensures XorPad(k, OPAD)[i] == XorByte(k[i], 0x5c) && XorPad(k, IPAD)[i] == XorByte(k[i], 0x36)
    ensures XorPad(k, OPAD)[..i + 1] == XorPad(k, OPAD)[..i] + [XorByte(k[i], 0x5c)]
    ensures XorPad(k, IPAD)[..i + 1] == XorPad(k, IPAD)[..i] + [XorByte(k[i], 0x36)]
  {
    hide XorByte;
  }

  lemma CodeHmacIs(k: Bytes, m: Bytes)
    ensures var block := ZeroPad(if |k| > 64 then CodeHash(k) else k);
      |block| == 64 && CodeHmac(k, m) == CodeHash(XorPad(block, OPAD) + CodeHash(XorPad(block, IPAD) + m))
  {
    hide CodeHash, XorPad, Zeros;
  }

  // ---------------------------------------------------------------- the signing key

  /** The four-step chain and the signature: every intermediate key is extended in place by the step that uses it,
      and none of the extensions reaches the result. */
  method Sign(secret: Text, date: Text, region: Text, service: Text, stringToSign: Text) returns (signature: Bytes)
    ensures var kDate := CodeHmac(Encode(T("AWS4") + secret), Encode(date));
      var kSigning := CodeHmac(CodeHmac(CodeHmac(kDate, Encode(region)), Encode(service)), Encode(T("aws4_request")));
      signature == CodeHmac(kSigning, Encode(stringToSign))
  {
    hide *;
    var kSecret := new ByteArray(Encode(T("AWS4") + secret));
    var m0 := new ByteArray(Encode(date));
    var kDate := HmacSha256(kSecret, m0);
    var m1 := new ByteArray(Encode(region));
    var kRegion := HmacSha256(kDate, m1);
    var m2 := new ByteArray(Encode(service));
    var kService := HmacSha256(kRegion, m2);
    var m3 := new ByteArray(Encode(T("aws4_request")));
    var kSigning := HmacSha256(kService, m3);
    var m4 := new ByteArray(Encode(stringToSign));
    var out := HmacSha256(kSigning, m4);
    signature := out.data;
  }
}
