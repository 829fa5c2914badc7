/** The codecs behind the tags of extensions/taffy.js: decoding tags undo encoding tags. */
module TagCodecs {
  import opened Basics
  import opened Text
  import opened TagRewriting
  import opened TagSemantics
  import opened TagTheorems
  import opened Utf8
  import opened Base64
  import opened Hex

  function Base64Tag(x: Text): Text { Encode64(Encode(x)) }

  function B64dTag(x: Text): Text { Decode(Decode64(x)) }

  function HexTag(x: Text): Text { EncodeHex(Encode(x)) }

  function UnhexTag(x: Text): Text { Decode(DecodeHex(x)) }

  /** TAGS[name] ignores its argument and computes f. */
  ghost predicate Maps(table: Table, name: Text, f: Text -> Text) {
    Lower(name) in table && forall x, arg :: table[Lower(name)](x, arg) == f(x)
  }

  /** <@outer><@inner>s<@/inner><@/outer> */
  function Wrapped(outer: Text, inner: Text, s: Text): seq<Node> {
    [Pair(outer, None, [Pair(inner, None, [Lit(s)], inner)], outer)]
  }

  lemma {:induction false} DecodedPlain(s: Text)
    requires Plain(s)
    ensures Plain(Decode(Encode(s)))
    decreases |s|
  {
    hide Encode, Decode, Long, Short, Joined, IsLow, IsHigh;
    if s == [] {
      EmptyText();
    } else {
      EncodeFront(s);
      if !IsHigh(s[0]) {
        DecodedPlain(s[1..]);
        DecodeShort(s[0], Encode(s[1..]));
      } else {
        DecodedPlain(Drop(s, 2));
        DecodeLong(s[0], CodeAt(s, 1), Encode(Drop(s, 2)));
      }
    }
  }

  lemma B64dUndoesBase64(s: Text)
    ensures B64dTag(Base64Tag(s)) == Decode(Encode(s)) && Plain(Base64Tag(s))
  {
    DecodeEncode64(Encode(s), Base64Tag(s));
    EncodedPlain(Encode(s));
  }

  lemma EncodedPlain(b: Bytes)
    ensures Plain(Encode64(b))
  {
    var k := Letters(Sextets(b));
    assert forall i | 0 <= i < |k| :: InAlphabet(k[i]) && k[i] != LT;
    hide Letters, Sextets, AllLetters;
  }

  lemma UnhexUndoesHex(s: Text)
    ensures UnhexTag(HexTag(s)) == Decode(Encode(s)) && Plain(HexTag(s))
  {
    HexRoundTrip(Encode(s));
    EncodeHexIsHex(Encode(s));
    hide Encode, Decode, EncodeHex, DecodeHex;
  }

  lemma WrappedEval(table: Table, outer: Text, inner: Text, f: Text -> Text, g: Text -> Text, s: Text)
    requires Maps(table, outer, f) && Maps(table, inner, g)
    ensures Eval(table, Wrapped(outer, inner, s)) == f(g(s))
    ensures IsTagName(outer) && IsTagName(inner) && Plain(s) && Plain(g(s)) && Plain(f(g(s))) ==>
      Proper(table, Wrapped(outer, inner, s))
    ensures TagCount(Wrapped(outer, inner, s)) == 2
  {
    var lit := [Lit(s)];
    assert Eval(table, lit) == s + [] == s;
    var mid := [Pair(inner, None, lit, inner)];
    assert Eval(table, mid) == g(s) + [] == g(s);
    assert Eval(table, Wrapped(outer, inner, s)) == f(g(s)) + [] == f(g(s));
    assert TagCount(lit) == 0 && TagCount(mid) == 1;
    assert EvalNode(table, mid[0]) == g(s) && EvalNode(table, Wrapped(outer, inner, s)[0]) == f(g(s));
    if IsTagName(outer) && IsTagName(inner) && Plain(s) && Plain(g(s)) && Plain(f(g(s))) {
      assert Proper(table, lit) && ProperNode(table, mid[0]);
      assert Proper(table, mid) && ProperNode(table, Wrapped(outer, inner, s)[0]);
    }
    hide Eval, TagCount, IsTagName, Plain;
  }

  /** The rewriting loop turns a decoding tag around its encoding tag back into the text,
      exactly when the text has no unpaired high surrogate. */
  lemma CodecTagsCancel(table: Table, outer: Text, inner: Text, s: Text)
    requires IsTagName(outer) && IsTagName(inner) && Plain(s)
    requires (Maps(table, outer, B64dTag) && Maps(table, inner, Base64Tag))
          || (Maps(table, outer, UnhexTag) && Maps(table, inner, HexTag))
    ensures Passes(table, Render(Wrapped(outer, inner, s)), 200) == s <==> Paired(s)
  {
    hide *;
    DecodedPlain(s);
    DecodeEncode(s);
    B64dUndoesBase64(s);
    UnhexUndoesHex(s);
    if Maps(table, outer, B64dTag) && Maps(table, inner, Base64Tag) {
      WrappedEval(table, outer, inner, B64dTag, Base64Tag, s);
    } else {
      WrappedEval(table, outer, inner, UnhexTag, HexTag, s);
    }
    ApplyTagsEvaluates(table, Wrapped(outer, inner, s));
  }

  // ---------------------------------------------------------------- the table of the source

  /** The keys of TAGS. */
  const TAG_NAMES: seq<string> := [
    "base64", "b64d", "urlenc", "urldec", "hex", "unhex", "htmlent", "upper", "lower", "reverse", "sha256", "sha1", "repeat",
    "len", "timestamp", "timestamp_ms", "random", "uuid"]

  /** Each of them is found by PAIRED and SELF, and is looked up as it is written. */
  lemma NamesOfTags(k: nat)
    requires k < |TAG_NAMES|
    ensures IsTagName(T(TAG_NAMES[k])) && Lower(T(TAG_NAMES[k])) == T(TAG_NAMES[k])
  {
    var s := TAG_NAMES[k];
    assert s != "" && forall i | 0 <= i < |s| :: 'a' <= s[i] <= 'z' || '0' <= s[i] <= '9' || s[i] == '_';
    hide TAG_NAMES;
    assert T(s)[0] == Code(s[0]);
    assert forall i | 0 <= i < |s| :: Lower(T(s))[i] == T(s)[i];
  }

  /** The entry of TAGS under this name. */
  ghost predicate Entry(table: Table, name: string, f: Text -> Text) {
    T(name) in table && forall x, arg :: table[T(name)](x, arg) == f(x)
  }

  lemma EntryMaps(table: Table, k: nat, f: Text -> Text)
    requires k < |TAG_NAMES| && Entry(table, TAG_NAMES[k], f)
    ensures IsTagName(T(TAG_NAMES[k])) && Maps(table, T(TAG_NAMES[k]), f)
  {
    NamesOfTags(k);
    hide TAG_NAMES, IsTagName;
  }

  lemma CodecNames()
    ensures |TAG_NAMES| == 18 && TAG_NAMES[0] == "base64" && TAG_NAMES[1] == "b64d" && TAG_NAMES[4] == "hex" && TAG_NAMES[5] == "unhex"
  {
  }

  /** `<@name>` and `<@/name>`. */
  function Opening(name: string): Text { T("<@" + name + ">") }

  function Closing(name: string): Text { T("<@/" + name + ">") }

  lemma TagTexts(name: string)
    ensures Opening(name) == [LT, AT] + T(name) + [GT] && Closing(name) == [LT, AT, SLASH] + T(name) + [GT]
  {
  }

  lemma RenderPair(name: string, kids: seq<Node>)
    ensures Render([Pair(T(name), None, kids, T(name))]) == Opening(name) + Render(kids) + Closing(name)
  {
    TagTexts(name);
    var node := Pair(T(name), None, kids, T(name));
    assert Render([node]) == RenderNode(node) + [] == RenderNode(node);
    var a := [LT, AT] + T(name);
    assert a + [] == a;
    hide Opening, Closing, T, Render;
    var front := a + [GT] + Render(kids);
    Assoc(front, [LT, AT, SLASH], T(name));
    Assoc(front, [LT, AT, SLASH] + T(name), [GT]);
  }

  lemma RenderLit(s: Text)
    ensures Render([Lit(s)]) == s
  {
    assert Render([Lit(s)]) == s + [];
  }

  /** WITH THE SOURCE'S OWN TAGS: `b64d` undoes `base64` and `unhex` undoes `hex`, exactly for strings whose high surrogates
      are paired. */
  lemma SourceCodecs(table: Table, s: Text)
    requires Entry(table, "base64", Base64Tag) && Entry(table, "b64d", B64dTag)
    requires Entry(table, "hex", HexTag) && Entry(table, "unhex", UnhexTag)
    requires '<' as int !in s
    ensures Passes(table, T("<@b64d>") + (T("<@base64>") + s + T("<@/base64>")) + T("<@/b64d>"), 200) == s <==> Paired(s)
    ensures Passes(table, T("<@unhex>") + (T("<@hex>") + s + T("<@/hex>")) + T("<@/unhex>"), 200) == s <==> Paired(s)
  {
    CodecNames();
    PlainText(s);
    TagLiterals();
    WrappedIs("b64d", "base64", s);
    WrappedIs("unhex", "hex", s);
    hide *;
    EntryMaps(table, 0, Base64Tag);
    EntryMaps(table, 1, B64dTag);
    EntryMaps(table, 4, HexTag);
    EntryMaps(table, 5, UnhexTag);
    CodecTagsCancel(table, T("b64d"), T("base64"), s);
    CodecTagsCancel(table, T("unhex"), T("hex"), s);
  }

  lemma WrappedIs(outer: string, inner: string, s: Text)
    ensures Render(Wrapped(T(outer), T(inner), s)) == Opening(outer) + (Opening(inner) + s + Closing(inner)) + Closing(outer)
  {
    hide Render, Opening, Closing;
    RenderLit(s);
    RenderPair(inner, [Lit(s)]);
    RenderPair(outer, [Pair(T(inner), None, [Lit(s)], T(inner))]);
  }

  lemma TagLiterals()
    ensures Opening("base64") == T("<@base64>") && Closing("base64") == T("<@/base64>")
    ensures Opening("b64d") == T("<@b64d>") && Closing("b64d") == T("<@/b64d>")
    ensures Opening("hex") == T("<@hex>") && Closing("hex") == T("<@/hex>")
    ensures Opening("unhex") == T("<@unhex>") && Closing("unhex") == T("<@/unhex>")
  {
    assert "<@" + "base64" + ">" == "<@base64>" && "<@/" + "base64" + ">" == "<@/base64>";
    assert "<@" + "b64d" + ">" == "<@b64d>" && "<@/" + "b64d" + ">" == "<@/b64d>";
    assert "<@" + "hex" + ">" == "<@hex>" && "<@/" + "hex" + ">" == "<@/hex>";
    assert "<@" + "unhex" + ">" == "<@unhex>" && "<@/" + "unhex" + ">" == "<@/unhex>";
    hide T;
  }

  lemma PlainText(s: Text)
    ensures Plain(s) <==> '<' as int !in s
  {
  }

  /** `<@base64>hi<@/base64>` becomes `aGk=`, and `<@hex>hi<@/hex>` becomes `6869`. */
  lemma Hi(table: Table)
    requires Entry(table, "base64", Base64Tag) && Entry(table, "hex", HexTag)
    ensures Passes(table, T("<@base64>") + T("hi") + T("<@/base64>"), 200) == T("aGk=")
    ensures Passes(table, T("<@hex>") + T("hi") + T("<@/hex>"), 200) == T("6869")
  {
    CodecNames();
    HiBytes();
    HiBase64();
    HiHex();
    HiPlain();
    TagLiterals();
    hide *;
    EntryMaps(table, 0, Base64Tag);
    EntryMaps(table, 4, HexTag);
    TagIs(T("hi"));
    OneTag(table, "base64", Base64Tag, T("hi"));
    OneTag(table, "hex", HexTag, T("hi"));
  }

  lemma TagIs(x: Text)
    ensures Base64Tag(x) == Encode64(Encode(x)) && HexTag(x) == EncodeHex(Encode(x))
  {
    hide Encode64, EncodeHex, Encode;
  }

  lemma HiBytes()
    ensures Encode(T("hi")) == [0x68, 0x69]
  {
    assert T("hi") == [0x68, 0x69] && Drop(T("hi"), 1) == [0x69] && Drop([0x69], 1) == [];
    assert Encode([0x69]) == [0x69];
  }

  lemma HiBase64()
    ensures Encode64([0x68, 0x69]) == T("aGk=")
  {
    assert Sextets([0x68, 0x69]) == [26, 6, 36];
    assert T("aGk=") == [0x61, 0x47, 0x6b, 0x3d];
    assert Letters([26, 6, 36]) == [0x61, 0x47, 0x6b];
    hide T, Letters, Sextets;
  }

  lemma HiHex()
    ensures EncodeHex([0x68, 0x69]) == T("6869")
  {
    var b: Bytes := [0x68, 0x69];
    assert b[1..] == [0x69] && b[1..][1..] == [];
    assert T("6869") == [0x36, 0x38, 0x36, 0x39];
    hide T;
  }

  lemma HiPlain()
    ensures Plain(T("hi")) && Plain(T("aGk=")) && Plain(T("6869"))
  {
  }

  lemma OneTag(table: Table, name: string, f: Text -> Text, s: Text)
    requires IsTagName(T(name)) && Maps(table, T(name), f) && Plain(s) && Plain(f(s))
    ensures Passes(table, Opening(name) + s + Closing(name), 200) == f(s)
  {
    var lit := [Lit(s)];
    var nodes := [Pair(T(name), None, lit, T(name))];
    RenderLit(s);
    RenderPair(name, lit);
    assert Eval(table, lit) == s + [] == s;
    assert EvalNode(table, nodes[0]) == f(s) && Eval(table, nodes) == f(s) + [] == f(s);
    assert TagCount(lit) == 0 && TagCount(nodes) == 1;
    ProperTag(table, T(name), f, s);
    hide T, Passes, Eval, Render, Opening, Closing, Proper;
    ApplyTagsEvaluates(table, nodes);
  }

  lemma ProperTag(table: Table, name: Text, f: Text -> Text, s: Text)
    requires IsTagName(name) && Maps(table, name, f) && Plain(s) && Plain(f(s))
    ensures Proper(table, [Pair(name, None, [Lit(s)], name)])
  {
    var lit := [Lit(s)];
    var node := Pair(name, None, lit, name);
    assert Eval(table, lit) == s + [] == s;
    assert Proper(table, lit);
    assert EvalNode(table, node) == f(s);
    assert ProperNode(table, node);
    hide Eval, Plain, IsTagName, EvalNode;
  }
}
