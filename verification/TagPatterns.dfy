/** PAIRED and SELF of extensions/taffy.js as the texts they match, and one turn of the loop on any text whatever. */
module TagPatterns {
  import opened Basics
  import opened Text
  import opened TagRewriting
  import opened TagSemantics
  import opened TagTheorems

  // ---------------------------------------------------------------- the texts

  /** A name, and an argument without `)`. */
  predicate IsHead(m: Match) { IsTagName(m.name) && (m.arg.Some? ==> ')' as int !in m.arg.value) }

  function ArgText(arg: Option<Text>): Text { if arg.Some? then T("(") + arg.value + T(")") else [] }

  /** `<@name(arg)>content<@/close>` */
  function PairTag(m: Match, close: Text): Text {
    T("<@") + m.name + ArgText(m.arg) + T(">") + m.content + T("<@/") + close + T(">")
  }

  /** `<@name(arg)/>` */
  function SelfTag(m: Match): Text { T("<@") + m.name + ArgText(m.arg) + T("/>") }

  /** `<@` does not occur. */
  predicate NoTagIn(t: Text) {
    forall i | 0 <= i < |t| - 1 :: !(t[i] == '<' as int && t[i + 1] == '@' as int)
  }

  /** A tag pair: the same name in any case, and no `<@` in between. */
  predicate IsPair(t: Text, m: Match, close: Text) {
    IsHead(m) && Lower(close) == Lower(m.name) && NoTagIn(m.content) && t == PairTag(m, close) && m.length == |t|
  }

  /** A self-closing tag. */
  predicate IsSelf(t: Text, m: Match) {
    IsHead(m) && m.content == [] && t == SelfTag(m) && m.length == |t|
  }

  lemma Marks()
    ensures T("<@") == [LT, AT] && T(">") == [GT] && T("<@/") == [LT, AT, SLASH] && T("/>") == [SLASH, GT]
    ensures T("(") == [LPAREN] && T(")") == [RPAREN] && RPAREN == ')' as int && LT == '<' as int && AT == '@' as int
  {
  }

  lemma ArgTextIs(arg: Option<Text>)
    ensures ArgText(arg) == RenderArg(arg)
  {
    Marks();
    hide T;
  }

  lemma Nested<X>(a: seq<X>, b: seq<X>, c: seq<X>, d: seq<X>, r: seq<X>)
    ensures a + b + c + d + r == a + (b + (c + (d + r)))
  {
    Assoc(a + b + c, d, r);
    Assoc(a + b, c, d + r);
    Assoc(a, b, c + (d + r));
  }

  /** The closing of a pair. */
  function CloseTag(close: Text): Text { [LT, AT, SLASH] + close + [GT] }

  function OpenHead(m: Match): Text { [LT, AT] + m.name + RenderArg(m.arg) }

  lemma PairTagForm(m: Match, close: Text, rest: Text)
    ensures PairTag(m, close) + rest == OpenHead(m) + ([GT] + (m.content + (CloseTag(close) + rest)))
    ensures PairTag(m, close) == OpenHead(m) + [GT] + m.content + CloseTag(close)
    ensures |PairTag(m, close)| == |OpenHead(m)| + |m.content| + |close| + 5
  {
    Marks();
    ArgTextIs(m.arg);
    hide T, RenderArg, ArgText;
    var a := OpenHead(m) + [GT] + m.content;
    Assoc(a, [LT, AT, SLASH], close);
    Assoc(a, [LT, AT, SLASH] + close, [GT]);
    assert PairTag(m, close) == a + CloseTag(close);
    Nested(OpenHead(m), [GT], m.content, CloseTag(close), rest);
  }

  lemma SelfTagForm(m: Match, rest: Text)
    ensures SelfTag(m) + rest == OpenHead(m) + ([SLASH, GT] + rest) && SelfTag(m) == OpenHead(m) + [SLASH, GT]
  {
    Marks();
    ArgTextIs(m.arg);
    hide T, RenderArg, ArgText;
    Assoc(OpenHead(m), [SLASH, GT], rest);
  }

  // ---------------------------------------------------------------- the opening of a tag

  lemma ArgParts(rest: Text, k: nat)
    requires rest != [] && rest[0] == LPAREN && k == IndexOf(rest[1..], RPAREN) && k < |rest| - 1
    ensures RPAREN !in rest[1..1 + k] && rest == [LPAREN] + rest[1..1 + k] + [RPAREN] + rest[k + 2..]
  {
    var tail := rest[1..];
    assert tail[k] == RPAREN && forall i | 0 <= i < k :: tail[i] != RPAREN;
    hide IndexOf;
    assert rest[1..1 + k] == tail[..k];
    assert rest == [LPAREN] + tail && tail == tail[..k] + [RPAREN] + tail[k + 1..];
  }

  lemma NameParts(s: Text, n: nat)
    requires |s| >= 2 && s[0] == LT && s[1] == AT && n == NameLength(s[2..]) && n > 0
    ensures IsTagName(s[2..2 + n]) && s == [LT, AT] + s[2..2 + n] + s[2 + n..]
  {
    assert s[2..][..n] == s[2..2 + n];
    hide NameLength;
  }

  lemma HeadSound(s: Text)
    requires ParseHead(s).Some?
    ensures var h := ParseHead(s).value;
      s == [LT, AT] + h.name + RenderArg(h.arg) + h.rest && IsTagName(h.name) && (h.arg.Some? ==> RPAREN !in h.arg.value)
  {
    var n := NameLength(s[2..]);
    var name, rest := s[2..2 + n], s[2 + n..];
    NameParts(s, n);
    hide NameLength, IndexOf, IsTagName;
    if rest != [] && rest[0] == LPAREN {
      var k := IndexOf(rest[1..], RPAREN);
      ArgParts(rest, k);
      Assoc([LT, AT] + name, [LPAREN] + rest[1..1 + k] + [RPAREN], rest[k + 2..]);
    } else {
      assert [LT, AT] + name + [] == [LT, AT] + name;
    }
  }

  lemma HeadComplete(name: Text, arg: Option<Text>, rest: Text)
    requires IsTagName(name) && (arg.Some? ==> RPAREN !in arg.value) && rest != [] && (rest[0] == GT || rest[0] == SLASH)
    ensures ParseHead([LT, AT] + name + RenderArg(arg) + rest) == Some(Head(name, arg, rest))
  {
    hide ParseHead, IsTagName;
    if arg.Some? {
      ParseArg(name, arg.value, rest);
    } else {
      ParseBare(name, rest);
      assert [LT, AT] + name + [] == [LT, AT] + name;
    }
  }

  // ---------------------------------------------------------------- a pair

  lemma NoTagAtAll(t: Text)
    ensures NoTagIn(t) <==> forall i | 0 <= i < |t| :: !TagAt(t, i)
  {
    if forall i | 0 <= i < |t| :: !TagAt(t, i) {
      forall i | 0 <= i < |t| - 1 ensures !(t[i] == LT && t[i + 1] == AT) {
        assert !TagAt(t, i);
      }
    }
  }

  lemma Closing(close: Text, name: Text, rest: Text)
    requires Lower(close) == Lower(name)
    ensures ClosesAt(CloseTag(close) + rest, name) && TagAt(CloseTag(close) + rest, 0) && |close| == |name|
  {
    var s := CloseTag(close) + rest;
    assert |Lower(close)| == |close| && |Lower(name)| == |name|;
    assert s[3..|name| + 3] == close && s[|name| + 3] == GT;
  }

  lemma PairFromParts(m: Match, s: Text, after: Text, others: Text)
    requires s == OpenHead(m) + ([GT] + after) && after == m.content + others
    requires ParseHead(s) == Some(Head(m.name, m.arg, [GT] + after)) && ClosesAt(others, m.name) && FirstTag(after) == |m.content|
    ensures MatchPaired(s) == Some(Match(m.name, m.arg, m.content, |OpenHead(m)| + |m.content| + |m.name| + 5))
  {
    hide *;
    PairText(s, m.name, m.arg, after);
    assert after[|m.content|..] == others && after[..|m.content|] == m.content;
    assert |s| == |OpenHead(m)| + 1 + |after| && |after| == |m.content| + |others|;
  }

  lemma PairComplete(m: Match, close: Text, rest: Text)
    requires IsPair(PairTag(m, close), m, close)
    ensures MatchPaired(PairTag(m, close) + rest) == Some(m)
  {
    hide *;
    var others := CloseTag(close) + rest;
    var after := m.content + others;
    IsPairIs(PairTag(m, close), m, close);
    PairTagForm(m, close, rest);
    NoTagAtAll(m.content);
    Closing(close, m.name, rest);
    FirstTagAfter(m.content, others);
    PairHead(m, after);
    PairFromParts(m, PairTag(m, close) + rest, after, others);
  }

  lemma PairHead(m: Match, after: Text)
    requires IsTagName(m.name) && (m.arg.Some? ==> ')' as int !in m.arg.value)
    ensures ParseHead(OpenHead(m) + ([GT] + after)) == Some(Head(m.name, m.arg, [GT] + after))
  {
    Marks();
    OpenHeadIs(m);
    hide *;
    HeadComplete(m.name, m.arg, [GT] + after);
  }

  lemma OpenHeadIs(m: Match)
    ensures OpenHead(m) == [LT, AT] + m.name + RenderArg(m.arg)
  {
  }

  lemma IsPairIs(t: Text, m: Match, close: Text)
    ensures IsPair(t, m, close) <==>
      && IsTagName(m.name) && (m.arg.Some? ==> ')' as int !in m.arg.value)
      && Lower(close) == Lower(m.name) && NoTagIn(m.content) && t == PairTag(m, close) && m.length == |t|
    ensures |CloseTag(close)| == |close| + 4
  {
    hide PairTag, NoTagIn, IsTagName;
  }

  /** What MatchPaired finds, in its own terms. */
  lemma PairFound(s: Text)
    requires MatchPaired(s).Some?
    ensures ParseHead(s).Some?
    ensures var h, m := ParseHead(s).value, MatchPaired(s).value;
      && h.rest != [] && h.rest[0] == GT
      && var after := h.rest[1..];
      && var k := FirstTag(after);
      ClosesAt(after[k..], h.name) && m == Match(h.name, h.arg, after[..k], |s| - |after[k..]| + |h.name| + 4)
  {
    hide ParseHead, FirstTag, ClosesAt;
  }

  lemma CloseParts(after: Text, k: nat, name: Text) returns (close: Text, rest: Text)
    requires k == FirstTag(after) && ClosesAt(after[k..], name)
    ensures Lower(close) == Lower(name) && |after[k..]| == |name| + 4 + |rest|
    ensures after == after[..k] + (CloseTag(close) + rest) && NoTagIn(after[..k])
  {
    var tail, n := after[k..], |name|;
    close, rest := tail[3..n + 3], tail[n + 4..];
    assert k < |after| && TagAt(after, k) && tail[0] == LT && tail[1] == AT;
    forall i | 0 <= i < k ensures !TagAt(after[..k], i) {
      assert !TagAt(after, i);
    }
    NoTagAtAll(after[..k]);
    hide FirstTag, NoTagIn, TagAt;
    assert tail == CloseTag(close) + rest;
    assert after == after[..k] + tail;
  }

  lemma PairSound(s: Text) returns (close: Text)
    requires MatchPaired(s).Some?
    ensures var m := MatchPaired(s).value; m.length <= |s| && IsPair(s[..m.length], m, close)
  {
    PairFound(s);
    HeadSound(s);
    Marks();
    hide *;
    var h, m := ParseHead(s).value, MatchPaired(s).value;
    var after := h.rest[1..];
    var rest;
    close, rest := CloseParts(after, FirstTag(after), h.name);
    OpenHeadIs(m);
    PairTagForm(m, close, rest);
    assert s == OpenHead(m) + ([GT] + after) by { assert h.rest == [GT] + after; }
    PairPrefix(s, m, close, rest);
    IsPairIs(s[..m.length], m, close);
  }

  lemma PairPrefix(s: Text, m: Match, close: Text, rest: Text)
    requires s == PairTag(m, close) + rest && m.length == |s| - |rest|
    ensures m.length <= |s| && s[..m.length] == PairTag(m, close)
  {
    hide PairTag;
  }

  /** PAIRED AT THE START of a text matches exactly the texts of tag pairs, and all of the pair. */
  lemma PairedExactly(s: Text, m: Match)
    ensures MatchPaired(s) == Some(m) <==> m.length <= |s| && exists close :: IsPair(s[..m.length], m, close)
  {
    hide *;
    if MatchPaired(s) == Some(m) {
      var close := PairSound(s);
    }
    if m.length <= |s| && exists close :: IsPair(s[..m.length], m, close) {
      var close :| IsPair(s[..m.length], m, close);
      IsPairIs(s[..m.length], m, close);
      PairComplete(m, close, s[m.length..]);
      assert s == s[..m.length] + s[m.length..];
    }
  }

  // ---------------------------------------------------------------- a self-closing tag

  lemma IsSelfIs(t: Text, m: Match)
    ensures IsSelf(t, m) <==>
      && IsTagName(m.name) && (m.arg.Some? ==> ')' as int !in m.arg.value)
      && m.content == [] && t == SelfTag(m) && m.length == |t|
  {
    hide SelfTag, IsTagName;
  }

  lemma SelfFound(s: Text)
    requires MatchSelf(s).Some?
    ensures ParseHead(s).Some?
    ensures var h, m := ParseHead(s).value, MatchSelf(s).value;
      |h.rest| >= 2 && h.rest[0] == SLASH && h.rest[1] == GT && m == Match(h.name, h.arg, [], |s| - |h.rest| + 2)
  {
    hide ParseHead;
  }

  /** SELF AT THE START of a text matches exactly the texts of self-closing tags. */
  lemma SelfExactly(s: Text, m: Match)
    ensures MatchSelf(s) == Some(m) <==> m.length <= |s| && IsSelf(s[..m.length], m)
  {
    Marks();
    OpenHeadIs(m);
    hide *;
    if MatchSelf(s) == Some(m) {
      SelfFound(s);
      HeadSound(s);
      var h := ParseHead(s).value;
      var rest := h.rest[2..];
      assert h.rest == [SLASH, GT] + rest;
      SelfTagForm(m, rest);
      IsSelfIs(SelfTag(m), m);
      assert s == SelfTag(m) + rest;
      assert s[..|SelfTag(m)|] == SelfTag(m);
    }
    if m.length <= |s| && IsSelf(s[..m.length], m) {
      var rest := s[m.length..];
      IsSelfIs(s[..m.length], m);
      SelfTagForm(m, rest);
      HeadComplete(m.name, m.arg, [SLASH, GT] + rest);
      assert s == s[..m.length] + rest;
      SelfSingle(s, m.name, m.arg, rest);
    }
  }

  // ---------------------------------------------------------------- one turn of the loop

  function Part(s: Text, p: nat, n: nat): Text
    requires p + n <= |s|
  {
    s[p..p + n]
  }

  ghost predicate PairAt(s: Text, p: nat, m: Match) {
    p + m.length <= |s| && exists close :: IsPair(Part(s, p, m.length), m, close)
  }

  predicate SelfAt(s: Text, p: nat, m: Match) {
    p + m.length <= |s| && IsSelf(Part(s, p, m.length), m)
  }

  lemma AtExactly(s: Text, p: nat, m: Match)
    requires p <= |s|
    ensures MatchPaired(s[p..]) == Some(m) <==> PairAt(s, p, m)
    ensures MatchSelf(s[p..]) == Some(m) <==> SelfAt(s, p, m)
  {
    hide MatchPaired, MatchSelf, IsPair, IsSelf;
    PairedExactly(s[p..], m);
    SelfExactly(s[p..], m);
    if p + m.length <= |s| {
      assert s[p..][..m.length] == Part(s, p, m.length);
    }
  }

  lemma {:induction false} FindsFirst(matcher: Text -> Option<Match>, s: Text, p: nat)
    requires p <= |s|
    ensures Find(matcher, s, p).Some? ==> forall i | p <= i < Find(matcher, s, p).value :: matcher(s[i..]).None?
    decreases |s| - p
  {
    if p < |s| && matcher(s[p..]).None? {
      FindsFirst(matcher, s, p + 1);
    }
  }

  lemma NoneBefore(s: Text, p: nat)
    requires p <= |s|
    ensures (forall i | 0 <= i < p :: MatchPaired(s[i..]).None?) <==> forall i, m | 0 <= i < p :: !PairAt(s, i, m)
    ensures (forall i | 0 <= i < p :: MatchSelf(s[i..]).None?) <==> forall i, m | 0 <= i < p :: !SelfAt(s, i, m)
  {
    hide MatchPaired, MatchSelf, PairAt, SelfAt;
    forall i, m | 0 <= i < p
      ensures MatchPaired(s[i..]) == Some(m) <==> PairAt(s, i, m)
      ensures MatchSelf(s[i..]) == Some(m) <==> SelfAt(s, i, m)
    {
      AtExactly(s, i, m);
    }
    forall i | 0 <= i < p && MatchPaired(s[i..]).Some? ensures PairAt(s, i, MatchPaired(s[i..]).value) {
    }
    forall i | 0 <= i < p && MatchSelf(s[i..]).Some? ensures SelfAt(s, i, MatchSelf(s[i..]).value) {
    }
  }

  /** What stands in a tag's place after a turn: its function's value, or the tag itself if it is unknown. */
  function Value(table: Table, m: Match, tag: Text): Text {
    if Lower(m.name) in table then table[Lower(m.name)](m.content, m.arg) else tag
  }

  /** A tag pair stands at p, or, if there is none anywhere, a self-closing tag; and no other further left. */
  ghost predicate First(s: Text, p: nat, m: Match) {
    || (PairAt(s, p, m) && forall i, n | 0 <= i < p :: !PairAt(s, i, n))
    || (SelfAt(s, p, m) && (forall i, n | 0 <= i < |s| :: !PairAt(s, i, n)) && forall i, n | 0 <= i < p :: !SelfAt(s, i, n))
  }

  lemma FirstIsLegal(s: Text, p: nat, m: Match)
    requires First(s, p, m)
    ensures p + m.length <= |s|
  {
  }

  lemma FoundFirst(s: Text) returns (p: nat, m: Match)
    requires var f, g := Find(MatchPaired, s, 0), Find(MatchSelf, s, 0); f.Some? || g.Some?
    ensures First(s, p, m)
    ensures var f, g := Find(MatchPaired, s, 0), Find(MatchSelf, s, 0);
      if f.Some? then p == f.value && MatchPaired(s[p..]) == Some(m) else p == g.value && MatchSelf(s[p..]) == Some(m)
  {
    var f, g := Find(MatchPaired, s, 0), Find(MatchSelf, s, 0);
    FindsFirst(MatchPaired, s, 0);
    FindsFirst(MatchSelf, s, 0);
    hide Find, MatchPaired, MatchSelf, PairAt, SelfAt;
    if f.Some? {
      p, m := f.value, MatchPaired(s[f.value..]).value;
    } else {
      p, m := g.value, MatchSelf(s[g.value..]).value;
      NoneBefore(s, |s|);
    }
    NoneBefore(s, p);
    AtExactly(s, p, m);
  }

  /** ONE TURN, on any text: the leftmost tag pair that holds no `<@`, or else the leftmost self-closing tag, is replaced by
      what its function makes of it, and the loop stops exactly when there is neither. */
  lemma PassExactly(table: Table, s: Text)
    ensures Pass(table, s).None? <==> forall i, m | 0 <= i < |s| :: !PairAt(s, i, m) && !SelfAt(s, i, m)
    ensures Pass(table, s).Some? ==> exists p, m :: Rewrites(table, s, p, m, Pass(table, s).value)
  {
    PassUnfold(table, s);
    hide Find, MatchPaired, MatchSelf, PairAt, SelfAt, Pass, First;
    if Pass(table, s).Some? {
      var p, m := FoundFirst(s);
      FirstIsLegal(s, p, m);
      assert Rewrites(table, s, p, m, Pass(table, s).value);
      FirstIsThere(s, p, m);
    } else {
      NoneBefore(s, |s|);
    }
  }

  lemma FirstIsThere(s: Text, p: nat, m: Match)
    requires First(s, p, m)
    ensures PairAt(s, p, m) || SelfAt(s, p, m)
    ensures p < |s|
  {
    hide PairTag, SelfTag, IsHead;
    PairTagForm(m, [], []);
    SelfTagForm(m, []);
    if PairAt(s, p, m) {
      var close :| IsPair(Part(s, p, m.length), m, close);
      PairTagForm(m, close, []);
    }
  }

  ghost predicate Rewrites(table: Table, s: Text, p: nat, m: Match, out: Text) {
    && First(s, p, m) && p + m.length <= |s|
    && out == s[..p] + Value(table, m, Part(s, p, m.length)) + s[p + m.length..]
  }
}
