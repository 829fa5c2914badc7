/** The loop of extensions/taffy.js evaluates the tag tree. */
module TagTheorems {
  import opened Basics
  import opened Text
  import opened TagRewriting
  import opened TagSemantics

  // ---------------------------------------------------------------- the matcher on spelled tokens

  lemma NameEnds(name: Text, after: Text)
    requires IsTagName(name) && after != [] && !IsName(after[0])
    ensures NameLength(name + after) == |name|
  {
    var s := name + after;
    assert s[|name|] == after[0] && forall i | 0 <= i < |name| :: s[i] == name[i];
  }

  lemma ParseBare(name: Text, tail: Text)
    requires IsTagName(name) && tail != [] && !IsName(tail[0]) && tail[0] != LPAREN
    ensures ParseHead([LT, AT] + name + tail) == Some(Head(name, None, tail))
  {
    var s := [LT, AT] + name + tail;
    assert s[2..] == name + tail;
    NameEnds(name, tail);
    assert s[2..2 + |name|] == name && s[2 + |name|..] == tail;
  }

  lemma IndexAt(a: Text, c: Unit, b: Text)
    requires forall i | 0 <= i < |a| :: a[i] != c
    ensures IndexOf(a + ([c] + b), c) == |a|
  {
    var t := a + ([c] + b);
    assert t[|a|] == c && forall i | 0 <= i < |a| :: t[i] == a[i];
  }

  lemma ParseParts(s: Text, name: Text, rest: Text)
    requires s == [LT, AT] + name + rest && name != [] && NameLength(name + rest) == |name| && rest != [] && rest[0] == LPAREN
    ensures var k := IndexOf(rest[1..], RPAREN);
      k < |rest| - 1 ==> ParseHead(s) == Some(Head(name, Some(rest[1..1 + k]), rest[k + 2..]))
  {
    hide NameLength, IndexOf;
    assert s[2..] == name + rest && s[2..2 + |name|] == name && s[2 + |name|..] == rest;
  }

  lemma ParseArg(name: Text, arg: Text, tail: Text)
    requires IsTagName(name) && RPAREN !in arg
    ensures ParseHead([LT, AT] + name + ([LPAREN] + arg + [RPAREN]) + tail) == Some(Head(name, Some(arg), tail))
  {
    hide ParseHead, NameLength, IndexOf;
    var after := [LPAREN] + (arg + ([RPAREN] + tail));
    var s := [LT, AT] + name + ([LPAREN] + arg + [RPAREN]) + tail;
    assert s == [LT, AT] + name + after;
    NameEnds(name, after);
    IndexAt(arg, RPAREN, tail);
    assert after[1..] == arg + ([RPAREN] + tail);
    ParseParts(s, name, after);
    assert after[1..1 + |arg|] == arg && after[|arg| + 2..] == tail;
  }

  lemma ParseClose(name: Text, rest: Text)
    ensures ParseHead([LT, AT, SLASH] + name + [GT] + rest).None?
  {
    var s := [LT, AT, SLASH] + name + [GT] + rest;
    assert s[2] == SLASH && NameLength(s[2..]) == 0;
  }

  lemma ParseNamed(name: Text, arg: Option<Text>, tail: Text)
    requires IsTagName(name) && IsArg(arg) && tail != [] && (tail[0] == GT || tail[0] == SLASH)
    ensures ParseHead([LT, AT] + name + RenderArg(arg) + tail) == Some(Head(name, arg, tail))
  {
    hide ParseHead, IsTagName;
    if arg.Some? {
      ParseArg(name, arg.value, tail);
    } else {
      ParseBare(name, tail);
      assert [LT, AT] + name + [] == [LT, AT] + name;
    }
  }

  lemma ParseSpelled(t: Token, rest: Text)
    requires Good(t) && !t.Chars?
    ensures ParseHead(Spell(t) + rest) ==
      match t
      case Open(name, arg) => Some(Head(name, arg, [GT] + rest))
      case Single(name, arg) => Some(Head(name, arg, [SLASH, GT] + rest))
      case _ => None
  {
    hide ParseHead, IsTagName, IsArg, RenderArg;
    match t
    case Close(name) => ParseClose(name, rest);
    case Open(name, arg) =>
      ParseNamed(name, arg, [GT] + rest);
      assert Spell(t) + rest == [LT, AT] + name + RenderArg(arg) + ([GT] + rest);
    case Single(name, arg) =>
      ParseNamed(name, arg, [SLASH, GT] + rest);
      assert Spell(t) + rest == [LT, AT] + name + RenderArg(arg) + ([SLASH, GT] + rest);
  }

  /** Number of tokens of plain text at the start. */
  function CharsRun(ts: seq<Token>): (n: nat)
    ensures n <= |ts| && AllChars(ts[..n]) && (n < |ts| ==> !ts[n].Chars?)
  {
    if ts != [] && ts[0].Chars? then 1 + CharsRun(ts[1..]) else 0
  }

  lemma {:induction false} FlatChars(ts: seq<Token>)
    requires AllGood(ts) && AllChars(ts)
    ensures Plain(Flat(ts))
  {
    if ts != [] {
      FlatChars(ts[1..]);
    }
  }

  /** The tag at the start of `ts` is innermost: plain text and then its own closing token. */
  predicate Innermost(ts: seq<Token>) {
    ts != [] && ts[0].Open? &&
    var j := 1 + CharsRun(ts[1..]);
    j < |ts| && ts[j].Close? && Lower(ts[j].name) == Lower(ts[0].name)
  }

  lemma SelfText(s: Text, name: Text, arg: Option<Text>, rest: Text)
    requires ParseHead(s) == Some(Head(name, arg, rest))
    ensures |rest| <= |s| && MatchSelf(s) ==
      if |rest| >= 2 && rest[0] == SLASH && rest[1] == GT then Some(Match(name, arg, [], |s| - |rest| + 2)) else None
  {
    hide ParseHead;
  }

  lemma SelfSingle(s: Text, name: Text, arg: Option<Text>, rest: Text)
    requires ParseHead(s) == Some(Head(name, arg, [SLASH, GT] + rest))
    ensures |s| >= |rest| && MatchSelf(s) == Some(Match(name, arg, [], |s| - |rest|))
  {
    var tail := [SLASH, GT] + rest;
    assert |tail| == 2 + |rest| && tail[0] == SLASH && tail[1] == GT;
    SelfText(s, name, arg, tail);
    hide ParseHead, MatchSelf;
  }

  lemma SelfOpen(s: Text, name: Text, arg: Option<Text>, rest: Text)
    requires ParseHead(s) == Some(Head(name, arg, [GT] + rest))
    ensures MatchSelf(s).None?
  {
    var tail := [GT] + rest;
    assert tail[0] == GT != SLASH;
    SelfText(s, name, arg, tail);
    hide ParseHead, MatchSelf;
  }

  lemma SelfOnSpelled(t: Token, rest: Text)
    requires Good(t) && !t.Chars?
    ensures MatchSelf(Spell(t) + rest) == if t.Single? then Some(Match(t.name, t.arg, [], |Spell(t)|)) else None
  {
    hide *;
    ParseSpelled(t, rest);
    if t.Single? {
      SelfSingle(Spell(t) + rest, t.name, t.arg, rest);
    } else if t.Open? {
      SelfOpen(Spell(t) + rest, t.name, t.arg, rest);
    } else {
      NoHead(Spell(t) + rest);
    }
  }

  lemma NoHead(s: Text)
    requires ParseHead(s).None?
    ensures MatchSelf(s).None? && MatchPaired(s).None?
  {
    hide ParseHead;
  }

  lemma SelfOnTokens(ts: seq<Token>)
    requires AllGood(ts) && ts != [] && !ts[0].Chars?
    ensures MatchSelf(Flat(ts)) ==
      if ts[0].Single? then Some(Match(ts[0].name, ts[0].arg, [], |Spell(ts[0])|)) else None
  {
    hide *;
    FlatHead(ts);
    SelfOnSpelled(ts[0], Flat(ts[1..]));
  }

  lemma FlatHead(ts: seq<Token>)
    requires AllGood(ts) && ts != []
    ensures Flat(ts) == Spell(ts[0]) + Flat(ts[1..]) && Good(ts[0])
  {
    hide Good, Spell;
  }

  /** The closing text of `name` is found exactly at a closing token of that name. */
  lemma CloseOnTokens(t: Token, name: Text, rest: Text)
    requires Good(t) && !t.Chars? && IsTagName(name)
    ensures ClosesAt(Spell(t) + rest, name) <==> t.Close? && Lower(t.name) == Lower(name)
  {
    var close, n := Spell(t) + rest, |name|;
    if t.Close? {
      var m := |t.name|;
      assert close[3..m + 3] == t.name && close[m + 3] == GT;
      assert n < m ==> close[n + 3] == t.name[n];
      assert m < n && |close| >= n + 4 ==> Lower(close[3..n + 3])[m] == GT && Lower(name)[m] != GT;
    }
  }

  lemma FirstTagAfter(content: Text, others: Text)
    requires (forall i | 0 <= i < |content| :: !TagAt(content, i)) && (others == [] || TagAt(others, 0))
    ensures FirstTag(content + others) == |content|
  {
    var s := content + others;
    forall i | 0 <= i < |content| ensures !TagAt(s, i) {
      assert s[i] == content[i] && !TagAt(content, i);
    }
    assert others != [] ==> TagAt(s, |content|);
  }

  lemma PlainHasNoTag(t: Text)
    requires Plain(t)
    ensures forall i | 0 <= i < |t| :: !TagAt(t, i)
  {
  }

  lemma FlatTag(ts: seq<Token>)
    requires AllGood(ts) && ts != [] && !ts[0].Chars?
    ensures TagAt(Flat(ts), 0)
  {
  }

  lemma ClosesNothing(name: Text)
    ensures !ClosesAt([], name)
  {
  }

  lemma PairText(s: Text, name: Text, arg: Option<Text>, after: Text)
    requires ParseHead(s) == Some(Head(name, arg, [GT] + after)) && |after| <= |s|
    ensures var k := FirstTag(after);
      MatchPaired(s) ==
        if ClosesAt(after[k..], name) then Some(Match(name, arg, after[..k], |s| - |after[k..]| + |name| + 4)) else None
  {
    hide ParseHead, FirstTag, ClosesAt;
    assert ([GT] + after)[1..] == after;
  }

  /** PAIRED behind an opening tag: the content ends at the next tag. */
  lemma OpenText(name: Text, arg: Option<Text>, content: Text, others: Text)
    requires Good(Open(name, arg)) && Plain(content) && (others == [] || TagAt(others, 0))
    ensures var opening := Spell(Open(name, arg));
      MatchPaired(opening + (content + others)) ==
        if ClosesAt(others, name) then Some(Match(name, arg, content, |opening| + |content| + |name| + 4)) else None
  {
    hide *;
    var opening, after := Spell(Open(name, arg)), content + others;
    ParseSpelled(Open(name, arg), after);
    PairText(opening + after, name, arg, after);
    PlainHasNoTag(content);
    FirstTagAfter(content, others);
    assert after[|content|..] == others && after[..|content|] == content;
  }

  lemma NoOpenText(t: Token, rest: Text)
    requires Good(t) && (t.Close? || t.Single?)
    ensures MatchPaired(Spell(t) + rest).None?
  {
    ParseSpelled(t, rest);
    hide ParseHead;
  }

  lemma FlatSplit(ts: seq<Token>, j: nat)
    requires 0 < j <= |ts|
    ensures Flat(ts) == Spell(ts[0]) + (Flat(ts[1..j]) + Flat(ts[j..]))
  {
    assert ts[1..] == ts[1..j] + ts[j..];
    FlatConcat(ts[1..j], ts[j..]);
    hide Spell;
  }

  lemma FlatLength(ts: seq<Token>, j: nat)
    requires 0 < j < |ts|
    ensures Flat(ts[j..]) == Spell(ts[j]) + Flat(ts[j + 1..])
    ensures |Flat(ts[..j + 1])| == |Spell(ts[0])| + |Flat(ts[1..j])| + |Spell(ts[j])|
  {
    assert ts[..j + 1] == [ts[0]] + (ts[1..j] + [ts[j]]);
    assert ts[j..][1..] == ts[j + 1..];
    assert Flat([ts[0]]) == Spell(ts[0]) && Flat([ts[j]]) == Spell(ts[j]);
    assert Flat(ts[j..]) == Spell(ts[j]) + Flat(ts[j + 1..]);
    hide Spell, Flat;
    FlatConcat([ts[0]], ts[1..j] + [ts[j]]);
    FlatConcat(ts[1..j], [ts[j]]);
  }

  /** The text behind the content closes ts[0] exactly when the next tag token does. */
  lemma CloseFound(ts: seq<Token>, j: nat)
    requires AllGood(ts) && ts != [] && ts[0].Open? && j == 1 + CharsRun(ts[1..])
    ensures ClosesAt(Flat(ts[j..]), ts[0].name) <==> Innermost(ts)
    ensures Innermost(ts) ==> |Spell(ts[j])| == |ts[0].name| + 4
  {
    if j < |ts| {
      assert ts[1..][j - 1] == ts[j] && ts[j..][1..] == ts[j + 1..];
      CloseOnTokens(ts[j], ts[0].name, Flat(ts[j + 1..]));
      assert ts[j].Close? ==> |Lower(ts[j].name)| == |ts[j].name| && |Lower(ts[0].name)| == |ts[0].name|;
    } else {
      ClosesNothing(ts[0].name);
    }
    hide ClosesAt;
  }

  lemma ContentPlain(ts: seq<Token>, j: nat)
    requires AllGood(ts) && ts != [] && j == 1 + CharsRun(ts[1..])
    ensures Plain(Flat(ts[1..j])) && (Flat(ts[j..]) == [] || TagAt(Flat(ts[j..]), 0))
  {
    assert ts[1..][..j - 1] == ts[1..j];
    FlatChars(ts[1..j]);
    if j < |ts| {
      assert ts[1..][j - 1] == ts[j];
      FlatTag(ts[j..]);
    }
    hide Spell;
  }

  /** PAIRED at a tag token matches exactly when that tag is innermost, and then the whole of it. */
  lemma PairOnTokens(ts: seq<Token>, j: nat)
    requires AllGood(ts) && ts != [] && !ts[0].Chars? && j == 1 + CharsRun(ts[1..])
    ensures MatchPaired(Flat(ts)) ==
      if Innermost(ts) then Some(Match(ts[0].name, ts[0].arg, Flat(ts[1..j]), |Flat(ts[..j + 1])|)) else None
  {
    hide MatchPaired, ClosesAt, Spell;
    FlatSplit(ts, j);
    if j < |ts| { FlatLength(ts, j); }
    if ts[0].Open? {
      CloseFound(ts, j);
      ContentPlain(ts, j);
      OpenText(ts[0].name, ts[0].arg, Flat(ts[1..j]), Flat(ts[j..]));
    } else {
      NoOpenText(ts[0], Flat(ts[1..]));
    }
  }

  // ---------------------------------------------------------------- one pass on tokens

  /** Every `<` in the text is the start of a tag token. */
  lemma {:induction false} AngleAt(ts: seq<Token>, p: nat) returns (i: nat)
    requires AllGood(ts) && p < |Flat(ts)| && Flat(ts)[p] == LT
    ensures i < |ts| && !ts[i].Chars? && |Flat(ts[..i])| == p && Flat(ts)[p..] == Flat(ts[i..])
  {
    if ts == [] {
      NothingFlat();
    } else {
      FlatHead(ts);
      GoodTail(ts);
      hide AllGood, Flat, Spell, Good;
      var n := |Spell(ts[0])|;
      if p >= n {
        assert Flat(ts)[p..] == Flat(ts[1..])[p - n..];
        i := AngleAt(ts[1..], p - n);
        TakeStep(ts, i);
        i := i + 1;
      } else {
        SpellAngle(ts[0], p);
        NothingFlat();
        i := 0;
        assert ts[0..] == ts;
      }
    }
  }

  lemma NothingFlat()
    ensures Flat([]) == []
  {
  }

  lemma GoodTail(ts: seq<Token>)
    requires AllGood(ts) && ts != []
    ensures AllGood(ts[1..])
  {
    hide Good;
  }

  lemma TakeStep(ts: seq<Token>, i: nat)
    requires ts != [] && i <= |ts| - 1
    ensures |Flat(ts[..i + 1])| == |Spell(ts[0])| + |Flat(ts[1..][..i])| && ts[1..][i..] == ts[i + 1..]
    ensures |Flat(ts[..i + 1])| <= |Flat(ts)|
    ensures i < |ts| - 1 ==> ts[1..][i] == ts[i + 1]
  {
    assert ts[..i + 1][1..] == ts[1..][..i];
    assert ts == ts[..i + 1] + ts[i + 1..];
    FlatConcat(ts[..i + 1], ts[i + 1..]);
    hide Spell;
  }

  lemma SpellAngle(t: Token, p: nat)
    requires Good(t) && p < |Spell(t)| && Spell(t)[p] == LT
    ensures !t.Chars? && p == 0
  {
  }

  /** Tokens i to j are replaced by their value. */
  function Reduced(ts: seq<Token>, i: nat, j: nat, value: Text): seq<Token>
    requires i <= j < |ts|
  {
    ts[..i] + [Chars(value)] + ts[j + 1..]
  }

  lemma ReducedText(ts: seq<Token>, i: nat, j: nat, value: Text)
    requires i <= j < |ts|
    ensures var s, p, n := Flat(ts), |Flat(ts[..i])|, |Flat(ts[i..j + 1])|;
      p + n <= |s| && Flat(Reduced(ts, i, j, value)) == s[..p] + value + s[p + n..]
  {
    hide Flat;
    var a, b, c := ts[..i], ts[i..j + 1], ts[j + 1..];
    assert ts == a + b + c;
    FlatConcat(a + b, c);
    FlatConcat(a, b);
    FlatConcat(a + [Chars(value)], c);
    FlatConcat(a, [Chars(value)]);
    FlatOne(Chars(value));
    assert Flat(ts) == Flat(a) + Flat(b) + Flat(c);
  }

  lemma CharsExec(table: Table, st: seq<Frame>, value: Text)
    requires st != []
    ensures Exec(table, st, [Chars(value)]) == Some(Push(st, value))
  {
    hide Push;
  }

  /** Replacing a middle part by text with the same effect. */
  lemma SameEffect(table: Table, st: seq<Frame>, a: seq<Token>, b: seq<Token>, c: seq<Token>, value: Text)
    requires st != [] && Exec(table, st, a).Some?
    requires Exec(table, Exec(table, st, a).value, b) == Some(Push(Exec(table, st, a).value, value))
    ensures Exec(table, st, a + [Chars(value)] + c) == Exec(table, st, a + b + c)
  {
    hide *;
    ExecConcat(table, st, a + b, c);
    ExecConcat(table, st, a, b);
    ExecConcat(table, st, a + [Chars(value)], c);
    ExecConcat(table, st, a, [Chars(value)]);
    CharsExec(table, Exec(table, st, a).value, value);
  }

  lemma SameTags(a: seq<Token>, b: seq<Token>, c: seq<Token>, value: Text)
    ensures Tags(a + [Chars(value)] + c) == Tags(a + b + c) - Tags(b)
  {
    TagsConcat(a + b, c);
    TagsConcat(a, b);
    TagsConcat(a + [Chars(value)], c);
    TagsConcat(a, [Chars(value)]);
  }

  lemma ReducedExec(table: Table, st: seq<Frame>, ts: seq<Token>, i: nat, j: nat, value: Text)
    requires st != [] && i <= j < |ts| && AllGood(ts) && Plain(value)
    requires Exec(table, st, ts[..i]).Some?
    requires var r := Exec(table, st, ts[..i]); Exec(table, r.value, ts[i..j + 1]) == Some(Push(r.value, value))
    ensures Exec(table, st, Reduced(ts, i, j, value)) == Exec(table, st, ts) && AllGood(Reduced(ts, i, j, value))
    ensures Tags(Reduced(ts, i, j, value)) == Tags(ts) - Tags(ts[i..j + 1])
  {
    hide Exec, Tags, Push, Plain;
    var a, b, c := ts[..i], ts[i..j + 1], ts[j + 1..];
    assert ts == a + b + c;
    SameEffect(table, st, a, b, c, value);
    SameTags(a, b, c, value);
  }

  lemma {:induction false} TagsOfChars(ts: seq<Token>)
    requires AllChars(ts)
    ensures Tags(ts) == 0
  {
    if ts != [] {
      TagsOfChars(ts[1..]);
    }
  }

  /** An innermost tag leaves its value on the machine's top frame. */
  lemma InnermostExec(table: Table, st: seq<Frame>, ts: seq<Token>, j: nat)
    requires st != [] && Innermost(ts) && j == 1 + CharsRun(ts[1..])
    requires Exec(table, st, ts[..j + 1]).Some?
    ensures var f := Lower(ts[0].name);
      && f in table && Plain(table[f](Flat(ts[1..j]), ts[0].arg))
      && Exec(table, st, ts[..j + 1]) == Some(Push(st, table[f](Flat(ts[1..j]), ts[0].arg)))
    ensures Tags(ts[..j + 1]) == 1
  {
    var open, chars, close := [ts[0]], ts[1..j], [ts[j]];
    var pushed := st + [Frame(ts[0].name, ts[0].arg, [])];
    var content := Flat(chars);
    assert chars == ts[1..][..j - 1] && ts[..j + 1] == (open + chars) + close;
    ExecConcat(table, st, open + chars, close);
    ExecConcat(table, st, open, chars);
    ExecChars(table, pushed, chars);
    TagsConcat(open + chars, close);
    TagsConcat(open, chars);
    TagsOfChars(chars);
    var filled := Push(pushed, content);
    assert [] + content == content;
    assert filled[..|st|] == st && filled[|st|] == Frame(ts[0].name, ts[0].arg, content);
    assert Exec(table, st, open) == Some(pushed);
    assert Exec(table, filled, close) == Feed(table, filled, ts[j]);
  }

  /** A well-nested sequence with tags in it has one that a pass can resolve. */
  lemma {:induction false} SomeRedex(table: Table, st: seq<Frame>, ts: seq<Token>) returns (i: nat)
    requires st != [] && Exec(table, st, ts).Some? && |Exec(table, st, ts).value| == 1 && Tags(ts) > 0
    ensures i < |ts| && (Innermost(ts[i..]) || ts[i].Single?)
    decreases |ts|
  {
    assert ts[0..] == ts;
    if ts[0].Single? {
      i := 0;
    } else if ts[0].Open? && Tags(ts[1..]) == 0 {
      i := 0;
      LastOpen(table, st, ts);
    } else {
      i := SomeRedex(table, Feed(table, st, ts[0]).value, ts[1..]);
      assert ts[1..][i..] == ts[i + 1..];
      i := i + 1;
    }
  }

  lemma {:induction false} NoTagAt(ts: seq<Token>, i: nat)
    requires Tags(ts) == 0 && i < |ts|
    ensures ts[i].Chars? || ts[i].Close?
  {
    if i > 0 {
      NoTagAt(ts[1..], i - 1);
    }
  }

  lemma LastOpen(table: Table, st: seq<Frame>, ts: seq<Token>)
    requires st != [] && ts != [] && ts[0].Open? && Tags(ts[1..]) == 0
    requires Exec(table, st, ts).Some? && |Exec(table, st, ts).value| == 1
    ensures Innermost(ts)
  {
    var rest := ts[1..];
    var n := CharsRun(rest);
    var pushed := st + [Frame(ts[0].name, ts[0].arg, [])];
    assert rest == rest[..n] + rest[n..];
    ExecConcat(table, pushed, rest[..n], rest[n..]);
    ExecChars(table, pushed, rest[..n]);
    if n < |rest| {
      NoTagAt(rest, n);
      assert rest[n] == ts[n + 1] && rest[n..][0] == rest[n];
    }
  }

  // ---------------------------------------------------------------- the loop

  const EMPTY_STACK: seq<Frame> := [Frame([], None, [])]

  /** `ts` is well nested, all its tags are known, and it evaluates to `value`. */
  predicate Means(table: Table, ts: seq<Token>, value: Text) {
    AllGood(ts) && Exec(table, EMPTY_STACK, ts) == Some([Frame([], None, value)])
  }

  /** The match m is the tag at tokens i to j. */
  predicate Locates(ts: seq<Token>, i: nat, j: nat, m: Match) {
    && i <= j < |ts| && m.name == NameOf(ts[i]) && m.length == |Flat(ts[i..j + 1])|
    && ((ts[i].Single? && j == i && m.arg == ts[i].arg && m.content == [])
        || (Innermost(ts[i..]) && j == i + 1 + CharsRun(ts[i..][1..]) && m.arg == ts[i].arg && m.content == Flat(ts[i + 1..j])))
  }

  function NameOf(t: Token): Text { if t.Chars? then [] else t.name }

  lemma SingleExec(table: Table, st: seq<Frame>, t: Token)
    requires st != [] && t.Single? && Exec(table, st, [t]).Some?
    ensures var f := Lower(t.name);
      f in table && Plain(table[f]([], t.arg)) && Exec(table, st, [t]) == Some(Push(st, table[f]([], t.arg)))
    ensures Tags([t]) == 1
  {
    hide Push, Plain;
  }

  /** The value of a located tag, as the machine computes it. */
  lemma LocatedExec(table: Table, st: seq<Frame>, ts: seq<Token>, i: nat, j: nat, m: Match)
    requires st != [] && Locates(ts, i, j, m) && Exec(table, st, ts[i..j + 1]).Some?
    ensures var f := Lower(m.name);
      f in table && Plain(table[f](m.content, m.arg)) && Exec(table, st, ts[i..j + 1]) == Some(Push(st, table[f](m.content, m.arg)))
    ensures Tags(ts[i..j + 1]) == 1
  {
    hide Exec, Innermost, Flat, Tags, Push, Plain, Lower, CharsRun;
    if !Innermost(ts[i..]) {
      assert ts[i..j + 1] == [ts[i]];
      SingleExec(table, st, ts[i]);
    } else {
      InnermostName(ts[i..]);
      assert ts[i..][0] == ts[i];
      assert ts[i..j + 1] == ts[i..][..j + 1 - i] && ts[i..][1..j - i] == ts[i + 1..j];
      InnermostExec(table, st, ts[i..], j - i);
    }
  }

  lemma InnermostName(ts: seq<Token>)
    requires Innermost(ts)
    ensures ts != [] && ts[0].Open? && NameOf(ts[0]) == ts[0].name
  {
  }

  lemma SliceRuns(table: Table, st: seq<Frame>, ts: seq<Token>, i: nat, j: nat)
    requires st != [] && i <= j <= |ts| && Exec(table, st, ts).Some?
    ensures Exec(table, st, ts[..i]).Some? && Exec(table, Exec(table, st, ts[..i]).value, ts[i..j]).Some?
  {
    assert ts == ts[..i] + ts[i..] && ts[i..] == ts[i..j] + ts[j..];
    ExecConcat(table, st, ts[..i], ts[i..]);
    var st' := Exec(table, st, ts[..i]).value;
    ExecConcat(table, st', ts[i..j], ts[j..]);
    hide Feed;
  }

  lemma LocatedAt(ts: seq<Token>, i: nat, j: nat, m: Match)
    requires Locates(ts, i, j, m)
    ensures i <= j < |ts| && m.length == |Flat(ts[i..j + 1])|
  {
    hide Flat, Innermost, CharsRun, NameOf;
  }

  lemma SameMeaning(table: Table, ts: seq<Token>, value: Text, ts': seq<Token>)
    requires Means(table, ts, value) && AllGood(ts') && EMPTY_STACK != [] && Exec(table, EMPTY_STACK, ts') == Exec(table, EMPTY_STACK, ts)
    ensures Means(table, ts', value)
  {
    hide AllGood, Exec;
  }

  lemma MeansRuns(table: Table, ts: seq<Token>, value: Text)
    requires Means(table, ts, value)
    ensures AllGood(ts) && EMPTY_STACK != [] && Exec(table, EMPTY_STACK, ts).Some?
  {
    hide AllGood, Exec;
  }

  lemma ReplacedBy(table: Table, s: Text, p: nat, m: Match)
    requires p + m.length <= |s| && Lower(m.name) in table
    ensures Replaced(table, s, p, m) == s[..p] + table[Lower(m.name)](m.content, m.arg) + s[p + m.length..]
  {
    hide Lower;
  }

  /** Resolving one located tag. */
  lemma Resolve(table: Table, ts: seq<Token>, value: Text, i: nat, j: nat, m: Match) returns (ts': seq<Token>)
    requires Means(table, ts, value) && Locates(ts, i, j, m)
    ensures Means(table, ts', value) && Tags(ts') == Tags(ts) - 1
    ensures i <= j < |ts| && Lower(m.name) in table && ts' == Reduced(ts, i, j, table[Lower(m.name)](m.content, m.arg))
    ensures var p := |Flat(ts[..i])|;
      p + m.length <= |Flat(ts)| && Flat(ts') == Replaced(table, Flat(ts), p, m)
  {
    hide *;
    LocatedAt(ts, i, j, m);
    MeansRuns(table, ts, value);
    var v := ResolveExec(table, ts, i, j, m);
    ReducedText(ts, i, j, v);
    ts' := Reduced(ts, i, j, v);
    SameMeaning(table, ts, value, ts');
    ReplacedBy(table, Flat(ts), |Flat(ts[..i])|, m);
  }

  /** Its value is what the table says, and the machine cannot tell it from the tag. */
  lemma ResolveExec(table: Table, ts: seq<Token>, i: nat, j: nat, m: Match) returns (v: Text)
    requires EMPTY_STACK != []
    requires AllGood(ts) && Exec(table, EMPTY_STACK, ts).Some? && i <= j < |ts| && Locates(ts, i, j, m)
    ensures Lower(m.name) in table && v == table[Lower(m.name)](m.content, m.arg)
    ensures Exec(table, EMPTY_STACK, Reduced(ts, i, j, v)) == Exec(table, EMPTY_STACK, ts) && AllGood(Reduced(ts, i, j, v))
    ensures Tags(Reduced(ts, i, j, v)) == Tags(ts) - 1
  {
    hide *;
    SliceRuns(table, EMPTY_STACK, ts, i, j + 1);
    LocatedExec(table, Exec(table, EMPTY_STACK, ts[..i]).value, ts, i, j, m);
    v := table[Lower(m.name)](m.content, m.arg);
    ReducedExec(table, EMPTY_STACK, ts, i, j, v);
  }

  lemma BehindTag(ts: seq<Token>)
    requires Innermost(ts)
    ensures ts != [] && ts[0].Open? && 1 + CharsRun(ts[1..]) < |ts|
  {
  }

  /** The tokens of an innermost tag at i, in terms of the whole sequence. */
  lemma LocatedPair(ts: seq<Token>, i: nat, m: Match)
    requires i < |ts| && Innermost(ts[i..])
    requires m == Match(ts[i].name, ts[i].arg, Flat(ts[i..][1..1 + CharsRun(ts[i..][1..])]), |Flat(ts[i..][..2 + CharsRun(ts[i..][1..])])|)
    ensures Locates(ts, i, i + 1 + CharsRun(ts[i..][1..]), m)
  {
    hide Innermost, Flat, CharsRun;
    BehindTag(ts[i..]);
    var n := 1 + CharsRun(ts[i..][1..]);
    assert ts[i..][1..n] == ts[i + 1..i + n] && ts[i..][..n + 1] == ts[i..i + n + 1];
  }

  lemma GoodFrom(ts: seq<Token>, i: nat)
    requires AllGood(ts) && i <= |ts|
    ensures AllGood(ts[i..])
  {
    hide Good;
  }

  /** A match of PAIRED is one innermost tag of the tokens, all of it and nothing else. */
  lemma FoundPair(ts: seq<Token>, p: nat) returns (i: nat, j: nat)
    requires AllGood(ts) && p < |Flat(ts)| && MatchPaired(Flat(ts)[p..]).Some?
    ensures Locates(ts, i, j, MatchPaired(Flat(ts)[p..]).value) && |Flat(ts[..i])| == p && Tags(ts) > 0
    ensures Innermost(ts[i..]) && j == i + 1 + CharsRun(ts[i..][1..])
  {
    hide *;
    i := AngleAt(ts, p);
    GoodFrom(ts, i);
    var n := 1 + CharsRun(ts[i..][1..]);
    PairOnTokens(ts[i..], n);
    BehindTag(ts[i..]);
    j := i + n;
    LocatedPair(ts, i, MatchPaired(Flat(ts)[p..]).value);
    TagHere(ts, i);
  }

  lemma FlatOne(t: Token)
    ensures Flat([t]) == Spell(t)
  {
    assert Spell(t) + [] == Spell(t);
    hide Spell;
  }

  lemma FoundSelf(ts: seq<Token>, p: nat) returns (i: nat)
    requires AllGood(ts) && p < |Flat(ts)| && MatchSelf(Flat(ts)[p..]).Some?
    ensures Locates(ts, i, i, MatchSelf(Flat(ts)[p..]).value) && |Flat(ts[..i])| == p && Tags(ts) > 0 && ts[i].Single?
  {
    hide MatchSelf, Spell, AllGood, Flat, Tags;
    i := AngleAt(ts, p);
    GoodFrom(ts, i);
    SelfOnTokens(ts[i..]);
    FlatOne(ts[i]);
    assert ts[i..i + 1] == [ts[i]];
    TagHere(ts, i);
  }

  lemma TagHere(ts: seq<Token>, i: nat)
    requires i < |ts|
    ensures ts[i].Open? || ts[i].Single? ==> Tags(ts) > 0
  {
    assert ts == ts[..i] + ts[i..];
    TagsConcat(ts[..i], ts[i..]);
  }

  /** A tag that can be resolved is matched in the text. */
  lemma Visible(ts: seq<Token>, i: nat)
    requires AllGood(ts) && i < |ts| && (Innermost(ts[i..]) || ts[i].Single?)
    ensures exists p | 0 <= p < |Flat(ts)| :: MatchPaired(Flat(ts)[p..]).Some? || MatchSelf(Flat(ts)[p..]).Some?
  {
    var p := |Flat(ts[..i])|;
    assert ts == ts[..i] + ts[i..];
    FlatConcat(ts[..i], ts[i..]);
    FlatTag(ts[i..]);
    assert Flat(ts)[p..] == Flat(ts[i..]);
    if ts[i].Single? {
      SelfOnTokens(ts[i..]);
    } else {
      PairOnTokens(ts[i..], 1 + CharsRun(ts[i..][1..]));
    }
  }

  /** One pass: a tag fewer, the same meaning; and no pass once there is no tag. */
  lemma PassOnTokens(table: Table, ts: seq<Token>, value: Text) returns (ts': seq<Token>)
    requires Means(table, ts, value)
    ensures Tags(ts) == 0 ==> Pass(table, Flat(ts)).None?
    ensures Tags(ts) > 0 ==>
      Means(table, ts', value) && Tags(ts') == Tags(ts) - 1 && Pass(table, Flat(ts)) == Some(Flat(ts'))
  {
    var s := Flat(ts);
    ts' := ts;
    var p2, p1 := Find(MatchPaired, s, 0), Find(MatchSelf, s, 0);
    if p2.Some? {
      var i, j := FoundPair(ts, p2.value);
      ts' := Resolve(table, ts, value, i, j, MatchPaired(s[p2.value..]).value);
    } else if p1.Some? {
      var i := FoundSelf(ts, p1.value);
      ts' := Resolve(table, ts, value, i, i, MatchSelf(s[p1.value..]).value);
    } else if Tags(ts) > 0 {
      var i := SomeRedex(table, EMPTY_STACK, ts);
      Visible(ts, i);
    }
  }

  lemma NoTagsValue(table: Table, ts: seq<Token>, value: Text)
    requires Means(table, ts, value) && Tags(ts) == 0
    ensures Flat(ts) == value
  {
    NoTagsNoAngle(table, EMPTY_STACK, ts);
    hide Exec, Flat, Tags;
    assert Push(EMPTY_STACK, Flat(ts))[0].text == [] + Flat(ts) == Flat(ts);
  }

  lemma TagsNotPlain(ts: seq<Token>)
    requires Tags(ts) > 0
    ensures !Plain(Flat(ts))
  {
    var k := TagsAngle(ts);
    hide Tags, Flat;
  }

  /** n passes over tokens with no more than n tags leave their value; with more, tags remain. */
  lemma {:induction false} PassesOnTokens(table: Table, ts: seq<Token>, value: Text, n: nat)
    requires Means(table, ts, value) && Plain(value)
    ensures Tags(ts) <= n ==> Passes(table, Flat(ts), n) == value
    ensures Tags(ts) > n ==> !Plain(Passes(table, Flat(ts), n))
    decreases n
  {
    hide *;
    var ts' := PassOnTokens(table, ts, value);
    PassesUnfold(table, Flat(ts), n);
    if Tags(ts) == 0 {
      NoTagsValue(table, ts, value);
    } else if n == 0 {
      TagsNotPlain(ts);
    } else {
      PassesOnTokens(table, ts', value, n - 1);
    }
  }

  lemma {:induction false} TagsAngle(ts: seq<Token>) returns (k: nat)
    requires Tags(ts) > 0
    ensures k < |Flat(ts)| && Flat(ts)[k] == LT
  {
    if ts[0].Open? || ts[0].Single? {
      k := 0;
    } else {
      k := TagsAngle(ts[1..]);
      k := |Spell(ts[0])| + k;
    }
  }

  /** Well-nested tokens without tags are plain text, and their text is their value. */
  lemma NoTagsNoAngle(table: Table, st: seq<Frame>, ts: seq<Token>)
    requires Tags(ts) == 0 && |st| == 1 && Exec(table, st, ts).Some?
    ensures Exec(table, st, ts) == Some(Push(st, Flat(ts)))
  {
    var n := CharsRun(ts);
    assert ts == ts[..n] + ts[n..];
    ExecConcat(table, st, ts[..n], ts[n..]);
    ExecChars(table, st, ts[..n]);
    if n < |ts| {
      NoTagAt(ts, n);
    } else {
      assert ts[..n] == ts;
    }
  }

  /** THE LOOP COMPUTES THE TREE'S VALUE, exactly for trees with at most 200 tags: for every table of
      deterministic tag functions, `applyTags(render(t)) == eval(t)` if and only if t has at most 200 tags. */
  lemma ApplyTagsEvaluates(table: Table, nodes: seq<Node>)
    requires Proper(table, nodes)
    ensures Passes(table, Render(nodes), 200) == Eval(table, nodes) <==> TagCount(nodes) <= 200
  {
    var ts := Tokens(nodes);
    TreeTokens(table, nodes, EMPTY_STACK);
    assert [] + Eval(table, nodes) == Eval(table, nodes);
    assert Push(EMPTY_STACK, Eval(table, nodes)) == [Frame([], None, Eval(table, nodes))];
    PassesOnTokens(table, ts, Eval(table, nodes), 200);
  }
}
