/** A pass of the rewriting loop of extensions/taffy.js over any sequence of tokens, known tags or not. */
module TagPasses {
  import opened Basics
  import opened Text
  import opened TagRewriting
  import opened TagSemantics
  import opened TagTheorems

  lemma KeptUnknown(table: Table, s: Text, p: nat, m: Match)
    requires p + m.length <= |s| && Lower(m.name) !in table
    ensures Replaced(table, s, p, m) == s
  {
    hide Lower;
  }

  // ---------------------------------------------------------------- self-closing tags

  /** Self-closing tags. */
  function Singles(ts: seq<Token>): nat {
    if ts == [] then 0 else (if ts[0].Single? then 1 else 0) + Singles(ts[1..])
  }

  function SelfCount(nodes: seq<Node>): nat {
    if nodes == [] then 0
    else
      (match nodes[0]
       case Lit(_) => 0
       case Pair(_, _, kids, _) => SelfCount(kids)
       case Self(_, _) => 1)
      + SelfCount(nodes[1..])
  }

  lemma {:induction false} SinglesConcat(a: seq<Token>, b: seq<Token>)
    ensures Singles(a + b) == Singles(a) + Singles(b)
  {
    if a == [] {
      assert a + b == b;
    } else {
      assert (a + b)[1..] == a[1..] + b;
      SinglesConcat(a[1..], b);
    }
  }

  lemma {:induction false} SinglesAreTags(ts: seq<Token>)
    ensures Singles(ts) <= Tags(ts)
  {
    if ts != [] {
      SinglesAreTags(ts[1..]);
    }
  }

  lemma {:induction false} NoSingleAt(ts: seq<Token>, i: nat)
    requires Singles(ts) == 0 && i < |ts|
    ensures !ts[i].Single?
  {
    if i > 0 {
      NoSingleAt(ts[1..], i - 1);
    }
  }

  lemma {:induction false} SinglesOfChars(ts: seq<Token>)
    requires AllChars(ts)
    ensures Singles(ts) == 0
  {
    if ts != [] {
      SinglesOfChars(ts[1..]);
    }
  }

  lemma {:induction false} TreeSingles(nodes: seq<Node>)
    ensures Singles(Tokens(nodes)) == SelfCount(nodes)
    decreases nodes
  {
    if nodes != [] {
      TreeSingles(nodes[1..]);
      SinglesConcat(NodeTokens(nodes[0]), Tokens(nodes[1..]));
      match nodes[0]
      case Lit(_) =>
      case Self(_, _) =>
      case Pair(open, arg, kids, close) =>
        TreeSingles(kids);
        SinglesConcat([Open(open, arg)] + Tokens(kids), [Close(close)]);
        SinglesConcat([Open(open, arg)], Tokens(kids));
    }
  }

  lemma SinglesOne(t: Token)
    ensures Singles([t]) == if t.Single? then 1 else 0
  {
  }

  lemma SinglesOfParts(a: seq<Token>, open: Token, chars: seq<Token>, close: Token, c: seq<Token>, value: Text)
    requires AllChars(chars) && open.Open? && close.Close?
    ensures Singles(a + ([open] + (chars + [close])) + c) == Singles(a + [Chars(value)] + c)
  {
    hide Singles, AllChars;
    SinglesOfChars(chars);
    SinglesOne(open);
    SinglesOne(close);
    SinglesOne(Chars(value));
    SinglesConcat(a + ([open] + (chars + [close])), c);
    SinglesConcat(a, [open] + (chars + [close]));
    SinglesConcat([open], chars + [close]);
    SinglesConcat(chars, [close]);
    SinglesConcat(a + [Chars(value)], c);
    SinglesConcat(a, [Chars(value)]);
  }

  lemma PairParts(ts: seq<Token>, i: nat, n: nat)
    requires i + 1 + n < |ts|
    ensures var j := i + 1 + n; ts == ts[..i] + ([ts[i]] + (ts[i..][1..][..n] + [ts[j]])) + ts[j + 1..]
  {
  }

  /** Resolving an innermost pair leaves the self-closing tags alone. */
  lemma PairKeepsSingles(ts: seq<Token>, i: nat, value: Text)
    requires i < |ts| && Innermost(ts[i..])
    ensures var j := i + 1 + CharsRun(ts[i..][1..]); j < |ts| && Singles(Reduced(ts, i, j, value)) == Singles(ts)
  {
    hide Singles, CharsRun, Lower;
    var n := CharsRun(ts[i..][1..]);
    var j := i + 1 + n;
    assert ts[i..][1 + n] == ts[j] && ts[i..][0] == ts[i];
    PairParts(ts, i, n);
    SinglesOfParts(ts[..i], ts[i], ts[i..][1..][..n], ts[j], ts[j + 1..], value);
  }

  // ---------------------------------------------------------------- one pass on tokens, known or not

  lemma {:induction false} FindFrom(matcher: Text -> Option<Match>, s: Text, k: nat, p: nat)
    requires k <= p < |s| && matcher(s[p..]).Some? && forall i | k <= i < p :: matcher(s[i..]).None?
    ensures Find(matcher, s, k) == Some(p)
    decreases p - k
  {
    if k < p {
      FindFrom(matcher, s, k + 1, p);
    }
  }

  /** Where a tag that can be resolved is matched. */
  lemma Seen(ts: seq<Token>, i: nat) returns (p: nat)
    requires AllGood(ts) && i < |ts| && (Innermost(ts[i..]) || ts[i].Single?)
    ensures p == |Flat(ts[..i])| && p < |Flat(ts)| && (Innermost(ts[i..]) ==> MatchPaired(Flat(ts)[p..]).Some?)
    ensures ts[i].Single? ==> MatchSelf(Flat(ts)[p..]).Some?
  {
    p := |Flat(ts[..i])|;
    assert ts == ts[..i] + ts[i..];
    assert ts[i..][0] == ts[i];
    FlatConcat(ts[..i], ts[i..]);
    GoodFrom(ts, i);
    assert Flat(ts)[p..] == Flat(ts[i..]);
    assert Innermost(ts[i..]) ==> ts[i].Open?;
    hide *;
    FlatTag(ts[i..]);
    if ts[i].Single? { SelfOnTokens(ts[i..]); }
    PairOnTokens(ts[i..], 1 + CharsRun(ts[i..][1..]));
  }

  /** No tag before i is innermost. */
  predicate NoPairBefore(ts: seq<Token>, i: nat)
    requires i <= |ts|
  {
    forall k | 0 <= k < i :: !Innermost(ts[k..])
  }

  predicate NoSingleBefore(ts: seq<Token>, i: nat)
    requires i <= |ts|
  {
    forall k | 0 <= k < i :: !ts[k].Single?
  }

  /** Tags stand at different places of the text. */
  lemma OffsetGrows(ts: seq<Token>, k: nat, i: nat)
    requires k < i <= |ts| && !ts[k].Chars?
    ensures |Flat(ts[..k])| < |Flat(ts[..i])|
  {
    assert ts[..i] == ts[..k] + ([ts[k]] + ts[k + 1..i]);
    FlatConcat(ts[..k], [ts[k]] + ts[k + 1..i]);
    FlatConcat([ts[k]], ts[k + 1..i]);
    FlatOne(ts[k]);
    assert |Spell(ts[k])| > 0;
    hide Flat, Spell;
  }

  lemma InnermostOpen(ts: seq<Token>, i: nat)
    requires i < |ts| && Innermost(ts[i..])
    ensures ts[i].Open?
  {
  }

  lemma LocatedParts(ts: seq<Token>, i: nat, j: nat, m: Match)
    requires Locates(ts, i, j, m)
    ensures i <= j < |ts| && (ts[i].Open? || ts[i].Single?) && m.name == ts[i].name && m.arg == ts[i].arg
    ensures m.content == (if i < j then Flat(ts[i + 1..j]) else []) && m.length == |Flat(ts[i..j + 1])|
  {
  }

  /** Where PAIRED matches, there is an innermost tag. */
  lemma PairIndex(ts: seq<Token>, p: nat) returns (i: nat)
    requires AllGood(ts) && p < |Flat(ts)| && MatchPaired(Flat(ts)[p..]).Some?
    ensures i < |ts| && ts[i].Open? && Innermost(ts[i..]) && |Flat(ts[..i])| == p
    ensures Locates(ts, i, i + 1 + CharsRun(ts[i..][1..]), MatchPaired(Flat(ts)[p..]).value)
  {
    hide *;
    var j;
    i, j := FoundPair(ts, p);
    LocatedParts(ts, i, j, MatchPaired(Flat(ts)[p..]).value);
    InnermostOpen(ts, i);
  }

  lemma SelfIndex(ts: seq<Token>, p: nat) returns (i: nat)
    requires AllGood(ts) && p < |Flat(ts)| && MatchSelf(Flat(ts)[p..]).Some?
    ensures i < |ts| && ts[i].Single? && |Flat(ts[..i])| == p && Locates(ts, i, i, MatchSelf(Flat(ts)[p..]).value)
  {
    i := FoundSelf(ts, p);
    hide *;
    LocatedParts(ts, i, i, MatchSelf(Flat(ts)[p..]).value);
  }

  /** PAIRED matches first at the first innermost tag. */
  lemma FirstPair(ts: seq<Token>, i: nat)
    requires AllGood(ts) && i < |ts| && Innermost(ts[i..]) && NoPairBefore(ts, i)
    ensures Find(MatchPaired, Flat(ts), 0) == Some(|Flat(ts[..i])|)
    ensures |Flat(ts[..i])| < |Flat(ts)|
    ensures Locates(ts, i, i + 1 + CharsRun(ts[i..][1..]), MatchPaired(Flat(ts)[|Flat(ts[..i])|..]).value)
  {
    hide MatchPaired, Flat, AllGood, Innermost, Find, Locates, CharsRun;
    var p := Seen(ts, i);
    InnermostOpen(ts, i);
    forall q | 0 <= q < p ensures MatchPaired(Flat(ts)[q..]).None? {
      if MatchPaired(Flat(ts)[q..]).Some? {
        var k := PairIndex(ts, q);
        if i < k { OffsetGrows(ts, i, k); }
      }
    }
    FindFrom(MatchPaired, Flat(ts), 0, p);
    var k := PairIndex(ts, p);
    if i < k { OffsetGrows(ts, i, k); }
  }

  lemma NoPairFound(ts: seq<Token>)
    requires AllGood(ts) && NoPairBefore(ts, |ts|)
    ensures Find(MatchPaired, Flat(ts), 0).None?
  {
    hide MatchPaired, Flat, AllGood, Innermost, Locates, CharsRun;
    var r := Find(MatchPaired, Flat(ts), 0);
    if r.Some? {
      var k := PairIndex(ts, r.value);
    }
  }

  lemma FirstSelf(ts: seq<Token>, i: nat)
    requires AllGood(ts) && i < |ts| && ts[i].Single? && NoSingleBefore(ts, i)
    ensures Find(MatchSelf, Flat(ts), 0) == Some(|Flat(ts[..i])|)
    ensures |Flat(ts[..i])| < |Flat(ts)| && Locates(ts, i, i, MatchSelf(Flat(ts)[|Flat(ts[..i])|..]).value)
  {
    hide MatchSelf, Flat, AllGood, Find, Locates;
    var p := Seen(ts, i);
    forall q | 0 <= q < p ensures MatchSelf(Flat(ts)[q..]).None? {
      if MatchSelf(Flat(ts)[q..]).Some? {
        var k := SelfIndex(ts, q);
        if i < k { OffsetGrows(ts, i, k); }
      }
    }
    FindFrom(MatchSelf, Flat(ts), 0, p);
    var k := SelfIndex(ts, p);
    if i < k { OffsetGrows(ts, i, k); }
  }

  lemma NoSelfFound(ts: seq<Token>)
    requires AllGood(ts) && NoSingleBefore(ts, |ts|)
    ensures Find(MatchSelf, Flat(ts), 0).None?
  {
    hide MatchSelf, Flat, AllGood, Locates;
    var r := Find(MatchSelf, Flat(ts), 0);
    if r.Some? {
      var k := SelfIndex(ts, r.value);
    }
  }

  /** What a located tag is replaced by. */
  function ValueAt(table: Table, ts: seq<Token>, i: nat, j: nat): Text
    requires i <= j < |ts| && (ts[i].Open? || ts[i].Single?) && Lower(ts[i].name) in table
  {
    table[Lower(ts[i].name)](if i < j then Flat(ts[i + 1..j]) else [], ts[i].arg)
  }

  /** Replacing what is located: the tag's value, or, if the tag is unknown, itself. */
  lemma ReplacedLocated(table: Table, ts: seq<Token>, i: nat, j: nat, m: Match)
    requires Locates(ts, i, j, m)
    ensures i <= j < |ts| && (ts[i].Open? || ts[i].Single?) && |Flat(ts[..i])| + m.length <= |Flat(ts)|
    ensures Replaced(table, Flat(ts), |Flat(ts[..i])|, m) ==
      if Lower(ts[i].name) in table then Flat(Reduced(ts, i, j, ValueAt(table, ts, i, j))) else Flat(ts)
  {
    hide *;
    LocatedParts(ts, i, j, m);
    ReducedText(ts, i, j, []);
    if Lower(ts[i].name) in table {
      ValueIs(table, ts, i, j);
      ReducedText(ts, i, j, ValueAt(table, ts, i, j));
      ReplacedBy(table, Flat(ts), |Flat(ts[..i])|, m);
    } else {
      KeptUnknown(table, Flat(ts), |Flat(ts[..i])|, m);
    }
  }

  lemma ValueIs(table: Table, ts: seq<Token>, i: nat, j: nat)
    requires i <= j < |ts| && (ts[i].Open? || ts[i].Single?) && Lower(ts[i].name) in table
    ensures ValueAt(table, ts, i, j) == table[Lower(ts[i].name)](if i < j then Flat(ts[i + 1..j]) else [], ts[i].arg)
  {
    hide Flat, Lower;
  }

  /** Where the tag that an innermost tag at i opens is closed. */
  function PairEnd(ts: seq<Token>, i: nat): nat
    requires i < |ts|
  {
    i + 1 + CharsRun(ts[i..][1..])
  }

  lemma PairEndIs(ts: seq<Token>, i: nat)
    requires i < |ts|
    ensures PairEnd(ts, i) == i + 1 + CharsRun(ts[i..][1..])
  {
    hide CharsRun;
  }

  lemma PairPass(table: Table, ts: seq<Token>, i: nat)
    requires AllGood(ts) && i < |ts| && Innermost(ts[i..]) && NoPairBefore(ts, i)
    ensures var j := PairEnd(ts, i);
      && j < |ts| && ts[i].Open?
      && Pass(table, Flat(ts)) == Some(if Lower(ts[i].name) in table then Flat(Reduced(ts, i, j, ValueAt(table, ts, i, j))) else Flat(ts))
  {
    hide *;
    PairEndIs(ts, i);
    FirstPair(ts, i);
    InnermostOpen(ts, i);
    var m := MatchPaired(Flat(ts)[|Flat(ts[..i])|..]).value;
    ReplacedLocated(table, ts, i, PairEnd(ts, i), m);
    PassUnfold(table, Flat(ts));
  }

  lemma SelfPass(table: Table, ts: seq<Token>, i: nat)
    requires AllGood(ts) && i < |ts| && ts[i].Single? && NoSingleBefore(ts, i) && NoPairBefore(ts, |ts|)
    ensures Pass(table, Flat(ts)) == Some(if Lower(ts[i].name) in table then Flat(Reduced(ts, i, i, ValueAt(table, ts, i, i))) else Flat(ts))
  {
    hide *;
    NoPairFound(ts);
    FirstSelf(ts, i);
    var m := MatchSelf(Flat(ts)[|Flat(ts[..i])|..]).value;
    ReplacedLocated(table, ts, i, i, m);
    PassUnfold(table, Flat(ts));
  }

  lemma NoPass(table: Table, ts: seq<Token>)
    requires AllGood(ts) && NoPairBefore(ts, |ts|) && NoSingleBefore(ts, |ts|)
    ensures Pass(table, Flat(ts)).None?
  {
    hide *;
    NoPairFound(ts);
    NoSelfFound(ts);
    PassUnfold(table, Flat(ts));
  }
}
