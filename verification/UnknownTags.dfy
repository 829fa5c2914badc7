/** What tags that TAGS does not know do to the rest of the text, in extensions/taffy.js. */
module UnknownTags {
  import opened Basics
  import opened Text
  import opened TagRewriting
  import opened TagSemantics
  import opened TagTheorems
  import opened TagPasses
  import opened TagStrips

  /** A leftmost tag the table does not know is rewritten to itself, pass after pass. */
  lemma {:induction false} Stalls(table: Table, s: Text, n: nat)
    requires Find(MatchPaired, s, 0).Some? && Lower(MatchPaired(s[Find(MatchPaired, s, 0).value..]).value.name) !in table
    ensures Passes(table, s, n) == s
    decreases n
  {
    hide *;
    PassUnfold(table, s);
    PassesUnfold(table, s, n);
    var p := Find(MatchPaired, s, 0).value;
    KeptUnknown(table, s, p, MatchPaired(s[p..]).value);
    if n > 0 {
      Stalls(table, s, n - 1);
    }
  }

  /** Unknown tags are not only left as they are: text behind one is never rewritten, known tags included. */
  lemma UnknownTagStopsAll(table: Table, name: Text, arg: Option<Text>, content: Text, rest: Text, n: nat)
    requires Good(Open(name, arg)) && Plain(content) && Lower(name) !in table
    ensures var s := Spell(Open(name, arg)) + (content + (Spell(Close(name)) + rest)); Passes(table, s, n) == s
  {
    var opening, others := Spell(Open(name, arg)), Spell(Close(name)) + rest;
    var s := opening + (content + others);
    assert TagAt(others, 0) && Good(Close(name));
    CloseOnTokens(Close(name), name, rest);
    OpenText(name, arg, content, others);
    assert s[0..] == s;
    assert Find(MatchPaired, s, 0) == Some(0) by {
      hide MatchPaired, Spell, Good, Plain;
    }
    hide *;
    Stalls(table, s, n);
  }

  // ---------------------------------------------------------------- trees with unknown tags anywhere

  /** A tree as Proper has it, but with unknown tags anywhere: inside known ones, around them, and beside them. */
  predicate Shaped(table: Table, nodes: seq<Node>) {
    forall i | 0 <= i < |nodes| :: ShapedNode(table, nodes[i])
  }

  predicate ShapedNode(table: Table, node: Node) {
    || ProperNode(table, node)
    || (match node
        case Lit(_) => false
        case Pair(open, arg, kids, close) =>
          && IsTagName(open) && IsTagName(close) && Lower(open) == Lower(close) && IsArg(arg)
          && Shaped(table, kids) && (Lower(open) in table ==> !Proper(table, kids))
        case Self(name, arg) => IsTagName(name) && IsArg(arg) && Lower(name) !in table)
  }

  /** The text with every known tag that has no unknown one inside it replaced by its value, and all else as it is. */
  function Partial(table: Table, nodes: seq<Node>): Text {
    if nodes == [] then []
    else
      (if ProperNode(table, nodes[0]) then EvalNode(table, nodes[0])
       else
         match nodes[0]
         case Lit(t) => t
         case Pair(open, arg, kids, close) => Spell(Open(open, arg)) + (Partial(table, kids) + Spell(Close(close)))
         case Self(name, arg) => Spell(Single(name, arg)))
      + Partial(table, nodes[1..])
  }

  /** Known tags without an unknown one inside them. */
  function KnownCount(table: Table, nodes: seq<Node>): nat {
    if nodes == [] then 0
    else
      (if ProperNode(table, nodes[0]) then TagCount([nodes[0]])
       else match nodes[0] case Pair(_, _, kids, _) => KnownCount(table, kids) case _ => 0)
      + KnownCount(table, nodes[1..])
  }

  datatype Cut = Cut(zones: seq<seq<Node>>, walls: seq<Token>)

  /** The tree cut at its unknown tags and at the tags around them: what is left between are trees of known tags. */
  function CutTree(table: Table, nodes: seq<Node>): (c: Cut)
    ensures |c.zones| == |c.walls| + 1
  {
    if nodes == [] then Cut([[]], [])
    else
      var rest := CutTree(table, nodes[1..]);
      if ProperNode(table, nodes[0]) || nodes[0].Lit? then Cut(Grown(nodes[0], rest.zones), rest.walls)
      else
        match nodes[0]
        case Self(name, arg) => Cut([[]] + rest.zones, [Single(name, arg)] + rest.walls)
        case Pair(open, arg, kids, close) =>
          var inner := CutTree(table, kids);
          Cut([[]] + inner.zones + rest.zones, [Open(open, arg)] + (inner.walls + ([Close(close)] + rest.walls)))
  }

  function TokensOf(zones: seq<seq<Node>>): (zs: seq<seq<Token>>)
    ensures |zs| == |zones|
  {
    if zones == [] then [] else [Tokens(zones[0])] + TokensOf(zones[1..])
  }

  function ValuesOf(table: Table, zones: seq<seq<Node>>): (vs: seq<Text>)
    ensures |vs| == |zones|
  {
    if zones == [] then [] else [Eval(table, zones[0])] + ValuesOf(table, zones[1..])
  }

  lemma {:induction false} TokensOfConcat(a: seq<seq<Node>>, b: seq<seq<Node>>)
    ensures TokensOf(a + b) == TokensOf(a) + TokensOf(b)
  {
    hide Tokens;
    if a == [] {
      assert a + b == b;
    } else {
      assert (a + b)[1..] == a[1..] + b;
      TokensOfConcat(a[1..], b);
    }
  }

  lemma {:induction false} ValuesOfConcat(table: Table, a: seq<seq<Node>>, b: seq<seq<Node>>)
    ensures ValuesOf(table, a + b) == ValuesOf(table, a) + ValuesOf(table, b)
  {
    hide Eval;
    if a == [] {
      assert a + b == b;
    } else {
      assert (a + b)[1..] == a[1..] + b;
      ValuesOfConcat(table, a[1..], b);
    }
  }

  predicate ProperZones(table: Table, zones: seq<seq<Node>>) { forall i | 0 <= i < |zones| :: Proper(table, zones[i]) }

  /** The tokens of a tree, started on an empty stack. */
  lemma TreeMeans(table: Table, nodes: seq<Node>)
    requires Proper(table, nodes)
    ensures Means(table, Tokens(nodes), Eval(table, nodes)) && Flat(Tokens(nodes)) == Render(nodes)
    ensures Tags(Tokens(nodes)) == TagCount(nodes) && Singles(Tokens(nodes)) == SelfCount(nodes) && Plain(Eval(table, nodes))
  {
    TreeTokens(table, nodes, EMPTY_STACK);
    TreeSingles(nodes);
    assert [] + Eval(table, nodes) == Eval(table, nodes);
    assert Push(EMPTY_STACK, Eval(table, nodes)) == [Frame([], None, Eval(table, nodes))];
    hide Exec, Eval, Proper, Tokens, Render;
  }

  lemma ZonesCons(table: Table, z: seq<Token>, v: Text, zs: seq<seq<Token>>, vs: seq<Text>)
    requires Means(table, z, v) && Plain(v) && ZonesOk(table, zs, vs) && AllPlain(vs)
    ensures ZonesOk(table, [z] + zs, [v] + vs) && AllPlain([v] + vs)
  {
    hide Means, Plain;
  }

  lemma ProperTail(table: Table, zones: seq<seq<Node>>)
    requires ProperZones(table, zones) && zones != []
    ensures Proper(table, zones[0]) && ProperZones(table, zones[1..])
  {
    hide Proper;
  }

  lemma {:induction false} ZonesMean(table: Table, zones: seq<seq<Node>>)
    requires ProperZones(table, zones)
    ensures ZonesOk(table, TokensOf(zones), ValuesOf(table, zones)) && AllPlain(ValuesOf(table, zones))
  {
    hide Proper, Means, Plain, Tokens, Eval;
    if zones != [] {
      ProperTail(table, zones);
      hide ProperZones, ZonesOk, AllPlain;
      TreeMeans(table, zones[0]);
      ZonesMean(table, zones[1..]);
      ZonesCons(table, Tokens(zones[0]), Eval(table, zones[0]), TokensOf(zones[1..]), ValuesOf(table, zones[1..]));
    }
  }

  lemma {:induction false} JoinedConcat(a: seq<seq<Token>>, u: seq<Token>, w: Token, b: seq<seq<Token>>, v: seq<Token>)
    requires |a| == |u| + 1 && |b| == |v| + 1
    ensures Joined(a + b, u + ([w] + v)) == Joined(a, u) + ([w] + Joined(b, v))
  {
    if u == [] {
      assert (a + b)[1..] == b && (u + ([w] + v))[1..] == v;
    } else {
      assert (a + b)[1..] == a[1..] + b && (u + ([w] + v))[1..] == u[1..] + ([w] + v);
      JoinedConcat(a[1..], u[1..], w, b, v);
    }
  }

  lemma {:induction false} FinalConcat(a: seq<Text>, u: seq<Token>, w: Token, b: seq<Text>, v: seq<Token>)
    requires |a| == |u| + 1 && |b| == |v| + 1
    ensures Final(a + b, u + ([w] + v)) == Final(a, u) + (Spell(w) + Final(b, v))
  {
    hide Spell;
    if u == [] {
      assert (a + b)[1..] == b && (u + ([w] + v))[1..] == v;
    } else {
      assert (a + b)[1..] == a[1..] + b && (u + ([w] + v))[1..] == u[1..] + ([w] + v);
      FinalConcat(a[1..], u[1..], w, b, v);
    }
  }

  lemma {:induction false} TagsInConcat(a: seq<seq<Token>>, b: seq<seq<Token>>)
    ensures TagsIn(a + b) == TagsIn(a) + TagsIn(b)
  {
    hide Tags;
    if a == [] {
      assert a + b == b;
    } else {
      assert (a + b)[1..] == a[1..] + b;
      TagsInConcat(a[1..], b);
    }
  }

  lemma {:induction false} WallsConcat(table: Table, a: seq<Token>, b: seq<Token>)
    requires WallsOk(table, a) && WallsOk(table, b) && (a != [] && b != [] ==> !(a[|a| - 1].Open? && b[0].Close?))
    ensures WallsOk(table, a + b)
  {
    hide Good, Lower;
    if a == [] {
      assert a + b == b;
    } else {
      assert (a + b)[1..] == a[1..] + b;
      WallsConcat(table, a[1..], b);
      assert |a| > 1 ==> (a + b)[1] == a[1];
    }
  }

  lemma JoinedFront(pre: seq<Token>, zs: seq<seq<Token>>, ws: seq<Token>)
    requires |zs| == |ws| + 1
    ensures Joined([pre + zs[0]] + zs[1..], ws) == pre + Joined(zs, ws)
  {
    var zs' := [pre + zs[0]] + zs[1..];
    assert zs'[1..] == zs[1..];
    if ws == [] {
    } else {
      Assoc(pre, zs[0], [ws[0]] + Joined(zs[1..], ws[1..]));
    }
  }

  lemma FinalFront(pre: Text, vs: seq<Text>, ws: seq<Token>)
    requires |vs| == |ws| + 1
    ensures Final([pre + vs[0]] + vs[1..], ws) == pre + Final(vs, ws)
  {
    var vs' := [pre + vs[0]] + vs[1..];
    assert vs'[1..] == vs[1..];
    hide Spell;
    if ws == [] {
    } else {
      Assoc(pre, vs[0], Spell(ws[0]) + Final(vs[1..], ws[1..]));
    }
  }

  /** The first wall closes nothing, and the last opens nothing. */
  predicate Ends(ws: seq<Token>) { ws != [] ==> !ws[0].Close? && !ws[|ws| - 1].Open? }

  /** c is the tree, cut: the same tokens, the same values, the same known tags. */
  predicate CutOk(table: Table, nodes: seq<Node>, c: Cut) {
    && |c.zones| == |c.walls| + 1 && ProperZones(table, c.zones) && WallsOk(table, c.walls) && Ends(c.walls)
    && Joined(TokensOf(c.zones), c.walls) == Tokens(nodes)
    && Final(ValuesOf(table, c.zones), c.walls) == Partial(table, nodes)
    && TagsIn(TokensOf(c.zones)) == KnownCount(table, nodes)
    && (c.walls == [] ==> Proper(table, nodes))
  }

  /** A node joins the first zone. */
  function Grown(node: Node, zones: seq<seq<Node>>): (z: seq<seq<Node>>)
    requires zones != []
    ensures |z| == |zones|
  {
    [[node] + zones[0]] + zones[1..]
  }

  lemma GrownTokens(node: Node, zones: seq<seq<Node>>)
    requires zones != []
    ensures TokensOf(zones) != [] && TokensOf(Grown(node, zones)) == [NodeTokens(node) + TokensOf(zones)[0]] + TokensOf(zones)[1..]
    ensures TokensOf(zones)[0] == Tokens(zones[0])
  {
    var z := Grown(node, zones);
    assert z[1..] == zones[1..] && ([node] + zones[0])[1..] == zones[0] && z[0] == [node] + zones[0];
    hide NodeTokens;
  }

  lemma GrownValues(table: Table, node: Node, zones: seq<seq<Node>>)
    requires zones != []
    ensures ValuesOf(table, zones) != []
    ensures ValuesOf(table, Grown(node, zones)) == [EvalNode(table, node) + ValuesOf(table, zones)[0]] + ValuesOf(table, zones)[1..]
  {
    var z := Grown(node, zones);
    assert z[1..] == zones[1..] && ([node] + zones[0])[1..] == zones[0] && z[0] == [node] + zones[0];
    hide EvalNode;
  }

  lemma MoreTags(pre: seq<Token>, zs: seq<seq<Token>>)
    requires zs != []
    ensures TagsIn([pre + zs[0]] + zs[1..]) == Tags(pre) + TagsIn(zs)
  {
    TagsConcat(pre, zs[0]);
    assert ([pre + zs[0]] + zs[1..])[1..] == zs[1..];
    hide Tags;
  }

  lemma GrownZones(table: Table, node: Node, zones: seq<seq<Node>>)
    requires zones != [] && ProperNode(table, node) && ProperZones(table, zones)
    ensures ProperZones(table, Grown(node, zones))
  {
    var z := Grown(node, zones);
    hide ProperNode;
    forall i | 0 <= i < |z| ensures Proper(table, z[i]) {
      if i > 0 {
        assert z[i] == zones[i];
      } else {
        assert Proper(table, zones[0]) && z[0] == [node] + zones[0];
      }
    }
  }

  /** The functions of the tree at a known one. */
  lemma AtKnown(table: Table, node: Node, rest: seq<Node>)
    requires ProperNode(table, node)
    ensures Tokens([node] + rest) == NodeTokens(node) + Tokens(rest)
    ensures Partial(table, [node] + rest) == EvalNode(table, node) + Partial(table, rest)
    ensures KnownCount(table, [node] + rest) == Tags(NodeTokens(node)) + KnownCount(table, rest)
    ensures Proper(table, rest) ==> Proper(table, [node] + rest)
  {
    var nodes := [node] + rest;
    assert nodes[0] == node && nodes[1..] == rest;
    NodeTokensOk(table, node, EMPTY_STACK);
    hide ProperNode, EvalNode, NodeTokens, Tags, TagCount;
  }

  lemma CutIs(table: Table, nodes: seq<Node>, c: Cut)
    requires |c.zones| == |c.walls| + 1 && ProperZones(table, c.zones) && WallsOk(table, c.walls) && Ends(c.walls)
    requires Joined(TokensOf(c.zones), c.walls) == Tokens(nodes)
    requires Final(ValuesOf(table, c.zones), c.walls) == Partial(table, nodes)
    requires TagsIn(TokensOf(c.zones)) == KnownCount(table, nodes) && (c.walls == [] ==> Proper(table, nodes))
    ensures CutOk(table, nodes, c)
  {
  }

  /** A known tree at the front joins the first zone. */
  lemma CutKnown(table: Table, node: Node, rest: seq<Node>, r: Cut)
    requires ProperNode(table, node) && CutOk(table, rest, r)
    ensures r.zones != [] && CutOk(table, [node] + rest, Cut(Grown(node, r.zones), r.walls))
  {
    CutFacts(table, rest, r);
    hide *;
    AtKnown(table, node, rest);
    GrownZones(table, node, r.zones);
    GrownTokens(node, r.zones);
    GrownValues(table, node, r.zones);
    JoinedFront(NodeTokens(node), TokensOf(r.zones), r.walls);
    FinalFront(EvalNode(table, node), ValuesOf(table, r.zones), r.walls);
    MoreTags(NodeTokens(node), TokensOf(r.zones));
    CutIs(table, [node] + rest, Cut(Grown(node, r.zones), r.walls));
  }

  lemma CutFacts(table: Table, nodes: seq<Node>, c: Cut)
    requires CutOk(table, nodes, c)
    ensures |c.zones| == |c.walls| + 1 && ProperZones(table, c.zones) && WallsOk(table, c.walls)
    ensures Joined(TokensOf(c.zones), c.walls) == Tokens(nodes)
    ensures Final(ValuesOf(table, c.zones), c.walls) == Partial(table, nodes)
    ensures TagsIn(TokensOf(c.zones)) == KnownCount(table, nodes) && Ends(c.walls) && (c.walls == [] ==> Proper(table, nodes))
  {
    hide Proper, Ends, ProperZones, WallsOk, Joined, TokensOf, Final, ValuesOf, Partial, KnownCount, TagsIn;
  }

  /** The functions of the tree at an unknown tag, or one around it. */
  lemma AtNode(table: Table, node: Node, rest: seq<Node>)
    requires !ProperNode(table, node) && !node.Lit?
    ensures Tokens([node] + rest) == NodeTokens(node) + Tokens(rest)
    ensures node.Self? ==> NodeTokens(node) == [Single(node.name, node.selfArg)]
    ensures node.Self? ==> Partial(table, [node] + rest) == Spell(Single(node.name, node.selfArg)) + Partial(table, rest)
    ensures node.Pair? ==> NodeTokens(node) == [Open(node.open, node.arg)] + Tokens(node.kids) + [Close(node.close)]
    ensures node.Pair? ==>
      (Partial(table, [node] + rest) ==
         Spell(Open(node.open, node.arg)) + (Partial(table, node.kids) + Spell(Close(node.close))) + Partial(table, rest))
    ensures KnownCount(table, [node] + rest) == (if node.Pair? then KnownCount(table, node.kids) else 0) + KnownCount(table, rest)
  {
    var nodes := [node] + rest;
    assert nodes[0] == node && nodes[1..] == rest;
    hide ProperNode, Spell, EvalNode;
  }

  lemma SelfZones(table: Table, w: Token, zones: seq<seq<Node>>, ws: seq<Token>)
    requires |zones| == |ws| + 1
    ensures Joined(TokensOf([[]] + zones), [w] + ws) == [w] + Joined(TokensOf(zones), ws)
    ensures Final(ValuesOf(table, [[]] + zones), [w] + ws) == Spell(w) + Final(ValuesOf(table, zones), ws)
    ensures TagsIn(TokensOf([[]] + zones)) == TagsIn(TokensOf(zones))
  {
    var all := [[]] + zones;
    assert all[1..] == zones && ([w] + ws)[1..] == ws;
    assert TokensOf(all)[1..] == TokensOf(zones) && ValuesOf(table, all)[1..] == ValuesOf(table, zones);
    assert TokensOf(all)[0] == [] && ValuesOf(table, all)[0] == [];
    hide Spell;
  }

  lemma SelfWalls(table: Table, w: Token, ws: seq<Token>)
    requires w.Single? && Good(w) && Lower(w.name) !in table && WallsOk(table, ws) && Ends(ws)
    ensures WallsOk(table, [w] + ws) && Ends([w] + ws)
  {
    assert ([w] + ws)[1..] == ws;
    hide Good, Lower;
  }

  lemma MoreZones(table: Table, a: seq<seq<Node>>, b: seq<seq<Node>>)
    requires ProperZones(table, a) && ProperZones(table, b)
    ensures ProperZones(table, [[]] + a + b)
  {
    var zones := [[]] + a + b;
    forall k | 0 <= k < |zones| ensures Proper(table, zones[k]) {
      if 0 < k <= |a| { assert zones[k] == a[k - 1]; }
      else if k > 0 { assert zones[k] == b[k - 1 - |a|]; }
    }
  }

  lemma CutSelf(table: Table, node: Node, rest: seq<Node>, r: Cut)
    requires node.Self? && !ProperNode(table, node) && ShapedNode(table, node) && CutOk(table, rest, r)
    ensures CutOk(table, [node] + rest, Cut([[]] + r.zones, [Single(node.name, node.selfArg)] + r.walls))
  {
    var w := Single(node.name, node.selfArg);
    assert Good(w) && Lower(w.name) !in table;
    CutFacts(table, rest, r);
    assert ProperZones(table, []);
    hide *;
    AtNode(table, node, rest);
    SelfZones(table, w, r.zones, r.walls);
    SelfWalls(table, w, r.walls);
    MoreZones(table, r.zones, []);
    assert [[]] + r.zones + [] == [[]] + r.zones;
    CutIs(table, [node] + rest, Cut([[]] + r.zones, [w] + r.walls));
  }

  lemma PairWalls(table: Table, open: Token, close: Token, inner: seq<Token>, after: seq<Token>)
    requires open.Open? && close.Close? && Good(open) && Good(close) && Lower(close.name) == Lower(open.name)
    requires WallsOk(table, inner) && WallsOk(table, after) && Ends(inner) && Ends(after)
    requires inner == [] ==> Lower(open.name) !in table
    ensures var ws := [open] + (inner + ([close] + after)); WallsOk(table, ws) && Ends(ws)
  {
    hide Good, Lower;
    var tail := [close] + after;
    assert tail[1..] == after && WallsOk(table, tail);
    WallsConcat(table, inner, tail);
    var ws := [open] + (inner + tail);
    assert ws[1..] == inner + tail;
    assert ws[1] == if inner == [] then close else inner[0];
    assert ws[|ws| - 1] == if after == [] then close else after[|after| - 1];
  }

  lemma PairParted(table: Table, open: Token, close: Token, i: Cut, r: Cut)
    requires |i.zones| == |i.walls| + 1 && |r.zones| == |r.walls| + 1
    ensures var zones, ws := [[]] + i.zones + r.zones, [open] + (i.walls + ([close] + r.walls));
      && Joined(TokensOf(zones), ws) == [open] + Joined(TokensOf(i.zones), i.walls) + [close] + Joined(TokensOf(r.zones), r.walls)
      && Final(ValuesOf(table, zones), ws)
           == Spell(open) + (Final(ValuesOf(table, i.zones), i.walls) + Spell(close)) + Final(ValuesOf(table, r.zones), r.walls)
      && TagsIn(TokensOf(zones)) == TagsIn(TokensOf(i.zones)) + TagsIn(TokensOf(r.zones))
  {
    var both, ws := i.zones + r.zones, i.walls + ([close] + r.walls);
    var zones := [[]] + i.zones + r.zones;
    assert zones == [[]] + both && zones[1..] == both && ([open] + ws)[1..] == ws;
    TokensOfConcat(i.zones, r.zones);
    ValuesOfConcat(table, i.zones, r.zones);
    var ti, tr, vi, vr := TokensOf(i.zones), TokensOf(r.zones), ValuesOf(table, i.zones), ValuesOf(table, r.zones);
    assert TokensOf(zones) == [[]] + (ti + tr) && TokensOf(zones)[1..] == ti + tr;
    assert ValuesOf(table, zones) == [[]] + (vi + vr) && ValuesOf(table, zones)[1..] == vi + vr;
    JoinedConcat(ti, i.walls, close, tr, r.walls);
    FinalConcat(vi, i.walls, close, vr, r.walls);
    TagsInConcat(ti, tr);
    PairAssoc([open], Joined(ti, i.walls), [close], Joined(tr, r.walls));
    PairAssoc(Spell(open), Final(vi, i.walls), Spell(close), Final(vr, r.walls));
    hide Spell, TokensOf, ValuesOf;
  }

  lemma PairAssoc<X>(a: seq<X>, b: seq<X>, c: seq<X>, d: seq<X>)
    ensures [] + (a + (b + (c + d))) == a + b + c + d && a + (b + c) + d == a + b + c + d
  {
  }

  lemma CutPair(table: Table, node: Node, rest: seq<Node>, i: Cut, r: Cut)
    requires node.Pair? && !ProperNode(table, node) && ShapedNode(table, node) && CutOk(table, node.kids, i) && CutOk(table, rest, r)
    ensures CutOk(table, [node] + rest,
              Cut([[]] + i.zones + r.zones, [Open(node.open, node.arg)] + (i.walls + ([Close(node.close)] + r.walls))))
  {
    var open, close := Open(node.open, node.arg), Close(node.close);
    assert Good(open) && Good(close) && Lower(close.name) == Lower(open.name);
    assert Lower(node.open) in table ==> !Proper(table, node.kids);
    CutFacts(table, node.kids, i);
    CutFacts(table, rest, r);
    hide *;
    AtNode(table, node, rest);
    PairWalls(table, open, close, i.walls, r.walls);
    PairParted(table, open, close, i, r);
    MoreZones(table, i.zones, r.zones);
    CutIs(table, [node] + rest, Cut([[]] + i.zones + r.zones, [open] + (i.walls + ([close] + r.walls))));
  }

  lemma CutNothing(table: Table)
    ensures CutOk(table, [], Cut([[]], []))
  {
    assert TokensOf([[]]) == [[]] && ValuesOf(table, [[]]) == [[]];
  }

  lemma {:induction false} TreeCut(table: Table, nodes: seq<Node>)
    requires Shaped(table, nodes)
    ensures CutOk(table, nodes, CutTree(table, nodes))
    decreases nodes
  {
    if nodes == [] {
      CutNothing(table);
    } else {
      var node, rest := nodes[0], nodes[1..];
      assert nodes == [node] + rest && ShapedNode(table, node);
      hide CutOk;
      TreeCut(table, rest);
      if ProperNode(table, node) {
        CutKnown(table, node, rest, CutTree(table, rest));
      } else if node.Self? {
        CutSelf(table, node, rest, CutTree(table, rest));
      } else {
        TreeCut(table, node.kids);
        CutPair(table, node, rest, CutTree(table, node.kids), CutTree(table, rest));
      }
    }
  }

  lemma {:induction false} RenderedTokens(nodes: seq<Node>)
    ensures Flat(Tokens(nodes)) == Render(nodes) && Tags(Tokens(nodes)) == TagCount(nodes)
    decreases nodes
  {
    if nodes != [] {
      RenderedTokens(nodes[1..]);
      FlatConcat(NodeTokens(nodes[0]), Tokens(nodes[1..]));
      TagsConcat(NodeTokens(nodes[0]), Tokens(nodes[1..]));
      match nodes[0]
      case Lit(t) => assert Flat([Chars(t)]) == t + [] == t;
      case Self(name, arg) => FlatOne(Single(name, arg));
      case Pair(_, _, kids, _) => RenderedTokens(kids); PairSpelling(nodes[0]);
    }
  }

  /** UNKNOWN TAGS ANYWHERE IN A TREE: the loop replaces every known tag that has no unknown one inside it by its
      value, and changes nothing else, if and only if there are at most 200 of them and the first blocker lets it.
      Blockers are unknown self-closing tags, and unknown pairs without an unknown tag inside them (leaves). Without
      any known self-closing tag, no known tag may stand behind the first leaf; with some, no leaf and no known
      self-closing tag may stand behind the first blocker, and one of them must stand in it if it is a leaf. */
  lemma UnknownAnywhere(table: Table, nodes: seq<Node>)
    requires Shaped(table, nodes)
    ensures var c := CutTree(table, nodes);
      Passes(table, Render(nodes), 200) == Partial(table, nodes)
      <==> Clears(TokensOf(c.zones), c.walls) && KnownCount(table, nodes) <= 200
  {
    hide *;
    var c := CutTree(table, nodes);
    TreeCut(table, nodes);
    CutFacts(table, nodes, c);
    RenderedTokens(nodes);
    ZonesMean(table, c.zones);
    StripIs(table, TokensOf(c.zones), c.walls, ValuesOf(table, c.zones));
    StripEnds(table, TokensOf(c.zones), c.walls, ValuesOf(table, c.zones), 200);
  }

  lemma StripIs(table: Table, zs: seq<seq<Token>>, ws: seq<Token>, vs: seq<Text>)
    requires |zs| == |ws| + 1 && ZonesOk(table, zs, vs) && WallsOk(table, ws)
    ensures Strip(table, zs, ws, vs)
  {
    hide ZonesOk, WallsOk;
  }

  // ---------------------------------------------------------------- one unknown tag between known trees

  predicate UnknownPair(table: Table, u: seq<Token>) {
    && |u| == 3 && AllGood(u) && u[0].Open? && u[1].Chars? && u[2].Close?
    && Lower(u[2].name) == Lower(u[0].name) && Lower(u[0].name) !in table
  }

  predicate UnknownSelf(table: Table, u: Token) { u.Single? && Good(u) && Lower(u.name) !in table }

  lemma CharsMean(table: Table, t: Token)
    requires t.Chars? && Good(t)
    ensures Means(table, [t], t.text) && Flat([t]) == t.text && Tags([t]) == 0 && Singles([t]) == 0
  {
    ExecChars(table, EMPTY_STACK, [t]);
    FlatOne(t);
    assert [] + t.text == t.text;
    assert Push(EMPTY_STACK, t.text) == [Frame([], None, t.text)];
    hide Exec, Flat;
  }

  lemma InCons(z: seq<Token>, zs: seq<seq<Token>>)
    ensures TagsIn([z] + zs) == Tags(z) + TagsIn(zs) && SinglesIn([z] + zs) == Singles(z) + SinglesIn(zs)
  {
    assert ([z] + zs)[1..] == zs;
    hide Tags, Singles;
  }

  lemma InFew(a: seq<Token>, b: seq<Token>, c: seq<Token>)
    ensures TagsIn([c]) == Tags(c) && SinglesIn([c]) == Singles(c)
    ensures TagsIn([b, c]) == Tags(b) + Tags(c) && SinglesIn([b, c]) == Singles(b) + Singles(c)
    ensures TagsIn([a, b, c]) == Tags(a) + Tags(b) + Tags(c) && SinglesIn([a, b, c]) == Singles(a) + Singles(b) + Singles(c)
  {
    InCons(c, []);
    InCons(b, [c]);
    InCons(a, [b, c]);
    assert [c] + [] == [c] && [b] + [c] == [b, c] && [a] + [b, c] == [a, b, c];
    hide Tags, Singles;
  }

  lemma ZonesFew(table: Table, a: seq<Token>, av: Text, b: seq<Token>, bv: Text, c: seq<Token>, cv: Text)
    requires Means(table, a, av) && Means(table, b, bv) && Means(table, c, cv) && Plain(av) && Plain(bv) && Plain(cv)
    ensures ZonesOk(table, [b, c], [bv, cv]) && AllPlain([bv, cv])
    ensures ZonesOk(table, [a, b, c], [av, bv, cv]) && AllPlain([av, bv, cv])
  {
    hide Means, Plain;
  }

  lemma FinalOne(v: Text)
    ensures Final([v], []) == v
  {
  }

  lemma FinalCons(vs: seq<Text>, ws: seq<Token>)
    requires |vs| == |ws| + 1 && ws != []
    ensures Final(vs, ws) == vs[0] + (Spell(ws[0]) + Final(vs[1..], ws[1..]))
  {
    hide Spell;
  }

  lemma JoinedOne(z: seq<Token>)
    ensures Joined([z], []) == z
  {
  }

  lemma PairTexts(a: seq<Token>, b: seq<Token>, c: seq<Token>, v: Token, w: Token)
    ensures Flat(Joined([b, c], [w])) == Flat(b) + (Spell(w) + Flat(c))
    ensures Flat(Joined([a, b, c], [v, w])) == Flat(a) + (Spell(v) + (Flat(b) + (Spell(w) + Flat(c))))
  {
    hide *;
    JoinedOne(c);
    JoinedText([a, b, c], [v, w]);
    JoinedText([b, c], [w]);
    assert [a, b, c][1..] == [b, c] && [v, w][1..] == [w] && [b, c][1..] == [c] && [w][1..] == [];
  }

  lemma PairFinals(a: Text, b: Text, c: Text, v: Token, w: Token)
    ensures Final([b, c], [w]) == b + (Spell(w) + c)
    ensures Final([a, b, c], [v, w]) == a + (Spell(v) + (b + (Spell(w) + c)))
  {
    hide *;
    FinalOne(c);
    FinalCons([a, b, c], [v, w]);
    FinalCons([b, c], [w]);
    assert [a, b, c][1..] == [b, c] && [v, w][1..] == [w] && [b, c][1..] == [c] && [w][1..] == [];
  }

  lemma WallsFew(table: Table, v: Token, w: Token)
    requires Good(v) && Good(w) && !v.Chars? && !w.Chars? && Lower(v.name) !in table && (w.Single? ==> Lower(w.name) !in table)
    ensures WallsOk(table, [v]) && (w.Close? ==> WallsOk(table, [v, w]))
  {
    assert WallsOk(table, []);
    assert [v][1..] == [] && [w][1..] == [] && [v, w][1..] == [w];
    assert !Leaf([w]) && !Leaf([v]);
    assert w.Close? ==> WallsOk(table, [w]);
    hide Good, Lower;
  }

  lemma UnknownText(u: seq<Token>, rest: Text)
    requires |u| == 3 && u[1].Chars?
    ensures Flat(u) + rest == Spell(u[0]) + (u[1].text + (Spell(u[2]) + rest))
  {
    hide Flat, Spell;
    assert u == [u[0]] + ([u[1]] + [u[2]]);
    FlatConcat([u[0]], [u[1]] + [u[2]]);
    FlatConcat([u[1]], [u[2]]);
    FlatOne(u[0]);
    FlatOne(u[1]);
    FlatOne(u[2]);
    SpellChars(u[1]);
    Assoc(Spell(u[0]), u[1].text + Spell(u[2]), rest);
    Assoc(u[1].text, Spell(u[2]), rest);
  }

  lemma SpellChars(t: Token)
    requires t.Chars?
    ensures Spell(t) == t.text
  {
  }

  lemma PairClears(b: seq<Token>, m: seq<Token>, c: seq<Token>, v: Token, w: Token)
    requires v.Open? && w.Close? && Lower(w.name) == Lower(v.name) && Tags(m) == 0 && Singles(m) == 0
    ensures Clears([b, m, c], [v, w]) <==> Singles(b) == 0 && Tags(c) == 0
  {
    var zs, ws := [b, m, c], [v, w];
    InFew(b, m, c);
    SinglesAreTags(c);
    assert Leaf(ws) && zs[2..] == [c];
    hide Singles, Tags, Leaf, SinglesIn, TagsIn;
  }

  lemma SelfClears(b: seq<Token>, c: seq<Token>, u: Token)
    requires u.Single?
    ensures Clears([b, c], [u]) <==> Singles(c) == 0
  {
    InFew([], b, c);
    assert [b, c][1..] == [c] && [u][1..] == [] && !Leaf([u]);
    assert NoLeaf([]) && NothingBehind([c], []);
    hide Singles, Tags, Leaf, SinglesIn, TagsIn;
  }

  /** BESIDE AN UNKNOWN PAIR every known tag is resolved, and nothing else changed, exactly when no tag stands behind
      it and those before it are at most 200 and none of them self-closing. */
  lemma UnknownPairStops(table: Table, before: seq<Node>, u: seq<Token>, after: seq<Node>)
    requires Proper(table, before) && Proper(table, after) && UnknownPair(table, u)
    ensures Passes(table, Render(before) + (Flat(u) + Render(after)), 200) == Eval(table, before) + (Flat(u) + Eval(table, after))
      <==> TagCount(after) == 0 && SelfCount(before) == 0 && TagCount(before) <= 200
  {
    assert |u| == 3 && u[0].Open? && u[1].Chars? && u[2].Close? && Lower(u[2].name) == Lower(u[0].name);
    assert Good(u[0]) && Good(u[1]) && Good(u[2]) && Lower(u[0].name) !in table && Plain(u[1].text);
    hide *;
    TreeMeans(table, before);
    TreeMeans(table, after);
    CharsMean(table, u[1]);
    var b, m, c := Tokens(before), [u[1]], Tokens(after);
    var bv, mv, cv := Eval(table, before), u[1].text, Eval(table, after);
    ZonesFew(table, b, bv, m, mv, c, cv);
    WallsFew(table, u[0], u[2]);
    StripIs(table, [b, m, c], [u[0], u[2]], [bv, mv, cv]);
    StripEnds(table, [b, m, c], [u[0], u[2]], [bv, mv, cv], 200);
    PairTexts(b, m, c, u[0], u[2]);
    PairFinals(bv, mv, cv, u[0], u[2]);
    UnknownText(u, Render(after));
    UnknownText(u, cv);
    PairClears(b, m, c, u[0], u[2]);
    InFew(b, m, c);
  }

  /** BESIDE AN UNKNOWN SELF-CLOSING TAG every known tag is resolved, and nothing else changed, exactly when no
      self-closing tag stands behind it and there are at most 200 known tags. */
  lemma UnknownSelfStops(table: Table, before: seq<Node>, u: Token, after: seq<Node>)
    requires Proper(table, before) && Proper(table, after) && UnknownSelf(table, u)
    ensures Passes(table, Render(before) + (Spell(u) + Render(after)), 200) == Eval(table, before) + (Spell(u) + Eval(table, after))
      <==> SelfCount(after) == 0 && TagCount(before) + TagCount(after) <= 200
  {
    assert u.Single? && Good(u) && Lower(u.name) !in table;
    hide *;
    TreeMeans(table, before);
    TreeMeans(table, after);
    var b, c, bv, cv := Tokens(before), Tokens(after), Eval(table, before), Eval(table, after);
    ZonesFew(table, b, bv, b, bv, c, cv);
    WallsFew(table, u, u);
    StripIs(table, [b, c], [u], [bv, cv]);
    StripEnds(table, [b, c], [u], [bv, cv], 200);
    PairTexts(b, b, c, u, u);
    PairFinals(bv, bv, cv, u, u);
    SelfClears(b, c, u);
    InFew(b, b, c);
  }
}
