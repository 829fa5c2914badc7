/**
 * What the rewriting loop is for: evaluating the tree of tags written in the text.
 *
 * Between the string and the tree stands the sequence of tokens. A stack machine evaluates
 * tokens; each pass of the loop replaces one innermost tag by its value, which the machine
 * cannot notice.
 */
module TagSemantics {
  import opened Basics
  import opened Text
  import opened TagRewriting

  datatype Node =
    | Lit(text: Text)
    | Pair(open: Text, arg: Option<Text>, kids: seq<Node>, close: Text)  // <@open(arg)>kids<@/close>
    | Self(name: Text, selfArg: Option<Text>)                             // <@name(arg)/>

  // ---------------------------------------------------------------- trees

  /** Recursive evaluation: the content first, then the tag's function. */
  function Eval(table: Table, nodes: seq<Node>): Text {
    if nodes == [] then [] else EvalNode(table, nodes[0]) + Eval(table, nodes[1..])
  }

  function EvalNode(table: Table, node: Node): Text {
    match node
    case Lit(t) => t
    case Pair(open, arg, kids, _) => if Lower(open) in table then table[Lower(open)](Eval(table, kids), arg) else []
    case Self(name, arg) => if Lower(name) in table then table[Lower(name)]([], arg) else []
  }

  predicate IsTagName(t: Text) {
    t != [] && forall i | 0 <= i < |t| :: IsName(t[i])
  }

  predicate Plain(t: Text) {
    forall i | 0 <= i < |t| :: t[i] != LT
  }

  predicate IsArg(arg: Option<Text>) {
    arg.Some? ==> Plain(arg.value) && forall i | 0 <= i < |arg.value| :: arg.value[i] != RPAREN
  }

  /** Known tags, matching closing names, and no `<` in literals, arguments and results. */
  predicate Proper(table: Table, nodes: seq<Node>) {
    forall i | 0 <= i < |nodes| :: ProperNode(table, nodes[i])
  }

  predicate ProperNode(table: Table, node: Node) {
    match node
    case Lit(t) => Plain(t)
    case Pair(open, arg, kids, close) =>
      && IsTagName(open) && IsTagName(close) && Lower(open) == Lower(close) && Lower(open) in table && IsArg(arg)
      && Proper(table, kids) && Plain(EvalNode(table, node))
    case Self(name, arg) => IsTagName(name) && Lower(name) in table && IsArg(arg) && Plain(EvalNode(table, node))
  }

  function TagCount(nodes: seq<Node>): nat {
    if nodes == [] then 0
    else
      (match nodes[0]
       case Lit(_) => 0
       case Pair(_, _, kids, _) => 1 + TagCount(kids)
       case Self(_, _) => 1)
      + TagCount(nodes[1..])
  }

  function RenderArg(arg: Option<Text>): Text {
    if arg.Some? then [LPAREN] + arg.value + [RPAREN] else []
  }

  /** The tree as the user types it. */
  function Render(nodes: seq<Node>): Text {
    if nodes == [] then [] else RenderNode(nodes[0]) + Render(nodes[1..])
  }

  function RenderNode(node: Node): Text {
    match node
    case Lit(t) => t
    case Pair(open, arg, kids, close) =>
      [LT, AT] + open + RenderArg(arg) + [GT] + Render(kids) + [LT, AT, SLASH] + close + [GT]
    case Self(name, arg) => [LT, AT] + name + RenderArg(arg) + [SLASH, GT]
  }

  // ---------------------------------------------------------------- tokens

  datatype Token =
    | Chars(text: Text)
    | Open(name: Text, arg: Option<Text>)
    | Close(name: Text)
    | Single(name: Text, arg: Option<Text>)

  function Spell(t: Token): Text {
    match t
    case Chars(s) => s
    case Open(name, arg) => [LT, AT] + name + RenderArg(arg) + [GT]
    case Close(name) => [LT, AT, SLASH] + name + [GT]
    case Single(name, arg) => [LT, AT] + name + RenderArg(arg) + [SLASH, GT]
  }

  function Flat(ts: seq<Token>): Text {
    if ts == [] then [] else Spell(ts[0]) + Flat(ts[1..])
  }

  predicate Good(t: Token) {
    match t
    case Chars(s) => Plain(s)
    case Open(name, arg) => IsTagName(name) && IsArg(arg)
    case Close(name) => IsTagName(name)
    case Single(name, arg) => IsTagName(name) && IsArg(arg)
  }

  predicate AllGood(ts: seq<Token>) {
    forall i | 0 <= i < |ts| :: Good(ts[i])
  }

  lemma {:induction false} FlatConcat(a: seq<Token>, b: seq<Token>)
    ensures Flat(a + b) == Flat(a) + Flat(b)
  {
    if a == [] {
      assert a + b == b;
    } else {
      assert (a + b)[1..] == a[1..] + b;
      FlatConcat(a[1..], b);
    }
  }

  // ---------------------------------------------------------------- the stack machine

  datatype Frame = Frame(name: Text, arg: Option<Text>, text: Text)

  function Push(st: seq<Frame>, s: Text): seq<Frame>
    requires st != []
  {
    st[..|st| - 1] + [st[|st| - 1].(text := st[|st| - 1].text + s)]
  }

  lemma PushTwice(st: seq<Frame>, a: Text, b: Text)
    requires st != []
    ensures Push(Push(st, a), b) == Push(st, a + b) && Push(st, []) == st
  {
    var top := st[|st| - 1];
    assert (top.text + a) + b == top.text + (a + b) && top.text + [] == top.text;
    assert Push(st, a)[..|st| - 1] == st[..|st| - 1];
  }

  /** One token; None when the tags do not match, are unknown, or produce a `<`. */
  function Feed(table: Table, st: seq<Frame>, t: Token): (r: Option<seq<Frame>>)
    requires st != []
    ensures r.Some? ==> r.value != []
  {
    match t
    case Chars(s) => Some(Push(st, s))
    case Open(name, arg) => Some(st + [Frame(name, arg, [])])
    case Close(name) =>
      var top := st[|st| - 1];
      var f := Lower(top.name);
      if |st| < 2 || Lower(name) != f || f !in table || !Plain(table[f](top.text, top.arg)) then None
      else Some(Push(st[..|st| - 1], table[f](top.text, top.arg)))
    case Single(name, arg) =>
      var f := Lower(name);
      if f !in table || !Plain(table[f]([], arg)) then None else Some(Push(st, table[f]([], arg)))
  }

  function Exec(table: Table, st: seq<Frame>, ts: seq<Token>): (r: Option<seq<Frame>>)
    requires st != []
    ensures r.Some? ==> r.value != []
    decreases |ts|
  {
    if ts == [] then Some(st)
    else
      match Feed(table, st, ts[0])
      case None => None
      case Some(st') => Exec(table, st', ts[1..])
  }

  lemma {:induction false} ExecConcat(table: Table, st: seq<Frame>, a: seq<Token>, b: seq<Token>)
    requires st != []
    ensures Exec(table, st, a + b) ==
      match Exec(table, st, a) case None => None case Some(st') => Exec(table, st', b)
    decreases |a|
  {
    if a == [] {
      assert a + b == b;
    } else {
      assert (a + b)[1..] == a[1..] + b;
      var r := Feed(table, st, a[0]);
      if r.Some? {
        ExecConcat(table, r.value, a[1..], b);
      }
    }
  }

  predicate AllChars(ts: seq<Token>) {
    forall i | 0 <= i < |ts| :: ts[i].Chars?
  }

  lemma {:induction false} ExecChars(table: Table, st: seq<Frame>, ts: seq<Token>)
    requires st != [] && AllChars(ts)
    ensures Exec(table, st, ts) == Some(Push(st, Flat(ts)))
    decreases |ts|
  {
    if ts == [] {
      PushTwice(st, [], []);
    } else {
      PushTwice(st, ts[0].text, Flat(ts[1..]));
      ExecChars(table, Push(st, ts[0].text), ts[1..]);
    }
  }

  // ---------------------------------------------------------------- from trees to tokens

  function Tokens(nodes: seq<Node>): seq<Token> {
    if nodes == [] then [] else NodeTokens(nodes[0]) + Tokens(nodes[1..])
  }

  function NodeTokens(node: Node): seq<Token> {
    match node
    case Lit(t) => [Chars(t)]
    case Pair(open, arg, kids, close) => [Open(open, arg)] + Tokens(kids) + [Close(close)]
    case Self(name, arg) => [Single(name, arg)]
  }

  function Tags(ts: seq<Token>): nat {
    if ts == [] then 0 else (if ts[0].Open? || ts[0].Single? then 1 else 0) + Tags(ts[1..])
  }

  lemma {:induction false} TagsConcat(a: seq<Token>, b: seq<Token>)
    ensures Tags(a + b) == Tags(a) + Tags(b)
  {
    if a == [] {
      assert a + b == b;
    } else {
      assert (a + b)[1..] == a[1..] + b;
      TagsConcat(a[1..], b);
    }
  }

  /** The tokens of a tree spell its text, count its tags, and evaluate to its value. */
  lemma {:induction false} TreeTokens(table: Table, nodes: seq<Node>, st: seq<Frame>)
    requires Proper(table, nodes) && st != []
    ensures Flat(Tokens(nodes)) == Render(nodes) && Tags(Tokens(nodes)) == TagCount(nodes) && AllGood(Tokens(nodes))
    ensures Plain(Eval(table, nodes))
    ensures Exec(table, st, Tokens(nodes)) == Some(Push(st, Eval(table, nodes)))
    decreases nodes, 1
  {
    if nodes == [] {
      PushTwice(st, [], []);
    } else {
      var node, rest := nodes[0], nodes[1..];
      var st' := Push(st, EvalNode(table, node));
      NodeTokensOk(table, node, st);
      TreeTokens(table, rest, st');
      FlatConcat(NodeTokens(node), Tokens(rest));
      TagsConcat(NodeTokens(node), Tokens(rest));
      ExecConcat(table, st, NodeTokens(node), Tokens(rest));
      PushTwice(st, EvalNode(table, node), Eval(table, rest));
    }
  }

  lemma {:induction false} NodeTokensOk(table: Table, node: Node, st: seq<Frame>)
    requires ProperNode(table, node) && st != []
    ensures Flat(NodeTokens(node)) == RenderNode(node) && Tags(NodeTokens(node)) == TagCount([node]) && AllGood(NodeTokens(node))
    ensures Plain(EvalNode(table, node))
    ensures Exec(table, st, NodeTokens(node)) == Some(Push(st, EvalNode(table, node)))
    decreases node, 0
  {
    match node
    case Lit(t) => ExecChars(table, st, [Chars(t)]);
    case Pair(open, arg, kids, close) =>
      TreeTokens(table, kids, st + [Frame(open, arg, [])]);
      PairSpelling(node);
      PairExec(table, node, st);
    case Self(name, arg) =>
  }

  lemma PairSpelling(node: Node)
    requires node.Pair? && Flat(Tokens(node.kids)) == Render(node.kids) && Tags(Tokens(node.kids)) == TagCount(node.kids)
    ensures Flat(NodeTokens(node)) == RenderNode(node) && Tags(NodeTokens(node)) == TagCount([node])
  {
    var a, b, c := [Open(node.open, node.arg)], Tokens(node.kids), [Close(node.close)];
    FlatConcat(a + b, c);
    FlatConcat(a, b);
    TagsConcat(a + b, c);
    TagsConcat(a, b);
    assert Flat(a) == Spell(a[0]) && Flat(c) == Spell(c[0]);
  }

  /** Opening pushes a frame, the content fills it, closing pops it and applies the tag. */
  lemma PairExec(table: Table, node: Node, st: seq<Frame>)
    requires node.Pair? && ProperNode(table, node) && st != []
    requires var st' := st + [Frame(node.open, node.arg, [])];
      Exec(table, st', Tokens(node.kids)) == Some(Push(st', Eval(table, node.kids)))
    ensures Exec(table, st, NodeTokens(node)) == Some(Push(st, EvalNode(table, node)))
  {
    var a, b, c := [Open(node.open, node.arg)], Tokens(node.kids), [Close(node.close)];
    var content := Eval(table, node.kids);
    var pushed := st + [Frame(node.open, node.arg, [])];
    var filled := Push(pushed, content);
    ExecConcat(table, st, a + b, c);
    ExecConcat(table, st, a, b);
    assert [] + content == content;
    assert filled[..|st|] == st && filled[|st|] == Frame(node.open, node.arg, content);
    assert Exec(table, st, a) == Some(pushed);
    assert Feed(table, filled, c[0]) == Some(Push(st, EvalNode(table, node)));
  }
}
