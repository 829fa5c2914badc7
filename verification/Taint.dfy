/** collectTaint, taintedVarIn, the sink test and alreadyReported of extensions/dom_taint.js. */
module Taint {
  import opened Basics
  import opened Text

  /** A match of assignRe: the assigned name, and the text up to the end of the statement. */
  datatype Assign = Assign(lhs: Text, rhs: Text)

  /** A property of the `taint` object; properties are enumerated in the order they were added. */
  datatype Binding = Binding(name: Text, origin: Text)

  const POST_MESSAGE := T("postMessage")

  /** sourceIn: the first source whose pattern occurs in the text. */
  type SourceTest = Text -> Option<Text>

  /** [\w$] */
  predicate IsIdent(c: Unit) {
    || 'a' as int <= c <= 'z' as int || 'A' as int <= c <= 'Z' as int || '0' as int <= c <= '9' as int
    || c == '_' as int || c == '$' as int
  }

  /** v stands at p, and no identifier character stands before or behind it. */
  predicate WholeAt(text: Text, v: Text, p: nat) {
    && p + |v| <= |text| && text[p..p + |v|] == v
    && (p == 0 || !IsIdent(text[p - 1])) && (p + |v| == |text| || !IsIdent(text[p + |v|]))
  }

  /** The regular expression of taintedVarIn for v. */
  predicate Mentions(text: Text, v: Text) {
    exists p | 0 <= p <= |text| :: WholeAt(text, v, p)
  }

  /** At a position stands at most one identifier: `h` is not found in `height`. */
  lemma OneIdentifierAt(text: Text, v: Text, w: Text, p: nat)
    requires forall i | 0 <= i < |v| :: IsIdent(v[i])
    requires forall i | 0 <= i < |w| :: IsIdent(w[i])
    requires WholeAt(text, v, p) && WholeAt(text, w, p)
    ensures v == w
  {
    assert forall k | p <= k < p + |v| :: text[k] == text[p..p + |v|][k - p] && IsIdent(text[k]);
    assert forall k | p <= k < p + |w| :: text[k] == text[p..p + |w|][k - p] && IsIdent(text[k]);
  }

  // ---------------------------------------------------------------- mentions are words

  /** How many identifier characters the text starts with. */
  function Run(text: Text): (n: nat)
    ensures n <= |text| && (forall i | 0 <= i < n :: IsIdent(text[i])) && (n < |text| ==> !IsIdent(text[n]))
  {
    if text != [] && IsIdent(text[0]) then 1 + Run(text[1..]) else 0
  }

  /** The longest runs of identifier characters, in order. */
  function Words(text: Text): seq<Text>
    decreases |text|
  {
    if text == [] then []
    else if Run(text) == 0 then Words(text[1..])
    else [text[..Run(text)]] + Words(text[Run(text)..])
  }

  predicate IsWord(v: Text) { v != [] && forall i | 0 <= i < |v| :: IsIdent(v[i]) }

  lemma WholeShifted(text: Text, v: Text, n: nat, p: nat)
    requires n <= p <= |text| && (p == n > 0 ==> !IsIdent(text[n - 1]))
    ensures WholeAt(text, v, p) <==> WholeAt(text[n..], v, p - n)
  {
    if p + |v| <= |text| {
      assert text[n..][p - n..p - n + |v|] == text[p..p + |v|];
    }
  }

  /** A word stands whole at the start of a run, and then it is all of it. */
  lemma WholeInRun(text: Text, v: Text, p: nat)
    requires IsWord(v) && p <= Run(text) && p <= |text|
    ensures WholeAt(text, v, p) <==> p == 0 && Run(text) > 0 && v == text[..Run(text)]
  {
    var n := Run(text);
    hide Run, IsIdent;
    if WholeAt(text, v, p) {
      assert text[p] == v[0] && IsIdent(text[p]);
      assert p == 0;
      assert forall i | 0 <= i < |v| :: text[i] == v[i] && IsIdent(text[i]);
      assert |v| == n;
    }
  }

  /** taintedVarIn'S TEST: an identifier is mentioned exactly if it is one of the words of the text. */
  lemma {:induction false} MentionsExactly(text: Text, v: Text)
    requires IsWord(v)
    ensures Mentions(text, v) <==> v in Words(text)
    decreases |text|
  {
    if text != [] {
      var n := if Run(text) == 0 then 1 else Run(text);
      WordsStep(text);
      MentionsStep(text, v, n);
      MentionsExactly(text[n..], v);
      hide Words, Mentions, IsWord, Run;
    }
  }

  lemma WordsStep(text: Text)
    requires text != []
    ensures Words(text) == if Run(text) == 0 then Words(text[1..]) else [text[..Run(text)]] + Words(text[Run(text)..])
  {
    hide Run;
  }

  lemma MentionsStep(text: Text, v: Text, n: nat)
    requires IsWord(v) && text != [] && n == if Run(text) == 0 then 1 else Run(text)
    ensures Mentions(text, v) <==> (Run(text) > 0 && v == text[..Run(text)]) || Mentions(text[n..], v)
  {
    var rest := text[n..];
    hide WholeAt, Run, IsIdent;
    MentionAt(text, v, n, 0);
    if Mentions(text, v) {
      var p :| 0 <= p <= |text| && WholeAt(text, v, p);
      MentionAt(text, v, n, p);
    }
    if Mentions(rest, v) {
      var q :| 0 <= q <= |rest| && WholeAt(rest, v, q);
      MentionAt(text, v, n, q + n);
    }
  }

  lemma MentionAt(text: Text, v: Text, n: nat, p: nat)
    requires IsWord(v) && text != [] && n == (if Run(text) == 0 then 1 else Run(text)) && p <= |text|
    ensures WholeAt(text, v, p) <==>
      if p == 0 then Run(text) > 0 && v == text[..Run(text)] else p >= n && WholeAt(text[n..], v, p - n)
  {
    hide Run, IsIdent;
    if p <= Run(text) {
      WholeInRun(text, v, p);
    }
    if p > Run(text) || Run(text) == 0 < p {
      WholeShifted(text, v, n, p);
    }
    if p == Run(text) > 0 {
      assert !WholeAt(text[n..], v, 0) by { assert p < |text| ==> text[n..][0] == text[n]; RunEnds(text); }
    }
  }

  lemma RunEnds(text: Text)
    ensures Run(text) < |text| ==> !IsIdent(text[Run(text)])
  {
  }

  // ---------------------------------------------------------------- the object

  function Lookup(t: seq<Binding>, v: Text): Option<Text> {
    if t == [] then None else if t[0].name == v then Some(t[0].origin) else Lookup(t[1..], v)
  }

  /** t[v] = origin */
  function Put(t: seq<Binding>, v: Text, origin: Text): seq<Binding> {
    if t == [] then [Binding(v, origin)]
    else if t[0].name == v then [Binding(v, origin)] + t[1..]
    else [t[0]] + Put(t[1..], v, origin)
  }

  lemma {:induction false} LookupPut(t: seq<Binding>, v: Text, origin: Text, w: Text)
    ensures Lookup(Put(t, v, origin), w) == if w == v then Some(origin) else Lookup(t, w)
  {
    if t != [] && t[0].name != v {
      LookupPut(t[1..], v, origin, w);
    }
  }

  /** No property twice: looking a name up finds the property that enumeration shows. */
  predicate Distinct(t: seq<Binding>) {
    forall i | 0 <= i < |t| :: Lookup(t, t[i].name) == Some(t[i].origin)
  }

  lemma {:induction false} PutNames(t: seq<Binding>, v: Text, origin: Text, i: nat)
    requires i < |Put(t, v, origin)|
    ensures Put(t, v, origin)[i] == Binding(v, origin) || (i < |t| && Put(t, v, origin)[i] == t[i])
  {
    if t != [] && t[0].name != v && i > 0 {
      PutNames(t[1..], v, origin, i - 1);
    }
  }

  lemma PutDistinct(t: seq<Binding>, v: Text, origin: Text)
    requires Distinct(t) && Lookup(t, v) in {None, Some(origin)}
    ensures Distinct(Put(t, v, origin))
  {
    var t' := Put(t, v, origin);
    forall i | 0 <= i < |t'| ensures Lookup(t', t'[i].name) == Some(t'[i].origin) {
      PutNames(t, v, origin, i);
      LookupPut(t, v, origin, t'[i].name);
    }
  }

  /** taintedVarIn: the origin of the first tainted variable the text mentions. */
  function TaintedVarIn(text: Text, t: seq<Binding>): (r: Option<Text>)
    ensures r.None? <==> forall i | 0 <= i < |t| :: !Mentions(text, t[i].name)
    ensures r.Some? ==> exists i | 0 <= i < |t| :: Mentions(text, t[i].name) && t[i].origin == r.value
  {
    if t == [] then None
    else if Mentions(text, t[0].name) then Some(t[0].origin)
    else
      assert forall i | 0 < i < |t| :: t[i] == t[1..][i - 1];
      TaintedVarIn(text, t[1..])
  }

  /** It is the first in the order of enumeration. */
  lemma {:induction false} TaintedVarFirst(text: Text, t: seq<Binding>, i: nat)
    requires i < |t| && Mentions(text, t[i].name) && forall k | 0 <= k < i :: !Mentions(text, t[k].name)
    ensures TaintedVarIn(text, t) == Some(t[i].origin)
  {
    hide Mentions;
    if i > 0 {
      assert forall k | 0 <= k < i - 1 :: t[1..][k] == t[k + 1];
      TaintedVarFirst(text, t[1..], i - 1);
    }
  }

  /** A new property is enumerated last, and one that is there keeps its place. */
  lemma {:induction false} PutOrder(t: seq<Binding>, v: Text, origin: Text)
    ensures Lookup(t, v).None? ==> Put(t, v, origin) == t + [Binding(v, origin)]
    ensures Lookup(t, v).Some? ==> |Put(t, v, origin)| == |t|
    ensures forall i | 0 <= i < |t| :: i < |Put(t, v, origin)| && Put(t, v, origin)[i].name == t[i].name
  {
    if t != [] && t[0].name != v {
      PutOrder(t[1..], v, origin);
      assert t == [t[0]] + t[1..];
    }
  }

  lemma {:induction false} BoundAt(t: seq<Binding>, v: Text) returns (i: nat)
    requires Lookup(t, v).Some?
    ensures i < |t| && t[i].name == v
  {
    if t[0].name == v {
      i := 0;
    } else {
      i := BoundAt(t[1..], v);
      i := i + 1;
    }
  }

  // ---------------------------------------------------------------- what is reached

  /** Seeded as a message handler's parameter, or assigned from a source. */
  ghost predicate Base(seeds: seq<Text>, code: seq<Assign>, src: SourceTest, x: Text, origin: Text) {
    || (x in seeds && origin == POST_MESSAGE)
    || exists j | 0 <= j < |code| :: code[j].lhs == x && src(code[j].rhs) == Some(origin)
  }

  /** A chain of assignments at strictly increasing positions ps carries `origin` from a base variable to x. */
  ghost predicate Chain(seeds: seq<Text>, code: seq<Assign>, src: SourceTest, ps: seq<nat>, x: Text, origin: Text) {
    if ps == [] then Base(seeds, code, src, x, origin)
    else
      var last := ps[|ps| - 1];
      && last < |code| && code[last].lhs == x
      && (|ps| > 1 ==> ps[|ps| - 2] < last)
      && exists y :: Mentions(code[last].rhs, y) && Chain(seeds, code, src, ps[..|ps| - 1], y, origin)
  }

  ghost predicate Below(ps: seq<nat>, n: nat) { ps != [] ==> ps[|ps| - 1] < n }

  /** x is reached, with this origin, by a chain within the first n assignments. */
  ghost predicate Carried(seeds: seq<Text>, code: seq<Assign>, src: SourceTest, n: nat, x: Text, origin: Text) {
    exists ps :: Below(ps, n) && Chain(seeds, code, src, ps, x, origin)
  }

  ghost predicate Reached(seeds: seq<Text>, code: seq<Assign>, src: SourceTest, n: nat, x: Text) {
    exists origin :: Carried(seeds, code, src, n, x, origin)
  }

  lemma CarriedMore(seeds: seq<Text>, code: seq<Assign>, src: SourceTest, n: nat, x: Text, origin: Text)
    requires n < |code|
    ensures Carried(seeds, code, src, n, x, origin) ==> Carried(seeds, code, src, n + 1, x, origin)
    ensures code[n].lhs == x ==> forall y :: Mentions(code[n].rhs, y) && Carried(seeds, code, src, n, y, origin) ==>
      Carried(seeds, code, src, n + 1, x, origin)
  {
    hide Base, Mentions;
    if Carried(seeds, code, src, n, x, origin) {
      var ps :| Below(ps, n) && Chain(seeds, code, src, ps, x, origin);
      assert Below(ps, n + 1);
    }
    if code[n].lhs == x {
      forall y | Mentions(code[n].rhs, y) && Carried(seeds, code, src, n, y, origin)
        ensures Carried(seeds, code, src, n + 1, x, origin)
      {
        var ps :| Below(ps, n) && Chain(seeds, code, src, ps, y, origin);
        var longer := ps + [n];
        assert longer[..|ps|] == ps;
        assert Below(longer, n + 1) && Chain(seeds, code, src, longer, x, origin);
      }
    }
  }

  lemma CarriedLess(seeds: seq<Text>, code: seq<Assign>, src: SourceTest, n: nat, x: Text, origin: Text)
    requires n < |code| && Carried(seeds, code, src, n + 1, x, origin)
    ensures Carried(seeds, code, src, n, x, origin)
         || (code[n].lhs == x && exists y :: Mentions(code[n].rhs, y) && Carried(seeds, code, src, n, y, origin))
  {
    hide Base, Mentions;
    var ps :| Below(ps, n + 1) && Chain(seeds, code, src, ps, x, origin);
    if ps == [] || ps[|ps| - 1] < n {
      assert Below(ps, n);
    } else {
      var y :| Mentions(code[n].rhs, y) && Chain(seeds, code, src, ps[..|ps| - 1], y, origin);
      assert Below(ps[..|ps| - 1], n);
    }
  }

  lemma CarriedNone(seeds: seq<Text>, code: seq<Assign>, src: SourceTest, x: Text, origin: Text)
    ensures Carried(seeds, code, src, 0, x, origin) <==> Base(seeds, code, src, x, origin)
  {
    hide Base, Mentions;
    if Base(seeds, code, src, x, origin) {
      assert Below([], 0) && Chain(seeds, code, src, [], x, origin);
    }
    if Carried(seeds, code, src, 0, x, origin) {
      var ps :| Below(ps, 0) && Chain(seeds, code, src, ps, x, origin);
      assert ps == [];
    }
  }

  // ---------------------------------------------------------------- the two passes

  /** After n assignments of the second pass: exactly the reached variables, each with an origin carried to it. */
  ghost predicate Exact(seeds: seq<Text>, code: seq<Assign>, src: SourceTest, n: nat, t: seq<Binding>) {
    && Distinct(t)
    && (forall x :: Lookup(t, x).Some? ==> Carried(seeds, code, src, n, x, Lookup(t, x).value))
    && (forall x, origin :: Carried(seeds, code, src, n, x, origin) ==> Lookup(t, x).Some?)
  }

  /** After n assignments of the first pass. */
  ghost predicate Direct(seeds: seq<Text>, code: seq<Assign>, src: SourceTest, n: nat, t: seq<Binding>)
    requires n <= |code|
  {
    && Distinct(t)
    && (forall x :: Lookup(t, x).Some? ==> Base(seeds, code[..n], src, x, Lookup(t, x).value))
    && (forall x, origin :: Base(seeds, code[..n], src, x, origin) ==> Lookup(t, x).Some?)
  }

  /** One turn of the loop body. */
  function Turn(t: seq<Binding>, a: Assign, src: SourceTest, second: bool): seq<Binding> {
    if Lookup(t, a.lhs).Some? then t
    else if src(a.rhs).Some? then Put(t, a.lhs, src(a.rhs).value)
    else if second && TaintedVarIn(a.rhs, t).Some? then Put(t, a.lhs, TaintedVarIn(a.rhs, t).value)
    else t
  }

  lemma NothingBound(src: SourceTest)
    ensures Direct([], [], src, 0, [])
  {
  }

  lemma SeedStep(seeds: seq<Text>, i: nat, src: SourceTest, t: seq<Binding>)
    requires i < |seeds| && Direct(seeds[..i], [], src, 0, t)
    ensures Direct(seeds[..i + 1], [], src, 0, Put(t, seeds[i], POST_MESSAGE))
  {
    var s := seeds[i];
    var done, more := seeds[..i], seeds[..i + 1];
    assert more == done + [s];
    assert Lookup(t, s).Some? ==> Base(seeds[..i], [], src, s, Lookup(t, s).value);
    PutDistinct(t, s, POST_MESSAGE);
    forall x ensures Lookup(Put(t, s, POST_MESSAGE), x) == if x == s then Some(POST_MESSAGE) else Lookup(t, x) {
      LookupPut(t, s, POST_MESSAGE, x);
    }
    forall x, o ensures Base(more, [], src, x, o) <==> Base(done, [], src, x, o) || (x == s && o == POST_MESSAGE) {
    }
    hide Put, Lookup, Base, Distinct;
  }

  lemma DirectStart(seeds: seq<Text>, code: seq<Assign>, src: SourceTest, t: seq<Binding>)
    requires Direct(seeds, [], src, 0, t)
    ensures Direct(seeds, code, src, 0, t)
  {
    var none: seq<Assign> := [];
    assert code[..0] == none && none[..0] == none;
    hide Base, Distinct, Lookup;
  }

  lemma BaseStep(seeds: seq<Text>, code: seq<Assign>, src: SourceTest, i: nat, x: Text, origin: Text)
    requires i < |code|
    ensures Base(seeds, code[..i + 1], src, x, origin) <==>
      Base(seeds, code[..i], src, x, origin) || (code[i].lhs == x && src(code[i].rhs) == Some(origin))
  {
    var a, b := code[..i], code[..i + 1];
    assert b[i] == code[i] && forall j | 0 <= j < i :: a[j] == b[j];
  }

  lemma DirectStep(seeds: seq<Text>, code: seq<Assign>, src: SourceTest, i: nat, t: seq<Binding>)
    requires i < |code| && Direct(seeds, code, src, i, t)
    ensures Direct(seeds, code, src, i + 1, Turn(t, code[i], src, false))
  {
    var lhs, origin := code[i].lhs, src(code[i].rhs);
    var t' := Turn(t, code[i], src, false);
    var done, more := code[..i], code[..i + 1];
    forall x, o ensures Base(seeds, more, src, x, o) <==> Base(seeds, done, src, x, o) || (lhs == x && origin == Some(o)) {
      BaseStep(seeds, code, src, i, x, o);
    }
    if Lookup(t, lhs).None? && origin.Some? {
      PutDistinct(t, lhs, origin.value);
      forall x ensures Lookup(t', x) == if x == lhs then origin else Lookup(t, x) {
        LookupPut(t, lhs, origin.value, x);
      }
    }
    hide Put, Lookup, Base, Distinct;
  }

  lemma DirectIsExact(seeds: seq<Text>, code: seq<Assign>, src: SourceTest, t: seq<Binding>)
    requires Direct(seeds, code, src, |code|, t)
    ensures Exact(seeds, code, src, 0, t)
  {
    assert code[..|code|] == code;
    forall x, o ensures Carried(seeds, code, src, 0, x, o) <==> Base(seeds, code, src, x, o) {
      CarriedNone(seeds, code, src, x, o);
    }
    hide Base, Carried, Distinct, Lookup;
  }

  lemma ExactStep(seeds: seq<Text>, code: seq<Assign>, src: SourceTest, i: nat, t: seq<Binding>)
    requires i < |code| && Exact(seeds, code, src, i, t)
    ensures Exact(seeds, code, src, i + 1, Turn(t, code[i], src, true))
  {
    hide Base, Carried, Mentions, Chain, Put;
    var lhs, rhs := code[i].lhs, code[i].rhs;
    var t' := Turn(t, code[i], src, true);
    SourceIsBound(seeds, code, src, i, t);
    var via := TaintedVarIn(rhs, t);
    if Lookup(t, lhs).None? && via.Some? {
      var k :| 0 <= k < |t| && Mentions(rhs, t[k].name) && t[k].origin == via.value;
      CarriedMore(seeds, code, src, i, lhs, via.value);
      PutDistinct(t, lhs, via.value);
      forall x ensures Lookup(t', x) == if x == lhs then via else Lookup(t, x) {
        LookupPut(t, lhs, via.value, x);
      }
    }
    var n := i + 1;
    forall x | Lookup(t', x).Some? ensures Carried(seeds, code, src, n, x, Lookup(t', x).value) {
      CarriedMore(seeds, code, src, i, x, Lookup(t', x).value);
    }
    forall x, o | Carried(seeds, code, src, n, x, o) ensures Lookup(t', x).Some? {
      CarriedLess(seeds, code, src, i, x, o);
      if !Carried(seeds, code, src, i, x, o) {
        var y :| Mentions(rhs, y) && Carried(seeds, code, src, i, y, o);
        var k := BoundAt(t, y);
      }
    }
  }

  /** In the second pass every variable assigned from a source is bound already. */
  lemma SourceIsBound(seeds: seq<Text>, code: seq<Assign>, src: SourceTest, i: nat, t: seq<Binding>)
    requires i < |code| && Exact(seeds, code, src, i, t)
    ensures src(code[i].rhs).Some? ==> Lookup(t, code[i].lhs).Some?
  {
    if src(code[i].rhs).Some? {
      var o := src(code[i].rhs).value;
      assert Base(seeds, code, src, code[i].lhs, o);
      assert Below([], i) && Chain(seeds, code, src, [], code[i].lhs, o);
      assert Carried(seeds, code, src, i, code[i].lhs, o);
    }
  }

  // ---------------------------------------------------------------- which origin is recorded

  /** The first assignment of a source to its variable, which is no seed. */
  predicate FirstSource(seeds: seq<Text>, code: seq<Assign>, src: SourceTest, j: nat)
    requires j < |code|
  {
    && code[j].lhs !in seeds && src(code[j].rhs).Some?
    && forall i | 0 <= i < j :: code[i].lhs == code[j].lhs ==> src(code[i].rhs).None?
  }

  /** The seeds have their origin, and within the first n assignments the first source of a variable is recorded. */
  predicate FirstWins(seeds: seq<Text>, code: seq<Assign>, src: SourceTest, n: nat, t: seq<Binding>)
    requires n <= |code|
  {
    && (forall x | x in seeds :: Lookup(t, x) == Some(T("postMessage")))
    && forall j | 0 <= j < n && FirstSource(seeds, code, src, j) :: Lookup(t, code[j].lhs) == src(code[j].rhs)
  }

  lemma SeedsFirst(seeds: seq<Text>, i: nat, src: SourceTest, t: seq<Binding>)
    requires i < |seeds| && FirstWins(seeds[..i], [], src, 0, t)
    ensures FirstWins(seeds[..i + 1], [], src, 0, Put(t, seeds[i], POST_MESSAGE))
  {
    assert seeds[..i + 1] == seeds[..i] + [seeds[i]] && POST_MESSAGE == T("postMessage");
    forall x ensures Lookup(Put(t, seeds[i], POST_MESSAGE), x) == if x == seeds[i] then Some(POST_MESSAGE) else Lookup(t, x) {
      LookupPut(t, seeds[i], POST_MESSAGE, x);
    }
    hide Put, Lookup, FirstSource;
  }

  lemma SeedsDone(seeds: seq<Text>, code: seq<Assign>, src: SourceTest, t: seq<Binding>)
    requires FirstWins(seeds, [], src, 0, t)
    ensures FirstWins(seeds, code, src, 0, t)
  {
    hide Lookup, FirstSource;
  }

  /** What is bound stays as it is. */
  lemma TurnKeeps(t: seq<Binding>, a: Assign, src: SourceTest, second: bool, x: Text)
    requires Lookup(t, x).Some?
    ensures Lookup(Turn(t, a, src, second), x) == Lookup(t, x)
  {
    TurnIs(t, a, src, second);
    hide Turn, Put, Lookup, TaintedVarIn;
    if src(a.rhs).Some? { LookupPut(t, a.lhs, src(a.rhs).value, x); }
    if TaintedVarIn(a.rhs, t).Some? { LookupPut(t, a.lhs, TaintedVarIn(a.rhs, t).value, x); }
  }

  lemma FirstKept(seeds: seq<Text>, code: seq<Assign>, src: SourceTest, n: nat, t: seq<Binding>, a: Assign, second: bool)
    requires n <= |code| && FirstWins(seeds, code, src, n, t)
    ensures FirstWins(seeds, code, src, n, Turn(t, a, src, second))
  {
    hide Lookup, Turn;
    forall x | Lookup(t, x).Some? ensures Lookup(Turn(t, a, src, second), x) == Lookup(t, x) {
      TurnKeeps(t, a, src, second, x);
    }
  }

  lemma FirstStep(seeds: seq<Text>, code: seq<Assign>, src: SourceTest, i: nat, t: seq<Binding>)
    requires i < |code| && Direct(seeds, code, src, i, t) && FirstWins(seeds, code, src, i, t)
    ensures FirstWins(seeds, code, src, i + 1, Turn(t, code[i], src, false))
  {
    FirstKept(seeds, code, src, i, t, code[i], false);
    if FirstSource(seeds, code, src, i) {
      var x := code[i].lhs;
      forall o ensures !Base(seeds, code[..i], src, x, o) {
        assert forall j | 0 <= j < i :: code[..i][j] == code[j];
      }
      LookupPut(t, x, src(code[i].rhs).value, x);
    }
    hide Lookup, Put, FirstSource, TaintedVarIn;
  }

  lemma ExactIs(seeds: seq<Text>, code: seq<Assign>, src: SourceTest, t: seq<Binding>)
    requires Exact(seeds, code, src, |code|, t)
    ensures Distinct(t)
    ensures forall x :: Lookup(t, x).Some? <==> Reached(seeds, code, src, |code|, x)
    ensures forall x :: Lookup(t, x).Some? ==> Carried(seeds, code, src, |code|, x, Lookup(t, x).value)
  {
    hide Carried, Distinct, Lookup;
  }

  /** EXACT REACH: a variable is tainted if and only if it is seeded, assigned from a source, or at the end of a
      chain of assignments at strictly increasing positions, of any length; and the recorded origin is the origin
      of such a chain. A chain that would have to go backwards in the code is not followed. */
  method CollectTaint(seeds: seq<Text>, code: seq<Assign>, src: SourceTest) returns (taint: seq<Binding>)
    ensures Distinct(taint)
    ensures forall x :: Lookup(taint, x).Some? <==> Reached(seeds, code, src, |code|, x)
    ensures forall x :: Lookup(taint, x).Some? ==> Carried(seeds, code, src, |code|, x, Lookup(taint, x).value)
    ensures forall x | x in seeds :: Lookup(taint, x) == Some(T("postMessage"))
    ensures forall j | 0 <= j < |code| && FirstSource(seeds, code, src, j) :: Lookup(taint, code[j].lhs) == src(code[j].rhs)
  {
    hide *;
    taint := [];
    NothingBound(src);
    NothingFirst(src);
    for i := 0 to |seeds|
      invariant Direct(seeds[..i], [], src, 0, taint) && FirstWins(seeds[..i], [], src, 0, taint)
    {
      SeedStep(seeds, i, src, taint);
      SeedsFirst(seeds, i, src, taint);
      taint := Put(taint, seeds[i], POST_MESSAGE);
    }
    assert seeds[..|seeds|] == seeds;
    DirectStart(seeds, code, src, taint);
    SeedsDone(seeds, code, src, taint);
    var pass := 0;
    while pass < 2
      invariant 0 <= pass <= 2
      invariant pass == 0 ==> Direct(seeds, code, src, 0, taint)
      invariant pass == 1 ==> Exact(seeds, code, src, 0, taint)
      invariant pass == 2 ==> Exact(seeds, code, src, |code|, taint)
      invariant FirstWins(seeds, code, src, if pass == 0 then 0 else |code|, taint)
    {
      for i := 0 to |code|
        invariant pass == 0 ==> Direct(seeds, code, src, i, taint)
        invariant pass == 1 ==> Exact(seeds, code, src, i, taint)
        invariant FirstWins(seeds, code, src, if pass == 0 then i else |code|, taint)
      {
        var lhs, rhs := code[i].lhs, code[i].rhs;
        TurnIs(taint, code[i], src, pass > 0);
        if pass == 0 {
          DirectStep(seeds, code, src, i, taint);
          FirstStep(seeds, code, src, i, taint);
        } else {
          ExactStep(seeds, code, src, i, taint);
          FirstKept(seeds, code, src, |code|, taint, code[i], true);
        }
        if Lookup(taint, lhs).Some? { continue; }
        var origin := src(rhs);
        if origin.Some? {
          taint := Put(taint, lhs, origin.value);
          continue;
        }
        if pass > 0 {
          var via := TaintedVarIn(rhs, taint);
          if via.Some? { taint := Put(taint, lhs, via.value); }
        }
      }
      if pass == 0 {
        DirectIsExact(seeds, code, src, taint);
      }
      pass := pass + 1;
    }
    ExactIs(seeds, code, src, taint);
    FirstWinsIs(seeds, code, src, taint);
  }

  lemma NothingFirst(src: SourceTest)
    ensures FirstWins([], [], src, 0, [])
  {
  }

  lemma FirstWinsIs(seeds: seq<Text>, code: seq<Assign>, src: SourceTest, t: seq<Binding>)
    requires FirstWins(seeds, code, src, |code|, t)
    ensures forall x | x in seeds :: Lookup(t, x) == Some(T("postMessage"))
    ensures forall j | 0 <= j < |code| && FirstSource(seeds, code, src, j) :: Lookup(t, code[j].lhs) == src(code[j].rhs)
  {
    hide Lookup, FirstSource, T;
  }

  lemma TurnIs(t: seq<Binding>, a: Assign, src: SourceTest, second: bool)
    ensures Turn(t, a, src, second) ==
      if Lookup(t, a.lhs).Some? then t
      else if src(a.rhs).Some? then Put(t, a.lhs, src(a.rhs).value)
      else if second && TaintedVarIn(a.rhs, t).Some? then Put(t, a.lhs, TaintedVarIn(a.rhs, t).value)
      else t
  {
    hide Lookup, Put, TaintedVarIn;
  }

  // ---------------------------------------------------------------- the sink test of analyse

  /** The region of a sink is reported exactly when it holds a source or mentions a reached variable;
      a source in the region itself wins. */
  method SinkOrigin(region: Text, seeds: seq<Text>, code: seq<Assign>, src: SourceTest) returns (origin: Option<Text>, direct: bool)
    ensures direct == src(region).Some? && (direct ==> origin == src(region))
    ensures origin.Some? <==> src(region).Some? || exists x :: Mentions(region, x) && Reached(seeds, code, src, |code|, x)
    ensures origin.Some? && !direct ==> exists x :: Mentions(region, x) && Carried(seeds, code, src, |code|, x, origin.value)
  {
    var taint := CollectTaint(seeds, code, src);
    origin := src(region);
    direct := origin.Some?;
    if !direct {
      origin := TaintedVarIn(region, taint);
      hide Mentions, Reached, Carried, Lookup;
      if origin.Some? {
        var k :| 0 <= k < |taint| && Mentions(region, taint[k].name) && taint[k].origin == origin.value;
        assert Lookup(taint, taint[k].name) == origin;
      } else {
        forall x | Mentions(region, x) ensures !Reached(seeds, code, src, |code|, x) {
          if Reached(seeds, code, src, |code|, x) {
            var k := BoundAt(taint, x);
          }
        }
      }
    }
  }

  // ---------------------------------------------------------------- alreadyReported

  const SEEN_CAP: nat := 5000

  /** The bounded set of reported keys; a reset forgets the key that caused it as well. */
  class Reports {
    var seen: set<Text>

    constructor ()
      ensures seen == {}
    {
      seen := {};
    }

    method AlreadyReported(key: Text) returns (already: bool)
      modifies this
      ensures already == (key in old(seen))
      ensures seen == Remember(old(seen), key)
    {
      if key in seen { return true; }
      seen := seen + {key};
      if |seen| > SEEN_CAP { seen := {}; }
      already := false;
    }
  }

  function Remember(seen: set<Text>, key: Text): set<Text> {
    if key in seen then seen else if |seen + {key}| > SEEN_CAP then {} else seen + {key}
  }

  /** The set after a sequence of calls. */
  function SeenAfter(keys: seq<Text>): set<Text> {
    if keys == [] then {} else Remember(SeenAfter(keys[..|keys| - 1]), keys[|keys| - 1])
  }

  /** How many of the calls reported something new. */
  function ReportCount(keys: seq<Text>): nat {
    if keys == [] then 0
    else
      var before := keys[..|keys| - 1];
      ReportCount(before) + (if keys[|keys| - 1] in SeenAfter(before) then 0 else 1)
  }

  /** Call i reports its key. */
  predicate IsReported(keys: seq<Text>, i: nat)
    requires i < |keys|
  {
    keys[i] !in SeenAfter(keys[..i])
  }

  lemma NextCall(keys: seq<Text>)
    requires keys != []
    ensures var before, key := keys[..|keys| - 1], keys[|keys| - 1];
      && SeenAfter(keys) == Remember(SeenAfter(before), key)
      && ReportCount(keys) == ReportCount(before) + (if key in SeenAfter(before) then 0 else 1)
  {
    hide Remember;
  }

  lemma RememberSize(seen: set<Text>, key: Text, n: nat)
    requires |seen| == n % 5001
    ensures key in seen ==> Remember(seen, key) == seen
    ensures key !in seen ==> |Remember(seen, key)| == (n + 1) % 5001
    ensures n / 5001 == (n + 1) / 5001 ==> seen + {key} == Remember(seen, key)
  {
    if key !in seen {
      assert |seen + {key}| == |seen| + 1;
    } else {
      assert seen + {key} == seen;
    }
  }

  /** The set never holds more than 5000 keys, and is emptied by every 5001-th report. */
  lemma {:induction false} SeenSize(keys: seq<Text>)
    ensures |SeenAfter(keys)| == ReportCount(keys) % 5001
  {
    if keys != [] {
      var before := keys[..|keys| - 1];
      hide SeenAfter, ReportCount, Remember;
      SeenSize(before);
      NextCall(keys);
      RememberSize(SeenAfter(before), keys[|keys| - 1], ReportCount(before));
    }
  }

  /** Between two resets a reported key stays in the set. */
  lemma {:induction false} KeyStays(keys: seq<Text>, i: nat)
    requires i < |keys|
    ensures ReportCount(keys[..i]) <= ReportCount(keys[..i + 1]) <= ReportCount(keys)
    ensures IsReported(keys, i) && ReportCount(keys) / 5001 == ReportCount(keys[..i]) / 5001 ==>
      keys[i] in SeenAfter(keys)
  {
    hide SeenAfter, ReportCount, Remember;
    var last := |keys| - 1;
    var before := keys[..last];
    var n := ReportCount(before);
    SeenSize(before);
    NextCall(keys);
    RememberSize(SeenAfter(before), keys[last], n);
    if i == last {
      assert keys[..i + 1] == keys;
    } else {
      assert before[..i + 1] == keys[..i + 1] && before[..i] == keys[..i] && before[i] == keys[i];
      KeyStays(before, i);
      DivMonotone(n, ReportCount(keys));
      DivMonotone(ReportCount(keys[..i]), n);
    }
  }

  /** NO KEY IS REPORTED TWICE within 5001 reports counted from the last reset: the two reports of a key
      are separated by a reset, which happens exactly at every 5001-th report. */
  lemma NoDoubleReport(keys: seq<Text>, i: nat, j: nat)
    requires i < j < |keys| && keys[i] == keys[j] && IsReported(keys, i) && IsReported(keys, j)
    ensures ReportCount(keys[..i]) / 5001 < ReportCount(keys[..j]) / 5001
  {
    var before := keys[..j];
    assert before[..i] == keys[..i] && before[..i + 1] == keys[..i + 1] && before[i] == keys[i];
    KeyStays(before, i);
    DivMonotone(ReportCount(keys[..i]), ReportCount(before));
    hide ReportCount, SeenAfter;
  }

  lemma DivMonotone(m: nat, n: nat)
    requires m <= n
    ensures m / 5001 <= n / 5001
  {
  }
}
