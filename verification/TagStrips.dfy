/**
 * Zones of known tags between walls, which are the tokens of unknown tags and of the tags around those: what the
 * rewriting loop of extensions/taffy.js resolves, and where it stops.
 */
module TagStrips {
  import opened Basics
  import opened Text
  import opened TagRewriting
  import opened TagSemantics
  import opened TagTheorems
  import opened TagPasses

  // ---------------------------------------------------------------- zones of known tags between walls

  /** Zones of tokens with a wall token between any two. */
  function Joined(zs: seq<seq<Token>>, ws: seq<Token>): seq<Token>
    requires |zs| == |ws| + 1
  {
    if ws == [] then zs[0] else zs[0] + ([ws[0]] + Joined(zs[1..], ws[1..]))
  }

  /** The first two walls are a pair. */
  predicate Leaf(ws: seq<Token>) {
    |ws| > 1 && ws[0].Open? && ws[1].Close? && Lower(ws[1].name) == Lower(ws[0].name)
  }

  /** Walls are tags, and those that could be matched are unknown. */
  predicate WallsOk(table: Table, ws: seq<Token>) {
    ws != [] ==>
      && Good(ws[0]) && !ws[0].Chars? && (ws[0].Single? || Leaf(ws) ==> Lower(ws[0].name) !in table)
      && WallsOk(table, ws[1..])
  }

  /** Every zone is well nested, knows its tags, and has its value. */
  predicate ZonesOk(table: Table, zs: seq<seq<Token>>, vs: seq<Text>) {
    |zs| == |vs| && forall i | 0 <= i < |zs| :: Means(table, zs[i], vs[i])
  }

  predicate Strip(table: Table, zs: seq<seq<Token>>, ws: seq<Token>, vs: seq<Text>) {
    |zs| == |ws| + 1 && ZonesOk(table, zs, vs) && WallsOk(table, ws)
  }

  lemma StripTail(table: Table, zs: seq<seq<Token>>, ws: seq<Token>, vs: seq<Text>)
    requires Strip(table, zs, ws, vs)
    ensures |zs| == |vs| == |ws| + 1 && Means(table, zs[0], vs[0]) && AllGood(zs[0])
    ensures ws != [] ==> Strip(table, zs[1..], ws[1..], vs[1..]) && Good(ws[0]) && !ws[0].Chars?
    ensures ws != [] && (ws[0].Single? || Leaf(ws)) ==> Lower(ws[0].name) !in table
  {
    hide Exec, Good, Leaf, Lower;
  }

  lemma {:induction false} JoinedGood(table: Table, zs: seq<seq<Token>>, ws: seq<Token>, vs: seq<Text>)
    requires Strip(table, zs, ws, vs)
    ensures AllGood(Joined(zs, ws))
  {
    StripTail(table, zs, ws, vs);
    hide Strip, Means, Good, Leaf, Lower;
    if ws != [] {
      JoinedGood(table, zs[1..], ws[1..], vs[1..]);
    }
  }

  // ---------------------------------------------------------------- zones do not see walls

  lemma {:induction false} CharsRunWithin(ts: seq<Token>, rest: seq<Token>)
    ensures CharsRun(ts) < |ts| ==> CharsRun(ts + rest) == CharsRun(ts)
    ensures CharsRun(ts) == |ts| ==> CharsRun(ts + rest) == |ts| + CharsRun(rest)
  {
    if ts == [] {
      assert ts + rest == rest;
    } else {
      assert (ts + rest)[1..] == ts[1..] + rest;
      CharsRunWithin(ts[1..], rest);
    }
  }

  /** In a well-nested sequence a tag token follows every opening one. */
  lemma OpenIsFollowed(table: Table, ts: seq<Token>, value: Text, a: nat)
    requires Means(table, ts, value) && a < |ts| && ts[a].Open?
    ensures a + 1 + CharsRun(ts[a + 1..]) < |ts|
  {
    var rest := ts[a + 1..];
    if CharsRun(rest) == |rest| {
      assert ts == ts[..a] + ([ts[a]] + rest) && rest[..|rest|] == rest;
      ExecConcat(table, EMPTY_STACK, ts[..a], [ts[a]] + rest);
      var st := Exec(table, EMPTY_STACK, ts[..a]).value;
      ExecConcat(table, st, [ts[a]], rest);
      ExecChars(table, st + [Frame(ts[a].name, ts[a].arg, [])], rest);
    }
  }

  lemma NothingToClose(table: Table, st: seq<Frame>, ts: seq<Token>)
    requires |st| == 1 && ts != [] && ts[0].Close?
    ensures Exec(table, st, ts).None?
  {
  }

  lemma CloseAfterText(table: Table, a: seq<Token>, b: seq<Token>)
    requires AllChars(a) && b != [] && b[0].Close? && EMPTY_STACK != []
    ensures Exec(table, EMPTY_STACK, a + b).None?
  {
    hide *;
    ExecConcat(table, EMPTY_STACK, a, b);
    ExecChars(table, EMPTY_STACK, a);
    OneFrame(Flat(a));
    NothingToClose(table, Push(EMPTY_STACK, Flat(a)), b);
  }

  lemma CutAt<X>(s: seq<X>, n: nat)
    requires n < |s|
    ensures s == s[..n] + s[n..] && s[n..] != [] && s[n..][0] == s[n]
  {
  }

  /** Behind text at its start, a well-nested sequence does not close. */
  lemma FirstOpens(table: Table, ts: seq<Token>, n: nat)
    requires n < |ts| && AllChars(ts[..n]) && EMPTY_STACK != [] && Exec(table, EMPTY_STACK, ts).Some?
    ensures !ts[n].Close?
  {
    hide *;
    CutAt(ts, n);
    if ts[n].Close? {
      CloseAfterText(table, ts[..n], ts[n..]);
    }
  }

  lemma OneFrame(t: Text)
    ensures |EMPTY_STACK| == 1 && |Push(EMPTY_STACK, t)| == 1
  {
  }

  /** Without tags a well-nested sequence is all text; with some, its first tag token opens. */
  lemma FirstTagToken(table: Table, ts: seq<Token>, value: Text)
    requires Means(table, ts, value)
    ensures var n := CharsRun(ts); n < |ts| ==> !ts[n].Close? && Tags(ts) > 0
    ensures CharsRun(ts) == |ts| ==> Tags(ts) == 0 && AllChars(ts)
  {
    var n := CharsRun(ts);
    assert AllChars(ts[..n]) && (n < |ts| ==> !ts[n].Chars?);
    MeansRuns(table, ts, value);
    hide Means, CharsRun, Tags, Exec;
    if n < |ts| {
      FirstOpens(table, ts, n);
      TagHere(ts, n);
    } else {
      assert ts[..n] == ts;
      TagsOfChars(ts);
    }
  }

  lemma InnermostWithin(ts: seq<Token>, rest: seq<Token>)
    requires ts != [] && (ts[0].Open? ==> 1 + CharsRun(ts[1..]) < |ts|)
    ensures Innermost(ts + rest) <==> Innermost(ts)
    ensures ts[0].Open? ==> CharsRun((ts + rest)[1..]) == CharsRun(ts[1..])
  {
    assert (ts + rest)[1..] == ts[1..] + rest;
    CharsRunWithin(ts[1..], rest);
    hide CharsRun, Lower;
  }

  lemma InZone(table: Table, z: seq<Token>, value: Text, rest: seq<Token>, a: nat)
    requires Means(table, z, value) && a < |z|
    ensures Innermost((z + rest)[a..]) <==> Innermost(z[a..])
    ensures Innermost(z[a..]) ==> CharsRun((z + rest)[a..][1..]) == CharsRun(z[a..][1..]) && a + 1 + CharsRun(z[a..][1..]) < |z|
  {
    if z[a].Open? {
      OpenIsFollowed(table, z, value, a);
    }
    assert (z + rest)[a..] == z[a..] + rest && z[a..][1..] == z[a + 1..] && z[a..][0] == z[a];
    InnermostWithin(z[a..], rest);
    if Innermost(z[a..]) { InnermostOpen(z, a); }
    hide Means, Innermost, CharsRun;
  }

  /** A wall is innermost exactly if it opens a leaf whose zone has no tag left. */
  lemma AtWall(table: Table, zs: seq<seq<Token>>, ws: seq<Token>, vs: seq<Text>)
    requires Strip(table, zs, ws, vs) && ws != []
    ensures Innermost([ws[0]] + Joined(zs[1..], ws[1..])) <==> Leaf(ws) && Tags(zs[1]) == 0
  {
    StripTail(table, zs, ws, vs);
    StripTail(table, zs[1..], ws[1..], vs[1..]);
    FirstTagToken(table, zs[1], vs[1]);
    hide Strip, Means, Tags, Lower;
    var z, all := zs[1], Joined(zs[1..], ws[1..]);
    assert ([ws[0]] + all)[1..] == all;
    if |ws| > 1 {
      var rest := [ws[1]] + Joined(zs[2..], ws[2..]);
      assert zs[1..][1..] == zs[2..] && ws[1..][1..] == ws[2..];
      assert all == z + rest;
      CharsRunWithin(z, rest);
      assert CharsRun(rest) == 0;
      assert CharsRun(z) == |z| ==> all[CharsRun(all)] == ws[1];
      assert CharsRun(z) < |z| ==> all[CharsRun(all)] == z[CharsRun(z)];
    }
  }

  // ---------------------------------------------------------------- when everything known is resolved

  function TagsIn(zs: seq<seq<Token>>): nat { if zs == [] then 0 else Tags(zs[0]) + TagsIn(zs[1..]) }

  function SinglesIn(zs: seq<seq<Token>>): nat { if zs == [] then 0 else Singles(zs[0]) + SinglesIn(zs[1..]) }

  predicate NoLeaf(ws: seq<Token>) { ws == [] || (!Leaf(ws) && NoLeaf(ws[1..])) }

  /** Nothing known stands behind the first leaf. */
  predicate NothingBehind(zs: seq<seq<Token>>, ws: seq<Token>)
    requires |zs| == |ws| + 1
  {
    if ws == [] then true
    else if Leaf(ws) then TagsIn(zs[2..]) == 0
    else NothingBehind(zs[1..], ws[1..])
  }

  /** The first blocker, an unknown self-closing tag or a leaf, has no known self-closing tag and no leaf behind it;
      and if it is a leaf, it holds a known self-closing tag. */
  predicate FirstBlockerOk(zs: seq<seq<Token>>, ws: seq<Token>)
    requires |zs| == |ws| + 1
  {
    if ws == [] then true
    else if ws[0].Single? then SinglesIn(zs[1..]) == 0 && NoLeaf(ws[1..])
    else if Leaf(ws) then Singles(zs[1]) > 0 && SinglesIn(zs[2..]) == 0 && NoLeaf(ws[2..])
    else FirstBlockerOk(zs[1..], ws[1..])
  }

  /** The known tags can all be resolved, given enough passes. */
  predicate Clears(zs: seq<seq<Token>>, ws: seq<Token>)
    requires |zs| == |ws| + 1
  {
    if SinglesIn(zs) == 0 then NothingBehind(zs, ws) else FirstBlockerOk(zs, ws)
  }

  /** Without any match there is no tag; without a pair to match there are no tags but self-closing ones, or some. */
  lemma NothingFound(table: Table, ts: seq<Token>, value: Text)
    requires Means(table, ts, value) && NoPairBefore(ts, |ts|)
    ensures Singles(ts) == 0 ==> Tags(ts) == 0
  {
    if Tags(ts) > 0 {
      MeansRuns(table, ts, value);
      assert |Exec(table, EMPTY_STACK, ts).value| == 1;
      var i := SomeRedex(table, EMPTY_STACK, ts);
      hide *;
      if Innermost(ts[i..]) {
        var p := Seen(ts, i);
      } else {
        if Singles(ts) == 0 { NoSingleAt(ts, i); }
        var p := Seen(ts, i);
      }
    }
  }

  // ---------------------------------------------------------------- resolving a tag of a zone

  lemma SingleParts(ts: seq<Token>, i: nat)
    requires i < |ts|
    ensures ts == ts[..i] + [ts[i]] + ts[i + 1..]
  {
  }

  lemma SelfDropsSingle(ts: seq<Token>, i: nat, value: Text)
    requires i < |ts| && ts[i].Single?
    ensures Singles(Reduced(ts, i, i, value)) == Singles(ts) - 1
  {
    hide Singles;
    var a, c := ts[..i], ts[i + 1..];
    SingleParts(ts, i);
    SinglesOne(ts[i]);
    SinglesOne(Chars(value));
    SinglesConcat(a + [ts[i]], c);
    SinglesConcat(a, [ts[i]]);
    SinglesConcat(a + [Chars(value)], c);
    SinglesConcat(a, [Chars(value)]);
  }

  /** Rewriting the tag at tokens i to j gives ts': its value in its place, or the same if it is unknown. */
  predicate PassAt(table: Table, ts: seq<Token>, i: nat, j: nat, ts': seq<Token>) {
    && i <= j < |ts| && (ts[i].Open? || ts[i].Single?)
    && (Lower(ts[i].name) in table ==> ts' == Reduced(ts, i, j, ValueAt(table, ts, i, j)))
    && (Lower(ts[i].name) !in table ==> ts' == ts)
  }

  lemma KnownPasses(table: Table, ts: seq<Token>, i: nat, j: nat, ts': seq<Token>)
    requires i <= j < |ts| && (ts[i].Open? || ts[i].Single?) && Lower(ts[i].name) in table
    requires ts' == Reduced(ts, i, j, ValueAt(table, ts, i, j))
    ensures PassAt(table, ts, i, j, ts')
  {
    hide Lower, Flat;
  }

  /** An innermost tag of a zone is known, and resolving it keeps the zone's value. */
  lemma ZonePair(table: Table, z: seq<Token>, value: Text, a: nat) returns (z': seq<Token>)
    requires Means(table, z, value) && a < |z| && Innermost(z[a..])
    ensures PassAt(table, z, a, PairEnd(z, a), z')
    ensures Means(table, z', value) && Tags(z') == Tags(z) - 1 && Singles(z') == Singles(z)
  {
    hide *;
    PairEndIs(z, a);
    var n := 1 + CharsRun(z[a..][1..]);
    InnermostOpen(z, a);
    BehindTag(z[a..]);
    var m := Match(z[a].name, z[a].arg, Flat(z[a..][1..n]), |Flat(z[a..][..n + 1])|);
    LocatedPair(z, a, m);
    z' := Resolve(table, z, value, a, a + n, m);
    LocatedParts(z, a, a + n, m);
    ValueIs(table, z, a, a + n);
    PairKeepsSingles(z, a, table[Lower(m.name)](m.content, m.arg));
    KnownPasses(table, z, a, a + n, z');
  }

  lemma LocatedSelf(ts: seq<Token>, i: nat)
    requires i < |ts| && ts[i].Single?
    ensures Locates(ts, i, i, Match(ts[i].name, ts[i].arg, [], |Flat(ts[i..i + 1])|))
  {
    hide Flat, Innermost, CharsRun;
  }

  lemma ZoneSelf(table: Table, z: seq<Token>, value: Text, a: nat) returns (z': seq<Token>)
    requires Means(table, z, value) && a < |z| && z[a].Single?
    ensures PassAt(table, z, a, a, z')
    ensures Means(table, z', value) && Tags(z') == Tags(z) - 1 && Singles(z') == Singles(z) - 1
  {
    hide *;
    var m := Match(z[a].name, z[a].arg, [], |Flat(z[a..a + 1])|);
    LocatedSelf(z, a);
    z' := Resolve(table, z, value, a, a, m);
    ValueIs(table, z, a, a);
    SelfDropsSingle(z, a, table[Lower(m.name)](m.content, m.arg));
    KnownPasses(table, z, a, a, z');
  }

  // ---------------------------------------------------------------- the first pair of a strip

  predicate HasPair(z: seq<Token>) { !NoPairBefore(z, |z|) }

  lemma {:induction false} LeastPair(z: seq<Token>, n: nat) returns (a: nat)
    requires n <= |z| && !NoPairBefore(z, n)
    ensures a < n && Innermost(z[a..]) && NoPairBefore(z, a)
    decreases n
  {
    hide Innermost;
    if NoPairBefore(z, n - 1) {
      a := n - 1;
    } else {
      a := LeastPair(z, n - 1);
    }
  }

  /** The first leaf has no tag left in its zone. */
  predicate Ready(zs: seq<seq<Token>>, ws: seq<Token>)
    requires |zs| == |ws| + 1
  {
    Leaf(ws) && Tags(zs[1]) == 0
  }

  /** Nowhere a pair: the zones have none, and no leaf is ready. */
  predicate NoPairs(zs: seq<seq<Token>>, ws: seq<Token>)
    requires |zs| == |ws| + 1
  {
    !HasPair(zs[0]) && (ws != [] ==> !Ready(zs, ws) && NoPairs(zs[1..], ws[1..]))
  }

  /** The first pair is a leaf. */
  predicate PairStuck(zs: seq<seq<Token>>, ws: seq<Token>)
    requires |zs| == |ws| + 1
  {
    !HasPair(zs[0]) && ws != [] && (Ready(zs, ws) || PairStuck(zs[1..], ws[1..]))
  }

  /** The first pair is one of a zone, and has been resolved. */
  predicate PairResolved(zs: seq<seq<Token>>, ws: seq<Token>, zs': seq<seq<Token>>)
    requires |zs| == |ws| + 1
  {
    |zs'| == |zs| &&
    if HasPair(zs[0]) then zs'[1..] == zs[1..] && Tags(zs'[0]) == Tags(zs[0]) - 1 && Singles(zs'[0]) == Singles(zs[0])
    else ws != [] && !Ready(zs, ws) && zs'[0] == zs[0] && PairResolved(zs[1..], ws[1..], zs'[1..])
  }

  lemma FrontSlices(z: seq<Token>, rest: seq<Token>, i: nat, j: nat, v: Text)
    requires i <= j < |z|
    ensures (z + rest)[i] == z[i] && (i < j ==> (z + rest)[i + 1..j] == z[i + 1..j])
    ensures Reduced(z + rest, i, j, v) == Reduced(z, i, j, v) + rest
  {
  }

  lemma ReducedFront(table: Table, z: seq<Token>, rest: seq<Token>, i: nat, j: nat, z': seq<Token>)
    requires PassAt(table, z, i, j, z')
    ensures PassAt(table, z + rest, i, j, z' + rest)
  {
    hide Flat, Lower, Reduced;
    FrontSlices(z, rest, i, j, []);
    if Lower(z[i].name) in table {
      FrontSlices(z, rest, i, j, ValueAt(table, z, i, j));
    }
  }

  lemma BackSlices(front: seq<Token>, ts: seq<Token>, i: nat, j: nat, v: Text)
    requires i <= j < |ts|
    ensures var all, n := front + ts, |front|;
      && all[n + i] == ts[i] && (i < j ==> all[n + i + 1..n + j] == ts[i + 1..j])
      && Reduced(all, n + i, n + j, v) == front + Reduced(ts, i, j, v)
  {
    var all, n := front + ts, |front|;
    assert all[..n + i] == front + ts[..i] && all[n + j + 1..] == ts[j + 1..];
  }

  lemma ReducedBack(table: Table, front: seq<Token>, ts: seq<Token>, i: nat, j: nat, ts': seq<Token>)
    requires PassAt(table, ts, i, j, ts')
    ensures PassAt(table, front + ts, |front| + i, |front| + j, front + ts')
  {
    hide Flat, Lower, Reduced;
    BackSlices(front, ts, i, j, []);
    if Lower(ts[i].name) in table {
      BackSlices(front, ts, i, j, ValueAt(table, ts, i, j));
    }
  }

  lemma ShiftedFrom(front: seq<Token>, ts: seq<Token>, k: nat)
    requires k <= |ts|
    ensures (front + ts)[|front| + k..] == ts[k..]
  {
  }

  /** No pair in a zone, none at its wall, none behind: none at all. */
  lemma NoPairShift(table: Table, z: seq<Token>, value: Text, w: Token, all: seq<Token>, i: nat)
    requires Means(table, z, value) && !HasPair(z) && !Innermost([w] + all) && i <= |all| && NoPairBefore(all, i)
    ensures NoPairBefore(z + ([w] + all), |z| + 1 + i)
  {
    hide Means, Innermost;
    var ts := z + ([w] + all);
    forall k | 0 <= k < |z| + 1 + i ensures !Innermost(ts[k..]) {
      if k < |z| {
        InZone(table, z, value, [w] + all, k);
      } else if k == |z| {
        assert ts[k..] == [w] + all;
      } else {
        assert ts[k..] == all[k - |z| - 1..];
      }
    }
  }

  lemma NoPairFront(table: Table, z: seq<Token>, value: Text, rest: seq<Token>, i: nat)
    requires Means(table, z, value) && i <= |z| && NoPairBefore(z, i)
    ensures NoPairBefore(z + rest, i)
  {
    hide Means, Innermost;
    forall k | 0 <= k < i ensures !Innermost((z + rest)[k..]) {
      InZone(table, z, value, rest, k);
    }
  }

  function Rest(zs: seq<seq<Token>>, ws: seq<Token>): seq<Token>
    requires |zs| == |ws| + 1
  {
    if ws == [] then [] else [ws[0]] + Joined(zs[1..], ws[1..])
  }

  lemma JoinedParts(zs: seq<seq<Token>>, ws: seq<Token>)
    requires |zs| == |ws| + 1
    ensures Joined(zs, ws) == zs[0] + Rest(zs, ws)
  {
  }

  lemma ZoneReplaced(table: Table, zs: seq<seq<Token>>, ws: seq<Token>, vs: seq<Text>, z': seq<Token>)
    requires Strip(table, zs, ws, vs) && Means(table, z', vs[0])
    ensures Strip(table, [z'] + zs[1..], ws, vs) && Joined([z'] + zs[1..], ws) == z' + Rest(zs, ws)
  {
    var zs' := [z'] + zs[1..];
    assert zs'[1..] == zs[1..] && forall i | 0 < i < |zs| :: zs'[i] == zs[i];
    hide Means, WallsOk;
  }

  lemma TailReplaced(table: Table, zs: seq<seq<Token>>, ws: seq<Token>, vs: seq<Text>, tail: seq<seq<Token>>)
    requires Strip(table, zs, ws, vs) && ws != [] && Strip(table, tail, ws[1..], vs[1..])
    ensures Strip(table, [zs[0]] + tail, ws, vs) && ([zs[0]] + tail)[1..] == tail
    ensures Joined([zs[0]] + tail, ws) == zs[0] + ([ws[0]] + Joined(tail, ws[1..]))
  {
    var zs' := [zs[0]] + tail;
    assert zs'[1..] == tail;
    forall i | 0 <= i < |zs'| ensures Means(table, zs'[i], vs[i]) {
      if i > 0 { assert Means(table, tail[i - 1], vs[1..][i - 1]); }
    }
    hide Means, WallsOk;
  }

  /** The first innermost tag of ts is at i, and rewriting it gives ts'. */
  predicate FirstAt(table: Table, ts: seq<Token>, i: nat, ts': seq<Token>) {
    i < |ts| && NoPairBefore(ts, i) && Innermost(ts[i..]) && PassAt(table, ts, i, PairEnd(ts, i), ts')
  }

  predicate PairGives(table: Table, ts: seq<Token>, ts': seq<Token>) { exists i | 0 <= i < |ts| :: FirstAt(table, ts, i, ts') }

  lemma FrontFirst(table: Table, z: seq<Token>, value: Text, rest: seq<Token>, i: nat, z': seq<Token>)
    requires Means(table, z, value) && FirstAt(table, z, i, z')
    ensures PairGives(table, z + rest, z' + rest)
  {
    hide Means, Innermost, PassAt, NoPairBefore, CharsRun;
    InZone(table, z, value, rest, i);
    NoPairFront(table, z, value, rest, i);
    ReducedFront(table, z, rest, i, PairEnd(z, i), z');
    assert FirstAt(table, z + rest, i, z' + rest);
  }

  lemma BackFirst(table: Table, z: seq<Token>, value: Text, w: Token, all: seq<Token>, i: nat, all': seq<Token>)
    requires Means(table, z, value) && !HasPair(z) && !Innermost([w] + all) && FirstAt(table, all, i, all')
    ensures PairGives(table, z + ([w] + all), z + ([w] + all'))
  {
    hide Means, Innermost, PassAt, NoPairBefore, CharsRun, HasPair;
    var front, k := z + [w], |z| + 1 + i;
    NoPairShift(table, z, value, w, all, i);
    assert z + ([w] + all) == front + all && z + ([w] + all') == front + all' && |front| == |z| + 1;
    ShiftedFrom(front, all, i);
    ReducedBack(table, front, all, i, PairEnd(all, i), all');
    assert FirstAt(table, front + all, k, front + all');
  }

  lemma WallPasses(table: Table, ts: seq<Token>, i: nat, j: nat)
    requires i <= j < |ts| && ts[i].Open? && Lower(ts[i].name) !in table
    ensures PassAt(table, ts, i, j, ts)
  {
    hide Lower, Flat;
  }

  lemma WallFirst(table: Table, z: seq<Token>, value: Text, w: Token, all: seq<Token>)
    requires Means(table, z, value) && !HasPair(z) && Innermost([w] + all) && w.Open? && Lower(w.name) !in table
    ensures PairGives(table, z + ([w] + all), z + ([w] + all))
  {
    var ts, i := z + ([w] + all), |z|;
    BehindTag([w] + all);
    hide Means, Innermost, PassAt, CharsRun, Lower;
    assert ts[i..] == [w] + all && ts[i] == w;
    NoPairFront(table, z, value, [w] + all, i);
    WallPasses(table, ts, i, PairEnd(ts, i));
    assert FirstAt(table, ts, i, ts);
  }

  lemma PairIn(z: seq<Token>) returns (a: nat)
    requires HasPair(z)
    ensures a < |z| && Innermost(z[a..]) && NoPairBefore(z, a)
  {
    hide NoPairBefore, Innermost;
    a := LeastPair(z, |z|);
  }

  lemma ZoneFirst(table: Table, z: seq<Token>, value: Text) returns (i: nat, z': seq<Token>)
    requires Means(table, z, value) && HasPair(z)
    ensures Means(table, z', value) && Tags(z') == Tags(z) - 1 && Singles(z') == Singles(z) && FirstAt(table, z, i, z')
  {
    hide *;
    i := PairIn(z);
    z' := ZonePair(table, z, value, i);
    FirstIs(table, z, i, z');
  }

  lemma FirstIs(table: Table, ts: seq<Token>, i: nat, ts': seq<Token>)
    requires i < |ts| && NoPairBefore(ts, i) && Innermost(ts[i..]) && PassAt(table, ts, i, PairEnd(ts, i), ts')
    ensures FirstAt(table, ts, i, ts')
  {
  }

  lemma ResolvedHere(zs: seq<seq<Token>>, ws: seq<Token>, z': seq<Token>)
    requires |zs| == |ws| + 1 && HasPair(zs[0]) && Tags(z') == Tags(zs[0]) - 1 && Singles(z') == Singles(zs[0])
    ensures PairResolved(zs, ws, [z'] + zs[1..])
  {
    assert ([z'] + zs[1..])[1..] == zs[1..];
    hide HasPair, Tags, Singles;
  }

  /** The first pair in the strip's first zone is resolved by a pass. */
  lemma PairHere(table: Table, zs: seq<seq<Token>>, ws: seq<Token>, vs: seq<Text>) returns (zs': seq<seq<Token>>)
    requires Strip(table, zs, ws, vs) && HasPair(zs[0])
    ensures Strip(table, zs', ws, vs) && PairResolved(zs, ws, zs') && PairGives(table, Joined(zs, ws), Joined(zs', ws))
  {
    StripTail(table, zs, ws, vs);
    hide *;
    JoinedParts(zs, ws);
    var i, z' := ZoneFirst(table, zs[0], vs[0]);
    FrontFirst(table, zs[0], vs[0], Rest(zs, ws), i, z');
    ZoneReplaced(table, zs, ws, vs, z');
    ResolvedHere(zs, ws, z');
    zs' := [z'] + zs[1..];
  }

  lemma LeafHere(table: Table, zs: seq<seq<Token>>, ws: seq<Token>, vs: seq<Text>)
    requires Strip(table, zs, ws, vs) && !HasPair(zs[0]) && ws != [] && Ready(zs, ws)
    ensures PairGives(table, Joined(zs, ws), Joined(zs, ws))
  {
    StripTail(table, zs, ws, vs);
    assert Leaf(ws) && ws[0].Open?;
    hide Strip, Means, Innermost, Joined, PairGives, Tags, HasPair, Leaf, Lower;
    AtWall(table, zs, ws, vs);
    JoinedCons(zs, ws);
    WallFirst(table, zs[0], vs[0], ws[0], Joined(zs[1..], ws[1..]));
  }

  lemma JoinedCons(zs: seq<seq<Token>>, ws: seq<Token>)
    requires |zs| == |ws| + 1 && ws != []
    ensures Joined(zs, ws) == zs[0] + ([ws[0]] + Joined(zs[1..], ws[1..]))
  {
  }

  lemma PairBehind(table: Table, zs: seq<seq<Token>>, ws: seq<Token>, vs: seq<Text>, tail: seq<seq<Token>>) returns (zs': seq<seq<Token>>)
    requires Strip(table, zs, ws, vs) && !HasPair(zs[0]) && ws != [] && !Ready(zs, ws)
    requires Strip(table, tail, ws[1..], vs[1..]) && PairGives(table, Joined(zs[1..], ws[1..]), Joined(tail, ws[1..]))
    ensures Strip(table, zs', ws, vs) && zs' == [zs[0]] + tail && PairGives(table, Joined(zs, ws), Joined(zs', ws))
  {
    StripTail(table, zs, ws, vs);
    assert !(Leaf(ws) && Tags(zs[1]) == 0);
    var all, all' := Joined(zs[1..], ws[1..]), Joined(tail, ws[1..]);
    var i :| 0 <= i < |all| && FirstAt(table, all, i, all');
    hide Strip, Means, Innermost, Joined, PairGives, Tags, HasPair, Leaf, Lower, FirstAt;
    AtWall(table, zs, ws, vs);
    JoinedCons(zs, ws);
    BackFirst(table, zs[0], vs[0], ws[0], all, i, all');
    TailReplaced(table, zs, ws, vs, tail);
    zs' := [zs[0]] + tail;
  }

  lemma NonePairBehind(table: Table, zs: seq<seq<Token>>, ws: seq<Token>, vs: seq<Text>)
    requires Strip(table, zs, ws, vs) && !HasPair(zs[0]) && ws != [] && !Ready(zs, ws) && !HasPair(Joined(zs[1..], ws[1..]))
    ensures !HasPair(Joined(zs, ws))
  {
    StripTail(table, zs, ws, vs);
    assert !(Leaf(ws) && Tags(zs[1]) == 0);
    var all := Joined(zs[1..], ws[1..]);
    hide Strip, Means, Innermost, Joined, Tags, Leaf, Lower;
    AtWall(table, zs, ws, vs);
    JoinedCons(zs, ws);
    NoPairShift(table, zs[0], vs[0], ws[0], all, |all|);
  }

  /** What PAIRED meets in a pass: nothing, an unknown pair, or a known one that the pass resolves. */
  lemma {:induction false} PairEvent(table: Table, zs: seq<seq<Token>>, ws: seq<Token>, vs: seq<Text>) returns (zs': seq<seq<Token>>)
    requires Strip(table, zs, ws, vs)
    ensures Strip(table, zs', ws, vs)
    ensures
      || (zs' == zs && NoPairs(zs, ws) && !HasPair(Joined(zs, ws)))
      || (zs' == zs && PairStuck(zs, ws) && PairGives(table, Joined(zs, ws), Joined(zs', ws)))
      || (PairResolved(zs, ws, zs') && PairGives(table, Joined(zs, ws), Joined(zs', ws)))
    decreases |zs|
  {
    StripTail(table, zs, ws, vs);
    hide Strip, Means, Joined, PairGives, Ready, HasPair, Tags, Singles;
    if HasPair(zs[0]) {
      zs' := PairHere(table, zs, ws, vs);
    } else if ws == [] {
      zs' := zs;
      JoinedParts(zs, ws);
      assert Rest(zs, ws) == [] && zs[0] + [] == zs[0];
    } else if Ready(zs, ws) {
      zs' := zs;
      LeafHere(table, zs, ws, vs);
    } else {
      var tail := PairEvent(table, zs[1..], ws[1..], vs[1..]);
      if tail == zs[1..] && NoPairs(zs[1..], ws[1..]) && !HasPair(Joined(zs[1..], ws[1..])) {
        zs' := zs;
        NonePairBehind(table, zs, ws, vs);
      } else {
        zs' := PairBehind(table, zs, ws, vs, tail);
        assert zs'[1..] == tail && (tail == zs[1..] ==> zs' == zs);
      }
    }
  }

  // ---------------------------------------------------------------- the first self-closing tag of a strip

  /** The first self-closing tag of ts is at i, and rewriting it gives ts'. */
  predicate SelfAt(table: Table, ts: seq<Token>, i: nat, ts': seq<Token>) {
    i < |ts| && ts[i].Single? && NoSingleBefore(ts, i) && PassAt(table, ts, i, i, ts')
  }

  predicate SelfGives(table: Table, ts: seq<Token>, ts': seq<Token>) { exists i | 0 <= i < |ts| :: SelfAt(table, ts, i, ts') }

  predicate NoSelf(zs: seq<seq<Token>>, ws: seq<Token>)
    requires |zs| == |ws| + 1
  {
    Singles(zs[0]) == 0 && (ws != [] ==> !ws[0].Single? && NoSelf(zs[1..], ws[1..]))
  }

  predicate SelfStuck(zs: seq<seq<Token>>, ws: seq<Token>)
    requires |zs| == |ws| + 1
  {
    Singles(zs[0]) == 0 && ws != [] && (ws[0].Single? || SelfStuck(zs[1..], ws[1..]))
  }

  predicate SelfResolved(zs: seq<seq<Token>>, ws: seq<Token>, zs': seq<seq<Token>>)
    requires |zs| == |ws| + 1
  {
    |zs'| == |zs| &&
    if Singles(zs[0]) > 0 then zs'[1..] == zs[1..] && Tags(zs'[0]) == Tags(zs[0]) - 1 && Singles(zs'[0]) == Singles(zs[0]) - 1
    else ws != [] && !ws[0].Single? && zs'[0] == zs[0] && SelfResolved(zs[1..], ws[1..], zs'[1..])
  }

  lemma {:induction false} LeastSingle(z: seq<Token>) returns (a: nat)
    requires Singles(z) > 0
    ensures a < |z| && z[a].Single? && NoSingleBefore(z, a)
  {
    if z[0].Single? {
      a := 0;
    } else {
      a := LeastSingle(z[1..]);
      assert forall k | 0 < k < a + 1 :: z[k] == z[1..][k - 1];
      a := a + 1;
    }
  }

  lemma SingleFirst(table: Table, z: seq<Token>, value: Text) returns (i: nat, z': seq<Token>)
    requires Means(table, z, value) && Singles(z) > 0
    ensures Means(table, z', value) && Tags(z') == Tags(z) - 1 && Singles(z') == Singles(z) - 1 && SelfAt(table, z, i, z')
  {
    hide Means, Tags, Singles, PassAt;
    i := LeastSingle(z);
    z' := ZoneSelf(table, z, value, i);
  }

  lemma SelfFront(table: Table, z: seq<Token>, rest: seq<Token>, i: nat, z': seq<Token>)
    requires SelfAt(table, z, i, z')
    ensures SelfGives(table, z + rest, z' + rest)
  {
    ReducedFront(table, z, rest, i, i, z');
    hide PassAt;
    assert SelfAt(table, z + rest, i, z' + rest);
  }

  lemma NoSingleShift(z: seq<Token>, w: Token, all: seq<Token>, i: nat)
    requires Singles(z) == 0 && !w.Single? && i <= |all| && NoSingleBefore(all, i)
    ensures NoSingleBefore((z + [w]) + all, |z| + 1 + i)
  {
    forall k | 0 <= k < |z| ensures !z[k].Single? {
      NoSingleAt(z, k);
    }
    hide Singles;
    var ts := (z + [w]) + all;
    forall k | 0 <= k < |z| + 1 + i ensures !ts[k].Single? {
      if k > |z| { assert ts[k] == all[k - |z| - 1]; }
    }
  }

  lemma SelfBack(table: Table, z: seq<Token>, w: Token, all: seq<Token>, i: nat, all': seq<Token>)
    requires Singles(z) == 0 && !w.Single? && SelfAt(table, all, i, all')
    ensures SelfGives(table, z + ([w] + all), z + ([w] + all'))
  {
    hide PassAt, Singles, NoSingleBefore;
    var front := z + [w];
    NoSingleShift(z, w, all, i);
    Assoc(z, [w], all);
    Assoc(z, [w], all');
    ReducedBack(table, front, all, i, i, all');
    assert (front + all)[|front| + i] == all[i] && |front| == |z| + 1;
    assert SelfAt(table, front + all, |front| + i, front + all');
  }

  lemma SelfWall(table: Table, z: seq<Token>, w: Token, all: seq<Token>)
    requires Singles(z) == 0 && w.Single? && Lower(w.name) !in table
    ensures SelfGives(table, z + ([w] + all), z + ([w] + all))
  {
    forall k | 0 <= k < |z| ensures !z[k].Single? {
      NoSingleAt(z, k);
    }
    hide Singles, Lower;
    var ts := z + ([w] + all);
    assert ts[|z|] == w;
    assert SelfAt(table, ts, |z|, ts);
  }

  lemma NoSingles(z: seq<Token>)
    requires Singles(z) == 0
    ensures NoSingleBefore(z, |z|)
  {
    forall k | 0 <= k < |z| ensures !z[k].Single? {
      NoSingleAt(z, k);
    }
  }

  lemma NoSinglesBehind(z: seq<Token>, w: Token, all: seq<Token>)
    requires Singles(z) == 0 && !w.Single? && NoSingleBefore(all, |all|)
    ensures NoSingleBefore(z + ([w] + all), |z + ([w] + all)|)
  {
    NoSingles(z);
    hide Singles;
  }

  lemma SelfResolvedHere(zs: seq<seq<Token>>, ws: seq<Token>, z': seq<Token>)
    requires |zs| == |ws| + 1 && Singles(zs[0]) > 0 && Tags(z') == Tags(zs[0]) - 1 && Singles(z') == Singles(zs[0]) - 1
    ensures SelfResolved(zs, ws, [z'] + zs[1..])
  {
    assert ([z'] + zs[1..])[1..] == zs[1..];
    hide Tags, Singles;
  }

  lemma SelfHere(table: Table, zs: seq<seq<Token>>, ws: seq<Token>, vs: seq<Text>) returns (zs': seq<seq<Token>>)
    requires Strip(table, zs, ws, vs) && Singles(zs[0]) > 0
    ensures Strip(table, zs', ws, vs) && SelfResolved(zs, ws, zs') && SelfGives(table, Joined(zs, ws), Joined(zs', ws))
  {
    StripTail(table, zs, ws, vs);
    hide *;
    JoinedParts(zs, ws);
    var i, z' := SingleFirst(table, zs[0], vs[0]);
    SelfFront(table, zs[0], Rest(zs, ws), i, z');
    ZoneReplaced(table, zs, ws, vs, z');
    SelfResolvedHere(zs, ws, z');
    zs' := [z'] + zs[1..];
  }

  lemma SelfBehind(table: Table, zs: seq<seq<Token>>, ws: seq<Token>, vs: seq<Text>, tail: seq<seq<Token>>) returns (zs': seq<seq<Token>>)
    requires Strip(table, zs, ws, vs) && Singles(zs[0]) == 0 && ws != [] && !ws[0].Single?
    requires Strip(table, tail, ws[1..], vs[1..]) && SelfGives(table, Joined(zs[1..], ws[1..]), Joined(tail, ws[1..]))
    ensures Strip(table, zs', ws, vs) && zs' == [zs[0]] + tail && SelfGives(table, Joined(zs, ws), Joined(zs', ws))
  {
    var all, all' := Joined(zs[1..], ws[1..]), Joined(tail, ws[1..]);
    var i :| 0 <= i < |all| && SelfAt(table, all, i, all');
    hide *;
    JoinedCons(zs, ws);
    SelfBack(table, zs[0], ws[0], all, i, all');
    TailReplaced(table, zs, ws, vs, tail);
    zs' := [zs[0]] + tail;
  }

  /** What SELF meets in a pass: nothing, an unknown tag, or a known one that the pass resolves. */
  lemma {:induction false} SelfEvent(table: Table, zs: seq<seq<Token>>, ws: seq<Token>, vs: seq<Text>) returns (zs': seq<seq<Token>>)
    requires Strip(table, zs, ws, vs)
    ensures Strip(table, zs', ws, vs)
    ensures
      || (zs' == zs && NoSelf(zs, ws) && NoSingleBefore(Joined(zs, ws), |Joined(zs, ws)|))
      || (zs' == zs && SelfStuck(zs, ws) && SelfGives(table, Joined(zs, ws), Joined(zs', ws)))
      || (SelfResolved(zs, ws, zs') && SelfGives(table, Joined(zs, ws), Joined(zs', ws)))
    decreases |zs|
  {
    StripTail(table, zs, ws, vs);
    hide Strip, Means, Joined, SelfGives, NoSingleBefore, Tags, Singles, Lower, Leaf;
    if Singles(zs[0]) > 0 {
      zs' := SelfHere(table, zs, ws, vs);
    } else if ws == [] {
      zs' := zs;
      JoinedParts(zs, ws);
      assert Rest(zs, ws) == [] && zs[0] + [] == zs[0];
      NoSingles(zs[0]);
    } else if ws[0].Single? {
      zs' := zs;
      JoinedCons(zs, ws);
      SelfWall(table, zs[0], ws[0], Joined(zs[1..], ws[1..]));
    } else {
      var tail := SelfEvent(table, zs[1..], ws[1..], vs[1..]);
      var all := Joined(zs[1..], ws[1..]);
      if tail == zs[1..] && NoSelf(zs[1..], ws[1..]) && NoSingleBefore(all, |all|) {
        zs' := zs;
        JoinedCons(zs, ws);
        NoSinglesBehind(zs[0], ws[0], all);
      } else {
        zs' := SelfBehind(table, zs, ws, vs, tail);
        assert zs'[1..] == tail && (tail == zs[1..] ==> zs' == zs);
      }
    }
  }

  // ---------------------------------------------------------------- what a pass does to the condition

  /** A zone without pairs and self-closing tags has no tags at all. */
  predicate Sound(zs: seq<seq<Token>>) {
    zs != [] ==>
      && (!HasPair(zs[0]) && Singles(zs[0]) == 0 ==> Tags(zs[0]) == 0) && Singles(zs[0]) <= Tags(zs[0])
      && Sound(zs[1..])
  }

  lemma {:induction false} ZonesSound(table: Table, zs: seq<seq<Token>>, vs: seq<Text>)
    requires ZonesOk(table, zs, vs)
    ensures Sound(zs)
  {
    hide Means, HasPair, Tags, Singles;
    if zs != [] {
      assert Means(table, zs[0], vs[0]);
      SinglesAreTags(zs[0]);
      if !HasPair(zs[0]) { NoPairTags(table, zs[0], vs[0]); }
      forall i | 0 <= i < |zs[1..]| ensures Means(table, zs[1..][i], vs[1..][i]) {
        assert Means(table, zs[i + 1], vs[i + 1]);
      }
      ZonesSound(table, zs[1..], vs[1..]);
    }
  }

  lemma NoPairTags(table: Table, z: seq<Token>, value: Text)
    requires Means(table, z, value) && !HasPair(z)
    ensures Singles(z) == 0 ==> Tags(z) == 0
  {
    assert NoPairBefore(z, |z|);
    NothingFound(table, z, value);
  }

  predicate SameSingles(zs: seq<seq<Token>>, zs': seq<seq<Token>>) {
    |zs| == |zs'| && (zs != [] ==> Singles(zs'[0]) == Singles(zs[0]) && SameSingles(zs[1..], zs'[1..]))
  }

  lemma {:induction false} SameSinglesSelf(zs: seq<seq<Token>>)
    ensures SameSingles(zs, zs)
  {
    hide Singles;
    if zs != [] { SameSinglesSelf(zs[1..]); }
  }

  lemma {:induction false} SameSinglesIn(zs: seq<seq<Token>>, zs': seq<seq<Token>>)
    requires SameSingles(zs, zs')
    ensures SinglesIn(zs') == SinglesIn(zs)
  {
    hide Singles;
    if zs != [] { SameSinglesIn(zs[1..], zs'[1..]); }
  }

  lemma {:induction false} SameBlocker(zs: seq<seq<Token>>, ws: seq<Token>, zs': seq<seq<Token>>)
    requires |zs| == |ws| + 1 && SameSingles(zs, zs')
    ensures FirstBlockerOk(zs, ws) <==> FirstBlockerOk(zs', ws)
  {
    hide Singles, Leaf, NoLeaf;
    if ws != [] {
      SameSinglesIn(zs[1..], zs'[1..]);
      assert SameSingles(zs[1..], zs'[1..]);
      if |ws| > 1 {
        assert zs[1..][1..] == zs[2..] && zs'[1..][1..] == zs'[2..];
        SameSinglesIn(zs[2..], zs'[2..]);
      } else {
        LeafNeedsTwo(ws);
      }
      SameBlocker(zs[1..], ws[1..], zs'[1..]);
    }
  }

  lemma LeafNeedsTwo(ws: seq<Token>)
    ensures Leaf(ws) ==> |ws| > 1 && ws[0].Open? && ws[1].Close? && !Leaf(ws[1..])
  {
  }

  lemma {:induction false} PairResolvedSingles(zs: seq<seq<Token>>, ws: seq<Token>, zs': seq<seq<Token>>)
    requires |zs| == |ws| + 1 && PairResolved(zs, ws, zs')
    ensures SameSingles(zs, zs') && TagsIn(zs') == TagsIn(zs) - 1
  {
    hide Singles, Tags, Ready, HasPair;
    if HasPair(zs[0]) {
      SameSinglesSelf(zs[1..]);
    } else {
      PairResolvedSingles(zs[1..], ws[1..], zs'[1..]);
    }
  }

  lemma {:induction false} PairResolvedBehind(zs: seq<seq<Token>>, ws: seq<Token>, zs': seq<seq<Token>>)
    requires |zs| == |ws| + 1 && PairResolved(zs, ws, zs') && Sound(zs) && SinglesIn(zs) == 0
    ensures NothingBehind(zs, ws) <==> NothingBehind(zs', ws)
  {
    hide Singles, Tags, HasPair, Leaf;
    LeafNeedsTwo(ws);
    if HasPair(zs[0]) {
      if ws != [] {
        assert zs'[1..] == zs[1..];
        if |ws| > 1 { assert zs[2..] == zs[1..][1..] && zs'[2..] == zs'[1..][1..]; }
      }
    } else if Leaf(ws) {
      assert zs[1] == zs[1..][0] && HasPair(zs[1..][0]);
      assert zs[2..] == zs[1..][1..] && zs'[2..] == zs'[1..][1..];
    } else {
      PairResolvedBehind(zs[1..], ws[1..], zs'[1..]);
    }
  }

  lemma PairResolvedClears(zs: seq<seq<Token>>, ws: seq<Token>, zs': seq<seq<Token>>)
    requires |zs| == |ws| + 1 && PairResolved(zs, ws, zs') && Sound(zs)
    ensures TagsIn(zs') == TagsIn(zs) - 1 && (Clears(zs, ws) <==> Clears(zs', ws))
  {
    PairResolvedSingles(zs, ws, zs');
    SameSinglesIn(zs, zs');
    SameBlocker(zs, ws, zs');
    if SinglesIn(zs) == 0 { PairResolvedBehind(zs, ws, zs'); }
    hide TagsIn, SinglesIn, PairResolved, Sound, FirstBlockerOk, NothingBehind;
  }

  lemma {:induction false} StuckHasLeaf(zs: seq<seq<Token>>, ws: seq<Token>)
    requires |zs| == |ws| + 1 && PairStuck(zs, ws)
    ensures !NoLeaf(ws)
  {
    hide Tags, HasPair, Leaf;
    if !Ready(zs, ws) { StuckHasLeaf(zs[1..], ws[1..]); }
  }

  lemma {:induction false} StuckBlocks(zs: seq<seq<Token>>, ws: seq<Token>)
    requires |zs| == |ws| + 1 && PairStuck(zs, ws) && Sound(zs)
    ensures !FirstBlockerOk(zs, ws)
  {
    hide Tags, Singles, HasPair, Leaf, NoLeaf;
    LeafNeedsTwo(ws);
    if Ready(zs, ws) {
      assert zs[1] == zs[1..][0];
    } else {
      StuckHasLeaf(zs[1..], ws[1..]);
      StuckBlocks(zs[1..], ws[1..]);
      if Leaf(ws) {
        assert zs[1..][1..] == zs[2..] && ws[1..][1..] == ws[2..];
        StuckHasLeaf(zs[2..], ws[2..]);
      }
    }
  }

  lemma {:induction false} StuckTags(zs: seq<seq<Token>>, ws: seq<Token>)
    requires |zs| == |ws| + 1 && PairStuck(zs, ws) && Sound(zs) && SinglesIn(zs) == 0 && NothingBehind(zs, ws)
    ensures TagsIn(zs) == 0
  {
    hide Tags, Singles, HasPair, Leaf;
    LeafNeedsTwo(ws);
    if Ready(zs, ws) {
      assert zs[1..] == [zs[1]] + zs[2..] && zs[1..][1..] == zs[2..];
    } else {
      StuckTags(zs[1..], ws[1..]);
    }
  }

  /** Without pairs and self-closing tags there is nothing, and no leaf. */
  lemma {:induction false} NothingLeft(zs: seq<seq<Token>>, ws: seq<Token>)
    requires |zs| == |ws| + 1 && NoPairs(zs, ws) && Sound(zs) && SinglesIn(zs) == 0
    ensures TagsIn(zs) == 0 && NoLeaf(ws)
  {
    hide Tags, Singles, HasPair, Leaf;
    LeafNeedsTwo(ws);
    if ws != [] {
      NothingLeft(zs[1..], ws[1..]);
      assert zs[1] == zs[1..][0];
    }
  }

  lemma {:induction false} NoLeafClears(zs: seq<seq<Token>>, ws: seq<Token>)
    requires |zs| == |ws| + 1 && NoLeaf(ws)
    ensures NothingBehind(zs, ws) && (ws != [] && SinglesIn(zs[1..]) == 0 ==> FirstBlockerOk(zs, ws))
  {
    hide Singles, Tags, Leaf;
    if ws != [] {
      NoLeafClears(zs[1..], ws[1..]);
    }
  }

  lemma {:induction false} SelfResolvedTags(zs: seq<seq<Token>>, ws: seq<Token>, zs': seq<seq<Token>>)
    requires |zs| == |ws| + 1 && SelfResolved(zs, ws, zs')
    ensures TagsIn(zs') == TagsIn(zs) - 1 && SinglesIn(zs') == SinglesIn(zs) - 1
  {
    hide Singles, Tags;
    if Singles(zs[0]) == 0 {
      SelfResolvedTags(zs[1..], ws[1..], zs'[1..]);
    }
  }

  /** The first self-closing tag stands in the first zone. */
  lemma ClearsHere(zs: seq<seq<Token>>, ws: seq<Token>, zs': seq<seq<Token>>)
    requires |zs| == |ws| + 1 == |zs'| && NoPairs(zs, ws) && Sound(zs) && Singles(zs[0]) > 0 && zs'[1..] == zs[1..]
    ensures Clears(zs, ws) <==> Clears(zs', ws)
  {
    hide Singles, Tags, HasPair, Leaf;
    LeafNeedsTwo(ws);
    if ws != [] {
      assert zs'[1] == zs'[1..][0] && zs[1] == zs[1..][0];
      assert |ws| > 1 ==> zs[2..] == zs[1..][1..] && zs'[2..] == zs'[1..][1..];
      if SinglesIn(zs[1..]) == 0 {
        NothingLeft(zs[1..], ws[1..]);
        NoLeafClears(zs, ws);
        NoLeafClears(zs', ws);
      }
    }
  }

  lemma TwoZones(zs: seq<seq<Token>>)
    requires |zs| > 1
    ensures SinglesIn(zs) == Singles(zs[0]) + Singles(zs[1]) + SinglesIn(zs[2..])
  {
    assert zs[1..][0] == zs[1] && zs[1..][1..] == zs[2..];
    hide Singles;
  }

  /** The first self-closing tag stands in the zone of a leaf. */
  lemma ClearsInLeaf(zs: seq<seq<Token>>, ws: seq<Token>, zs': seq<seq<Token>>)
    requires |zs| == |ws| + 1 == |zs'| && NoPairs(zs, ws) && Sound(zs) && Leaf(ws) && zs'[0] == zs[0] && Singles(zs[0]) == 0
    requires Singles(zs[1]) > 0 && Singles(zs'[1]) == Singles(zs[1]) - 1 && zs'[2..] == zs[2..]
    ensures Clears(zs, ws) <==> Clears(zs', ws)
  {
    hide Singles, Tags, HasPair, Leaf;
    LeafNeedsTwo(ws);
    TwoZones(zs);
    TwoZones(zs');
    assert zs[1..][0] == zs[1] && zs[1..][1..] == zs[2..] && ws[1..][1..] == ws[2..];
    if SinglesIn(zs[2..]) == 0 {
      NothingLeft(zs[2..], ws[2..]);
    }
  }

  lemma {:induction false} SelfResolvedClears(zs: seq<seq<Token>>, ws: seq<Token>, zs': seq<seq<Token>>)
    requires |zs| == |ws| + 1 && SelfResolved(zs, ws, zs') && NoPairs(zs, ws) && Sound(zs)
    ensures Clears(zs, ws) <==> Clears(zs', ws)
  {
    hide Singles, Tags, HasPair, Leaf, Clears;
    LeafNeedsTwo(ws);
    if Singles(zs[0]) > 0 {
      ClearsHere(zs, ws, zs');
    } else if Leaf(ws) {
      assert zs[1] == zs[1..][0] && zs'[1] == zs'[1..][0];
      assert zs'[2..] == zs'[1..][1..] && zs[2..] == zs[1..][1..];
      ClearsInLeaf(zs, ws, zs');
    } else {
      SelfResolvedClears(zs[1..], ws[1..], zs'[1..]);
      ClearsTail(zs, ws);
      ClearsTail(zs', ws);
    }
  }

  lemma ClearsTail(zs: seq<seq<Token>>, ws: seq<Token>)
    requires |zs| == |ws| + 1 && ws != [] && Singles(zs[0]) == 0 && !ws[0].Single? && !Leaf(ws)
    ensures Clears(zs, ws) <==> Clears(zs[1..], ws[1..])
  {
    hide Singles, Leaf;
  }

  lemma {:induction false} SelfStuckBlocks(zs: seq<seq<Token>>, ws: seq<Token>)
    requires |zs| == |ws| + 1 && SelfStuck(zs, ws) && NoPairs(zs, ws) && Sound(zs) && SinglesIn(zs) > 0
    ensures !FirstBlockerOk(zs, ws)
  {
    hide Singles, Tags, HasPair, Leaf, NoLeaf;
    LeafNeedsTwo(ws);
    if !ws[0].Single? {
      assert zs[1] == zs[1..][0];
      SelfStuckBlocks(zs[1..], ws[1..]);
    }
  }

  lemma {:induction false} NoSelfIn(zs: seq<seq<Token>>, ws: seq<Token>)
    requires |zs| == |ws| + 1 && NoSelf(zs, ws)
    ensures SinglesIn(zs) == 0
  {
    hide Singles;
    if ws != [] { NoSelfIn(zs[1..], ws[1..]); }
  }

  lemma {:induction false} NoTagsClears(zs: seq<seq<Token>>, ws: seq<Token>)
    requires |zs| == |ws| + 1 && TagsIn(zs) == 0 && Sound(zs)
    ensures Clears(zs, ws)
  {
    hide Singles, Tags, HasPair, Leaf;
    LeafNeedsTwo(ws);
    assert TagsIn(zs[1..]) == 0;
    if |zs| > 2 { assert zs[1..][1..] == zs[2..]; }
    if ws != [] {
      NoTagsClears(zs[1..], ws[1..]);
      NoTagsNoSingles(zs[1..]);
    }
  }

  lemma {:induction false} NoTagsNoSingles(zs: seq<seq<Token>>)
    requires TagsIn(zs) == 0 && Sound(zs)
    ensures SinglesIn(zs) == 0
  {
    hide Singles, Tags, HasPair;
    if zs != [] { NoTagsNoSingles(zs[1..]); }
  }

  // ---------------------------------------------------------------- passes over a strip

  lemma PassIs(table: Table, ts: seq<Token>, i: nat, j: nat, ts': seq<Token>)
    requires PassAt(table, ts, i, j, ts')
    ensures i <= j < |ts| && (ts[i].Open? || ts[i].Single?)
    ensures Flat(ts') == if Lower(ts[i].name) in table then Flat(Reduced(ts, i, j, ValueAt(table, ts, i, j))) else Flat(ts)
  {
    hide Flat, Lower, ValueAt, Reduced;
  }

  lemma FirstPass(table: Table, ts: seq<Token>, i: nat, ts': seq<Token>)
    requires AllGood(ts) && FirstAt(table, ts, i, ts')
    ensures Pass(table, Flat(ts)) == Some(Flat(ts'))
  {
    var j := PairEnd(ts, i);
    assert i < |ts| && NoPairBefore(ts, i) && Innermost(ts[i..]) && PassAt(table, ts, i, j, ts');
    hide *;
    PassIs(table, ts, i, j, ts');
    PairPass(table, ts, i);
  }

  lemma PairGivesPass(table: Table, ts: seq<Token>, ts': seq<Token>)
    requires AllGood(ts) && PairGives(table, ts, ts')
    ensures Pass(table, Flat(ts)) == Some(Flat(ts'))
  {
    var i :| 0 <= i < |ts| && FirstAt(table, ts, i, ts');
    hide *;
    FirstPass(table, ts, i, ts');
  }

  lemma SelfGivesPass(table: Table, ts: seq<Token>, ts': seq<Token>)
    requires AllGood(ts) && SelfGives(table, ts, ts') && !HasPair(ts)
    ensures Pass(table, Flat(ts)) == Some(Flat(ts'))
  {
    var i :| 0 <= i < |ts| && SelfAt(table, ts, i, ts');
    hide NoPairBefore, Flat, Lower, Pass, AllGood;
    SelfPass(table, ts, i);
  }

  /** What a pass left: one known tag fewer and the same condition, or nothing changed, and then, if the condition
      holds, no known tag is left. */
  predicate Passed(zs: seq<seq<Token>>, ws: seq<Token>, zs': seq<seq<Token>>)
    requires |zs| == |ws| + 1
  {
    || (|zs'| == |zs| && TagsIn(zs') == TagsIn(zs) - 1 && (Clears(zs, ws) <==> Clears(zs', ws)))
    || (zs' == zs && (Clears(zs, ws) ==> TagsIn(zs) == 0))
  }

  lemma PairStuckPassed(zs: seq<seq<Token>>, ws: seq<Token>)
    requires |zs| == |ws| + 1 && PairStuck(zs, ws) && Sound(zs)
    ensures Passed(zs, ws, zs)
  {
    hide PairStuck, Sound, TagsIn, SinglesIn, FirstBlockerOk, NothingBehind;
    if Clears(zs, ws) {
      StuckBlocks(zs, ws);
      StuckTags(zs, ws);
    }
  }

  lemma SelfStuckPassed(zs: seq<seq<Token>>, ws: seq<Token>)
    requires |zs| == |ws| + 1 && SelfStuck(zs, ws) && NoPairs(zs, ws) && Sound(zs)
    ensures Passed(zs, ws, zs)
  {
    hide SelfStuck, NoPairs, Sound, TagsIn, SinglesIn, FirstBlockerOk, NothingBehind;
    if SinglesIn(zs) == 0 {
      NothingLeft(zs, ws);
    } else {
      SelfStuckBlocks(zs, ws);
    }
  }

  /** One pass over the strip's text. */
  lemma StripPass(table: Table, zs: seq<seq<Token>>, ws: seq<Token>, vs: seq<Text>) returns (zs': seq<seq<Token>>)
    requires Strip(table, zs, ws, vs)
    ensures Strip(table, zs', ws, vs) && Passed(zs, ws, zs')
    ensures var r := Pass(table, Flat(Joined(zs, ws))); r == Some(Flat(Joined(zs', ws))) || (r.None? && zs' == zs)
  {
    assert ZonesOk(table, zs, vs) && |zs| == |ws| + 1;
    JoinedGood(table, zs, ws, vs);
    ZonesSound(table, zs, vs);
    hide *;
    zs' := PairEvent(table, zs, ws, vs);
    if zs' == zs && NoPairs(zs, ws) && !HasPair(Joined(zs, ws)) {
      zs' := QuietPass(table, zs, ws, vs);
    } else {
      PairGivesPass(table, Joined(zs, ws), Joined(zs', ws));
      if zs' == zs && PairStuck(zs, ws) {
        PairStuckPassed(zs, ws);
      } else {
        PairResolvedPassed(zs, ws, zs');
      }
    }
  }

  lemma PairResolvedPassed(zs: seq<seq<Token>>, ws: seq<Token>, zs': seq<seq<Token>>)
    requires |zs| == |ws| + 1 && PairResolved(zs, ws, zs') && Sound(zs)
    ensures Passed(zs, ws, zs')
  {
    PairResolvedClears(zs, ws, zs');
    hide Clears, TagsIn, Sound;
  }

  lemma SelfResolvedPassed(zs: seq<seq<Token>>, ws: seq<Token>, zs': seq<seq<Token>>)
    requires |zs| == |ws| + 1 && SelfResolved(zs, ws, zs') && NoPairs(zs, ws) && Sound(zs)
    ensures Passed(zs, ws, zs')
  {
    SelfResolvedClears(zs, ws, zs');
    SelfResolvedTags(zs, ws, zs');
    hide Clears, TagsIn, Sound, NoPairs;
  }

  lemma QuietPassed(zs: seq<seq<Token>>, ws: seq<Token>)
    requires |zs| == |ws| + 1 && NoSelf(zs, ws) && NoPairs(zs, ws) && Sound(zs)
    ensures Passed(zs, ws, zs)
  {
    NoSelfIn(zs, ws);
    NothingLeft(zs, ws);
    hide Clears, TagsIn, Sound, NoPairs, NoSelf;
  }

  lemma QuietPass(table: Table, zs: seq<seq<Token>>, ws: seq<Token>, vs: seq<Text>) returns (zs': seq<seq<Token>>)
    requires Strip(table, zs, ws, vs) && NoPairs(zs, ws) && Sound(zs) && !HasPair(Joined(zs, ws)) && AllGood(Joined(zs, ws))
    ensures Strip(table, zs', ws, vs) && Passed(zs, ws, zs')
    ensures var r := Pass(table, Flat(Joined(zs, ws))); r == Some(Flat(Joined(zs', ws))) || (r.None? && zs' == zs)
  {
    var ts := Joined(zs, ws);
    assert NoPairBefore(ts, |ts|);
    hide *;
    zs' := SelfEvent(table, zs, ws, vs);
    if zs' == zs && NoSelf(zs, ws) && NoSingleBefore(ts, |ts|) {
      NoPass(table, ts);
      QuietPassed(zs, ws);
    } else {
      SelfGivesPass(table, ts, Joined(zs', ws));
      if zs' == zs && SelfStuck(zs, ws) {
        SelfStuckPassed(zs, ws);
      } else {
        SelfResolvedPassed(zs, ws, zs');
      }
    }
  }

  lemma CountDown(zs: seq<seq<Token>>, ws: seq<Token>, next: seq<seq<Token>>, n: nat)
    requires |zs| == |ws| + 1 == |next| && Passed(zs, ws, next) && n > 0
    ensures Clears(next, ws) && TagsIn(next) <= n - 1 <==> Clears(zs, ws) && TagsIn(zs) <= n
    ensures next == zs ==> (Clears(zs, ws) ==> TagsIn(zs) == 0)
  {
    hide Clears, TagsIn;
  }

  lemma StripSound(table: Table, zs: seq<seq<Token>>, ws: seq<Token>, vs: seq<Text>)
    requires Strip(table, zs, ws, vs)
    ensures |zs| == |ws| + 1 && Sound(zs)
  {
    ZonesSound(table, zs, vs);
    hide ZonesOk, Sound, WallsOk;
  }

  /** After n passes the strip has become zs', which has no known tag left exactly if the condition holds for zs
      and there are no more than n. */
  predicate Settles(table: Table, zs: seq<seq<Token>>, ws: seq<Token>, vs: seq<Text>, n: nat, zs': seq<seq<Token>>) {
    && |zs| == |ws| + 1 && Strip(table, zs', ws, vs) && Passes(table, Flat(Joined(zs, ws)), n) == Flat(Joined(zs', ws))
    && (TagsIn(zs') == 0 <==> Clears(zs, ws) && TagsIn(zs) <= n)
  }

  /** No pass is left, or there is nothing to match. */
  lemma SettlesNow(table: Table, zs: seq<seq<Token>>, ws: seq<Token>, vs: seq<Text>, n: nat)
    requires Strip(table, zs, ws, vs) && |zs| == |ws| + 1 && Sound(zs)
    requires n == 0 || (Pass(table, Flat(Joined(zs, ws))).None? && (Clears(zs, ws) ==> TagsIn(zs) == 0))
    ensures Settles(table, zs, ws, vs, n, zs)
  {
    hide Strip, Clears, TagsIn, Sound, Joined, Flat, Pass, Passes;
    if TagsIn(zs) == 0 { NoTagsClears(zs, ws); }
    PassesUnfold(table, Flat(Joined(zs, ws)), n);
  }

  lemma SettlesLater(table: Table, zs: seq<seq<Token>>, ws: seq<Token>, vs: seq<Text>, n: nat, next: seq<seq<Token>>, zs': seq<seq<Token>>)
    requires |zs| == |ws| + 1 == |next| && n > 0 && Passed(zs, ws, next)
    requires Pass(table, Flat(Joined(zs, ws))) == Some(Flat(Joined(next, ws))) && Settles(table, next, ws, vs, n - 1, zs')
    ensures Settles(table, zs, ws, vs, n, zs')
  {
    hide Strip, Clears, TagsIn, Joined, Flat, Pass, Passes, Passed;
    CountDown(zs, ws, next, n);
    PassesUnfold(table, Flat(Joined(zs, ws)), n);
  }

  /** A pass changes the strip's text, or there is none, and then nothing known is left if the condition holds. */
  lemma StripTurn(table: Table, zs: seq<seq<Token>>, ws: seq<Token>, vs: seq<Text>) returns (more: bool, next: seq<seq<Token>>)
    requires Strip(table, zs, ws, vs) && |zs| == |ws| + 1
    ensures |next| == |zs| && Strip(table, next, ws, vs)
    ensures more ==> Pass(table, Flat(Joined(zs, ws))) == Some(Flat(Joined(next, ws))) && Passed(zs, ws, next)
    ensures !more ==> Pass(table, Flat(Joined(zs, ws))).None? && (Clears(zs, ws) ==> TagsIn(zs) == 0)
  {
    hide *;
    next := StripPass(table, zs, ws, vs);
    StripSound(table, next, ws, vs);
    more := Pass(table, Flat(Joined(zs, ws))).Some?;
    CountDown(zs, ws, next, 1);
  }

  lemma {:induction false} StripPasses(table: Table, zs: seq<seq<Token>>, ws: seq<Token>, vs: seq<Text>, n: nat) returns (zs': seq<seq<Token>>)
    requires Strip(table, zs, ws, vs)
    ensures Settles(table, zs, ws, vs, n, zs')
    decreases n
  {
    hide *;
    StripSound(table, zs, ws, vs);
    var more, next := false, zs;
    if n > 0 {
      more, next := StripTurn(table, zs, ws, vs);
    }
    zs' := zs;
    if more {
      zs' := StripPasses(table, next, ws, vs, n - 1);
      SettlesLater(table, zs, ws, vs, n, next, zs');
    } else {
      SettlesNow(table, zs, ws, vs, n);
    }
  }

  // ---------------------------------------------------------------- the text a strip ends with

  function Angles(t: Text): nat { if t == [] then 0 else (if t[0] == LT then 1 else 0) + Angles(t[1..]) }

  lemma {:induction false} AnglesConcat(a: Text, b: Text)
    ensures Angles(a + b) == Angles(a) + Angles(b)
  {
    if a == [] {
      assert a + b == b;
    } else {
      assert (a + b)[1..] == a[1..] + b;
      AnglesConcat(a[1..], b);
    }
  }

  lemma {:induction false} PlainAngles(t: Text)
    requires Plain(t)
    ensures Angles(t) == 0
  {
    if t != [] {
      PlainAngles(t[1..]);
    }
  }

  /** There are at least as many `<` as tags. */
  lemma {:induction false} TagAngles(ts: seq<Token>)
    ensures Angles(Flat(ts)) >= Tags(ts)
  {
    if ts != [] {
      TagAngles(ts[1..]);
      AnglesConcat(Spell(ts[0]), Flat(ts[1..]));
      assert ts[0].Open? || ts[0].Single? ==> Spell(ts[0])[0] == LT;
      hide Spell, Flat, Tags;
    }
  }

  /** The values of the zones with the walls between them. */
  function Final(vs: seq<Text>, ws: seq<Token>): Text
    requires |vs| == |ws| + 1
  {
    if ws == [] then vs[0] else vs[0] + (Spell(ws[0]) + Final(vs[1..], ws[1..]))
  }

  predicate AllPlain(vs: seq<Text>) { forall i | 0 <= i < |vs| :: Plain(vs[i]) }

  lemma JoinedText(zs: seq<seq<Token>>, ws: seq<Token>)
    requires |zs| == |ws| + 1
    ensures Flat(Joined(zs, ws)) == if ws == [] then Flat(zs[0]) else Flat(zs[0]) + (Spell(ws[0]) + Flat(Joined(zs[1..], ws[1..])))
  {
    hide Flat, Spell;
    if ws != [] {
      var all := Joined(zs[1..], ws[1..]);
      FlatConcat(zs[0], [ws[0]] + all);
      FlatConcat([ws[0]], all);
      FlatOne(ws[0]);
    }
  }

  lemma PlainTail(vs: seq<Text>)
    requires AllPlain(vs) && vs != []
    ensures Plain(vs[0]) && AllPlain(vs[1..])
  {
    hide Plain;
  }

  lemma {:induction false} FinalAngles(table: Table, zs: seq<seq<Token>>, ws: seq<Token>, vs: seq<Text>)
    requires Strip(table, zs, ws, vs) && AllPlain(vs)
    ensures Angles(Flat(Joined(zs, ws))) >= TagsIn(zs) + Angles(Final(vs, ws))
    decreases |ws|
  {
    StripTail(table, zs, ws, vs);
    PlainTail(vs);
    hide Flat, Spell, Angles, Strip, Means, Joined, Tags, Plain, Leaf, Lower;
    JoinedText(zs, ws);
    TagAngles(zs[0]);
    PlainAngles(vs[0]);
    if ws != [] {
      FinalAngles(table, zs[1..], ws[1..], vs[1..]);
      AnglesConcat(Flat(zs[0]), Spell(ws[0]) + Flat(Joined(zs[1..], ws[1..])));
      AnglesConcat(Spell(ws[0]), Flat(Joined(zs[1..], ws[1..])));
      AnglesConcat(vs[0], Spell(ws[0]) + Final(vs[1..], ws[1..]));
      AnglesConcat(Spell(ws[0]), Final(vs[1..], ws[1..]));
    } else {
      assert zs[1..] == [];
    }
  }

  lemma {:induction false} FinalReached(table: Table, zs: seq<seq<Token>>, ws: seq<Token>, vs: seq<Text>)
    requires Strip(table, zs, ws, vs) && TagsIn(zs) == 0
    ensures Flat(Joined(zs, ws)) == Final(vs, ws)
    decreases |ws|
  {
    StripTail(table, zs, ws, vs);
    hide Flat, Spell, Strip, Means, Joined, Tags, Leaf, Lower;
    JoinedText(zs, ws);
    NoTagsValue(table, zs[0], vs[0]);
    if ws != [] {
      FinalReached(table, zs[1..], ws[1..], vs[1..]);
    }
  }

  /** The loop turns the strip's text into the values of its zones, with the walls between them, exactly if the
      condition holds and there are no more known tags than passes. */
  lemma StripEnds(table: Table, zs: seq<seq<Token>>, ws: seq<Token>, vs: seq<Text>, n: nat)
    requires Strip(table, zs, ws, vs) && AllPlain(vs)
    ensures |zs| == |ws| + 1 == |vs|
    ensures Passes(table, Flat(Joined(zs, ws)), n) == Final(vs, ws) <==> Clears(zs, ws) && TagsIn(zs) <= n
  {
    StripTail(table, zs, ws, vs);
    var zs' := StripPasses(table, zs, ws, vs, n);
    hide Flat, Joined, Passes, Clears, TagsIn, Strip, AllPlain;
    if TagsIn(zs') == 0 {
      FinalReached(table, zs', ws, vs);
    } else {
      FinalAngles(table, zs', ws, vs);
    }
  }
}
