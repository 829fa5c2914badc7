/**
 * The rewriting loop of extensions/taffy.js: the two regular expressions as a matcher, one pass,
 * and the loop over at most 200 passes.
 */
module TagRewriting {
  import opened Basics
  import opened Text

  const LT: Unit := 0x3c
  const GT: Unit := 0x3e
  const AT: Unit := 0x40
  const SLASH: Unit := 0x2f
  const LPAREN: Unit := 0x28
  const RPAREN: Unit := 0x29

  /** [a-z0-9_] under the i flag. */
  predicate IsName(c: Unit) {
    || 'a' as int <= c <= 'z' as int || 'A' as int <= c <= 'Z' as int
    || '0' as int <= c <= '9' as int || c == '_' as int
  }

  function NameLength(s: Text): (n: nat)
    ensures n <= |s| && (forall i | 0 <= i < n :: IsName(s[i])) && (n < |s| ==> !IsName(s[n]))
  {
    if s != [] && IsName(s[0]) then 1 + NameLength(s[1..]) else 0
  }

  /** `<@name` with an optional `(argument)`, and what follows. */
  datatype Head = Head(name: Text, arg: Option<Text>, rest: Text)

  function ParseHead(s: Text): (r: Option<Head>)
    ensures r.Some? ==> s != [] && s[0] == LT && |r.value.name| + |r.value.rest| + 2 <= |s| && r.value.name != []
  {
    if |s| < 2 || s[0] != LT || s[1] != AT then None
    else
      var n := NameLength(s[2..]);
      var name, rest := s[2..2 + n], s[2 + n..];
      if n == 0 then None
      else if rest == [] || rest[0] != LPAREN then Some(Head(name, None, rest))
      else
        var k := IndexOf(rest[1..], RPAREN);
        if k == |rest| - 1 then None
        else Some(Head(name, Some(rest[1..1 + k]), rest[k + 2..]))
  }

  predicate TagAt(s: Text, i: nat) {
    i + 1 < |s| && s[i] == LT && s[i + 1] == AT
  }

  /** Position of the first `<@`, or |s|. */
  function FirstTag(s: Text): (k: nat)
    ensures k <= |s| && (k < |s| ==> TagAt(s, k)) && forall i | 0 <= i < k :: !TagAt(s, i)
  {
    if s == [] || TagAt(s, 0) then 0
    else
      assert forall i | 1 <= i < |s| :: TagAt(s, i) == TagAt(s[1..], i - 1);
      1 + FirstTag(s[1..])
  }

  datatype Match = Match(name: Text, arg: Option<Text>, content: Text, length: nat)

  /** `<@/\1>`: the closing tag of `name`, in either case; `s` starts with `<@` if it has two units. */
  predicate ClosesAt(s: Text, name: Text) {
    var n := |name|;
    |s| >= n + 4 && s[2] == SLASH && Lower(s[3..n + 3]) == Lower(name) && s[n + 3] == GT
  }

  /** PAIRED, anchored at the start of s: the content holds no `<@`, so its end is the next one. */
  function MatchPaired(s: Text): (r: Option<Match>)
    ensures r.Some? ==> 0 < r.value.length <= |s| && s[0] == LT
  {
    match ParseHead(s)
    case None => None
    case Some(h) =>
      if h.rest == [] || h.rest[0] != GT then None
      else
        var after := h.rest[1..];
        var k, n := FirstTag(after), |h.name|;
        var close := after[k..];
        if ClosesAt(close, h.name) then Some(Match(h.name, h.arg, after[..k], |s| - |close| + n + 4))
        else None
  }

  /** SELF, anchored at the start of s. */
  function MatchSelf(s: Text): (r: Option<Match>)
    ensures r.Some? ==> 0 < r.value.length <= |s| && s[0] == LT
  {
    match ParseHead(s)
    case None => None
    case Some(h) =>
      if |h.rest| >= 2 && h.rest[0] == SLASH && h.rest[1] == GT
      then Some(Match(h.name, h.arg, [], |s| - |h.rest| + 2)) else None
  }

  /** The leftmost match at or after p. */
  function Find(matcher: Text -> Option<Match>, s: Text, p: nat): (r: Option<nat>)
    requires p <= |s|
    ensures r.Some? ==> p <= r.value < |s| && matcher(s[r.value..]).Some?
    ensures r.None? ==> forall i | p <= i < |s| :: matcher(s[i..]).None?
    decreases |s| - p
  {
    if p == |s| then None
    else if matcher(s[p..]).Some? then Some(p)
    else Find(matcher, s, p + 1)
  }

  /** TAGS: by lower-case name, from the content and the argument to the replacement. */
  type Table = map<Text, (Text, Option<Text>) -> Text>

  function Replaced(table: Table, s: Text, p: nat, m: Match): Text
    requires p + m.length <= |s|
  {
    var f := Lower(m.name);
    s[..p] + (if f in table then table[f](m.content, m.arg) else s[p..p + m.length]) + s[p + m.length..]
  }

  /** One pass of the loop; None when nothing matches. */
  function Pass(table: Table, s: Text): Option<Text> {
    match Find(MatchPaired, s, 0)
    case Some(p) => Some(Replaced(table, s, p, MatchPaired(s[p..]).value))
    case None =>
      match Find(MatchSelf, s, 0)
      case Some(p) => Some(Replaced(table, s, p, MatchSelf(s[p..]).value))
      case None => None
  }

  function Passes(table: Table, s: Text, n: nat): Text
    decreases n
  {
    if n == 0 || Pass(table, s).None? then s else Passes(table, Pass(table, s).value, n - 1)
  }

  lemma PassesUnfold(table: Table, s: Text, n: nat)
    ensures Passes(table, s, n) == if n == 0 || Pass(table, s).None? then s else Passes(table, Pass(table, s).value, n - 1)
  {
    hide Pass;
  }

  lemma PassUnfold(table: Table, s: Text)
    ensures var p, q := Find(MatchPaired, s, 0), Find(MatchSelf, s, 0);
      Pass(table, s) ==
        if p.Some? then Some(Replaced(table, s, p.value, MatchPaired(s[p.value..]).value))
        else if q.Some? then Some(Replaced(table, s, q.value, MatchSelf(s[q.value..]).value))
        else None
  {
    hide Replaced, Find, MatchPaired, MatchSelf;
  }

  method ApplyTags(table: Table, text: Text) returns (out: Text)
    ensures out == Passes(table, text, 200)
  {
    hide *;
    PassesUnfold(table, text, 200);
    if FirstTag(text) == |text| {
      NoTagNoPass(table, text);
      return text;
    }
    out := text;
    var passes := 0;
    while passes < 200
      invariant passes <= 200
      invariant Passes(table, text, 200) == Passes(table, out, 200 - passes)
    {
      PassesUnfold(table, out, 200 - passes);
      PassUnfold(table, out);
      passes := passes + 1;
      var changed := false;
      var at := Find(MatchPaired, out, 0);
      if at.Some? {
        var m := MatchPaired(out[at.value..]).value;
        out := Replaced(table, out, at.value, m);
        changed := true;
      } else {
        at := Find(MatchSelf, out, 0);
        if at.Some? {
          var m := MatchSelf(out[at.value..]).value;
          out := Replaced(table, out, at.value, m);
          changed := true;
        }
      }
      if !changed {
        break;
      }
    }
    PassesUnfold(table, out, 200 - passes);
  }

  lemma {:induction false} NoTagAt(s: Text, i: nat)
    requires FirstTag(s) == |s| && i < |s|
    ensures ParseHead(s[i..]).None?
  {
    if i > 0 {
      NoTagAt(s[1..], i - 1);
      assert s[1..][i - 1..] == s[i..];
    }
  }

  lemma NoTagNoPass(table: Table, s: Text)
    requires FirstTag(s) == |s|
    ensures Pass(table, s).None?
  {
    forall i | 0 <= i < |s| ensures MatchPaired(s[i..]).None? && MatchSelf(s[i..]).None? {
      NoTagAt(s, i);
    }
  }
}
