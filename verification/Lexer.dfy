/** _tokenize of scripts/marketplace_site.py. */
module Lexer {
  import opened Basics

  datatype Kind = Ws | Com | Str | Regex | Num | Kw | Func | Id | Punc

  datatype Token = Newline | Tok(kind: Kind, text: string)

  /** str.isdigit and \w on all of Unicode. */
  datatype Tables = Tables(isDigit: char -> bool, isWord: char -> bool)

  predicate IsAsciiDigit(c: char) { '0' <= c <= '9' }

  /** [A-Za-z_$] */
  predicate IsIdStart(c: char) { 'a' <= c <= 'z' || 'A' <= c <= 'Z' || c == '_' || c == '$' }

  /** [a-z] under re.I: the letters, and the four characters that fold to one of them. */
  predicate IsFlag(c: char) {
    || 'a' <= c <= 'z' || 'A' <= c <= 'Z'
    || c == '\U{0130}' || c == '\U{0131}' || c == '\U{017F}' || c == '\U{212A}'
  }

  /** What is known of the tables: ASCII characters are classified as in ASCII, and letters are word characters. */
  predicate Sensible(tb: Tables) {
    && (forall c: char :: c <= '~' ==> (tb.isDigit(c) <==> IsAsciiDigit(c)))
    && (forall c: char :: c <= '~' ==> (tb.isWord(c) <==> IsAsciiDigit(c) || (IsIdStart(c) && c != '$')))
    && (forall c: char :: IsFlag(c) ==> tb.isWord(c))
  }

  predicate IsBlank(c: char) { c == ' ' || c == '\t' }

  predicate IsQuote(c: char) { c == '"' || c == '\'' || c == '`' }

  predicate InLine(c: char) { c != '\n' }

  /** [0-9a-fx._] under re.I */
  predicate IsNumberPart(c: char) {
    IsAsciiDigit(c) || 'a' <= c <= 'f' || 'A' <= c <= 'F' || c == 'x' || c == 'X' || c == '.' || c == '_'
  }

  const KEYWORDS: set<string> := {
    "var", "let", "const", "function", "return", "if", "else", "for", "while", "do", "break", "continue", "new", "try",
    "catch", "finally", "throw", "typeof", "instanceof", "in", "of", "this", "null", "true", "false", "undefined",
    "void", "switch", "case", "default", "delete", "yield", "await", "async", "class", "extends", "super", "import",
    "export", "from", "as"}

  // ---------------------------------------------------------------- the inner loops

  /** The first position from j on whose character is not in the class. */
  function Skip(src: string, j: nat, p: char -> bool): (k: nat)
    ensures j <= |src| ==> j <= k <= |src|
    ensures j >= |src| ==> k == j
    decreases |src| - j
  {
    if j < |src| && p(src[j]) then Skip(src, j + 1, p) else j
  }

  /** Behind the closing delimiter of a block comment, or at the end. */
  function BlockEnd(src: string, j: nat): (k: nat)
    requires j <= |src|
    ensures j <= k <= |src|
    decreases |src| - j
  {
    if j < |src| && !(src[j] == '*' && j + 1 < |src| && src[j + 1] == '/') then BlockEnd(src, j + 1)
    else if j + 2 <= |src| then j + 2 else |src|
  }

  /** Behind the closing quote, or behind the end: a backslash skips two positions, the end included. */
  function StringEnd(src: string, j: nat, quote: char): (k: nat)
    ensures k >= j
    decreases |src| - j
  {
    if j >= |src| then j
    else if src[j] == '\\' then StringEnd(src, j + 2, quote)
    else if src[j] == quote then j + 1
    else StringEnd(src, j + 1, quote)
  }

  /** Behind the closing slash of a regular expression; None if the line or the source ends first. */
  function RegexEnd(src: string, j: nat, inClass: bool): (k: Option<nat>)
    ensures k.Some? ==> j < k.value <= |src|
    decreases |src| - j
  {
    if j >= |src| || src[j] == '\n' then None
    else if src[j] == '\\' then RegexEnd(src, j + 2, inClass)
    else if src[j] == '[' then RegexEnd(src, j + 1, true)
    else if src[j] == ']' then RegexEnd(src, j + 1, false)
    else if src[j] == '/' && !inClass then Some(j + 1)
    else RegexEnd(src, j + 1, inClass)
  }

  /** src[i:j] of Python: clipped at the end. */
  function Slice(src: string, i: nat, j: nat): string
    requires i <= j && i <= |src|
  {
    if j <= |src| then src[i..j] else src[i..]
  }

  // ---------------------------------------------------------------- one turn

  /** regex_ctx: a slash starts a regular expression unless the last token ends an expression. */
  predicate RegexContext(tb: Tables, prev: Option<string>) {
    || prev.None? || prev.value == []
    || !(var last := prev.value[|prev.value| - 1]; tb.isWord(last) || last == '$' || last == ')' || last == ']')
    || prev.value in KEYWORDS
  }

  datatype Turn = Turn(next: nat, token: Token, prev: Option<string>)

  function Solid(src: string, i: nat, j: nat, kind: Kind): Turn
    requires i <= j && i <= |src|
  {
    Turn(j, Tok(kind, Slice(src, i, j)), Some(Slice(src, i, j)))
  }

  predicate StartsWith(src: string, i: nat, a: char, b: char) { i + 1 < |src| && src[i] == a && src[i + 1] == b }

  function Word(tb: Tables): char -> bool { c => tb.isWord(c) || c == '$' }

  function WordKind(src: string, w: string, j: nat): Kind {
    var k := Skip(src, j, IsBlank);
    if w in KEYWORDS then Kw else if k < |src| && src[k] == '(' then Func else Id
  }

  function OneTurn(tb: Tables, src: string, i: nat, prev: Option<string>): Turn
    requires i < |src|
  {
    var c := src[i];
    if c == '\n' then Turn(i + 1, Newline, prev)
    else if IsBlank(c) then var j := Skip(src, i, IsBlank); Turn(j, Tok(Ws, src[i..j]), prev)
    else if StartsWith(src, i, '/', '/') then var j := Skip(src, i + 2, InLine); Turn(j, Tok(Com, src[i..j]), prev)
    else if StartsWith(src, i, '/', '*') then var j := BlockEnd(src, i + 2); Turn(j, Tok(Com, src[i..j]), prev)
    else if IsQuote(c) then Solid(src, i, StringEnd(src, i + 1, c), Str)
    else if c == '/' && RegexContext(tb, prev) && RegexEnd(src, i + 1, false).Some?
    then Solid(src, i, Skip(src, RegexEnd(src, i + 1, false).value, IsFlag), Regex)
    else if tb.isDigit(c) then Solid(src, i, Skip(src, i, IsNumberPart), Num)
    else if IsIdStart(c) then var j := Skip(src, i, Word(tb)); Solid(src, i, j, WordKind(src, src[i..j], j))
    else Solid(src, i, i + 1, Punc)
  }

  /** All turns from i on; None if some turn stays where it is, for then every later turn does. */
  function Lex(tb: Tables, src: string, i: nat, prev: Option<string>): Option<seq<Token>>
    decreases |src| - i
  {
    if i >= |src| then Some([])
    else
      var t := OneTurn(tb, src, i, prev);
      if t.next <= i then None
      else
        match Lex(tb, src, t.next, t.prev)
        case None => None
        case Some(rest) => Some([t.token] + rest)
  }

  // ---------------------------------------------------------------- progress

  lemma SkipPast(src: string, i: nat, p: char -> bool)
    requires i < |src|
    ensures Skip(src, i, p) > i <==> p(src[i])
  {
  }

  /** EVERY TURN ADVANCES except on a digit that is not an ASCII digit, where none does, whatever came before. */
  lemma TurnAdvances(tb: Tables, src: string, i: nat, prev: Option<string>)
    requires i < |src| && Sensible(tb)
    ensures OneTurn(tb, src, i, prev).next >= i
    ensures OneTurn(tb, src, i, prev).next == i <==> tb.isDigit(src[i]) && !IsAsciiDigit(src[i])
  {
    var c := src[i];
    SkipPast(src, i, IsBlank);
    SkipPast(src, i, IsNumberPart);
    SkipPast(src, i, Word(tb));
    if tb.isDigit(c) && !IsAsciiDigit(c) {
      assert c > '~';
    }
    hide Skip, BlockEnd, StringEnd, RegexEnd, RegexContext, Slice;
  }

  /** The loop ends on every source whose digits are ASCII digits. */
  lemma {:induction false} LexEnds(tb: Tables, src: string, i: nat, prev: Option<string>)
    requires Sensible(tb) && forall k | i <= k < |src| && tb.isDigit(src[k]) :: IsAsciiDigit(src[k])
    ensures Lex(tb, src, i, prev).Some?
    decreases |src| - i
  {
    if i < |src| {
      var t := OneTurn(tb, src, i, prev);
      TurnAdvances(tb, src, i, prev);
      hide OneTurn, Sensible;
      LexEnds(tb, src, t.next, t.prev);
    }
  }

  /** The turns from i on come to position k. */
  predicate ComesTo(tb: Tables, src: string, i: nat, prev: Option<string>, k: nat)
    decreases |src| - i
  {
    i < |src| &&
    (k == i || (var t := OneTurn(tb, src, i, prev); t.next > i && ComesTo(tb, src, t.next, t.prev, k)))
  }

  /** A turn starts at k, at a digit that is not an ASCII digit. */
  predicate StuckAt(tb: Tables, src: string, i: nat, prev: Option<string>, k: nat) {
    k < |src| && ComesTo(tb, src, i, prev, k) && tb.isDigit(src[k]) && !IsAsciiDigit(src[k])
  }

  /** THE LOOP DOES NOT END exactly when some turn starts at a digit that is not an ASCII digit. Such a digit
      inside a string, a comment, a regular expression or a name does no harm. */
  lemma {:induction false} LexEndsExactly(tb: Tables, src: string, i: nat, prev: Option<string>)
    requires Sensible(tb)
    ensures Lex(tb, src, i, prev).None? <==> exists k :: StuckAt(tb, src, i, prev, k)
    decreases |src| - i
  {
    if i < |src| {
      var t := OneTurn(tb, src, i, prev);
      TurnAdvances(tb, src, i, prev);
      hide OneTurn, Sensible;
      if t.next == i {
        assert StuckAt(tb, src, i, prev, i);
      } else {
        LexEndsExactly(tb, src, t.next, t.prev);
        if Lex(tb, src, i, prev).None? {
          var k :| StuckAt(tb, src, t.next, t.prev, k);
          assert StuckAt(tb, src, i, prev, k);
        } else if k :| StuckAt(tb, src, i, prev, k) {
          assert StuckAt(tb, src, t.next, t.prev, k);
        }
      }
    }
  }

  /** Superscript two is a digit to str.isdigit: alone it stops the loop, in a comment it does not. */
  lemma SuperscriptTwo(tb: Tables)
    requires Sensible(tb) && tb.isDigit('\U{00B2}')
    ensures Lex(tb, "\U{00B2}", 0, None).None?
    ensures Lex(tb, "//\U{00B2}", 0, None).Some?
  {
    var a, b := "\U{00B2}", "//\U{00B2}";
    TurnAdvances(tb, a, 0, None);
    TurnAdvances(tb, b, 0, None);
    assert StartsWith(b, 0, '/', '/') && Skip(b, 3, InLine) == 3 && Skip(b, 2, InLine) == 3;
    assert OneTurn(tb, b, 0, None).next == 3;
    hide OneTurn, Sensible, Skip;
  }

  // ---------------------------------------------------------------- nothing is lost

  function Spelling(t: Token): string { if t.Newline? then "\n" else t.text }

  function Flat(ts: seq<Token>): string { if ts == [] then "" else Spelling(ts[0]) + Flat(ts[1..]) }

  function Rest(src: string, i: nat): string { if i <= |src| then src[i..] else "" }

  lemma TurnSpelling(tb: Tables, src: string, i: nat, prev: Option<string>)
    requires i < |src|
    ensures var t := OneTurn(tb, src, i, prev); t.next >= i && Spelling(t.token) + Rest(src, t.next) == src[i..]
  {
    var t := OneTurn(tb, src, i, prev);
    hide Skip, BlockEnd, StringEnd, RegexEnd, RegexContext, WordKind;
    if t.next <= |src| {
      assert Spelling(t.token) == src[i..t.next];
    }
  }

  /** LOSSLESS: the texts of the tokens, newlines included, are the source again. */
  lemma {:induction false} LexIsLossless(tb: Tables, src: string, i: nat, prev: Option<string>)
    requires Lex(tb, src, i, prev).Some?
    ensures Flat(Lex(tb, src, i, prev).value) == Rest(src, i)
    decreases |src| - i
  {
    if i < |src| {
      var t := OneTurn(tb, src, i, prev);
      TurnSpelling(tb, src, i, prev);
      hide OneTurn;
      LexIsLossless(tb, src, t.next, t.prev);
    }
  }

  // ---------------------------------------------------------------- what the kinds mean

  predicate All(s: string, p: char -> bool) { forall i | 0 <= i < |s| :: p(s[i]) }

  predicate Begins(s: string, a: char, b: char) { |s| >= 2 && s[0] == a && s[1] == b }

  /** What stands between the quotes: no quote, unless behind a backslash. */
  predicate StringBody(s: string, quote: char) {
    || s == ""
    || (s[0] == '\\' && |s| >= 2 && StringBody(s[2..], quote))
    || (s[0] != '\\' && s[0] != quote && StringBody(s[1..], quote))
  }

  /** A string literal; one that is not closed runs to the end of the source. */
  predicate StringText(s: string, last: bool) {
    && s != "" && IsQuote(s[0])
    && ((|s| >= 2 && s[|s| - 1] == s[0] && StringBody(s[1..|s| - 1], s[0]))
        || (last && (StringBody(s[1..], s[0]) || (|s| >= 2 && s[|s| - 1] == '\\' && StringBody(s[1..|s| - 1], s[0])))))
  }

  /** What stands between the slashes: no slash and no line end, unless behind a backslash; slashes also in a class. */
  predicate RegexBody(s: string, inClass: bool) {
    if s == "" then !inClass
    else if s[0] == '\\' then |s| >= 2 && RegexBody(s[2..], inClass)
    else if s[0] == '\n' then false
    else if s[0] == '[' then RegexBody(s[1..], true)
    else if s[0] == ']' then RegexBody(s[1..], false)
    else (s[0] != '/' || inClass) && RegexBody(s[1..], inClass)
  }

  predicate RegexText(s: string) {
    exists m | 1 <= m < |s| :: s[0] == '/' && s[m] == '/' && RegexBody(s[1..m], false) && All(s[m + 1..], IsFlag)
  }

  predicate Closes(s: string, m: nat) { m + 1 < |s| && s[m] == '*' && s[m + 1] == '/' }

  /** A comment; a block comment ends with its first closing mark, or with the source. */
  predicate CommentText(s: string, last: bool) {
    || (Begins(s, '/', '/') && All(s, InLine))
    || (Begins(s, '/', '*') && |s| >= 4 && Closes(s, |s| - 2) && forall m | 2 <= m < |s| - 2 :: !Closes(s, m))
    || (Begins(s, '/', '*') && last && forall m | 2 <= m < |s| :: !Closes(s, m))
  }

  /** A token can be told by its text, functions and names aside; `last` is said of the last token. */
  predicate Shape(tb: Tables, t: Token, last: bool) {
    t.Tok? ==>
      && t.text != ""
      && match t.kind
         case Ws => All(t.text, IsBlank)
         case Com => CommentText(t.text, last)
         case Str => StringText(t.text, last)
         case Regex => RegexText(t.text)
         case Num => All(t.text, IsNumberPart) && IsAsciiDigit(t.text[0])
         case Kw => t.text in KEYWORDS
         case Func => IsName(tb, t.text) && t.text !in KEYWORDS
         case Id => IsName(tb, t.text) && t.text !in KEYWORDS
         case Punc => |t.text| == 1 && !IsBlank(t.text[0]) && !IsQuote(t.text[0]) && !IsIdStart(t.text[0])
                      && !tb.isDigit(t.text[0]) && t.text[0] != '\n'
  }

  predicate IsName(tb: Tables, s: string) { s != "" && IsIdStart(s[0]) && All(s, Word(tb)) }

  lemma {:induction false} SkipAll(src: string, i: nat, j: nat, p: char -> bool)
    requires i <= j <= |src| && All(src[i..j], p)
    ensures Skip(src, j, p) <= |src| && All(src[i..Skip(src, j, p)], p)
    decreases |src| - j
  {
    if j < |src| && p(src[j]) {
      assert src[i..j + 1] == src[i..j] + [src[j]];
      SkipAll(src, i, j + 1, p);
    }
  }

  lemma SkippedShape(tb: Tables, src: string, i: nat, last: bool)
    requires i < |src|
    ensures IsBlank(src[i]) ==> Shape(tb, Tok(Ws, src[i..Skip(src, i, IsBlank)]), last)
    ensures IsAsciiDigit(src[i]) ==> Shape(tb, Tok(Num, src[i..Skip(src, i, IsNumberPart)]), last)
  {
    assert src[i..i] == "";
    SkipAll(src, i, i, IsBlank);
    SkipAll(src, i, i, IsNumberPart);
    SkipPast(src, i, IsBlank);
    SkipPast(src, i, IsNumberPart);
    hide Skip;
  }

  lemma {:induction false} BlockEndIs(src: string, j: nat)
    requires j <= |src|
    ensures var k := BlockEnd(src, j);
      || (j + 2 <= k && Closes(src, k - 2) && forall m | j <= m < k - 2 :: !Closes(src, m))
      || (k == |src| && forall m | j <= m < |src| :: !Closes(src, m))
    decreases |src| - j
  {
    if j < |src| && !Closes(src, j) {
      BlockEndIs(src, j + 1);
    }
  }

  lemma LineComment(tb: Tables, src: string, i: nat, last: bool)
    requires StartsWith(src, i, '/', '/')
    ensures Shape(tb, Tok(Com, src[i..Skip(src, i + 2, InLine)]), last)
  {
    assert src[i..i + 2] == "//";
    SkipAll(src, i, i + 2, InLine);
    hide Skip;
  }

  lemma BlockComment(tb: Tables, src: string, i: nat, last: bool)
    requires StartsWith(src, i, '/', '*') && (BlockEnd(src, i + 2) == |src| ==> last)
    ensures Shape(tb, Tok(Com, src[i..BlockEnd(src, i + 2)]), last)
  {
    var k := BlockEnd(src, i + 2);
    BlockEndIs(src, i + 2);
    var s := src[i..k];
    hide BlockEnd;
    assert Begins(s, '/', '*');
    forall m | 2 <= m < |s| ensures Closes(s, m) <==> m + 1 < |s| && Closes(src, i + m) {
    }
  }

  predicate ClosedAt(src: string, j: nat, k: nat, quote: char) {
    j < k <= |src| && src[k - 1] == quote && StringBody(src[j..k - 1], quote)
  }

  predicate OpenFrom(src: string, j: nat, quote: char)
    requires j <= |src|
  {
    StringBody(src[j..], quote) || (j < |src| && src[|src| - 1] == '\\' && StringBody(src[j..|src| - 1], quote))
  }

  lemma {:induction false} StringEndIs(src: string, j: nat, quote: char)
    requires j <= |src|
    ensures var k := StringEnd(src, j, quote); ClosedAt(src, j, k, quote) || (k >= |src| && OpenFrom(src, j, quote))
    decreases |src| - j
  {
    if j < |src| {
      var n := if src[j] == '\\' then 2 else 1;
      if src[j] == '\\' && j + 2 > |src| {
        assert src[j..|src| - 1] == "";
      } else if src[j] == '\\' || src[j] != quote {
        StringEndIs(src, j + n, quote);
        var k := StringEnd(src, j + n, quote);
        hide StringEnd;
        BodyGrows(src, j, |src|, quote);
        if j + n <= |src| - 1 { BodyGrows(src, j, |src| - 1, quote); }
        if j + n < k <= |src| { BodyGrows(src, j, k - 1, quote); }
        assert src[j..] == src[j..|src|] && src[j + n..] == src[j + n..|src|];
      } else {
        assert src[j..j] == "";
      }
    } else {
      assert src[j..] == "";
    }
  }

  lemma BodyGrows(src: string, j: nat, k: nat, quote: char)
    requires j < |src| && (src[j] == '\\' || src[j] != quote)
    requires var n := if src[j] == '\\' then 2 else 1; j + n <= k <= |src|
    ensures var n := if src[j] == '\\' then 2 else 1; StringBody(src[j + n..k], quote) ==> StringBody(src[j..k], quote)
  {
    var n := if src[j] == '\\' then 2 else 1;
    assert src[j..k][n..] == src[j + n..k] && src[j..k][0] == src[j];
  }

  lemma ClosedString(s: string, last: bool)
    requires |s| >= 2 && IsQuote(s[0]) && s[|s| - 1] == s[0] && StringBody(s[1..|s| - 1], s[0])
    ensures StringText(s, last)
  {
    hide StringBody;
  }

  lemma OpenString(s: string)
    requires s != "" && IsQuote(s[0])
    requires StringBody(s[1..], s[0]) || (|s| >= 2 && s[|s| - 1] == '\\' && StringBody(s[1..|s| - 1], s[0]))
    ensures StringText(s, true)
  {
    hide StringBody;
  }

  lemma OpenSlices(src: string, i: nat, k: nat)
    requires i < |src| <= k
    ensures var s := Slice(src, i, k);
      && s != "" && s[0] == src[i] && s[1..] == src[i + 1..]
      && (i + 1 < |src| ==> |s| >= 2 && s[|s| - 1] == src[|src| - 1] && s[1..|s| - 1] == src[i + 1..|src| - 1])
  {
    assert Slice(src, i, k) == src[i..];
    assert i + 1 < |src| ==> src[i..][1..|src| - i - 1] == src[i + 1..|src| - 1];
  }

  lemma ClosedSlices(src: string, i: nat, k: nat)
    requires i + 1 < k <= |src|
    ensures var s := Slice(src, i, k);
      |s| >= 2 && s[0] == src[i] && s[|s| - 1] == src[k - 1] && s[1..|s| - 1] == src[i + 1..k - 1]
  {
  }

  lemma ClosedText(src: string, i: nat, k: nat, last: bool)
    requires i < |src| && IsQuote(src[i]) && ClosedAt(src, i + 1, k, src[i])
    ensures StringText(Slice(src, i, k), last)
  {
    ClosedSlices(src, i, k);
    hide StringBody, Slice, StringText, IsQuote;
    ClosedString(Slice(src, i, k), last);
  }

  lemma OpenText(src: string, i: nat, k: nat)
    requires i < |src| <= k && IsQuote(src[i]) && OpenFrom(src, i + 1, src[i])
    ensures StringText(Slice(src, i, k), true)
  {
    OpenSlices(src, i, k);
    hide StringBody, Slice, StringText, IsQuote;
    OpenString(Slice(src, i, k));
  }

  lemma StringTextIs(src: string, i: nat, last: bool)
    requires i < |src| && IsQuote(src[i]) && (StringEnd(src, i + 1, src[i]) >= |src| ==> last)
    ensures StringText(Slice(src, i, StringEnd(src, i + 1, src[i])), last)
  {
    hide *;
    var k := StringEnd(src, i + 1, src[i]);
    StringEndIs(src, i + 1, src[i]);
    if ClosedAt(src, i + 1, k, src[i]) {
      ClosedText(src, i, k, last);
    } else {
      OpenText(src, i, k);
    }
  }

  lemma StringShape(tb: Tables, src: string, i: nat, last: bool)
    requires i < |src| && IsQuote(src[i]) && (StringEnd(src, i + 1, src[i]) >= |src| ==> last)
    ensures Shape(tb, Tok(Str, Slice(src, i, StringEnd(src, i + 1, src[i]))), last)
  {
    StringTextIs(src, i, last);
    var s := Slice(src, i, StringEnd(src, i + 1, src[i]));
    assert s != "";
    hide StringText, StringEnd, Slice;
  }

  lemma {:induction false} RegexEndIs(src: string, j: nat, inClass: bool)
    requires j <= |src| && RegexEnd(src, j, inClass).Some?
    ensures var k := RegexEnd(src, j, inClass).value; src[k - 1] == '/' && RegexBody(src[j..k - 1], inClass)
    decreases |src| - j
  {
    var k := RegexEnd(src, j, inClass).value;
    if src[j] == '/' && !inClass {
      assert src[j..k - 1] == "";
    } else {
      var n := if src[j] == '\\' then 2 else 1;
      var c' := if src[j] == '[' then true else if src[j] == ']' then false else inClass;
      assert RegexEnd(src, j, inClass) == RegexEnd(src, j + n, c');
      hide RegexEnd;
      RegexEndIs(src, j + n, c');
      var s := src[j..k - 1];
      assert s[n..] == src[j + n..k - 1] && s[0] == src[j];
    }
  }

  lemma RegexTextIs(s: string, m: nat)
    requires 1 <= m < |s| && s[0] == '/' && s[m] == '/' && RegexBody(s[1..m], false) && All(s[m + 1..], IsFlag)
    ensures RegexText(s)
  {
    hide RegexBody, All;
  }

  lemma RegexSlices(src: string, i: nat, k: nat, e: nat)
    requires i + 2 <= k <= e <= |src|
    ensures var s, m := src[i..e], k - 1 - i;
      1 <= m < |s| && s[0] == src[i] && s[m] == src[k - 1] && s[1..m] == src[i + 1..k - 1] && s[m + 1..] == src[k..e]
  {
    SubSlice(src, i, e, 1, k - 1 - i);
    SubSlice(src, i, e, k - i, e - i);
  }

  lemma SubSlice(src: string, i: nat, e: nat, a: nat, b: nat)
    requires i <= e <= |src| && a <= b <= e - i
    ensures src[i..e][a..b] == src[i + a..i + b]
  {
    var s, t := src[i..e][a..b], src[i + a..i + b];
    forall j | 0 <= j < b - a ensures s[j] == t[j] {
      assert s[j] == src[i..e][a + j] == src[i + a + j];
    }
    assert |s| == |t|;
  }

  lemma FlagsFrom(src: string, k: nat)
    requires k <= |src|
    ensures var e := Skip(src, k, IsFlag); k <= e <= |src| && All(src[k..e], IsFlag)
  {
    assert src[k..k] == "";
    SkipAll(src, k, k, IsFlag);
    hide Skip;
  }

  lemma RegexTextAt(src: string, i: nat)
    requires i < |src| && src[i] == '/' && RegexEnd(src, i + 1, false).Some?
    ensures var e := Skip(src, RegexEnd(src, i + 1, false).value, IsFlag); i < e <= |src| && RegexText(src[i..e])
  {
    hide *;
    var k := RegexEnd(src, i + 1, false).value;
    RegexEndIs(src, i + 1, false);
    FlagsFrom(src, k);
    var e := Skip(src, k, IsFlag);
    RegexSlices(src, i, k, e);
    RegexTextIs(src[i..e], k - 1 - i);
  }

  lemma RegexShape(tb: Tables, src: string, i: nat, last: bool)
    requires i < |src| && src[i] == '/' && RegexEnd(src, i + 1, false).Some?
    ensures Shape(tb, Tok(Regex, src[i..Skip(src, RegexEnd(src, i + 1, false).value, IsFlag)]), last)
  {
    RegexTextAt(src, i);
    hide RegexText, RegexEnd, Skip;
  }

  lemma NameText(tb: Tables, src: string, i: nat)
    requires i < |src| && IsIdStart(src[i]) && Word(tb)(src[i])
    ensures IsName(tb, src[i..Skip(src, i, Word(tb))])
  {
    hide IsIdStart, Word, Skip;
    assert src[i..i] == "";
    SkipAll(src, i, i, Word(tb));
    SkipPast(src, i, Word(tb));
  }

  lemma KindShape(tb: Tables, src: string, w: string, j: nat, last: bool)
    requires w != "" && IsName(tb, w)
    ensures Shape(tb, Tok(WordKind(src, w, j), w), last)
  {
    hide IsName, Skip, KEYWORDS;
  }

  lemma WordShape(tb: Tables, src: string, i: nat, last: bool)
    requires i < |src| && IsIdStart(src[i]) && Sensible(tb)
    ensures var j := Skip(src, i, Word(tb));
      Shape(tb, Tok(WordKind(src, src[i..j], j), src[i..j]), last)
  {
    assert Word(tb)(src[i]);
    hide *;
    NameText(tb, src, i);
    NameNotEmpty(tb, src[i..Skip(src, i, Word(tb))]);
    KindShape(tb, src, src[i..Skip(src, i, Word(tb))], Skip(src, i, Word(tb)), last);
  }

  lemma NameNotEmpty(tb: Tables, s: string)
    requires IsName(tb, s)
    ensures s != ""
  {
  }

  lemma PuncShape(tb: Tables, c: char, last: bool)
    requires !IsBlank(c) && !IsQuote(c) && !IsIdStart(c) && !tb.isDigit(c) && c != '\n'
    ensures Shape(tb, Tok(Punc, [c]), last)
  {
    hide IsBlank, IsQuote, IsIdStart;
  }

  lemma SliceIs(src: string, i: nat, j: nat)
    requires i <= j && i <= |src|
    ensures j <= |src| ==> Slice(src, i, j) == src[i..j]
    ensures i < |src| && j == i + 1 ==> Slice(src, i, j) == [src[i]]
  {
  }

  lemma TurnShape(tb: Tables, src: string, i: nat, prev: Option<string>, last: bool)
    requires i < |src| && Sensible(tb) && OneTurn(tb, src, i, prev).next > i
    requires OneTurn(tb, src, i, prev).next >= |src| ==> last
    ensures Shape(tb, OneTurn(tb, src, i, prev).token, last)
  {
    hide Skip, BlockEnd, StringEnd, RegexEnd, RegexContext, Slice, WordKind, Shape;
    var c := src[i];
    var j := OneTurn(tb, src, i, prev).next;
    TurnAdvances(tb, src, i, prev);
    SliceIs(src, i, j);
    if c == '\n' {
      NewlineShape(tb, last);
    } else if IsBlank(c) {
      SkippedShape(tb, src, i, last);
    } else if StartsWith(src, i, '/', '/') {
      LineComment(tb, src, i, last);
    } else if StartsWith(src, i, '/', '*') {
      BlockComment(tb, src, i, last);
    } else if IsQuote(c) {
      StringShape(tb, src, i, last);
    } else if c == '/' && RegexContext(tb, prev) && RegexEnd(src, i + 1, false).Some? {
      RegexShape(tb, src, i, last);
    } else if tb.isDigit(c) {
      SkippedShape(tb, src, i, last);
    } else if IsIdStart(c) {
      WordShape(tb, src, i, last);
    } else {
      PuncShape(tb, c, last);
    }
  }

  lemma NewlineShape(tb: Tables, last: bool)
    ensures Shape(tb, Newline, last)
  {
  }

  /** Every token has the shape of its kind, and only the last one may be left open. */
  lemma {:induction false} LexShape(tb: Tables, src: string, i: nat, prev: Option<string>)
    requires Sensible(tb) && Lex(tb, src, i, prev).Some?
    ensures var ts := Lex(tb, src, i, prev).value; forall k | 0 <= k < |ts| :: Shape(tb, ts[k], k == |ts| - 1)
    decreases |src| - i
  {
    if i < |src| {
      var t := OneTurn(tb, src, i, prev);
      TurnShape(tb, src, i, prev, t.next >= |src|);
      hide OneTurn, Shape, Sensible;
      LexShape(tb, src, t.next, t.prev);
      MoreTokens(tb, src, t.next, t.prev);
    }
  }

  lemma MoreTokens(tb: Tables, src: string, i: nat, prev: Option<string>)
    requires Lex(tb, src, i, prev).Some?
    ensures Lex(tb, src, i, prev).value == [] <==> i >= |src|
  {
    hide OneTurn;
  }

  // ---------------------------------------------------------------- the loops of the source

  /** while j < n and p(src[j]): j += 1 */
  method SkipLoop(src: string, start: nat, p: char -> bool) returns (j: nat)
    ensures j == Skip(src, start, p)
  {
    j := start;
    while j < |src| && p(src[j])
      invariant Skip(src, j, p) == Skip(src, start, p)
      decreases |src| - j
    {
      j := j + 1;
    }
  }

  method BlockLoop(src: string, start: nat) returns (j: nat)
    requires start <= |src|
    ensures j == BlockEnd(src, start)
  {
    j := start;
    while j < |src| && !(src[j] == '*' && j + 1 < |src| && src[j + 1] == '/')
      invariant j <= |src| && BlockEnd(src, j) == BlockEnd(src, start)
    {
      j := j + 1;
    }
    j := if j + 2 <= |src| then j + 2 else |src|;
  }

  method StringLoop(src: string, start: nat, quote: char) returns (j: nat)
    ensures j == StringEnd(src, start, quote)
  {
    j := start;
    while j < |src|
      invariant StringEnd(src, j, quote) == StringEnd(src, start, quote)
      decreases |src| - j
    {
      if src[j] == '\\' {
        j := j + 2;
        continue;
      }
      if src[j] == quote { return j + 1; }
      j := j + 1;
    }
  }

  method RegexLoop(src: string, start: nat) returns (ok: bool, j: nat)
    ensures RegexEnd(src, start, false) == if ok then Some(j) else None
  {
    j := start;
    var inClass := false;
    ok := false;
    while j < |src|
      invariant !ok && RegexEnd(src, j, inClass) == RegexEnd(src, start, false)
      decreases |src| - j
    {
      var d := src[j];
      if d == '\\' {
        j := j + 2;
        continue;
      }
      if d == '\n' { return; }
      if d == '[' {
        inClass := true;
      } else if d == ']' {
        inClass := false;
      } else if d == '/' && !inClass {
        return true, j + 1;
      }
      j := j + 1;
    }
  }

  lemma LexTurn(tb: Tables, src: string, i: nat, prev: Option<string>, out: seq<Token>)
    ensures i >= |src| ==> Lex(tb, src, i, prev) == Some([])
    ensures i < |src| ==>
      var t := OneTurn(tb, src, i, prev);
      (t.next <= i ==> Lex(tb, src, i, prev).None?)
      && (t.next > i ==> Appended(out, Lex(tb, src, i, prev)) == Appended(out + [t.token], Lex(tb, src, t.next, t.prev)))
  {
    hide OneTurn;
    if i < |src| {
      var t := OneTurn(tb, src, i, prev);
      if t.next > i && Lex(tb, src, t.next, t.prev).Some? {
        var rest := Lex(tb, src, t.next, t.prev).value;
        assert out + ([t.token] + rest) == (out + [t.token]) + rest;
      }
    }
  }

  function Appended(out: seq<Token>, rest: Option<seq<Token>>): Option<seq<Token>> {
    if rest.Some? then Some(out + rest.value) else None
  }

  lemma NothingAppended(rest: Option<seq<Token>>)
    ensures Appended([], rest) == rest
  {
    assert rest.Some? ==> [] + rest.value == rest.value;
  }

  /** None stands for the loop that never ends: a turn that does not move is repeated for ever. */
  method Tokenize(tb: Tables, src: string) returns (out: Option<seq<Token>>)
    requires Sensible(tb)
    ensures out == Lex(tb, src, 0, None)
  {
    var tokens, i, prev := [], 0, None;
    NothingAppended(Lex(tb, src, 0, None));
    while i < |src|
      invariant Appended(tokens, Lex(tb, src, i, prev)) == Lex(tb, src, 0, None)
      decreases |src| - i
    {
      hide *;
      LexTurn(tb, src, i, prev, tokens);
      TurnAdvances(tb, src, i, prev);
      var t := TurnLoop(tb, src, i, prev);
      if t.next == i { return None; }
      tokens := tokens + [t.token];
      i, prev := t.next, t.prev;
    }
    out := Some(tokens);
    LexTurn(tb, src, i, prev, tokens);
    assert tokens + [] == tokens;
  }

  /** The body of the loop. */
  method TurnLoop(tb: Tables, src: string, i: nat, prev: Option<string>) returns (t: Turn)
    requires i < |src|
    ensures t == OneTurn(tb, src, i, prev)
  {
    hide Skip, BlockEnd, StringEnd, RegexEnd, RegexContext, Slice, Solid, IsNumberPart, IsFlag;
    var c := src[i];
    if c == '\n' { return Turn(i + 1, Newline, prev); }
    if IsBlank(c) {
      var j := SkipLoop(src, i, IsBlank);
      return Turn(j, Tok(Ws, src[i..j]), prev);
    }
    if c == '/' && i + 1 < |src| && src[i + 1] == '/' {
      var j := SkipLoop(src, i + 2, InLine);
      return Turn(j, Tok(Com, src[i..j]), prev);
    }
    if c == '/' && i + 1 < |src| && src[i + 1] == '*' {
      var j := BlockLoop(src, i + 2);
      return Turn(j, Tok(Com, src[i..j]), prev);
    }
    if IsQuote(c) {
      var j := StringLoop(src, i + 1, c);
      return Solid(src, i, j, Str);
    }
    if c == '/' && RegexContext(tb, prev) {
      var ok, j := RegexLoop(src, i + 1);
      if ok {
        j := SkipLoop(src, j, IsFlag);
        return Solid(src, i, j, Regex);
      }
    }
    if tb.isDigit(c) {
      var j := SkipLoop(src, i, IsNumberPart);
      return Solid(src, i, j, Num);
    }
    if IsIdStart(c) {
      var j := SkipLoop(src, i, Word(tb));
      var k := SkipLoop(src, j, IsBlank);
      var w := src[i..j];
      var kind := if w in KEYWORDS then Kw else if k < |src| && src[k] == '(' then Func else Id;
      return Solid(src, i, j, kind);
    }
    return Solid(src, i, i + 1, Punc);
  }
}
