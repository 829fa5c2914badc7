/**
 * What _tokenize of scripts/marketplace_site.py makes of the neighbourhood of a token: where a slash opens a regular
 * expression, which names are called, and that every token is as long as it can be.
 */
module LexerContext {
  import opened Basics
  import opened Lexer

  // ---------------------------------------------------------------- the tokens before

  /** The last token that is not a blank, a comment or a newline. */
  function LastSolid(ts: seq<Token>): Option<Token> {
    if ts == [] then None
    else
      var t := ts[|ts| - 1];
      if t.Newline? || t.kind == Ws || t.kind == Com then LastSolid(ts[..|ts| - 1]) else Some(t)
  }

  function LastChar(t: Token): char
    requires t.Tok? && t.text != ""
  {
    t.text[|t.text| - 1]
  }

  /** A name, a number that does not end in a point, a regular expression with flags, `)`, `]`, or a character outside ASCII
      that is a word character. */
  predicate Operand(tb: Tables, t: Token)
    requires t.Tok? && t.text != ""
  {
    match t.kind
    case Id => true
    case Func => true
    case Num => LastChar(t) != '.'
    case Regex => LastChar(t) != '/'
    case Punc => t.text == ")" || t.text == "]" || (t.text[0] > '~' && tb.isWord(t.text[0]))
    case _ => false
  }

  /** Behind these tokens an expression has just ended. */
  predicate Ended(tb: Tables, before: seq<Token>) {
    var last := LastSolid(before);
    last.Some? && last.value.Tok? && last.value.text != "" && Operand(tb, last.value)
  }

  // ---------------------------------------------------------------- the text behind

  predicate Next(rest: string, p: char -> bool) { rest != "" && p(rest[0]) }

  /** Behind the blanks stands an opening parenthesis. */
  predicate Called(rest: string) {
    exists k | 0 <= k < |rest| :: rest[k] == '(' && All(rest[..k], IsBlank)
  }

  /** A slash closes the regular expression that would begin here, on this line. */
  predicate Closable(rest: string) {
    exists m | 0 <= m < |rest| :: rest[m] == '/' && RegexBody(rest[..m], false)
  }

  predicate IsMark(c: char) { c == '/' || c == '*' }

  /** A token between the tokens before it and the text behind it. */
  predicate Fits(tb: Tables, before: seq<Token>, t: Token, rest: string) {
    t.Tok? ==>
      match t.kind
      case Ws => !Next(rest, IsBlank)
      case Num => !Next(rest, IsNumberPart)
      case Kw => !Next(rest, Word(tb))
      case Func => !Next(rest, Word(tb)) && Called(rest)
      case Id => !Next(rest, Word(tb)) && !Called(rest)
      case Regex => !Next(rest, IsFlag) && !Ended(tb, before) && |t.text| > 1 && !IsMark(t.text[1])
      case Com => Begins(t.text, '/', '/') ==> !Next(rest, InLine)
      case Str => true
      case Punc => t.text == "/" ==> !Next(rest, IsMark) && (Ended(tb, before) || !Closable(rest))
  }

  // ---------------------------------------------------------------- the last token decides

  function PrevOf(before: seq<Token>): Option<string> {
    var last := LastSolid(before);
    if last.Some? && last.value.Tok? then Some(last.value.text) else None
  }

  predicate Closed(tb: Tables, ts: seq<Token>) { forall i | 0 <= i < |ts| :: Shape(tb, ts[i], false) }

  lemma {:induction false} LastIsShaped(tb: Tables, ts: seq<Token>)
    requires Closed(tb, ts)
    ensures LastSolid(ts).Some? ==>
      LastSolid(ts).value.Tok? && LastSolid(ts).value.kind !in {Ws, Com} && Shape(tb, LastSolid(ts).value, false)
  {
    hide Shape;
    if ts != [] {
      LastIsShaped(tb, ts[..|ts| - 1]);
    }
  }

  lemma KeywordShape(w: string)
    requires w in KEYWORDS
    ensures |w| > 1 && 'a' <= w[0] <= 'z'
  {
  }

  /** regex_ctx, decided by the kind of the last token. */
  lemma ContextIs(tb: Tables, before: seq<Token>)
    requires Sensible(tb) && Closed(tb, before)
    ensures RegexContext(tb, PrevOf(before)) <==> !Ended(tb, before)
  {
    LastIsShaped(tb, before);
    hide Closed, LastSolid;
    var last := LastSolid(before);
    if last.Some? {
      LastDecides(tb, last.value);
    }
    hide Shape, Operand, RegexContext, Sensible;
    ContextNone(tb);
  }

  lemma ContextNone(tb: Tables)
    ensures RegexContext(tb, None)
  {
  }

  lemma LastDecides(tb: Tables, t: Token)
    requires Sensible(tb) && t.Tok? && t.kind !in {Ws, Com} && Shape(tb, t, false)
    ensures t.text != "" && (RegexContext(tb, Some(t.text)) <==> !Operand(tb, t))
  {
    var s := t.text;
    hide KEYWORDS, StringBody, RegexBody, All;
    if s in KEYWORDS { KeywordShape(s); }
    match t.kind
    case Str =>
    case Regex => RegexEnds(s);
    case Num => NumEnds(s);
    case Kw =>
    case Func => NameEnds(tb, s);
    case Id => NameEnds(tb, s);
    case Punc =>
  }

  lemma RegexEnds(s: string)
    requires RegexText(s)
    ensures |s| > 1 && s[0] == '/' && (s[|s| - 1] == '/' || IsFlag(s[|s| - 1]))
  {
    hide RegexBody;
    var m :| 1 <= m < |s| && s[0] == '/' && s[m] == '/' && RegexBody(s[1..m], false) && All(s[m + 1..], IsFlag);
    if m + 1 < |s| {
      assert IsFlag(s[m + 1..][|s| - m - 2]);
    }
  }

  lemma NumEnds(s: string)
    requires s != "" && All(s, IsNumberPart)
    ensures IsNumberPart(s[|s| - 1])
  {
  }

  lemma NameEnds(tb: Tables, s: string)
    requires Lexer.IsName(tb, s)
    ensures s != "" && Word(tb)(s[|s| - 1])
  {
  }

  // ---------------------------------------------------------------- the turn

  lemma {:induction false} SkipStops(src: string, j: nat, p: char -> bool)
    requires j <= |src|
    ensures var k := Skip(src, j, p); j <= k <= |src| && (k < |src| ==> !p(src[k])) && forall i | j <= i < k :: p(src[i])
    decreases |src| - j
  {
    if j < |src| && p(src[j]) {
      SkipStops(src, j + 1, p);
    }
  }

  lemma CalledIs(src: string, j: nat)
    requires j <= |src|
    ensures Called(src[j..]) <==> var k := Skip(src, j, IsBlank); k < |src| && src[k] == '('
  {
    var rest, k := src[j..], Skip(src, j, IsBlank);
    SkipStops(src, j, IsBlank);
    hide Skip;
    if k < |src| && src[k] == '(' {
      assert rest[k - j] == '(' && All(rest[..k - j], IsBlank);
    }
    if Called(rest) {
      var n :| 0 <= n < |rest| && rest[n] == '(' && All(rest[..n], IsBlank);
      assert forall i | 0 <= i < n :: IsBlank(rest[..n][i]) && rest[..n][i] == src[j + i];
      assert src[j + n] == '(' && !IsBlank(src[j + n]);
      if k - j < n { assert IsBlank(rest[..n][k - j]); }
    }
  }

  /** The loop finds the closing slash if there is one. */
  lemma {:induction false} RegexEndFound(src: string, j: nat, m: nat, inClass: bool)
    requires j <= m < |src| && src[m] == '/' && RegexBody(src[j..m], inClass)
    ensures RegexEnd(src, j, inClass).Some?
    decreases m - j
  {
    var s := src[j..m];
    if s != "" {
      var n := if src[j] == '\\' then 2 else 1;
      var c' := if src[j] == '\\' then inClass else if src[j] == '[' then true else if src[j] == ']' then false else inClass;
      assert s[0] == src[j] && (n <= |s| ==> s[n..] == src[j + n..m]);
      RegexEndFound(src, j + n, m, c');
      hide RegexBody;
    }
  }

  lemma ClosableIs(src: string, j: nat)
    requires j <= |src|
    ensures Closable(src[j..]) <==> RegexEnd(src, j, false).Some?
  {
    hide RegexBody, RegexEnd;
    var rest := src[j..];
    if Closable(rest) {
      var m :| 0 <= m < |rest| && rest[m] == '/' && RegexBody(rest[..m], false);
      assert rest[..m] == src[j..j + m];
      RegexEndFound(src, j, j + m, false);
    }
    if RegexEnd(src, j, false).Some? {
      RegexEndIs(src, j, false);
      var k := RegexEnd(src, j, false).value;
      assert rest[..k - 1 - j] == src[j..k - 1] && rest[k - 1 - j] == '/';
    }
  }

  lemma NextIs(src: string, j: nat, p: char -> bool)
    ensures Next(Rest(src, j), p) <==> j < |src| && p(src[j])
  {
  }

  lemma SkipFits(src: string, i: nat, p: char -> bool)
    requires i <= |src|
    ensures !Next(Rest(src, Skip(src, i, p)), p)
  {
    SkipStops(src, i, p);
    NextIs(src, Skip(src, i, p), p);
    hide Skip, Next, Rest;
  }

  lemma WordFits(tb: Tables, src: string, i: nat, before: seq<Token>)
    requires i < |src|
    ensures var j := Skip(src, i, Word(tb)); j <= |src| && Fits(tb, before, Tok(WordKind(src, src[i..j], j), src[i..j]), Rest(src, j))
  {
    var j := Skip(src, i, Word(tb));
    SkipFits(src, i, Word(tb));
    CalledIs(src, j);
    hide Skip, Next, Called, KEYWORDS;
  }

  lemma RegexFits(tb: Tables, src: string, i: nat, before: seq<Token>)
    requires i < |src| && src[i] == '/' && !StartsWith(src, i, '/', '/') && !StartsWith(src, i, '/', '*')
    requires RegexEnd(src, i + 1, false).Some? && !Ended(tb, before)
    ensures var j := Skip(src, RegexEnd(src, i + 1, false).value, IsFlag);
      i < j <= |src| && Fits(tb, before, Tok(Regex, src[i..j]), Rest(src, j))
  {
    var e := RegexEnd(src, i + 1, false).value;
    SkipFits(src, e, IsFlag);
    SkipStops(src, e, IsFlag);
    hide RegexEnd, Skip, Next, Ended;
    assert src[i..Skip(src, e, IsFlag)][1] == src[i + 1];
  }

  lemma PuncFits(tb: Tables, src: string, i: nat, before: seq<Token>)
    requires i < |src| && !StartsWith(src, i, '/', '/') && !StartsWith(src, i, '/', '*')
    requires src[i] == '/' ==> Ended(tb, before) || RegexEnd(src, i + 1, false).None?
    ensures Fits(tb, before, Tok(Punc, [src[i]]), Rest(src, i + 1))
  {
    ClosableIs(src, i + 1);
    NextIs(src, i + 1, IsMark);
    hide RegexEnd, Next, Ended, Closable;
  }

  lemma LineFits(tb: Tables, src: string, i: nat, before: seq<Token>)
    requires StartsWith(src, i, '/', '/')
    ensures var j := Skip(src, i + 2, InLine); j <= |src| && Fits(tb, before, Tok(Com, src[i..j]), Rest(src, j))
  {
    SkipFits(src, i + 2, InLine);
    hide Skip, Next;
  }

  lemma BlockFits(tb: Tables, src: string, i: nat, before: seq<Token>, j: nat)
    requires StartsWith(src, i, '/', '*') && i + 2 <= j <= |src|
    ensures Fits(tb, before, Tok(Com, src[i..j]), Rest(src, j))
  {
    assert src[i..j][1] == '*';
    hide Next;
  }

  lemma BlankFits(tb: Tables, src: string, i: nat, before: seq<Token>)
    requires i < |src|
    ensures var j := Skip(src, i, IsBlank); j <= |src| && Fits(tb, before, Tok(Ws, src[i..j]), Rest(src, j))
    ensures var j := Skip(src, i, IsNumberPart); j <= |src| && Fits(tb, before, Tok(Num, src[i..j]), Rest(src, j))
  {
    SkipFits(src, i, IsBlank);
    SkipFits(src, i, IsNumberPart);
    hide Skip, Next;
  }

  lemma StringFits(tb: Tables, before: seq<Token>, s: string, rest: string)
    ensures Fits(tb, before, Tok(Str, s), rest) && Fits(tb, before, Newline, rest)
  {
  }

  lemma TurnFits(tb: Tables, src: string, i: nat, before: seq<Token>)
    requires i < |src| && Sensible(tb) && Closed(tb, before)
    ensures var t := OneTurn(tb, src, i, PrevOf(before)); Fits(tb, before, t.token, Rest(src, t.next))
  {
    ContextIs(tb, before);
    var prev := PrevOf(before);
    hide Skip, BlockEnd, StringEnd, RegexEnd, RegexContext, Slice, WordKind, Fits, Ended, Closed, PrevOf, Sensible, Rest;
    var c := src[i];
    if c == '\n' {
      StringFits(tb, before, "", Rest(src, i + 1));
    } else if IsBlank(c) {
      BlankFits(tb, src, i, before);
    } else if StartsWith(src, i, '/', '/') {
      LineFits(tb, src, i, before);
    } else if StartsWith(src, i, '/', '*') {
      BlockFits(tb, src, i, before, BlockEnd(src, i + 2));
    } else if IsQuote(c) {
      var j := StringEnd(src, i + 1, c);
      StringFits(tb, before, Slice(src, i, j), Rest(src, j));
    } else if c == '/' && RegexContext(tb, prev) && RegexEnd(src, i + 1, false).Some? {
      RegexFits(tb, src, i, before);
      SliceIs(src, i, Skip(src, RegexEnd(src, i + 1, false).value, IsFlag));
    } else if tb.isDigit(c) {
      BlankFits(tb, src, i, before);
      SliceIs(src, i, Skip(src, i, IsNumberPart));
    } else if IsIdStart(c) {
      WordFits(tb, src, i, before);
      SliceIs(src, i, Skip(src, i, Word(tb)));
    } else {
      PuncFits(tb, src, i, before);
      SliceIs(src, i, i + 1);
    }
  }

  // ---------------------------------------------------------------- all tokens

  lemma PrevTurn(tb: Tables, src: string, i: nat, before: seq<Token>)
    requires i < |src|
    ensures var t := OneTurn(tb, src, i, PrevOf(before)); t.prev == PrevOf(before + [t.token])
  {
    var prev := PrevOf(before);
    var t := OneTurn(tb, src, i, prev);
    assert (before + [t.token])[..|before|] == before;
    hide Skip, BlockEnd, StringEnd, RegexEnd, RegexContext, Slice;
  }

  predicate AllFit(tb: Tables, before: seq<Token>, ts: seq<Token>) {
    forall k | 0 <= k < |ts| :: Fits(tb, before + ts[..k], ts[k], Flat(ts[k + 1..]))
  }

  lemma FitsCons(tb: Tables, before: seq<Token>, t: Token, ts: seq<Token>)
    requires Fits(tb, before, t, Flat(ts)) && AllFit(tb, before + [t], ts)
    ensures AllFit(tb, before, [t] + ts)
  {
    hide Fits;
    var all := [t] + ts;
    forall k | 0 <= k < |all| ensures Fits(tb, before + all[..k], all[k], Flat(all[k + 1..])) {
      if k == 0 {
        assert before + all[..0] == before && all[1..] == ts;
      } else {
        assert before + all[..k] == before + [t] + ts[..k - 1] && all[k + 1..] == ts[k..];
      }
    }
  }

  lemma {:induction false} LexFits(tb: Tables, src: string, i: nat, before: seq<Token>)
    requires Sensible(tb) && Closed(tb, before) && Lex(tb, src, i, PrevOf(before)).Some?
    ensures AllFit(tb, before, Lex(tb, src, i, PrevOf(before)).value)
    decreases |src| - i
  {
    if i < |src| {
      var t := OneTurn(tb, src, i, PrevOf(before));
      TurnFits(tb, src, i, before);
      PrevTurn(tb, src, i, before);
      LexIsLossless(tb, src, t.next, t.prev);
      MoreTokens(tb, src, t.next, t.prev);
      LexStep(tb, src, i, PrevOf(before));
      hide OneTurn, Fits, Shape, Sensible, AllFit, PrevOf, Lex;
      if t.next < |src| {
        TurnShape(tb, src, i, PrevOf(before), false);
        LexFits(tb, src, t.next, before + [t.token]);
      } else {
        NothingFits(tb, before + [t.token]);
      }
      FitsCons(tb, before, t.token, Lex(tb, src, t.next, t.prev).value);
    }
  }

  lemma NothingFits(tb: Tables, before: seq<Token>)
    ensures AllFit(tb, before, [])
  {
  }

  lemma LexStep(tb: Tables, src: string, i: nat, prev: Option<string>)
    requires i < |src| && Lex(tb, src, i, prev).Some?
    ensures var t := OneTurn(tb, src, i, prev);
      t.next > i && Lex(tb, src, t.next, t.prev).Some? && Lex(tb, src, i, prev).value == [t.token] + Lex(tb, src, t.next, t.prev).value
  {
    hide OneTurn;
  }

  /** EVERY TOKEN FITS ITS PLACE: blanks, numbers, names, flags and line comments are as long as they can be; a name is a
      function exactly if an opening parenthesis follows; a slash opens a regular expression, or does not, as the last
      solid token and the rest of the line say. */
  lemma TokensFit(tb: Tables, src: string)
    requires Sensible(tb) && Lex(tb, src, 0, None).Some?
    ensures AllFit(tb, [], Lex(tb, src, 0, None).value)
  {
    assert PrevOf([]) == None;
    hide PrevOf, AllFit, Sensible;
    LexFits(tb, src, 0, []);
  }

  /** WHERE A SLASH OPENS A REGULAR EXPRESSION: a token that starts with one is a comment exactly if a second slash or a star
      follows; otherwise it is a regular expression exactly if no expression has just ended and a slash closes it on its line;
      otherwise it is the slash alone. An expression ends with a name, a number (unless its last character is a point), a
      regular expression with flags, `)`, `]`, or a word character outside ASCII. */
  lemma SlashExactly(tb: Tables, src: string, k: nat)
    requires Sensible(tb) && Lex(tb, src, 0, None).Some? && k < |Lex(tb, src, 0, None).value|
    requires var t := Lex(tb, src, 0, None).value[k]; t.Tok? && t.text != "" && t.text[0] == '/'
    ensures var ts := Lex(tb, src, 0, None).value;
      var t, behind := ts[k], Flat(ts[k..])[1..];
      && (t.kind == Com <==> Next(behind, IsMark))
      && (!Next(behind, IsMark) ==> (t.kind == Regex <==> !Ended(tb, ts[..k]) && Closable(behind)))
      && (t.kind == Com || t.kind == Regex || t == Tok(Punc, "/"))
  {
    var ts := Lex(tb, src, 0, None).value;
    var t, rest := ts[k], Flat(ts[k + 1..]);
    TokensFit(tb, src);
    LexShape(tb, src, 0, None);
    assert [] + ts[..k] == ts[..k] && Fits(tb, ts[..k], t, rest) && Shape(tb, t, k == |ts| - 1);
    assert ts[k..][1..] == ts[k + 1..] && Flat(ts[k..]) == t.text + rest;
    hide Lex, Sensible, AllFit, Ended;
    SlashKinds(tb, ts[..k], t, rest, k == |ts| - 1);
  }

  lemma SlashKinds(tb: Tables, before: seq<Token>, t: Token, rest: string, last: bool)
    requires Fits(tb, before, t, rest) && Shape(tb, t, last) && t.Tok? && t.text != "" && t.text[0] == '/'
    ensures var behind := (t.text + rest)[1..];
      && (t.kind == Com <==> Next(behind, IsMark))
      && (!Next(behind, IsMark) ==> (t.kind == Regex <==> !Ended(tb, before) && Closable(behind)))
      && (t.kind == Com || t.kind == Regex || t == Tok(Punc, "/"))
  {
    var behind := (t.text + rest)[1..];
    hide Ended, StringText, RegexBody, Called;
    match t.kind
    case Com =>
    case Regex => RegexCloses(t.text, rest);
    case Punc => assert t.text == "/" && behind == rest;
    case Kw => KeywordShape(t.text);
    case _ =>
  }

  lemma RegexCloses(s: string, rest: string)
    requires RegexText(s)
    ensures |s| > 1 && Closable((s + rest)[1..]) && (s + rest)[1..][0] == s[1]
  {
    hide RegexBody;
    var m :| 1 <= m < |s| && s[0] == '/' && s[m] == '/' && RegexBody(s[1..m], false) && All(s[m + 1..], IsFlag);
    var behind := (s + rest)[1..];
    assert behind[..m - 1] == s[1..m] && behind[m - 1] == '/';
  }
}
