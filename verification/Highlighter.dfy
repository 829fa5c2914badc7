/** highlight of scripts/marketplace_site.py, and how its output is read back. */
module Highlighter {
  import opened Basics
  import opened Lexer

  // ---------------------------------------------------------------- the printer

  /** html.escape with quotes. */
  function EscapeChar(c: char): string {
    if c == '&' then "&amp;" else if c == '<' then "&lt;" else if c == '>' then "&gt;"
    else if c == '"' then "&quot;" else if c == '\'' then "&#x27;" else [c]
  }

  function Escape(s: string): string { if s == "" then "" else EscapeChar(s[0]) + Escape(s[1..]) }

  function ClassOf(k: Kind): string {
    match k
    case Com => "src-com" case Str => "src-str" case Regex => "src-regex" case Num => "src-num"
    case Kw => "src-kw" case Func => "src-func" case Id => "src-id" case Punc => "src-punc" case Ws => "src-id"
  }

  const SPAN := "<span class=\""
  const SPAN_END := "\">"
  const END := "</span>"
  const GUTTER := "<span class=\"src-ln\" aria-hidden=\"true\">"
  const CODE := "<span class=\"src-code\">"
  const EMPTY := "&#8203;"

  function Open(k: Kind): string { SPAN + ClassOf(k) + SPAN_END }

  function Span(kind: Kind, text: string): string {
    if kind == Ws then Escape(text) else Open(kind) + Escape(text) + END
  }

  type Line = seq<(Kind, string)>

  /** The lines of a token list: one more than it has newlines. */
  function Lines(ts: seq<Token>): (ls: seq<Line>)
    ensures |ls| > 0
  {
    if ts == [] then [[]]
    else
      var last := ts[|ts| - 1];
      var ls := Lines(ts[..|ts| - 1]);
      if last.Newline? then ls + [[]]
      else ls[|ls| - 1 := ls[|ls| - 1] + [(last.kind, last.text)]]
  }

  function Spans(line: Line): string { if line == [] then "" else Span(line[0].0, line[0].1) + Spans(line[1..]) }

  function Body(line: Line): string { if line == [] then EMPTY else Spans(line) }

  function Decimal(n: nat): string { if n < 10 then [Digit(n)] else Decimal(n / 10) + [Digit(n % 10)] }

  function Digit(d: nat): char
    requires d < 10
  {
    "0123456789"[d]
  }

  function Row(number: nat, line: Line): string { GUTTER + Decimal(number) + END + CODE + Body(line) + END }

  /** "\n".join of the rows, numbered from `number`. */
  function Rows(ls: seq<Line>, number: nat): string {
    if ls == [] then "" else Row(number, ls[0]) + (if |ls| == 1 then "" else "\n" + Rows(ls[1..], number + 1))
  }

  // ---------------------------------------------------------------- the loops of the source

  method Highlight(tb: Tables, src: string) returns (html: Option<string>, count: nat)
    requires Sensible(tb)
    ensures html.Some? <==> Lex(tb, src, 0, None).Some?
    ensures html.Some? ==> var ls := Lines(Lex(tb, src, 0, None).value); html.value == Rows(ls, 1) && count == |ls|
  {
    var toks := Tokenize(tb, src);
    if toks.None? { return None, 0; }
    var ts := toks.value;
    var lines: seq<Line> := [[]];
    for t := 0 to |ts|
      invariant lines == Lines(ts[..t])
    {
      assert ts[..t + 1][..t] == ts[..t];
      if ts[t].Newline? {
        lines := lines + [[]];
      } else {
        lines := lines[|lines| - 1 := lines[|lines| - 1] + [(ts[t].kind, ts[t].text)]];
      }
    }
    assert ts[..|ts|] == ts;
    var rows := "";
    for li := 0 to |lines|
      invariant li == 0 ==> rows == ""
      invariant li > 0 ==> rows + (if li < |lines| then "\n" + Rows(lines[li..], li + 1) else "") == Rows(lines, 1)
    {
      hide *;
      RowsTurn(lines, li, rows);
      var body := SpanLoop(lines[li]);
      rows := rows + (if li > 0 then "\n" else "") + (GUTTER + Decimal(li + 1) + END + CODE + body + END);
    }
    return Some(rows), |lines|;
  }

  lemma RowsTurn(ls: seq<Line>, li: nat, rows: string)
    requires li < |ls|
    ensures Row(li + 1, ls[li]) == GUTTER + Decimal(li + 1) + END + CODE + Body(ls[li]) + END
    ensures var row := Row(li + 1, ls[li]); var tail := if li + 1 < |ls| then "\n" + Rows(ls[li + 1..], li + 2) else "";
      && (li > 0 ==> rows + ("\n" + Rows(ls[li..], li + 1)) == rows + "\n" + row + tail)
      && (li == 0 ==> Rows(ls, 1) == "" + "" + row + tail)
  {
    assert Row(li + 1, ls[li]) == GUTTER + Decimal(li + 1) + END + CODE + Body(ls[li]) + END;
    hide Row;
    assert ls[0..] == ls && ls[li..][1..] == ls[li + 1..];
    var row, tail := Row(li + 1, ls[li]), if li + 1 < |ls| then "\n" + Rows(ls[li + 1..], li + 2) else "";
    assert Rows(ls[li..], li + 1) == row + tail;
    assert rows + ("\n" + (row + tail)) == rows + "\n" + row + tail;
    assert "" + "" + row == row;
  }

  /** The spans of one line, or the marker of an empty one. */
  method SpanLoop(line: Line) returns (body: string)
    ensures body == Body(line)
  {
    hide *;
    body := "";
    SpansTurn(line, 0, body);
    for k := 0 to |line|
      invariant body + Spans(line[k..]) == Spans(line)
    {
      SpansTurn(line, k, body);
      var kind, text := line[k].0, line[k].1;
      body := body + (if kind == Ws then Escape(text) else Open(kind) + Escape(text) + END);
    }
    SpansTurn(line, |line|, body);
    if |line| == 0 { body := EMPTY; }
  }

  lemma SpansTurn(line: Line, k: nat, body: string)
    requires k <= |line|
    ensures k < |line| ==>
      var kind, text := line[k].0, line[k].1;
      body + Spans(line[k..]) == (body + (if kind == Ws then Escape(text) else Open(kind) + Escape(text) + END)) + Spans(line[k + 1..])
    ensures k == |line| ==> body + Spans(line[k..]) == body
    ensures "" + Spans(line[0..]) == Spans(line)
    ensures Body(line) == if |line| == 0 then EMPTY else Spans(line)
  {
    hide Escape, Open;
    assert line[0..] == line;
    if k < |line| {
      assert line[k..][1..] == line[k + 1..];
      Assoc(body, Span(line[k].0, line[k].1), Spans(line[k + 1..]));
    }
  }

  // ---------------------------------------------------------------- a reader

  /** What follows the first `>`. */
  function Cut(h: string): (r: string)
    ensures |r| <= |h| && (h != "" ==> |r| < |h|)
  {
    if h == "" then "" else if h[0] == '>' then h[1..] else Cut(h[1..])
  }

  /** The text a browser shows, without the gutter and without the markers of empty lines. */
  function Read(h: string): string
    decreases |h|
  {
    if h == "" then ""
    else if HasPrefix(h, GUTTER) then Read(Cut(Cut(h)))
    else if h[0] == '<' then Read(Cut(h))
    else if HasPrefix(h, EMPTY) then Read(h[7..])
    else if HasPrefix(h, "&amp;") then "&" + Read(h[5..])
    else if HasPrefix(h, "&lt;") then "<" + Read(h[4..])
    else if HasPrefix(h, "&gt;") then ">" + Read(h[4..])
    else if HasPrefix(h, "&quot;") then "\"" + Read(h[6..])
    else if HasPrefix(h, "&#x27;") then "'" + Read(h[6..])
    else [h[0]] + Read(h[1..])
  }

  lemma {:induction false} CutTag(u: string, rest: string)
    requires '>' !in u
    ensures Cut(u + ">" + rest) == rest
  {
    var h := u + ">" + rest;
    if u == "" {
      assert h[1..] == rest;
    } else {
      assert h[1..] == u[1..] + ">" + rest && h[0] == u[0];
      CutTag(u[1..], rest);
    }
  }

  /** A tag that is not the gutter's is dropped. */
  lemma ReadTag(u: string, rest: string)
    requires u != "" && u[0] == '<' && '>' !in u && !HasPrefix(u + ">" + rest, GUTTER)
    ensures Read(u + ">" + rest) == Read(rest)
  {
    CutTag(u, rest);
    hide HasPrefix, Cut;
  }

  lemma ReadEnd(rest: string)
    ensures Read(END + rest) == Read(rest)
  {
    assert END == "</span" + ">";
    assert (END + rest)[1] == '/' && GUTTER[1] == 's';
    Differs(END + rest, GUTTER, 1);
    assert '>' !in "</span";
    hide Read, HasPrefix;
    ReadTag("</span", rest);
  }

  lemma GutterAt()
    ensures |GUTTER| > 17 && GUTTER[1] == 's' && GUTTER[17] == 'l'
  {
  }

  lemma ClassTag(u: string, rest: string)
    requires |u| > 17 && u[0] == '<' && u[17] != 'l' && '>' !in u
    ensures Read(u + ">" + rest) == Read(rest)
  {
    GutterAt();
    hide Read, HasPrefix;
    Differs(u + ">" + rest, GUTTER, 17);
    ReadTag(u, rest);
  }

  lemma ReadCode(rest: string)
    ensures Read(CODE + rest) == Read(rest)
  {
    var u := "<span class=\"src-code\"";
    assert CODE == u + ">" && u[17] == 'c' && '>' !in u;
    hide Read;
    ClassTag(u, rest);
  }

  lemma ReadOpen(k: Kind, rest: string)
    ensures Read(Open(k) + rest) == Read(rest)
  {
    var u := SPAN + ClassOf(k) + "\"";
    assert |SPAN| == 13 && u[17] == ClassOf(k)[4] && u[17] != 'l' && '>' !in u && u[0] == '<';
    assert SPAN_END == "\"" + ">";
    assert Open(k) + rest == u + ">" + rest;
    hide Read, Open;
    ClassTag(u, rest);
  }

  lemma {:induction false} DecimalPlain(n: nat)
    ensures '>' !in Decimal(n) && '<' !in Decimal(n)
  {
    if n >= 10 {
      DecimalPlain(n / 10);
    }
  }

  lemma ReadGutter(n: nat, rest: string)
    ensures Read(GUTTER + Decimal(n) + END + rest) == Read(rest)
  {
    var u := "<span class=\"src-ln\" aria-hidden=\"true\"";
    var v := Decimal(n) + "</span";
    assert GUTTER == u + ">" && '>' !in u;
    DecimalPlain(n);
    assert '>' !in "</span" && END == "</span" + ">";
    var tail := v + ">" + rest;
    var h := GUTTER + tail;
    assert h == GUTTER + Decimal(n) + END + rest;
    Starts(GUTTER, tail);
    CutTag(u, tail);
    CutTag(v, rest);
    assert h != "";
    hide HasPrefix, Cut, Decimal;
  }

  lemma ReadEmpty(rest: string)
    ensures Read(EMPTY + rest) == Read(rest)
  {
    var h := EMPTY + rest;
    assert h[0] == '&' && |EMPTY| == 7;
    assert GUTTER[0] == '<';
    Differs(h, GUTTER, 0);
    Starts(EMPTY, rest);
    hide HasPrefix;
  }

  lemma ReadChar(c: char, rest: string)
    ensures Read(EscapeChar(c) + rest) == [c] + Read(rest)
  {
    var e := EscapeChar(c);
    var h := e + rest;
    assert h[0] == e[0] && e[0] != '<' && (e[0] == '&' ==> |e| > 2 && h[1] == e[1] && h[2] == e[2]);
    Starts(e, rest);
    hide HasPrefix, EscapeChar;
    Differs(h, GUTTER, 0);
    var i := if e[0] == '&' then 1 else 0;
    Differs(h, EMPTY, if c == '\'' then 2 else i);
    if c != '&' {
      Differs(h, "&amp;", i);
      if c != '<' {
        Differs(h, "&lt;", i);
        if c != '>' {
          Differs(h, "&gt;", i);
          if c != '"' {
            Differs(h, "&quot;", i);
            if c != '\'' {
              Differs(h, "&#x27;", i);
            }
          }
        }
      }
    }
  }

  lemma {:induction false} ReadEscaped(s: string, rest: string)
    ensures Read(Escape(s) + rest) == s + Read(rest)
  {
    hide Read, EscapeChar;
    if s == "" {
      assert "" + rest == rest;
    } else {
      ReadEscaped(s[1..], rest);
      ReadChar(s[0], Escape(s[1..]) + rest);
      Assoc(EscapeChar(s[0]), Escape(s[1..]), rest);
      Assoc([s[0]], s[1..], Read(rest));
      assert s == [s[0]] + s[1..];
    }
  }

  // ---------------------------------------------------------------- the printer is undone

  function LineText(line: Line): string { if line == [] then "" else line[0].1 + LineText(line[1..]) }

  function Joined(ls: seq<Line>): string
    requires ls != []
  {
    if |ls| == 1 then LineText(ls[0]) else LineText(ls[0]) + "\n" + Joined(ls[1..])
  }

  lemma ReadSpan(kind: Kind, text: string, rest: string)
    ensures Read(Span(kind, text) + rest) == text + Read(rest)
  {
    hide Read, Escape, Open;
    ReadEscaped(text, rest);
    ReadEscaped(text, END + rest);
    ReadEnd(rest);
    ReadOpen(kind, Escape(text) + (END + rest));
    Assoc(Open(kind) + Escape(text), END, rest);
    Assoc(Open(kind), Escape(text), END + rest);
  }

  lemma {:induction false} ReadSpans(line: Line, rest: string)
    ensures Read(Spans(line) + rest) == LineText(line) + Read(rest)
  {
    hide Read, Span;
    if line == [] {
      assert "" + rest == rest;
    } else {
      ReadSpans(line[1..], rest);
      ReadSpan(line[0].0, line[0].1, Spans(line[1..]) + rest);
      Assoc(Span(line[0].0, line[0].1), Spans(line[1..]), rest);
      Assoc(line[0].1, LineText(line[1..]), Read(rest));
    }
  }

  lemma ReadRow(n: nat, line: Line, rest: string)
    ensures Read(Row(n, line) + rest) == LineText(line) + Read(rest)
  {
    hide Read, Spans, Decimal;
    var tail := END + rest;
    ReadEnd(rest);
    ReadSpans(line, tail);
    if line == [] { ReadEmpty(tail); }
    ReadCode(Body(line) + tail);
    ReadGutter(n, CODE + (Body(line) + tail));
    RowSplit(n, line, rest);
  }

  lemma RowSplit(n: nat, line: Line, rest: string)
    ensures Row(n, line) + rest == GUTTER + Decimal(n) + END + (CODE + (Body(line) + (END + rest)))
  {
    hide Decimal, Body;
    var a := GUTTER + Decimal(n) + END;
    Assoc(a, CODE, Body(line));
    Assoc(a, CODE + Body(line), END);
    Assoc(CODE, Body(line), END);
    Assoc(a, CODE + (Body(line) + END), rest);
    Assoc(CODE, Body(line) + END, rest);
    Assoc(Body(line), END, rest);
  }

  lemma ReadNewline(rest: string)
    ensures Read("\n" + rest) == "\n" + Read(rest)
  {
    ReadChar('\n', rest);
    assert EscapeChar('\n') == "\n";
    hide Read;
  }

  lemma {:induction false} ReadRows(ls: seq<Line>, n: nat)
    requires ls != []
    ensures Read(Rows(ls, n)) == Joined(ls)
  {
    hide Read, Row, LineText;
    if |ls| == 1 {
      ReadRow(n, ls[0], "");
      ReadNothing();
      assert Row(n, ls[0]) + "" == Row(n, ls[0]) && LineText(ls[0]) + "" == LineText(ls[0]);
    } else {
      var rest := Rows(ls[1..], n + 1);
      ReadRows(ls[1..], n + 1);
      ReadRow(n, ls[0], "\n" + rest);
      ReadNewline(rest);
      Assoc(LineText(ls[0]), "\n", Joined(ls[1..]));
    }
  }

  lemma ReadNothing()
    ensures Read("") == ""
  {
  }

  function Newlines(ts: seq<Token>): nat { if ts == [] then 0 else (if ts[0].Newline? then 1 else 0) + Newlines(ts[1..]) }

  lemma {:induction false} NewlinesLast(ts: seq<Token>)
    requires ts != []
    ensures var last := ts[|ts| - 1];
      && Newlines(ts) == Newlines(ts[..|ts| - 1]) + (if last.Newline? then 1 else 0)
      && Flat(ts) == Flat(ts[..|ts| - 1]) + Spelling(last)
  {
    if |ts| > 1 {
      NewlinesLast(ts[1..]);
      assert ts[1..][..|ts| - 2] == ts[..|ts| - 1][1..];
      Assoc(Spelling(ts[0]), Flat(ts[1..][..|ts| - 2]), Spelling(ts[|ts| - 1]));
    }
    hide Spelling;
  }

  lemma {:induction false} LineTextAppend(line: Line, kind: Kind, text: string)
    ensures LineText(line + [(kind, text)]) == LineText(line) + text
  {
    if line == [] {
      assert text + "" == text && "" + text == text;
    } else {
      assert (line + [(kind, text)])[1..] == line[1..] + [(kind, text)];
      LineTextAppend(line[1..], kind, text);
      Assoc(line[0].1, LineText(line[1..]), text);
    }
  }

  lemma {:induction false} JoinedAppend(ls: seq<Line>, kind: Kind, text: string)
    requires ls != []
    ensures var last := |ls| - 1; Joined(ls[last := ls[last] + [(kind, text)]]) == Joined(ls) + text
    ensures Joined(ls + [[]]) == Joined(ls) + "\n"
  {
    var last := |ls| - 1;
    hide LineText;
    LineTextAppend(ls[last], kind, text);
    LineTextEmpty();
    if |ls| > 1 {
      JoinedAppend(ls[1..], kind, text);
      assert ls[last := ls[last] + [(kind, text)]][1..] == ls[1..][last - 1 := ls[1..][last - 1] + [(kind, text)]];
      assert (ls + [[]])[1..] == ls[1..] + [[]];
      Assoc(LineText(ls[0]) + "\n", Joined(ls[1..]), text);
      Assoc(LineText(ls[0]) + "\n", Joined(ls[1..]), "\n");
    } else {
      assert (ls + [[]])[1..] == [[]];
      assert LineText(ls[0]) + "\n" + "" == LineText(ls[0]) + "\n";
    }
  }

  lemma LineTextEmpty()
    ensures LineText([]) == ""
  {
  }

  /** Cutting the tokens into lines keeps their text, and there is one line more than there are newlines. */
  lemma {:induction false} LinesKeep(ts: seq<Token>)
    ensures Joined(Lines(ts)) == Flat(ts) && |Lines(ts)| == 1 + Newlines(ts)
  {
    hide LineText, Joined, Flat, Newlines;
    if ts == [] {
      NoLines();
    } else {
      var last, before := ts[|ts| - 1], ts[..|ts| - 1];
      LinesKeep(before);
      NewlinesLast(ts);
      if last.Newline? {
        JoinedAppend(Lines(before), Ws, "");
      } else {
        JoinedAppend(Lines(before), last.kind, last.text);
      }
    }
  }

  lemma NoLines()
    ensures Joined([[]]) == "" && Flat([]) == "" && Newlines([]) == 0
  {
  }

  /** THE HIGHLIGHTER UNDOES: reading the page back gives the source, and the count is that of its lines of tokens. */
  lemma ReadHighlighted(tb: Tables, src: string)
    requires Lex(tb, src, 0, None).Some?
    ensures var ts := Lex(tb, src, 0, None).value;
      Read(Rows(Lines(ts), 1)) == src && |Lines(ts)| == 1 + Newlines(ts)
  {
    hide *;
    var ts := Lex(tb, src, 0, None).value;
    LexIsLossless(tb, src, 0, None);
    RestAll(src);
    LinesKeep(ts);
    ReadRows(Lines(ts), 1);
  }

  lemma RestAll(src: string)
    ensures Rest(src, 0) == src
  {
  }

  // ---------------------------------------------------------------- the gutter and the classes

  /** The number a text starts with, after the digits already read. */
  function Leading(h: string, read: nat): nat {
    if h != "" && '0' <= h[0] <= '9' then Leading(h[1..], 10 * read + (h[0] as int - '0' as int)) else read
  }

  /** The numbers in the gutter, from top to bottom. */
  function Numbers(h: string): seq<nat> {
    if h == "" then []
    else if HasPrefix(h, GUTTER) then [Leading(h[|GUTTER|..], 0)] + Numbers(h[1..])
    else Numbers(h[1..])
  }

  lemma {:induction false} LeadingDecimal(n: nat, rest: string)
    ensures Leading(Decimal(n) + rest, 0) == Leading(rest, n)
  {
    var tail := [Digit(n % 10)] + rest;
    assert tail[0] == Digit(n % 10) && tail[1..] == rest && Digit(n % 10) as int - '0' as int == n % 10;
    assert Leading(tail, n / 10) == Leading(rest, 10 * (n / 10) + n % 10);
    if n >= 10 {
      assert Decimal(n) + rest == Decimal(n / 10) + tail;
      LeadingDecimal(n / 10, tail);
    } else {
      assert Decimal(n) + rest == tail;
    }
  }

  lemma NumberRead(n: nat, rest: string)
    ensures Leading(Decimal(n) + END + rest, 0) == n
  {
    LeadingDecimal(n, END + rest);
    Assoc(Decimal(n), END, rest);
    assert (END + rest)[0] == '<';
    hide Decimal;
  }

  lemma {:induction false} NoGutterIn(u: string, rest: string)
    requires '<' !in u
    ensures Numbers(u + rest) == Numbers(rest)
  {
    if u == "" {
      assert u + rest == rest;
    } else {
      assert (u + rest)[0] != '<' && (u + rest)[1..] == u[1..] + rest && GUTTER[0] == '<';
      Differs(u + rest, GUTTER, 0);
      hide HasPrefix, Leading;
      NoGutterIn(u[1..], rest);
    }
  }

  /** A tag that is not the gutter's. */
  lemma OtherTag(v: string, rest: string, i: nat)
    requires '<' !in v && i < |v| && i + 1 < |GUTTER| && v[i] != GUTTER[i + 1]
    ensures Numbers("<" + v + rest) == Numbers(rest)
  {
    var h := "<" + v + rest;
    assert h[i + 1] == v[i] && h[1..] == v + rest;
    hide GUTTER, HasPrefix, Leading;
    Differs(h, GUTTER, i + 1);
    NoGutterIn(v, rest);
  }

  lemma GutterForm() returns (v: string)
    ensures GUTTER == "<" + v && '<' !in v
  {
    v := "span class=\"src-ln\" aria-hidden=\"true\">";
  }

  lemma EndNumbers(rest: string)
    ensures Numbers(END + rest) == Numbers(rest)
  {
    GutterAt();
    var v := "/span>";
    assert END == "<" + v && '<' !in v && v[0] == '/';
    hide *;
    OtherTag(v, rest, 0);
  }

  lemma CodeNumbers(rest: string)
    ensures Numbers(CODE + rest) == Numbers(rest)
  {
    GutterAt();
    var v := "span class=\"src-code\">";
    assert CODE == "<" + v && '<' !in v && v[16] == 'c';
    hide *;
    OtherTag(v, rest, 16);
  }

  lemma OpenForm(k: Kind) returns (v: string)
    ensures Open(k) == "<" + v && '<' !in v && |v| > 16 && v[16] != 'l'
  {
    var u := "span class=\"";
    v := u + ClassOf(k) + "\">";
    assert SPAN == "<" + u && |u| == 12 && v[16] == ClassOf(k)[4];
    ClassHasNone(k);
    assert '<' !in u && '<' !in "\">";
  }

  lemma OpenNumbers(k: Kind, rest: string)
    ensures Numbers(Open(k) + rest) == Numbers(rest)
  {
    GutterAt();
    var v := OpenForm(k);
    hide *;
    OtherTag(v, rest, 16);
  }

  lemma {:induction false} SpansNumbers(line: Line, rest: string)
    ensures Numbers(Spans(line) + rest) == Numbers(rest)
  {
    hide Numbers, Escape, Open;
    if line == [] {
      assert Spans(line) + rest == rest;
    } else {
      var kind, text := line[0].0, line[0].1;
      SpansNumbers(line[1..], rest);
      var tail := Spans(line[1..]) + rest;
      EscapedHasNone(text);
      NoGutterIn(Escape(text), tail);
      NoGutterIn(Escape(text), END + tail);
      EndNumbers(tail);
      OpenNumbers(kind, Escape(text) + (END + tail));
      Assoc(Span(kind, text), Spans(line[1..]), rest);
      Assoc(Open(kind) + Escape(text), END, tail);
      Assoc(Open(kind), Escape(text), END + tail);
    }
  }

  lemma {:induction false} EscapedHasNone(s: string)
    ensures '<' !in Escape(s)
  {
    if s != "" {
      EscapedHasNone(s[1..]);
      assert '<' !in EscapeChar(s[0]);
      hide EscapeChar;
    }
  }

  lemma GutterNumbers(n: nat, rest: string)
    ensures Numbers(GUTTER + Decimal(n) + END + rest) == [n] + Numbers(rest)
  {
    var g := GutterForm();
    var tail := Decimal(n) + END + rest;
    NumberRead(n, rest);
    DecimalPlain(n);
    Starts(GUTTER, tail);
    hide GUTTER, END, Decimal, HasPrefix, Leading;
    var h := GUTTER + tail;
    assert h == GUTTER + Decimal(n) + END + rest && h[1..] == g + tail;
    NoGutterIn(g, tail);
    Assoc(Decimal(n), END, rest);
    NoGutterIn(Decimal(n), END + rest);
    EndNumbers(rest);
  }

  lemma RowNumbers(n: nat, line: Line, rest: string)
    ensures Numbers(Row(n, line) + rest) == [n] + Numbers(rest)
  {
    hide Numbers, Spans, Decimal;
    var tail := END + rest;
    EndNumbers(rest);
    SpansNumbers(line, tail);
    if line == [] {
      assert '<' !in EMPTY;
      NoGutterIn(EMPTY, tail);
    }
    CodeNumbers(Body(line) + tail);
    GutterNumbers(n, CODE + (Body(line) + tail));
    RowSplit(n, line, rest);
  }

  /** THE GUTTER COUNTS THE LINES, from `n` on. */
  lemma {:induction false} RowsNumbered(ls: seq<Line>, n: nat)
    ensures |Numbers(Rows(ls, n))| == |ls| && forall i | 0 <= i < |ls| :: Numbers(Rows(ls, n))[i] == n + i
  {
    hide Row, Numbers;
    if ls == [] {
      NoNumbers();
    } else if |ls| == 1 {
      RowNumbers(n, ls[0], "");
      NoNumbers();
      assert Row(n, ls[0]) + "" == Row(n, ls[0]);
    } else {
      var rest := Rows(ls[1..], n + 1);
      RowsNumbered(ls[1..], n + 1);
      RowNumbers(n, ls[0], "\n" + rest);
      NoGutterIn("\n", rest);
    }
  }

  lemma NoNumbers()
    ensures Numbers("") == []
  {
  }

  /** The classes of the style sheet, and what html.escape writes. */
  lemma ClassesAndReferences()
    ensures ClassOf(Com) == "src-com" && ClassOf(Str) == "src-str" && ClassOf(Regex) == "src-regex" && ClassOf(Num) == "src-num"
    ensures ClassOf(Kw) == "src-kw" && ClassOf(Func) == "src-func" && ClassOf(Id) == "src-id" && ClassOf(Punc) == "src-punc"
    ensures EscapeChar('&') == "&amp;" && EscapeChar('<') == "&lt;" && EscapeChar('>') == "&gt;"
    ensures EscapeChar('"') == "&quot;" && EscapeChar('\'') == "&#x27;"
  {
  }

  // ---------------------------------------------------------------- no markup from the source

  function Angles(h: string): nat { if h == "" then 0 else (if h[0] == '<' then 1 else 0) + Angles(h[1..]) }

  lemma {:induction false} AnglesConcat(a: string, b: string)
    ensures Angles(a + b) == Angles(a) + Angles(b)
  {
    if a == "" {
      assert a + b == b;
    } else {
      assert (a + b)[1..] == a[1..] + b;
      AnglesConcat(a[1..], b);
    }
  }

  lemma {:induction false} NoAngles(h: string)
    requires '<' !in h
    ensures Angles(h) == 0
  {
    if h != "" {
      NoAngles(h[1..]);
    }
  }

  lemma OneAngle(u: string)
    requires '<' !in u
    ensures Angles("<" + u) == 1
  {
    AnglesConcat("<", u);
    NoAngles(u);
    assert Angles("<") == 1;
  }

  lemma FixedAngles()
    ensures Angles(END) == 1 && Angles(CODE) == 1
  {
    var a, b := "/span>", "span class=\"src-code\">";
    assert '<' !in a && '<' !in b && END == "<" + a && CODE == "<" + b;
    hide Angles;
    OneAngle(a);
    OneAngle(b);
  }

  lemma GutterAngles()
    ensures Angles(GUTTER) == 1
  {
    var v := GutterForm();
    hide Angles, GUTTER;
    OneAngle(v);
  }

  lemma EmptyAngles()
    ensures Angles(EMPTY) == 0
  {
    assert '<' !in EMPTY;
    hide Angles;
    NoAngles(EMPTY);
  }

  lemma ClassHasNone(k: Kind)
    ensures '<' !in ClassOf(k)
  {
  }

  lemma OpenAngles(k: Kind)
    ensures Angles(Open(k)) == 1
  {
    ClassHasNone(k);
    hide Angles, ClassOf;
    var a := "span class=\"" + ClassOf(k) + SPAN_END;
    assert '<' !in a && Open(k) == "<" + a;
    OneAngle(a);
  }

  lemma {:induction false} EscapeAngles(s: string)
    ensures Angles(Escape(s)) == 0
  {
    if s != "" {
      assert '<' !in EscapeChar(s[0]);
      hide EscapeChar;
      NoAngles(EscapeChar(s[0]));
      EscapeAngles(s[1..]);
      AnglesConcat(EscapeChar(s[0]), Escape(s[1..]));
    }
  }

  /** Spans that get a tag of their own. */
  function Tagged(line: Line): nat { if line == [] then 0 else (if line[0].0 == Ws then 0 else 1) + Tagged(line[1..]) }

  function AllTagged(ls: seq<Line>): nat { if ls == [] then 0 else Tagged(ls[0]) + AllTagged(ls[1..]) }

  lemma {:induction false} SpansAngles(line: Line)
    ensures Angles(Spans(line)) == 2 * Tagged(line)
  {
    if line != [] {
      var kind, text := line[0].0, line[0].1;
      hide Angles, Escape, Open;
      SpansAngles(line[1..]);
      AnglesConcat(Span(kind, text), Spans(line[1..]));
      EscapeAngles(text);
      OpenAngles(kind);
      FixedAngles();
      AnglesConcat(Open(kind) + Escape(text), END);
      AnglesConcat(Open(kind), Escape(text));
    } else {
      assert Angles("") == 0;
    }
  }

  lemma RowAngles(n: nat, line: Line)
    ensures Angles(Row(n, line)) == 4 + 2 * Tagged(line)
  {
    hide Angles, Decimal, Spans;
    SpansAngles(line);
    FixedAngles();
    GutterAngles();
    EmptyAngles();
    DecimalPlain(n);
    NoAngles(Decimal(n));
    AnglesConcat(GUTTER + Decimal(n) + END + CODE + Body(line), END);
    AnglesConcat(GUTTER + Decimal(n) + END + CODE, Body(line));
    AnglesConcat(GUTTER + Decimal(n) + END, CODE);
    AnglesConcat(GUTTER + Decimal(n), END);
    AnglesConcat(GUTTER, Decimal(n));
  }

  /** EVERY `<` OF THE PAGE IS THE PRINTER'S OWN: four for each line and two for each token that gets a class. */
  lemma {:induction false} RowsAngles(ls: seq<Line>, n: nat)
    ensures Angles(Rows(ls, n)) == 4 * |ls| + 2 * AllTagged(ls)
  {
    if ls == [] {
      assert Angles("") == 0;
    } else {
      hide Row, Angles, Tagged;
      RowAngles(n, ls[0]);
      if |ls| > 1 {
        var rest := Rows(ls[1..], n + 1);
        RowsAngles(ls[1..], n + 1);
        AnglesConcat(Row(n, ls[0]), "\n" + rest);
        AnglesConcat("\n", rest);
        NoAngles("\n");
      } else {
        AnglesConcat(Row(n, ls[0]), "");
        NoAngles("");
      }
    }
  }
}
