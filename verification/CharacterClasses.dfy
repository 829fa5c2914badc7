/** The character classes of the sources, spelled out, and the tables that are written as literals there. */
module CharacterClasses {
  import opened Basics
  import opened Text
  import TagRewriting
  import Base64
  import Hex
  import Taint
  import Luhn
  import UriEncoding
  import Lexer

  const SMALL := "abcdefghijklmnopqrstuvwxyz"
  const CAPITAL := "ABCDEFGHIJKLMNOPQRSTUVWXYZ"

  lemma Letters(c: char)
    ensures c in SMALL <==> 'a' <= c <= 'z'
    ensures c in CAPITAL <==> 'A' <= c <= 'Z'
    ensures c in "0123456789" <==> '0' <= c <= '9'
  {
  }

  /** A UTF-16 unit that is one of the characters of an ASCII string. */
  predicate Among(c: Unit, s: string) { c < 0x80 && c as char in s }

  lemma Units(c: Unit)
    ensures Among(c, SMALL) <==> 'a' as int <= c <= 'z' as int
    ensures Among(c, CAPITAL) <==> 'A' as int <= c <= 'Z' as int
    ensures Among(c, "0123456789") <==> '0' as int <= c <= '9' as int
  {
    if c < 0x80 {
      Letters(c as char);
    }
    hide SMALL, CAPITAL;
  }

  /** [a-z0-9_] under the i flag. */
  lemma TagNameCharacters(c: Unit)
    ensures TagRewriting.IsName(c) <==> Among(c, SMALL) || Among(c, CAPITAL) || Among(c, "0123456789") || Among(c, "_")
  {
    Units(c);
    hide SMALL, CAPITAL;
  }

  /** [\w$] */
  lemma IdentifierCharacters(c: Unit)
    ensures Taint.IsIdent(c) <==> Among(c, SMALL) || Among(c, CAPITAL) || Among(c, "0123456789") || Among(c, "_$")
  {
    Units(c);
    hide SMALL, CAPITAL;
  }

  /** [^A-Za-z0-9+/] is what the base64 decoder drops. */
  lemma Base64Characters(c: Unit)
    ensures Base64.InAlphabet(c) <==> Among(c, SMALL) || Among(c, CAPITAL) || Among(c, "0123456789") || Among(c, "+/")
  {
    Units(c);
    hide SMALL, CAPITAL;
  }

  /** [^0-9a-fA-F] is what the hexadecimal decoder drops. */
  lemma HexCharacters(c: Unit)
    ensures Hex.IsHexDigit(c) <==> Among(c, "0123456789") || Among(c, "abcdef") || Among(c, "ABCDEF")
  {
    Units(c);
    hide SMALL, CAPITAL;
  }

  /** The unreserved characters of section 2.3 of RFC 3986. */
  lemma UnreservedCharacters(c: Unit)
    ensures UriEncoding.IsUnreserved(c) <==> Among(c, SMALL) || Among(c, CAPITAL) || Among(c, "0123456789") || Among(c, "-_.~")
  {
    Units(c);
    hide SMALL, CAPITAL;
  }

  /** [ -] is what is removed from a card number, and \D is what may not be left. */
  lemma CardCharacters(c: Unit)
    ensures !Luhn.Kept(c) <==> Among(c, " -")
    ensures Luhn.IsDigit(c) <==> Among(c, "0123456789")
  {
    Units(c);
    hide SMALL, CAPITAL;
  }

  /** toLowerCase takes the ASCII capitals to the small letters in their order and leaves all other units alone. */
  lemma LowerCase(c: Unit, i: nat)
    ensures i < 26 ==> LowerUnit(CAPITAL[i] as int) == SMALL[i] as int
    ensures !Among(c, CAPITAL) ==> LowerUnit(c) == c
  {
    Units(c);
  }

  // ---------------------------------------------------------------- tables

  /** B64 */
  lemma Base64Letters(k: Base64.Sextet)
    ensures Base64.Letter(k) ==
      (if k < 26 then CAPITAL[k] else if k < 52 then SMALL[k - 26] else "0123456789+/"[k - 52]) as int
    ensures Base64.PAD == '=' as int
  {
  }

  /** toString(16), and toString(16).toUpperCase(). */
  lemma HexLetters(d: int)
    requires 0 <= d < 16
    ensures Hex.Digit(d) == "0123456789abcdef"[d] as int
    ensures UriEncoding.UpperHex(d) == "0123456789ABCDEF"[d] as int && UriEncoding.PERCENT == '%' as int
  {
  }

  // ---------------------------------------------------------------- the tokenizer's classes

  lemma LexerMarks(c: char)
    ensures Lexer.IsBlank(c) <==> c in " \t"
    ensures Lexer.IsQuote(c) <==> c in "\"'`"
    ensures Lexer.InLine(c) <==> c !in "\n"
    ensures Lexer.IsAsciiDigit(c) <==> c in "0123456789"
    ensures Lexer.IsNumberPart(c) <==> c in "0123456789" || c in "abcdef" || c in "ABCDEF" || c in "xX._"
  {
    Letters(c);
    hide SMALL, CAPITAL;
  }

  /** [A-Za-z_$], and [a-z] under re.I with the four characters outside ASCII that fold to a letter. */
  lemma LexerLetters(c: char)
    ensures Lexer.IsIdStart(c) <==> c in SMALL || c in CAPITAL || c in "_$"
    ensures Lexer.IsFlag(c) <==> c in SMALL || c in CAPITAL || c in "\U{0130}\U{0131}\U{017F}\U{212A}"
  {
    Letters(c);
    hide SMALL, CAPITAL;
  }

  /** The forty-one keywords, by their length. */
  lemma Keywords(w: string)
    ensures w in Lexer.KEYWORDS <==>
      || w in {"as", "do", "if", "in", "of"}
      || w in {"for", "let", "new", "try", "var"}
      || w in {"case", "else", "from", "null", "this", "true", "void"}
      || w in {"async", "await", "break", "catch", "class", "const", "false", "super", "throw", "while", "yield"}
      || w in {"delete", "export", "import", "return", "switch", "typeof"}
      || w in {"default", "extends", "finally"}
      || w in {"continue", "function"}
      || w in {"undefined"}
      || w in {"instanceof"}
  {
  }
}
