/** String literals of JSON as the two programs print them, and the reading of
    RFC 8259 section 7 that undoes both. */
module JsonText {
  import opened Outcomes
  import opened Numerals

  const QUOTE: char := '\"'
  const BACKSLASH: char := '\\'

  /** Which escapes a printer uses beyond the mandatory ones. */
  datatype Style =
    | Plain     // Python's json.dumps with ensure_ascii=False
    | HtmlSafe  // Go's encoding/json: also <, >, & and the two Unicode line separators

  predicate NeedsHex(c: char, style: Style) {
    || c < ' '
    || (style.HtmlSafe? && (c == '<' || c == '>' || c == '&' || c as int == 0x2028 || c as int == 0x2029))
  }

  /** The letter of a two-character escape, if the character has one. */
  function ShortEscape(c: char): Option<char> {
    if c == QUOTE || c == BACKSLASH then Some(c)
    else if c as int == 8 then Some('b')
    else if c as int == 9 then Some('t')
    else if c as int == 10 then Some('n')
    else if c as int == 12 then Some('f')
    else if c as int == 13 then Some('r')
    else None
  }

  function EscapeChar(c: char, style: Style): string {
    if ShortEscape(c).Some? then [BACKSLASH, ShortEscape(c).value]
    else if NeedsHex(c, style) then [BACKSLASH, 'u'] + Padded(c as int, 16, 4)
    else [c]
  }

  function Escape(s: string, style: Style): string {
    if s == "" then "" else EscapeChar(s[0], style) + Escape(s[1..], style)
  }

  function StringToken(s: string, style: Style): string {
    [QUOTE] + Escape(s, style) + [QUOTE]
  }

  // ---------------------------------------------------------------------- reading

  function Unshort(c: char): Option<char> {
    if c == QUOTE || c == BACKSLASH || c == '/' then Some(c)
    else if c == 'b' then Some(8 as char)
    else if c == 't' then Some(9 as char)
    else if c == 'n' then Some(10 as char)
    else if c == 'f' then Some(12 as char)
    else if c == 'r' then Some(13 as char)
    else None
  }

  /** One character and what follows it; none at a quote, at the end, or on bad text. */
  function ReadChar(t: string): (r: Option<(char, string)>)
    ensures r.Some? ==> |r.value.1| < |t|
  {
    if t == "" || t[0] == QUOTE || t[0] < ' ' then None
    else if t[0] != BACKSLASH then Some((t[0], t[1..]))
    else if |t| < 2 then None
    else if t[1] == 'u' then
      if |t| >= 6 && AllHex(t[2..6]) && Value(t[2..6], 16) < 0xD800 then
        Some((Value(t[2..6], 16) as char, t[6..]))
      else None
    else if Unshort(t[1]).Some? then Some((Unshort(t[1]).value, t[2..]))
    else None
  }

  /** The characters up to the closing quote and the text after it. */
  function ReadString(t: string): Option<(string, string)>
    decreases |t|
  {
    if t != "" && t[0] == QUOTE then Some(("", t[1..]))
    else
      match ReadChar(t)
      case None => None
      case Some((c, rest)) =>
        match ReadString(rest)
        case None => None
        case Some((s, after)) => Some(([c] + s, after))
  }

  lemma HexFour(n: nat)
    requires n < 0x10000
    ensures |Padded(n, 16, 4)| == 4
  {
    assert Power16(1) == 16 && Power16(2) == 256 && Power16(3) == 4096 && Power16(4) == 0x10000;
    NumeralFits(n, 4);
  }

  lemma ReadEscapedChar(c: char, style: Style, rest: string)
    ensures EscapeChar(c, style) != "" && EscapeChar(c, style)[0] != QUOTE
    ensures ReadChar(EscapeChar(c, style) + rest) == Some((c, rest))
  {
    if ShortEscape(c).Some? {
      ReadShortEscape(c, ShortEscape(c).value, rest);
    } else if NeedsHex(c, style) {
      HexFour(c as int);
      ValueOfPadded(c as int, 16, 4);
      ReadHexEscape(Padded(c as int, 16, 4), rest);
    } else {
      assert ([c] + rest)[1..] == rest;
    }
  }

  lemma ReadShortEscape(c: char, letter: char, rest: string)
    requires ShortEscape(c) == Some(letter)
    ensures ReadChar([BACKSLASH, letter] + rest) == Some((c, rest))
  {
    assert ([BACKSLASH, letter] + rest)[2..] == rest;
  }

  lemma ReadHexEscape(hex: string, rest: string)
    requires |hex| == 4 && AllHex(hex) && Value(hex, 16) < 0xD800
    ensures ReadChar([BACKSLASH, 'u'] + hex + rest) == Some((Value(hex, 16) as char, rest))
  {
    var t := [BACKSLASH, 'u'] + hex + rest;
    assert t[2..6] == hex && t[6..] == rest;
  }

  /** Exactly which characters are escaped: those that JSON demands, and for HTML five more. */
  lemma EscapedExactly(c: char, style: Style)
    ensures EscapeChar(c, style) == [c] <==>
      !(c < ' ' || c == '\"' || c == '\\'
        || (style == HtmlSafe && (c in "<>&" || c as int == 0x2028 || c as int == 0x2029)))
    ensures EscapeChar(c, style) == [c] || EscapeChar(c, style) == (
      if c == '\"' || c == '\\' then ['\\', c]
      else if c as int == 8 then "\\b" else if c as int == 9 then "\\t" else if c as int == 10 then "\\n"
      else if c as int == 12 then "\\f" else if c as int == 13 then "\\r"
      else "\\u" + Padded(c as int, 16, 4))
    ensures NeedsHex(c, style) ==> |Padded(c as int, 16, 4)| == 4 && Value(Padded(c as int, 16, 4), 16) == c as int
  {
    if NeedsHex(c, style) {
      HexFour(c as int);
      ValueOfPadded(c as int, 16, 4);
    }
  }

  /** Reading undoes escaping, in either style and whatever follows the quote. */
  lemma {:induction false} ReadEscaped(s: string, style: Style, rest: string)
    ensures ReadString(Escape(s, style) + [QUOTE] + rest) == Some((s, rest))
  {
    var t := Escape(s, style) + [QUOTE] + rest;
    if s == "" {
      assert t == [QUOTE] + rest && t[1..] == rest;
    } else {
      var after := Escape(s[1..], style) + [QUOTE] + rest;
      assert t == EscapeChar(s[0], style) + after;
      ReadEscapedChar(s[0], style, after);
      ReadEscaped(s[1..], style, rest);
      assert [s[0]] + s[1..] == s;
    }
  }

  /** An escaped string has no control character, so no line break in particular. */
  lemma {:induction false} EscapedIsOneLine(s: string, style: Style)
    ensures forall i :: 0 <= i < |Escape(s, style)| ==> Escape(s, style)[i] >= ' '
  {
    if s == "" {
    } else {
      EscapedIsOneLine(s[1..], style);
      assert forall i :: 0 <= i < |EscapeChar(s[0], style)| ==> EscapeChar(s[0], style)[i] >= ' ';
    }
  }
}
