/**
 * `JSON.stringify` applied to a string, as the stub module uses it for the
 * component's file name and scope id: the text in double quotes, with `"`,
 * `\` and the control characters U+0000..U+001F escaped.
 *
 * Dafny's `char` is a Unicode scalar value, so the lone surrogates that
 * `JSON.stringify` writes as `\uDXXX` cannot occur.
 */
module Json {
  import opened Wrappers
  import opened Text

  /** The escape of one character inside a JSON string literal. */
  function EscapeChar(c: char): string
  {
    if c == '"' then "\\\""
    else if c == '\\' then "\\\\"
    else if c == '\U{8}' then "\\b"
    else if c == '\t' then "\\t"
    else if c == '\n' then "\\n"
    else if c == '\U{C}' then "\\f"
    else if c == '\r' then "\\r"
    else if (c as int) < 0x20 then "\\u00" + [HexDigit((c as int) / 16), HexDigit((c as int) % 16)]
    else [c]
  }

  function Escape(s: string): string
  {
    if s == [] then "" else EscapeChar(s[0]) + Escape(s[1..])
  }

  /** `JSON.stringify(s)` for a string `s`. */
  function Quote(s: string): string
  {
    "\"" + Escape(s) + "\""
  }

  /** The value of the escape `\X` for a one-letter `X`, if it is one. */
  function SimpleEscape(x: char): Option<char>
  {
    if x == '"' then Some('"')
    else if x == '\\' then Some('\\')
    else if x == '/' then Some('/')
    else if x == 'b' then Some('\U{8}')
    else if x == 't' then Some('\t')
    else if x == 'n' then Some('\n')
    else if x == 'f' then Some('\U{C}')
    else if x == 'r' then Some('\r')
    else None
  }

  /** The code unit `\uXXXX` names, when `u` holds four lower-case hexadecimal digits and it is no surrogate. */
  function UnicodeEscape(u: string): Option<char>
    requires |u| == 4
  {
    if !(IsHexDigit(u[0]) && IsHexDigit(u[1]) && IsHexDigit(u[2]) && IsHexDigit(u[3])) then None
    else
      var v := ((HexValue(u[0]) * 16 + HexValue(u[1])) * 16 + HexValue(u[2])) * 16 + HexValue(u[3]);
      if 0xD800 <= v < 0xE000 then None else Some(v as char)
  }

  /** Reading the body of a JSON string literal: `None` at a bare `"`, a raw control character or a bad escape. */
  function Unescape(s: string): Option<string>
  {
    if s == [] then Some([])
    else if s[0] == '\\' then
      if |s| < 2 then None
      else if s[1] == 'u' then
        if |s| < 6 then None
        else match (UnicodeEscape(s[2..6]), Unescape(s[6..]))
          case (Some(c), Some(rest)) => Some([c] + rest)
          case _ => None
      else match (SimpleEscape(s[1]), Unescape(s[2..]))
        case (Some(c), Some(rest)) => Some([c] + rest)
        case _ => None
    else if s[0] == '"' || (s[0] as int) < 0x20 then None
    else match Unescape(s[1..])
      case Some(rest) => Some([s[0]] + rest)
      case None => None
  }

  /**
   * Reading back a quoted string as `Quote` writes it. Upper-case `\u`
   * digits and surrogate-pair escapes, which `JSON.parse` also accepts,
   * are read as `None`.
   */
  function Unquote(t: string): Option<string>
  {
    if |t| >= 2 && t[0] == '"' && t[|t| - 1] == '"' then Unescape(t[1..|t| - 1]) else None
  }

  /** One escaped character is read back as itself, ahead of whatever follows it. */
  lemma UnescapeEscapeChar(c: char, rest: string)
    ensures Unescape(EscapeChar(c) + rest) ==
      match Unescape(rest) case Some(r) => Some([c] + r) case None => None
  {
    var e := EscapeChar(c);
    var s := e + rest;
    if (c as int) < 0x20 && c != '\U{8}' && c != '\t' && c != '\n' && c != '\U{C}' && c != '\r' {
      var v := c as int;
      assert s[0] == '\\' && s[1] == 'u' && s[6..] == rest;
      assert s[2..6] == ['0', '0', HexDigit(v / 16), HexDigit(v % 16)];
      assert HexValue(HexDigit(v / 16)) == v / 16 && HexValue(HexDigit(v % 16)) == v % 16;
      assert UnicodeEscape(s[2..6]) == Some(c);
    } else if |e| == 2 {
      assert s[0] == '\\' && s[2..] == rest;
    } else {
      assert s[0] == c && s[1..] == rest;
    }
  }

  lemma {:induction false} UnescapeEscape(s: string)
    ensures Unescape(Escape(s)) == Some(s)
  {
    if s != [] {
      UnescapeEscape(s[1..]);
      UnescapeEscapeChar(s[0], Escape(s[1..]));
      assert [s[0]] + s[1..] == s;
    }
  }

  /** `JSON.parse(JSON.stringify(s)) === s`: the quoted text gives back the string. */
  lemma UnquoteQuote(s: string)
    ensures Unquote(Quote(s)) == Some(s)
  {
    var t := Quote(s);
    assert t[1..|t| - 1] == Escape(s);
    UnescapeEscape(s);
  }

  /** Quoting is injective: different strings are written differently. */
  lemma QuoteInjective(s: string, t: string)
    requires Quote(s) == Quote(t)
    ensures s == t
  {
    UnquoteQuote(s);
    UnquoteQuote(t);
  }
}
