/** The JSON text of an `AdminUser` as `JSON.stringify` writes it to
    storage, and a reader for JSON string literals and the four-field
    object that form, so that what is stored can be read back. */
module Json {
  import opened Common

  /** A lower-case hexadecimal digit, as `JSON.stringify` writes them. */
  function HexDigit(d: nat): (c: char)
    requires d < 16
  {
    if d < 10 then ('0' as int + d) as char else ('a' as int + d - 10) as char
  }

  function HexValue(c: char): (r: Option<nat>)
    ensures r.Some? ==> r.value < 16
  {
    if '0' <= c <= '9' then Some(c as int - '0' as int)
    else if 'a' <= c <= 'f' then Some(c as int - 'a' as int + 10)
    else if 'A' <= c <= 'F' then Some(c as int - 'A' as int + 10)
    else None
  }

  lemma HexRoundTrip(d: nat)
    requires d < 16
    ensures HexValue(HexDigit(d)) == Some(d)
  {
  }

  /** How `JSON.stringify` writes one character inside a string literal:
      the quote and the backslash escaped, the five control characters with
      a short escape as such, any other control character as `\u00xx`, and
      every other character as itself. */
  function EscapeChar(c: char): (e: string)
    ensures e != []
  {
    if c == '"' then "\\\""
    else if c == '\\' then "\\\\"
    else if c == '\U{0008}' then "\\b"
    else if c == '\t' then "\\t"
    else if c == '\n' then "\\n"
    else if c == '\U{000C}' then "\\f"
    else if c == '\r' then "\\r"
    else if c < ' ' then "\\u00" + [HexDigit(c as int / 16), HexDigit(c as int % 16)]
    else [c]
  }

  function Escape(s: string): string
  {
    if s == [] then [] else EscapeChar(s[0]) + Escape(s[1..])
  }

  /** A JSON string literal. */
  function Quote(s: string): string
  {
    "\"" + Escape(s) + "\""
  }

  /** The escape sequence after a backslash: the character it stands for and
      the number of characters it takes. A `\u` escape naming half of a
      surrogate pair is refused. */
  function EscapeAt(s: string): (r: Option<(char, nat)>)
    ensures r.Some? ==> 1 <= r.value.1 <= |s|
  {
    if s == [] then None
    else if s[0] == '"' then Some(('"', 1))
    else if s[0] == '\\' then Some(('\\', 1))
    else if s[0] == '/' then Some(('/', 1))
    else if s[0] == 'b' then Some(('\U{0008}', 1))
    else if s[0] == 'f' then Some(('\U{000C}', 1))
    else if s[0] == 'n' then Some(('\n', 1))
    else if s[0] == 'r' then Some(('\r', 1))
    else if s[0] == 't' then Some(('\t', 1))
    else if s[0] == 'u' && |s| >= 5 then
      match (HexValue(s[1]), HexValue(s[2]), HexValue(s[3]), HexValue(s[4]))
      case (Some(a), Some(b), Some(c), Some(d)) =>
        var v := ((a * 16 + b) * 16 + c) * 16 + d;
        if 0xD800 <= v <= 0xDFFF then None else Some((v as char, 5))
      case _ => None
    else None
  }

  /** The characters of a string literal after its opening quote: its text
      and what follows the closing quote, or nothing for an unterminated
      literal, a raw control character or a bad escape. */
  function ParseChars(s: string): Option<(string, string)>
    decreases |s|
  {
    if s == [] || s[0] < ' ' then None
    else if s[0] == '"' then Some(([], s[1..]))
    else if s[0] == '\\' then
      match EscapeAt(s[1..])
      case None => None
      case Some((c, n)) =>
        match ParseChars(s[1 + n..])
        case None => None
        case Some((t, rest)) => Some(([c] + t, rest))
    else
      match ParseChars(s[1..])
      case None => None
      case Some((t, rest)) => Some(([s[0]] + t, rest))
  }

  /** A JSON string literal at the start of `s`. */
  function ParseString(s: string): Option<(string, string)>
  {
    if s != [] && s[0] == '"' then ParseChars(s[1..]) else None
  }

  /** A string or `null` at the start of `s`. */
  function ParseNullable(s: string): Option<(Option<string>, string)>
  {
    if |s| >= 4 && s[..4] == "null" then Some((None, s[4..]))
    else match ParseString(s)
      case None => None
      case Some((t, rest)) => Some((Some(t), rest))
  }

  function Nullable(v: Option<string>): string
  {
    match v
    case None => "null"
    case Some(s) => Quote(s)
  }

  /** One escaped character is read back as itself, whatever follows. */
  lemma EscapeCharRead(c: char, t: string)
    ensures ParseChars(EscapeChar(c) + t) ==
      match ParseChars(t)
      case None => None
      case Some((u, rest)) => Some(([c] + u, rest))
  {
    var s := EscapeChar(c) + t;
    if c < ' ' && c != '\U{0008}' && c != '\t' && c != '\n' && c != '\U{000C}' && c != '\r' {
      var hi, lo := c as int / 16, c as int % 16;
      HexRoundTrip(hi);
      HexRoundTrip(lo);
      assert s[1..][..5] == ['u', '0', '0', HexDigit(hi), HexDigit(lo)];
      assert s[1 + 5..] == t;
    } else if c == '"' || c == '\\' || c == '\U{0008}' || c == '\t' || c == '\n' || c == '\U{000C}' || c == '\r' {
      assert s[0] == '\\' && s[1 + 1..] == t;
    } else {
      assert s[0] == c && s[1..] == t;
    }
  }

  /** An escaped text followed by a closing quote is read back as the text,
      and reading stops right after that quote. */
  lemma {:induction false} EscapeRead(x: string, rest: string)
    ensures ParseChars(Escape(x) + ("\"" + rest)) == Some((x, rest))
  {
    if x == [] {
      assert Escape(x) + ("\"" + rest) == "\"" + rest;
    } else {
      var t := Escape(x[1..]) + ("\"" + rest);
      assert Escape(x) + ("\"" + rest) == EscapeChar(x[0]) + t;
      EscapeRead(x[1..], rest);
      EscapeCharRead(x[0], t);
      assert [x[0]] + x[1..] == x;
    }
  }

  /** A quoted text is read back as the text. */
  lemma QuoteRead(x: string, rest: string)
    ensures ParseString(Quote(x) + rest) == Some((x, rest))
  {
    assert (Quote(x) + rest)[1..] == Escape(x) + ("\"" + rest);
    EscapeRead(x, rest);
  }

  lemma NullableRead(v: Option<string>, rest: string)
    ensures ParseNullable(Nullable(v) + rest) == Some((v, rest))
  {
    if v.Some? {
      QuoteRead(v.value, rest);
      assert (Nullable(v) + rest)[0] == '"';
    } else {
      assert (Nullable(v) + rest)[4..] == rest;
    }
  }

  /** What follows `lit` at the start of `s`. */
  function After(lit: string, s: string): (r: Option<string>)
  {
    if |lit| <= |s| && s[..|lit|] == lit then Some(s[|lit|..]) else None
  }

  lemma AfterRead(lit: string, rest: string)
    ensures After(lit, lit + rest) == Some(rest)
  {
    assert (lit + rest)[..|lit|] == lit;
  }
}
