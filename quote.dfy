/** Go's `strconv.Quote`, which the `%q` verb of `fmt.Sprintf` applies to
    strings, together with the inverse that reads a quoted literal back. */
module GoQuote {

  import opened Wrappers

  function HexDigit(n: nat): char
    requires n < 16
  {
    "0123456789abcdef"[n]
  }

  predicate IsHexDigit(c: char) { '0' <= c <= '9' || 'a' <= c <= 'f' }

  function HexValue(c: char): (n: nat)
    requires IsHexDigit(c)
    ensures n < 16
  {
    if c <= '9' then c as int - '0' as int else c as int - 'a' as int + 10
  }

  lemma HexRoundTrip(n: nat)
    requires n < 16
    ensures IsHexDigit(HexDigit(n)) && HexValue(HexDigit(n)) == n
  {
  }

  /** The escape `\a`, `\b`, `\f`, `\n`, `\r`, `\t` or `\v` of a control
      character, if it has one. */
  function ShortEscape(c: char): Option<char> {
    if c as int == 7 then Some('a')
    else if c as int == 8 then Some('b')
    else if c as int == 12 then Some('f')
    else if c as int == 10 then Some('n')
    else if c as int == 13 then Some('r')
    else if c as int == 9 then Some('t')
    else if c as int == 11 then Some('v')
    else None
  }

  /** The character a one-letter escape stands for. */
  function EscapedChar(e: char): Option<char> {
    if e == '"' then Some('"')
    else if e == '\\' then Some('\\')
    else if e == 'a' then Some(7 as char)
    else if e == 'b' then Some(8 as char)
    else if e == 'f' then Some(12 as char)
    else if e == 'n' then Some(10 as char)
    else if e == 'r' then Some(13 as char)
    else if e == 't' then Some(9 as char)
    else if e == 'v' then Some(11 as char)
    else None
  }

  /** How one character appears inside a quoted literal: the quote and the
      backslash are escaped, printable ASCII is kept, control characters
      take their short escape or `\xHH`; characters beyond ASCII are kept. */
  function EscapeChar(c: char): (r: string)
    ensures 1 <= |r| <= 4
  {
    if c == '"' || c == '\\' then ['\\', c]
    else if 0x20 <= c as int < 0x7f || c as int >= 0x80 then [c]
    else if ShortEscape(c).Some? then ['\\', ShortEscape(c).value]
    else ['\\', 'x', HexDigit(c as int / 16), HexDigit(c as int % 16)]
  }

  function Escape(s: string): string {
    if s == [] then "" else EscapeChar(s[0]) + Escape(s[1..])
  }

  /** strconv.Quote. */
  function Quote(s: string): (r: string)
    ensures |r| >= 2 && r[0] == '"' && r[|r| - 1] == '"'
  {
    "\"" + Escape(s) + "\""
  }

  function Prepend(c: char, t: Option<string>): Option<string> {
    if t.Some? then Some([c] + t.value) else None
  }

  /** Reads the body of a quoted literal; None on a bare quote or on an
      escape that Quote never writes. */
  function Unescape(s: string): Option<string>
    decreases |s|
  {
    if s == [] then Some("")
    else if s[0] == '"' then None
    else if s[0] != '\\' then Prepend(s[0], Unescape(s[1..]))
    else if |s| < 2 then None
    else if s[1] == 'x' then
      if |s| < 4 || !IsHexDigit(s[2]) || !IsHexDigit(s[3]) then None
      else Prepend((HexValue(s[2]) * 16 + HexValue(s[3])) as char, Unescape(s[4..]))
    else if EscapedChar(s[1]).Some? then Prepend(EscapedChar(s[1]).value, Unescape(s[2..]))
    else None
  }

  /** strconv.Unquote for the literals Quote writes. */
  function Unquote(q: string): Option<string> {
    if |q| >= 2 && q[0] == '"' && q[|q| - 1] == '"' then Unescape(q[1..|q| - 1]) else None
  }

  lemma UnescapeStep(c: char, t: string)
    ensures Unescape(EscapeChar(c) + t) == Prepend(c, Unescape(t))
  {
    var e := EscapeChar(c);
    var s := e + t;
    if c == '"' || c == '\\' {
      assert s[0] == '\\' && s[1] == c && s[2..] == t;
    } else if 0x20 <= c as int < 0x7f || c as int >= 0x80 {
      assert s[0] == c && s[1..] == t;
    } else if ShortEscape(c).Some? {
      assert s[0] == '\\' && s[1] == ShortEscape(c).value && s[2..] == t;
    } else {
      var hi, lo := c as int / 16, c as int % 16;
      HexRoundTrip(hi);
      HexRoundTrip(lo);
      assert s[0] == '\\' && s[1] == 'x' && s[2] == HexDigit(hi) && s[3] == HexDigit(lo);
      assert s[4..] == t;
      assert (hi * 16 + lo) as char == c;
    }
  }

  lemma {:induction false} UnescapeEscape(s: string)
    ensures Unescape(Escape(s)) == Some(s)
    decreases |s|
  {
    if s != [] {
      UnescapeEscape(s[1..]);
      UnescapeStep(s[0], Escape(s[1..]));
      assert [s[0]] + s[1..] == s;
    }
  }

  /** Reading a quoted literal back gives the original string: `%q`
      output determines its argument. */
  lemma UnquoteQuote(s: string)
    ensures Unquote(Quote(s)) == Some(s)
  {
    var q := Quote(s);
    assert q[1..|q| - 1] == Escape(s);
    UnescapeEscape(s);
  }

  /** Quote is injective. */
  lemma QuoteInjective(a: string, b: string)
    requires Quote(a) == Quote(b)
    ensures a == b
  {
    UnquoteQuote(a);
    UnquoteQuote(b);
  }
}
