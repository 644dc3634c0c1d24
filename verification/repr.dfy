/** Python's `repr` of a `str`, which `"%r"` formatting writes, and the
    reading that undoes it. */
module Repr {
  import opened Wrappers

  /** Characters `repr` writes as `\xhh`: the C0 controls other than tab,
      newline and carriage return, DEL, the C1 controls, the no-break space
      and the soft hyphen. Code points above U+00FF are taken as printable. */
  predicate HexEscaped(c: char) {
    (c < ' ' && c != '\t' && c != '\n' && c != '\r')
    || (0x7f <= c as int <= 0xa0) || c as int == 0xad
  }

  function HexDigit(d: nat): (c: char)
    requires d < 16
  {
    "0123456789abcdef"[d]
  }

  function HexValue(c: char): Option<nat> {
    if '0' <= c <= '9' then Some(c as int - '0' as int)
    else if 'a' <= c <= 'f' then Some(c as int - 'a' as int + 10)
    else None
  }

  /** The quote `repr` puts around `s`: a double quote when `s` holds a single
      quote and no double quote, a single quote otherwise. */
  function ReprQuote(s: string): (q: char)
    ensures q == '\'' || q == '"'
  {
    if '\'' in s && '"' !in s then '"' else '\''
  }

  /** How `repr` writes one character inside quotes `q`. */
  function EscapeChar(c: char, q: char): (e: string)
    ensures |e| > 0
    ensures e[0] == '\\' <==> c == q || c == '\\' || c == '\t' || c == '\n' || c == '\r' || HexEscaped(c)
  {
    if c == q || c == '\\' then ['\\', c]
    else if c == '\t' then "\\t"
    else if c == '\n' then "\\n"
    else if c == '\r' then "\\r"
    else if HexEscaped(c) then ['\\', 'x', HexDigit(c as int / 16), HexDigit(c as int % 16)]
    else [c]
  }

  function EscapeAll(s: string, q: char): string
    decreases |s|
  {
    if |s| == 0 then [] else EscapeChar(s[0], q) + EscapeAll(s[1..], q)
  }

  /** Python's `repr(s)` for a `str`. */
  function PyRepr(s: string): (r: string)
    ensures |r| >= 2 && r[0] == r[|r| - 1] == ReprQuote(s)
  {
    var q := ReprQuote(s);
    [q] + EscapeAll(s, q) + [q]
  }

  /** `c` put in front of a read-back string, failure passing through. */
  function Prepend(c: char, o: Option<string>): Option<string> {
    if o.Some? then Some([c] + o.value) else None
  }

  /** Reads back the characters written by `EscapeAll(_, q)`. */
  function UnescapeAll(t: string, q: char): Option<string>
    decreases |t|
  {
    if |t| == 0 then Some([])
    else if t[0] != '\\' then
      Prepend(t[0], UnescapeAll(t[1..], q))
    else if |t| < 2 then None
    else if t[1] == q || t[1] == '\\' then
      Prepend(t[1], UnescapeAll(t[2..], q))
    else if t[1] == 't' || t[1] == 'n' || t[1] == 'r' then
      Prepend(if t[1] == 't' then '\t' else if t[1] == 'n' then '\n' else '\r', UnescapeAll(t[2..], q))
    else if t[1] == 'x' && |t| >= 4 && HexValue(t[2]).Some? && HexValue(t[3]).Some? then
      Prepend((HexValue(t[2]).value * 16 + HexValue(t[3]).value) as char, UnescapeAll(t[4..], q))
    else None
  }

  /** Reads a quoted string as `repr` writes it. */
  function UnRepr(r: string): Option<string> {
    if |r| >= 2 && r[0] == r[|r| - 1] && (r[0] == '\'' || r[0] == '"') then UnescapeAll(r[1..|r| - 1], r[0])
    else None
  }

  lemma HexRoundTrip(c: char)
    requires c as int < 256
    ensures HexValue(HexDigit(c as int / 16)).Some? && HexValue(HexDigit(c as int % 16)).Some?
    ensures (HexValue(HexDigit(c as int / 16)).value * 16 + HexValue(HexDigit(c as int % 16)).value) as char == c
  {
    var hi, lo := c as int / 16, c as int % 16;
    assert HexValue(HexDigit(hi)) == Some(hi) && HexValue(HexDigit(lo)) == Some(lo);
  }

  /** Reading back one escaped character followed by more text. */
  lemma UnescapeOne(c: char, q: char, rest: string)
    requires q == '\'' || q == '"'
    ensures UnescapeAll(EscapeChar(c, q) + rest, q)
            == Prepend(c, UnescapeAll(rest, q))
  {
    var t := EscapeChar(c, q) + rest;
    if c == q || c == '\\' {
      assert t[2..] == rest;
    } else if c == '\t' || c == '\n' || c == '\r' {
      assert t[2..] == rest;
    } else if HexEscaped(c) {
      assert t[4..] == rest;
      HexRoundTrip(c);
    } else {
      assert t[1..] == rest;
    }
  }

  lemma {:induction false} UnescapeEscapeAll(s: string, q: char)
    requires q == '\'' || q == '"'
    ensures UnescapeAll(EscapeAll(s, q), q) == Some(s)
    decreases |s|
  {
    if |s| > 0 {
      UnescapeEscapeAll(s[1..], q);
      UnescapeOne(s[0], q, EscapeAll(s[1..], q));
      assert [s[0]] + s[1..] == s;
    }
  }

  /** `repr` loses nothing: the string reads back from its repr. */
  lemma ReprRoundTrip(s: string)
    ensures UnRepr(PyRepr(s)) == Some(s)
  {
    var q := ReprQuote(s);
    var r := PyRepr(s);
    assert r[1..|r| - 1] == EscapeAll(s, q);
    UnescapeEscapeAll(s, q);
  }

  /** Different strings have different reprs. */
  lemma ReprInjective(a: string, b: string)
    requires PyRepr(a) == PyRepr(b)
    ensures a == b
  {
    ReprRoundTrip(a);
    ReprRoundTrip(b);
  }

  /** A string with no quote, backslash or character that needs escaping is
      written between single quotes as it is. */
  lemma {:induction false} ReprPlain(s: string)
    requires forall i :: 0 <= i < |s| ==> s[i] != '\'' && s[i] != '\\' && s[i] >= ' ' && !HexEscaped(s[i])
    ensures PyRepr(s) == "'" + s + "'"
  {
    PlainEscapes(s, '\'');
  }

  /** A string holding a single quote, and otherwise nothing that needs
      escaping, is written between double quotes as it is. */
  lemma ReprDoubleQuoted(s: string)
    requires '\'' in s
    requires forall i :: 0 <= i < |s| ==> s[i] != '"' && s[i] != '\\' && s[i] >= ' ' && !HexEscaped(s[i])
    ensures PyRepr(s) == "\"" + s + "\""
  {
    PlainEscapes(s, '"');
  }

  lemma {:induction false} PlainEscapes(s: string, q: char)
    requires forall i :: 0 <= i < |s| ==> s[i] != q && s[i] != '\\' && s[i] >= ' ' && !HexEscaped(s[i])
    ensures EscapeAll(s, q) == s
    decreases |s|
  {
    if |s| > 0 {
      PlainEscapes(s[1..], q);
      assert [s[0]] + s[1..] == s;
    }
  }
}
