/** How `repr` writes a string as a Python literal: the quote it picks and the characters
    it escapes. A reader of such literals is the partner that shows nothing is lost. */
module Quoting {

  /** The quote `repr` puts around `s`: a double quote when `s` holds a single quote and no
      double quote, a single quote otherwise. */
  function QuoteFor(s: string): (q: char)
    ensures q == '\'' || q == '"'
  {
    if '\'' in s && '"' !in s then '"' else '\''
  }

  /** Whether `repr` shows a character as it is: printable ASCII, and the Latin-1 letters
      and signs from U+00A1 on except the soft hyphen U+00AD. Characters above U+00FF are
      taken as printable. */
  predicate Printable(c: char)
  {
    (32 <= c as int < 127) || (c as int >= 0xA1 && c as int != 0xAD)
  }

  predicate IsHexDigit(c: char)
  {
    ('0' <= c <= '9') || ('a' <= c <= 'f') || ('A' <= c <= 'F')
  }

  /** The lower-case hex digit `repr` writes for `n`. */
  function HexDigit(n: nat): (c: char)
    requires n < 16
    ensures IsHexDigit(c)
  {
    if n < 10 then ('0' as int + n) as char else ('a' as int + n - 10) as char
  }

  function HexValue(c: char): (n: nat)
    requires IsHexDigit(c)
    ensures n < 16
  {
    if '0' <= c <= '9' then c as int - '0' as int
    else if 'a' <= c <= 'f' then c as int - 'a' as int + 10
    else c as int - 'A' as int + 10
  }

  lemma HexValueOfDigit(n: nat)
    requires n < 16
    ensures HexValue(HexDigit(n)) == n
  {
  }

  /** One character inside a literal quoted with `q`: the quote and the backslash get a
      backslash, tab, newline and carriage return their letter escapes, another character
      that is not printable becomes `\xhh`, and the rest stay as they are. */
  function EscapeChar(c: char, q: char): string
  {
    if c == q || c == '\\' then ['\\', c]
    else if c == '\t' then "\\t"
    else if c == '\n' then "\\n"
    else if c == '\r' then "\\r"
    else if Printable(c) then [c]
    else ['\\', 'x', HexDigit(c as int / 16), HexDigit(c as int % 16)]
  }

  function EscapeAll(s: string, q: char): string
    decreases |s|
  {
    if s == [] then "" else EscapeChar(s[0], q) + EscapeAll(s[1..], q)
  }

  /** `repr(s)`. */
  function QuoteStr(s: string): (r: string)
    ensures |r| >= 2 && r[0] == QuoteFor(s) && r[|r| - 1] == QuoteFor(s)
  {
    [QuoteFor(s)] + EscapeAll(s, QuoteFor(s)) + [QuoteFor(s)]
  }

  /** The text between the quotes of a literal, read back as Python reads it. An unknown
      escape keeps its backslash, as Python's reader does. */
  function Unescape(t: string): string
    decreases |t|
  {
    if t == [] then ""
    else if t[0] == '\\' && |t| >= 2 && (t[1] == '\\' || t[1] == '\'' || t[1] == '"') then [t[1]] + Unescape(t[2..])
    else if t[0] == '\\' && |t| >= 2 && t[1] == 't' then "\t" + Unescape(t[2..])
    else if t[0] == '\\' && |t| >= 2 && t[1] == 'n' then "\n" + Unescape(t[2..])
    else if t[0] == '\\' && |t| >= 2 && t[1] == 'r' then "\r" + Unescape(t[2..])
    else if t[0] == '\\' && |t| >= 4 && t[1] == 'x' && IsHexDigit(t[2]) && IsHexDigit(t[3]) then
      [(HexValue(t[2]) * 16 + HexValue(t[3])) as char] + Unescape(t[4..])
    else [t[0]] + Unescape(t[1..])
  }

  /** Reading one escaped character gives the character back. */
  lemma UnescapeChar(c: char, q: char, rest: string)
    requires q == '\'' || q == '"'
    ensures Unescape(EscapeChar(c, q) + rest) == [c] + Unescape(rest)
  {
    var e := EscapeChar(c, q);
    if c == q || c == '\\' || c == '\t' || c == '\n' || c == '\r' {
      assert (e + rest)[2..] == rest;
    } else if Printable(c) {
      assert (e + rest)[1..] == rest;
    } else {
      var n := c as int;
      assert n < 256;
      HexValueOfDigit(n / 16);
      HexValueOfDigit(n % 16);
      assert (e + rest)[4..] == rest;
      assert (e + rest)[1] == 'x';
    }
  }

  lemma {:induction false} UnescapeAll(s: string, q: char)
    requires q == '\'' || q == '"'
    ensures Unescape(EscapeAll(s, q)) == s
    decreases |s|
  {
    if s != [] {
      UnescapeAll(s[1..], q);
      UnescapeChar(s[0], q, EscapeAll(s[1..], q));
      assert [s[0]] + s[1..] == s;
    }
  }

  /** Reading the literal `repr` writes, between its quotes, gives the string back. */
  lemma QuoteStrRoundTrip(s: string)
    ensures var r := QuoteStr(s); Unescape(r[1..|r| - 1]) == s
  {
    var q := QuoteFor(s);
    var r := QuoteStr(s);
    assert r[1..|r| - 1] == EscapeAll(s, q);
    UnescapeAll(s, q);
  }

  /** Printable ASCII without a single quote or a backslash. */
  predicate Plain(s: string)
  {
    forall i :: 0 <= i < |s| ==> 32 <= s[i] as int < 127 && s[i] != '\'' && s[i] != '\\'
  }

  lemma {:induction false} EscapePlain(s: string)
    requires Plain(s)
    ensures EscapeAll(s, '\'') == s
    decreases |s|
  {
    if s != [] {
      assert Plain(s[1..]) by {
        forall i | 0 <= i < |s[1..]| ensures 32 <= s[1..][i] as int < 127 && s[1..][i] != '\'' && s[1..][i] != '\\' {
          assert s[1..][i] == s[i + 1];
        }
      }
      EscapePlain(s[1..]);
      assert EscapeChar(s[0], '\'') == [s[0]];
      assert [s[0]] + s[1..] == s;
    }
  }

  /** A plain string is written between single quotes as it is. */
  lemma PlainQuote(s: string)
    requires Plain(s)
    ensures QuoteStr(s) == "'" + s + "'"
  {
    assert '\'' !in s;
    EscapePlain(s);
  }

  /** A string holding a single quote and no double quote is written in double quotes. */
  lemma ApostropheQuote()
    ensures QuoteStr("'s") == "\"'s\""
  {
    assert QuoteFor("'s") == '"';
    assert EscapeAll("'s", '"') == EscapeChar('\'', '"') + EscapeAll("s", '"');
  }

  /** A newline is written as its escape, and a backslash is doubled. */
  lemma EscapeExamples()
    ensures QuoteStr("a\nb") == "'a\\nb'"
    ensures QuoteStr("\\") == "'\\\\'"
  {
    assert QuoteFor("a\nb") == '\'' && QuoteFor("\\") == '\'';
    assert EscapeAll("a\nb", '\'') == EscapeChar('a', '\'') + EscapeChar('\n', '\'') + EscapeChar('b', '\'');
    assert EscapeAll("\\", '\'') == EscapeChar('\\', '\'');
  }
}
