/** JSON text as the event stream uses it: strings are written without raw control characters
    and read back unchanged (RFC 8259, section 7). */
module JsonText {
  import opened Prelude

  function HexDigit(d: nat): char
    requires d < 16
  {
    if d < 10 then Digit(d) else ('a' as int + d - 10) as char
  }

  function HexValue(c: char): Option<nat> {
    if '0' <= c <= '9' then Some(c as int - '0' as int)
    else if 'a' <= c <= 'f' then Some(c as int - 'a' as int + 10)
    else if 'A' <= c <= 'F' then Some(c as int - 'A' as int + 10)
    else None
  }

  predicate IsControl(c: char) { c < ' ' }

  function EscapeChar(c: char): string {
    if c == '"' then ['\\', '"']
    else if c == '\\' then ['\\', '\\']
    else if c == '\n' then ['\\', 'n']
    else if c == '\r' then ['\\', 'r']
    else if c == '\t' then ['\\', 't']
    else if c == '\U{08}' then ['\\', 'b']
    else if c == '\U{0C}' then ['\\', 'f']
    else if IsControl(c) then ['\\', 'u', '0', '0', HexDigit(c as int / 16), HexDigit(c as int % 16)]
    else [c]
  }

  function Escape(s: string): string {
    if s == "" then "" else EscapeChar(s[0]) + Escape(s[1..])
  }

  /** What `json.dumps` prints for a string. */
  function Quote(s: string): string { ['"'] + Escape(s) + ['"'] }

  predicate IsJsonSpace(c: char) { c == ' ' || c == '\t' || c == '\n' || c == '\r' }

  function SkipSpace(s: string): string {
    if s != "" && IsJsonSpace(s[0]) then SkipSpace(s[1..]) else s
  }

  function ShortEscape(c: char): Option<char> {
    if c == '"' || c == '\\' || c == '/' then Some(c)
    else if c == 'n' then Some('\n')
    else if c == 'r' then Some('\r')
    else if c == 't' then Some('\t')
    else if c == 'b' then Some('\U{08}')
    else if c == 'f' then Some('\U{0C}')
    else None
  }

  /** The code point of four hexadecimal digits; surrogates are not part of the model. */
  function CodePoint(s: string): Option<char>
    requires |s| >= 4
  {
    match (HexValue(s[0]), HexValue(s[1]), HexValue(s[2]), HexValue(s[3]))
    case (Some(a), Some(b), Some(c), Some(d)) =>
      var v := 4096 * a + 256 * b + 16 * c + d;
      if v < 0xD800 then Some(v as char) else None
    case _ => None
  }

  /** Reads the rest of a string literal, which must end the text. */
  function Unescape(s: string): Option<string>
    decreases |s|
  {
    if s == "" then None
    else if s[0] == '"' then (if SkipSpace(s[1..]) == "" then Some("") else None)
    else if IsControl(s[0]) then None
    else if s[0] != '\\' then Prepend(s[0], Unescape(s[1..]))
    else if |s| >= 2 && ShortEscape(s[1]).Some? then Prepend(ShortEscape(s[1]).value, Unescape(s[2..]))
    else if |s| >= 6 && s[1] == 'u' && CodePoint(s[2..]).Some? then Prepend(CodePoint(s[2..]).value, Unescape(s[6..]))
    else None
  }

  function Prepend(c: char, rest: Option<string>): Option<string> {
    match rest
    case None => None
    case Some(s) => Some([c] + s)
  }

  /** What the parser makes of a text. Objects are told apart only by what the reader checks. */
  datatype Value = Text(text: string) | Object(source: string, hasMessage: bool) | Other

  /** `objects` parses everything that is not a string. */
  function Parse(source: string, objects: string -> Option<Value>): Option<Value> {
    var s := SkipSpace(source);
    if s != "" && s[0] == '"' then
      match Unescape(s[1..])
      case None => None
      case Some(t) => Some(Text(t))
    else
      objects(source)
  }

  predicate NoLineBreak(s: string) { forall i :: 0 <= i < |s| ==> s[i] != '\n' && s[i] != '\r' }

  predicate NoControl(s: string) { forall i :: 0 <= i < |s| ==> !IsControl(s[i]) }

  lemma {:induction false} EscapeHasNoControl(s: string)
    ensures NoControl(Escape(s))
  {
    if s != "" {
      EscapeHasNoControl(s[1..]);
      assert NoControl(EscapeChar(s[0]));
    }
  }

  /** A quoted string lies on one line, whatever it holds. */
  lemma QuoteIsOneLine(s: string)
    ensures NoControl(Quote(s)) && NoLineBreak(Quote(s))
  {
    EscapeHasNoControl(s);
  }

  lemma HexRoundTrip(d: nat)
    requires d < 16
    ensures HexValue(HexDigit(d)) == Some(d)
  {
  }

  /** Hexadecimal digits are read in either case. */
  lemma HexEitherCase(c: char)
    ensures HexValue(UpperChar(c)) == HexValue(c) == HexValue(LowerChar(c))
  {
  }

  lemma CodePointOfControl(c: char, rest: string)
    requires IsControl(c)
    ensures CodePoint(['0', '0', HexDigit(c as int / 16), HexDigit(c as int % 16)] + rest) == Some(c)
  {
    var v := c as int;
    HexRoundTrip(v / 16);
    HexRoundTrip(v % 16);
    assert 16 * (v / 16) + v % 16 == v;
  }

  lemma ShortEscapeRoundTrip(c: char)
    requires |EscapeChar(c)| == 2
    ensures ShortEscape(EscapeChar(c)[1]) == Some(c)
  {
  }

  lemma UnescapeChar(c: char, rest: string)
    ensures Unescape(EscapeChar(c) + rest) == Prepend(c, Unescape(rest))
  {
    var e := EscapeChar(c);
    var s := e + rest;
    if |e| == 1 {
      assert s[0] == c && s[1..] == rest;
    } else if |e| == 2 {
      ShortEscapeRoundTrip(c);
      assert s[0] == '\\' && s[1] == e[1] && s[2..] == rest;
    } else {
      UnescapeLong(c, rest);
    }
  }

  lemma UnescapeLong(c: char, rest: string)
    requires IsControl(c)
    ensures Unescape(['\\', 'u', '0', '0', HexDigit(c as int / 16), HexDigit(c as int % 16)] + rest) == Prepend(c, Unescape(rest))
  {
    var digits := ['0', '0', HexDigit(c as int / 16), HexDigit(c as int % 16)];
    var s := ['\\', 'u', '0', '0', HexDigit(c as int / 16), HexDigit(c as int % 16)] + rest;
    CodePointOfControl(c, rest);
    assert s[2..] == digits + rest;
    assert s[6..] == rest && s[0] == '\\' && s[1] == 'u';
  }

  lemma {:induction false} EscapeRoundTrip(s: string)
    ensures Unescape(Escape(s) + ['"']) == Some(s)
  {
    if s == "" {
      assert Escape(s) + ['"'] == ['"'] && ['"'][1..] == "";
    } else {
      assert Escape(s) + ['"'] == EscapeChar(s[0]) + (Escape(s[1..]) + ['"']);
      UnescapeChar(s[0], Escape(s[1..]) + ['"']);
      EscapeRoundTrip(s[1..]);
      assert s == [s[0]] + s[1..];
    }
  }

  /** Whatever text is printed as a JSON string is read back as that text. */
  lemma QuoteRoundTrip(s: string, objects: string -> Option<Value>)
    ensures Parse(Quote(s), objects) == Some(Text(s))
  {
    EscapeRoundTrip(s);
    assert Quote(s)[1..] == Escape(s) + ['"'];
    assert Quote(s)[0] == '"';
    NothingToSkip(Quote(s));
  }

  lemma NothingToSkip(s: string)
    requires s != "" && !IsJsonSpace(s[0])
    ensures SkipSpace(s) == s
  {
  }
}
