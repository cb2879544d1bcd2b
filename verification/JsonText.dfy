/** JSON strings as Go's encoder writes them and as section 7 of RFC 8259 has them read. */
module JsonText {

  import opened Wrappers

  const DIGITS: string := "0123456789abcdef"

  /** Two digits, as many as the escaped characters need. */
  function Hex(n: nat): string
    requires n < 256
  {
    [DIGITS[n / 16], DIGITS[n % 16]]
  }

  /** The characters with a letter of their own after a backslash. */
  function Letter(c: char): Option<char> {
    if c == '\"' || c == '\\' then Some(c)
    else if c == 8 as char then Some('b')
    else if c == 12 as char then Some('f')
    else if c == '\n' then Some('n')
    else if c == '\r' then Some('r')
    else if c == '\t' then Some('t')
    else None
  }

  /** Other control characters, what HTML could take for markup, and the two line separators that JavaScript does not
      allow in a string. */
  predicate ByNumber(c: char) {
    c < ' ' || c == '<' || c == '>' || c == '&' || c == 0x2028 as char || c == 0x2029 as char
  }

  function EscapeChar(c: char): string {
    if Letter(c).Some? then ['\\', Letter(c).value]
    else if ByNumber(c) then "\\u" + Hex(c as nat / 256) + Hex(c as nat % 256)
    else [c]
  }

  function Escape(s: string): string { EscapeLast(s, |s|) }

  /** The last n characters, escaped. */
  function EscapeLast(s: string, n: nat): string
    requires n <= |s|
    decreases n
  {
    if n == 0 then "" else EscapeChar(s[|s| - n]) + EscapeLast(s, n - 1)
  }

  /* ---------------------------------------------------------------- reading */

  function DigitValue(c: char): Option<nat> {
    if '0' <= c <= '9' then Some(c as nat - '0' as nat)
    else if 'a' <= c <= 'f' then Some(c as nat - 'a' as nat + 10)
    else if 'A' <= c <= 'F' then Some(c as nat - 'A' as nat + 10)
    else None
  }

  function FourDigits(s: string): Option<nat>
    requires |s| == 4
  {
    var a, b, c, d := DigitValue(s[0]), DigitValue(s[1]), DigitValue(s[2]), DigitValue(s[3]);
    if a.None? || b.None? || c.None? || d.None? then None
    else Some(4096 * a.value + 256 * b.value + 16 * c.value + d.value)
  }

  /** What a letter after a backslash stands for. */
  function Named(letter: char): Option<char> {
    match letter
    case '\"' => Some('\"')
    case '\\' => Some('\\')
    case '/' => Some('/')
    case 'b' => Some(8 as char)
    case 'f' => Some(12 as char)
    case 'n' => Some('\n')
    case 'r' => Some('\r')
    case 't' => Some('\t')
    case _ => None
  }

  /** A character by its number; a surrogate does not stand for a character by itself. */
  function Numbered(digits: string): Option<char>
    requires |digits| == 4
  {
    match FourDigits(digits)
    case None => None
    case Some(n) => if n < 0xd800 || 0xe000 <= n < 0x10000 then Some(n as char) else None
  }

  /** One character of a string and how long it is written. */
  function ReadChar(s: string): Option<(char, nat)> {
    if s == "" || s[0] == '\"' || s[0] < ' ' then None
    else if s[0] != '\\' then Some((s[0], 1))
    else if |s| == 1 then None
    else if s[1] == 'u' then
      if |s| < 6 || Numbered(s[2..6]).None? then None else Some((Numbered(s[2..6]).value, 6))
    else if Named(s[1]).None? then None
    else Some((Named(s[1]).value, 2))
  }

  /** The string up to its closing quote, and what follows. */
  function ReadString(s: string): Option<(string, string)> {
    if s != "" && s[0] == '\"' then Some(("", s[1..]))
    else match ReadChar(s)
      case None => None
      case Some((c, n)) =>
        if n == 0 || n > |s| then None
        else match ReadString(s[n..])
          case None => None
          case Some((text, rest)) => Some(([c] + text, rest))
  }

  /* ---------------------------------------------------------------- the round trip */

  lemma DigitReads(d: nat)
    requires d < 16
    ensures DigitValue(DIGITS[d]) == Some(d)
  {
  }

  lemma HexReads(m: nat, n: nat)
    requires m < 256 && n < 256
    ensures FourDigits(Hex(m) + Hex(n)) == Some(256 * m + n)
  {
    DigitReads(m / 16);
    DigitReads(m % 16);
    DigitReads(n / 16);
    DigitReads(n % 16);
  }

  lemma DigitsRead(digits: string, c: char, rest: string)
    requires |digits| == 4 && Numbered(digits) == Some(c)
    ensures ReadChar("\\u" + digits + rest) == Some((c, 6))
  {
    assert ("\\u" + digits + rest)[2..6] == digits;
  }

  lemma NumberReads(c: char, rest: string)
    requires Letter(c).None? && ByNumber(c)
    ensures |EscapeChar(c)| == 6 && ReadChar(EscapeChar(c) + rest) == Some((c, 6))
  {
    var m, n := c as nat / 256, c as nat % 256;
    HexReads(m, n);
    DigitsRead(Hex(m) + Hex(n), c, rest);
    assert EscapeChar(c) == "\\u" + (Hex(m) + Hex(n));
  }

  /** Every escaped character reads back, whatever follows. */
  lemma CharReads(c: char, rest: string)
    ensures var e := EscapeChar(c); e != "" && e[0] != '\"' && ReadChar(e + rest) == Some((c, |e|))
  {
    if Letter(c).None? && ByNumber(c) {
      NumberReads(c, rest);
    }
  }

  lemma ReadsOn(e: string, more: string, c: char, text: string, rest: string)
    requires e != "" && e[0] != '\"' && ReadChar(e + more) == Some((c, |e|)) && ReadString(more) == Some((text, rest))
    ensures ReadString(e + more) == Some(([c] + text, rest))
  {
    assert (e + more)[|e|..] == more;
  }

  lemma Regroup(e: string, x: string, y: string, z: string)
    ensures e + x + y + z == e + (x + y + z)
  {
  }

  lemma LastChars(s: string, n: nat)
    requires 0 < n <= |s|
    ensures [s[|s| - n]] + s[|s| - (n - 1)..] == s[|s| - n..]
  {
  }

  lemma {:induction false} LastRoundTrip(s: string, n: nat, rest: string)
    requires n <= |s|
    ensures ReadString(EscapeLast(s, n) + "\"" + rest) == Some((s[|s| - n..], rest))
    decreases n
  {
    if n == 0 {
      assert EscapeLast(s, n) + "\"" + rest == "\"" + rest;
      assert ("\"" + rest)[1..] == rest;
      assert s[|s| - n..] == "";
    } else {
      var c, more := s[|s| - n], EscapeLast(s, n - 1) + "\"" + rest;
      LastRoundTrip(s, n - 1, rest);
      CharReads(c, more);
      ReadsOn(EscapeChar(c), more, c, s[|s| - (n - 1)..], rest);
      Regroup(EscapeChar(c), EscapeLast(s, n - 1), "\"", rest);
      LastChars(s, n);
    }
  }

  /** A written string reads back as what was written, for every text. */
  lemma StringRoundTrip(s: string, rest: string)
    ensures ReadString(Escape(s) + "\"" + rest) == Some((s, rest))
  {
    LastRoundTrip(s, |s|, rest);
  }
}
