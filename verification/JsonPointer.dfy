/** The fragment half of a contract reference: section 4 of RFC 6901 tells how a pointer's tokens escape
    "~" and "/", and section 6 how a pointer sits in a fragment.  The contract audit decodes with a split and
    two string replacements; this module proves that those undo the standard's encoding of every token list. */
module JsonPointer {

  import opened Text

  /** Python's str.replace for a two-character pattern and a one-character replacement. */
  function Replace(s: string, first: char, second: char, with: char): string {
    if |s| < 2 then s
    else if s[0] == first && s[1] == second then [with] + Replace(s[2..], first, second, with)
    else [s[0]] + Replace(s[1..], first, second, with)
  }

  function Unescape(token: string): string {
    Replace(Replace(token, '~', '1', '/'), '~', '0', '~')
  }

  function UnescapeAll(tokens: seq<string>): seq<string> {
    if tokens == [] then [] else [Unescape(tokens[0])] + UnescapeAll(tokens[1..])
  }

  /** What the audit reads out of a decoded fragment: everything after the first slash. */
  function Tokens(fragment: string): seq<string> {
    UnescapeAll(Split(fragment, '/')[1..])
  }

  /* ---------------------------------------------------------------- the standard's encoding */

  function EscapeTilde(token: string): string {
    if token == "" then ""
    else (if token[0] == '~' then "~0" else [token[0]]) + EscapeTilde(token[1..])
  }

  function Escape(token: string): string {
    if token == "" then ""
    else (if token[0] == '~' then "~0" else if token[0] == '/' then "~1" else [token[0]]) + Escape(token[1..])
  }

  /** A pointer: every token prefixed by a slash. */
  function Pointer(tokens: seq<string>): string {
    if tokens == [] then "" else "/" + Escape(tokens[0]) + Pointer(tokens[1..])
  }

  lemma PairReplaced(second: char, with: char, rest: string)
    ensures Replace(['~', second] + rest, '~', second, with) == [with] + Replace(rest, '~', second, with)
  {
    assert (['~', second] + rest)[2..] == rest;
  }

  lemma PairKept(other: char, rest: string, second: char, with: char)
    requires other != second && other != '~'
    ensures Replace(['~', other] + rest, '~', second, with) == ['~', other] + Replace(rest, '~', second, with)
  {
    assert (['~', other] + rest)[1..] == [other] + rest;
    PlainHead(other, rest, second, with);
  }

  lemma {:induction false} SlashRestored(token: string)
    ensures Replace(Escape(token), '~', '1', '/') == EscapeTilde(token)
  {
    if token != "" {
      SlashRestored(token[1..]);
      var rest := Escape(token[1..]);
      if token[0] == '~' {
        PairKept('0', rest, '1', '/');
      } else if token[0] == '/' {
        PairReplaced('1', '/', rest);
      } else {
        PlainHead(token[0], rest, '1', '/');
      }
    }
  }

  lemma {:induction false} TildeRestored(token: string)
    ensures Replace(EscapeTilde(token), '~', '0', '~') == token
  {
    if token != "" {
      TildeRestored(token[1..]);
      var rest := EscapeTilde(token[1..]);
      if token[0] == '~' {
        PairReplaced('0', '~', rest);
      } else {
        PlainHead(token[0], rest, '0', '~');
      }
    }
  }

  lemma PlainHead(c: char, rest: string, second: char, with: char)
    requires c != '~'
    ensures Replace([c] + rest, '~', second, with) == [c] + Replace(rest, '~', second, with)
  {
    assert ([c] + rest)[1..] == rest;
  }

  /** Decoding undoes encoding for every token, whatever mixture of "~", "/", "0" and "1" it holds. */
  lemma TokenRoundTrip(token: string)
    ensures Unescape(Escape(token)) == token
  {
    SlashRestored(token);
    TildeRestored(token);
  }

  lemma {:induction false} EscapedHasNoSlash(token: string)
    ensures '/' !in Escape(token)
  {
    if token != "" {
      EscapedHasNoSlash(token[1..]);
    }
  }

  /** The first token of a pointer splits off. */
  lemma FirstTokenSplits(head: string, rest: string)
    requires '/' !in head && (rest == "" || rest[0] == '/')
    ensures Split("/" + head + rest, '/')[1..] == [head] + Split(rest, '/')[1..]
  {
    SplitWhole(head, '/');
    if rest == "" {
      SplitJoined("", '/', head);
      assert "/" + head + rest == "" + ['/'] + head;
      assert Split(rest, '/')[1..] == [];
    } else {
      var more := rest[1..];
      assert "/" + head + rest == "" + ['/'] + (head + ['/'] + more) && rest == "" + ['/'] + more;
      SplitJoined("", '/', head + ['/'] + more);
      SplitJoined(head, '/', more);
      SplitJoined("", '/', more);
    }
  }

  /** A pointer read back is the token list it was written from. */
  lemma {:induction false} PointerRoundTrip(tokens: seq<string>)
    ensures Tokens(Pointer(tokens)) == tokens
    decreases |tokens|
  {
    if tokens != [] {
      PointerRoundTrip(tokens[1..]);
      EscapedHasNoSlash(tokens[0]);
      FirstTokenSplits(Escape(tokens[0]), Pointer(tokens[1..]));
      TokenRoundTrip(tokens[0]);
    }
  }
}
