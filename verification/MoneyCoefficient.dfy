/** Money amounts cross JSON as decimal strings: written as a string always, read from a string or, for older
    clients, from a bare number. */
module MoneyCoefficient {

  import opened Wrappers
  import opened Decimal

  /** The characters bytes.TrimSpace removes. */
  predicate IsSpace(c: char) {
    c == ' ' || '\t' <= c <= '\r' || c == '\U{85}' || c == '\U{a0}' || c == '\U{1680}' || '\U{2000}' <= c <= '\U{200a}'
    || c == '\U{2028}' || c == '\U{2029}' || c == '\U{202f}' || c == '\U{205f}' || c == '\U{3000}'
  }

  lemma SpacesAre(c: char)
    ensures IsSpace(c) <==>
            c in {' ', '\t', '\n', '\U{b}', '\U{c}', '\r', '\U{85}', '\U{a0}', '\U{1680}', '\U{2000}', '\U{2001}', '\U{2002}', '\U{2003}',
                  '\U{2004}', '\U{2005}', '\U{2006}', '\U{2007}', '\U{2008}', '\U{2009}', '\U{200a}', '\U{2028}', '\U{2029}', '\U{202f}',
                  '\U{205f}', '\U{3000}'}
  {
  }

  function TrimLeft(s: string): string { if s != "" && IsSpace(s[0]) then TrimLeft(s[1..]) else s }

  function TrimRight(s: string): string { if s != "" && IsSpace(s[|s| - 1]) then TrimRight(s[..|s| - 1]) else s }

  function Trim(s: string): string { TrimRight(TrimLeft(s)) }

  /** MarshalJSON. */
  function Marshal(v: int): string { "\"" + Format(v) + "\"" }

  /** The decimal text in a JSON value; unquote is the library's reading of a JSON string. */
  function Raw(data: string, unquote: string -> Option<string>): Option<string> {
    var trimmed := Trim(data);
    if trimmed != "" && trimmed[0] == '"' then unquote(trimmed) else Some(trimmed)
  }

  /** A JSON string without escapes is its own text. */
  ghost predicate ReadsPlainStrings(unquote: string -> Option<string>) {
    forall s :: Plain(s) ==> unquote("\"" + s + "\"") == Some(s)
  }

  /** Text that needs no escape in a JSON string. */
  predicate Plain(s: string) { forall i :: 0 <= i < |s| ==> s[i] >= ' ' && s[i] != '"' && s[i] != '\\' }

  class Coefficient {
    var value: int

    constructor (value: int)
      ensures this.value == value
    {
      this.value := value;
    }

    /** UnmarshalJSON: accepted exactly for the canonical text of a 64-bit integer, which becomes the value; a
        refusal leaves the value alone. */
    method Unmarshal(data: string, unquote: string -> Option<string>) returns (ok: bool)
      modifies this
      ensures ok <==> Accepts(data, unquote)
      ensures ok ==> Raw(data, unquote) == Some(Format(value)) && Fits(value, 64)
      ensures !ok ==> value == old(value)
    {
      var raw := Raw(data, unquote);
      if raw.None? {
        return false;
      }
      var parsed := ParseInt(raw.value, 64);
      if parsed.None? {
        return false;
      }
      CanonicalIffReformats(raw.value, 64);
      if Format(parsed.value) != raw.value {
        return false;
      }
      value := parsed.value;
      ok := true;
      CanonicalFits(raw.value, value);
    }
  }

  /** Canonical text of a number in range. */
  predicate Accepts(data: string, unquote: string -> Option<string>) {
    var raw := Raw(data, unquote);
    raw.Some? && Canonical(raw.value) && ParseInt(raw.value, 64).Some?
  }

  lemma CanonicalFits(s: string, v: int)
    requires ParseInt(s, 64) == Some(v)
    ensures Fits(v, 64)
  {
  }

  lemma NoSpaces(s: string)
    requires s != "" && !IsSpace(s[0]) && !IsSpace(s[|s| - 1])
    ensures Trim(s) == s
  {
  }

  /** Every 64-bit amount survives the wire, quoted as every response writes it and bare as older clients do,
      and it is the only amount its text can mean. */
  lemma MoneyRoundTrip(v: int, w: int, unquote: string -> Option<string>)
    requires Fits(v, 64) && Fits(w, 64) && ReadsPlainStrings(unquote)
    ensures Raw(Marshal(v), unquote) == Some(Format(v)) == Raw(Format(v), unquote)
    ensures Accepts(Marshal(v), unquote) && Accepts(Format(v), unquote)
    ensures ParseInt(Format(v), 64) == Some(v)
    ensures Marshal(v) == Marshal(w) ==> v == w
  {
    FormatRoundTrip(v, 64);
    FormatRoundTrip(w, 64);
    FormatIsCanonical(v);
    FormatIsPlain(v);
    NoSpaces(Format(v));
    NoSpaces(Marshal(v));
    if Marshal(v) == Marshal(w) {
      assert Marshal(v)[1..|Marshal(v)| - 1] == Format(v) && Marshal(w)[1..|Marshal(w)| - 1] == Format(w);
    }
  }

  lemma FormatIsPlain(v: int)
    ensures Plain(Format(v)) && Format(v) != "" && !IsSpace(Format(v)[0]) && !IsSpace(Format(v)[|Format(v)| - 1]) && Format(v)[0] != '"'
  {
    if v < 0 {
      assert forall i :: 1 <= i < |Format(v)| ==> Format(v)[i] == Digits(-v)[i - 1];
    }
  }

  lemma {:induction false} TrimLeftIsPlain(s: string)
    requires Plain(s)
    ensures Plain(TrimLeft(s))
  {
    if s != "" && IsSpace(s[0]) {
      TrimLeftIsPlain(s[1..]);
    }
  }

  lemma {:induction false} TrimRightIsPlain(s: string)
    requires Plain(s)
    ensures Plain(TrimRight(s))
    decreases |s|
  {
    if s != "" && IsSpace(s[|s| - 1]) {
      TrimRightIsPlain(s[..|s| - 1]);
    }
  }

  lemma CanonicalIsTrimmed(s: string)
    requires Canonical(s)
    ensures Trim(s) == s
  {
    var last := s[|s| - 1];
    assert IsDigit(last) by {
      if !Tidy(s) {
        assert last == s[1..][|s| - 2];
      }
    }
    NoSpaces(s);
  }

  /** The quoted and the bare form of the same text mean the same, except that only the bare one is trimmed:
      the quoted form is accepted if and only if the bare one is and has no spaces around it. */
  lemma QuotedAndBareAgree(text: string, unquote: string -> Option<string>)
    requires Plain(text) && ReadsPlainStrings(unquote)
    ensures Trim(text) == text ==> Raw("\"" + text + "\"", unquote) == Raw(text, unquote)
    ensures Accepts("\"" + text + "\"", unquote) <==> Accepts(text, unquote) && Trim(text) == text
  {
    NoSpaces("\"" + text + "\"");
    TrimLeftIsPlain(text);
    TrimRightIsPlain(TrimLeft(text));
    assert Raw(text, unquote) == Some(Trim(text));
    if Canonical(text) {
      CanonicalIsTrimmed(text);
    }
  }

  /** One such text: " 5" is an amount bare and none in quotes. */
  lemma SpaceMatters(unquote: string -> Option<string>)
    requires ReadsPlainStrings(unquote)
    ensures Accepts(" 5", unquote) && !Accepts("\" 5\"", unquote)
  {
    assert TrimLeft(" 5") == "5" by {
      assert " 5"[1..] == "5" && !IsSpace('5');
    }
    assert Trim(" 5") == "5" && AllDigits("5") && Value("5") == 5 by {
      assert "5"[..0] == "";
    }
    assert "\"" + " 5" + "\"" == "\" 5\"";
    QuotedAndBareAgree(" 5", unquote);
  }
}
