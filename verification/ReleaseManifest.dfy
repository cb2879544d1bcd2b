/** The checksum manifest of a release: `assemble` prints it, `verify_files` reads it back and compares it with
    the directory.  Files are identified by a digest function that yields 64 lower-case hexadecimal digits. */
module ReleaseManifest {

  import opened Wrappers
  import opened Text

  /** What a directory entry is.  A link carries what reading through it yields. */
  datatype Entry = File(content: string) | Link(content: string) | Other

  type Directory = map<string, Entry>

  const SUMS: string := "SHA256SUMS"
  const SIDECARS: set<string> := {SUMS, "SHA256SUMS.sigstore.json"}

  /* ---------------------------------------------------------------- lines */

  /** The characters Python's splitlines breaks at. */
  predicate IsBreak(c: char) {
    c == '\n' || c == '\r' || c == '\U{b}' || c == '\U{c}' || '\U{1c}' <= c <= '\U{1e}' || c == '\U{85}'
    || c == '\U{2028}' || c == '\U{2029}'
  }

  function SplitLines(s: string): (lines: seq<string>)
    ensures s != "" ==> lines != []
  {
    if s == "" then []
    else if s[0] == '\r' && |s| > 1 && s[1] == '\n' then [""] + SplitLines(s[2..])
    else if IsBreak(s[0]) then [""] + SplitLines(s[1..])
    else if |s| == 1 then [s]
    else
      var rest := SplitLines(s[1..]);
      [[s[0]] + rest[0]] + rest[1..]
  }

  lemma BreaksAre(c: char)
    ensures IsBreak(c) <==> c in {'\n', '\r', '\U{b}', '\U{c}', '\U{1c}', '\U{1d}', '\U{1e}', '\U{85}', '\U{2028}', '\U{2029}'}
  {
  }

  /** A line end before the text that follows it: one break, where a carriage return and a line feed are one. */
  predicate IsEnd(end: string, rest: string) {
    end == "\r\n" || (|end| == 1 && IsBreak(end[0]) && !(end == "\r" && rest != "" && rest[0] == '\n'))
  }

  /** A text cut into lines and their ends; only the last line may have no end, and then it is not empty. */
  predicate CutInto(s: string, lines: seq<string>, ends: seq<string>)
    decreases |lines|
  {
    && |ends| == |lines|
    && if lines == [] then s == ""
       else
         && lines[0] + ends[0] <= s && OneLine(lines[0])
         && var rest := s[|lines[0] + ends[0]|..];
            (IsEnd(ends[0], rest) || (ends[0] == "" && rest == "" && lines[0] != "")) && CutInto(rest, lines[1..], ends[1..])
  }

  lemma CutAfterEnd(end: string, rest: string, lines: seq<string>, ends: seq<string>)
    requires IsEnd(end, rest) && CutInto(rest, lines, ends)
    ensures CutInto(end + rest, [""] + lines, [end] + ends)
  {
    assert "" + end == end && (end + rest)[|end|..] == rest;
    assert ([""] + lines)[1..] == lines && ([end] + ends)[1..] == ends;
  }

  lemma CutOneLonger(c: char, s: string, lines: seq<string>, ends: seq<string>)
    requires !IsBreak(c) && lines != [] && CutInto(s, lines, ends)
    ensures CutInto([c] + s, [[c] + lines[0]] + lines[1..], ends)
  {
    var longer := [[c] + lines[0]] + lines[1..];
    assert longer[1..] == lines[1..];
    assert longer[0] + ends[0] == [c] + (lines[0] + ends[0]);
    assert ([c] + s)[|longer[0] + ends[0]|..] == s[|lines[0] + ends[0]|..];
  }

  /** Splitting cuts a text into its lines. */
  lemma {:induction false} LinesAreCut(s: string) returns (ends: seq<string>)
    ensures CutInto(s, SplitLines(s), ends)
    decreases |s|
  {
    if s == "" {
      ends := [];
    } else if s[0] == '\r' && |s| > 1 && s[1] == '\n' {
      var more := LinesAreCut(s[2..]);
      ends := ["\r\n"] + more;
      CutAfterEnd("\r\n", s[2..], SplitLines(s[2..]), more);
      assert s == "\r\n" + s[2..];
    } else if IsBreak(s[0]) {
      var more := LinesAreCut(s[1..]);
      ends := [s[..1]] + more;
      CutAfterEnd(s[..1], s[1..], SplitLines(s[1..]), more);
      assert s == s[..1] + s[1..];
    } else if |s| == 1 {
      ends := [""];
      assert [s][0] + "" == s && s[|s|..] == "" && [s][1..] == [] && [""][1..] == [];
    } else {
      ends := LinesAreCut(s[1..]);
      CutOneLonger(s[0], s[1..], SplitLines(s[1..]), ends);
      assert s == [s[0]] + s[1..];
    }
  }

  predicate IsHex(c: char) { '0' <= c <= '9' || 'a' <= c <= 'f' }

  predicate IsAlnum(c: char) { '0' <= c <= '9' || 'a' <= c <= 'z' || 'A' <= c <= 'Z' }

  predicate IsDigest(s: string) { |s| == 64 && forall i :: 0 <= i < 64 ==> IsHex(s[i]) }

  predicate IsSafeName(s: string) {
    s != "" && IsAlnum(s[0]) && forall i :: 0 <= i < |s| ==> IsAlnum(s[i]) || s[i] == '.' || s[i] == '_' || s[i] == '-'
  }

  /** The alphabets of digests and names. */
  lemma HexAre(c: char)
    ensures IsHex(c) <==> c in {'0', '1', '2', '3', '4', '5', '6', '7', '8', '9', 'a', 'b', 'c', 'd', 'e', 'f'}
  {
  }

  lemma SidecarsAre(name: string)
    ensures name in SIDECARS <==> name == "SHA256SUMS" || name == "SHA256SUMS.sigstore.json"
  {
  }

  datatype Item = Item(digest: string, name: string)

  /** A digest, two blanks, a safe name, and nothing else. */
  function ParseLine(line: string): Option<Item> {
    if |line| > 66 && IsDigest(line[..64]) && line[64..66] == "  " && IsSafeName(line[66..])
    then Some(Item(line[..64], line[66..]))
    else None
  }

  function PrintLine(item: Item): string { item.digest + "  " + item.name }

  /** Reading a printed line gives the item back, exactly for a digest and a safe name. */
  lemma LineRoundTrip(item: Item)
    requires IsDigest(item.digest)
    ensures ParseLine(PrintLine(item)) == if IsSafeName(item.name) then Some(item) else None
  {
    var line := PrintLine(item);
    assert line[..64] == item.digest && line[64..66] == "  " && line[66..] == item.name;
  }

  /** A line is read as an item exactly if it is that item's digest, two blanks and its safe name. */
  lemma LineIff(line: string, item: Item)
    ensures ParseLine(line) == Some(item) <==> line == item.digest + "  " + item.name && IsDigest(item.digest) && IsSafeName(item.name)
  {
    if line == PrintLine(item) && IsDigest(item.digest) {
      LineRoundTrip(item);
    }
    if ParseLine(line) == Some(item) {
      assert line == line[..64] + line[64..66] + line[66..];
    }
  }

  function PrintAll(items: seq<Item>): string {
    if items == [] then "" else PrintLine(items[0]) + "\n" + PrintAll(items[1..])
  }

  lemma {:induction false} SplitFirst(line: string, rest: string)
    requires forall i :: 0 <= i < |line| ==> !IsBreak(line[i])
    ensures SplitLines(line + "\n" + rest) == [line] + SplitLines(rest)
    decreases |line|
  {
    var s := line + "\n" + rest;
    if line == "" {
      assert s[1..] == rest;
    } else {
      SplitFirst(line[1..], rest);
      assert s[1..] == line[1..] + "\n" + rest;
      assert [line[0]] + line[1..] == line;
    }
  }

  /** No name breaks a line. */
  predicate OneLine(name: string) { forall i :: 0 <= i < |name| ==> !IsBreak(name[i]) }

  lemma {:induction false} PrintedLines(items: seq<Item>)
    requires forall i :: 0 <= i < |items| ==> IsDigest(items[i].digest) && OneLine(items[i].name)
    ensures var lines := SplitLines(PrintAll(items));
            |lines| == |items| && forall i :: 0 <= i < |items| ==> lines[i] == PrintLine(items[i])
    decreases |items|
  {
    if items != [] {
      PrintedLines(items[1..]);
      var line := PrintLine(items[0]);
      SplitFirst(line, PrintAll(items[1..]));
    }
  }

  /* ---------------------------------------------------------------- acceptance */

  /** A manifest matches a directory: every line is well formed, no name is reserved or listed twice, each
      listed file is regular and has its digest, every download is listed, and there is one. */
  ghost predicate Matches(lines: seq<string>, dir: Directory, sha: string -> string) {
    && lines != []
    && (forall i :: 0 <= i < |lines| ==> Checks(lines[i], dir, sha))
    && (forall i, j :: 0 <= i < j < |lines| ==> !SameName(lines[i], lines[j]))
    && (forall n :: n in dir && n !in SIDECARS ==> Lists(lines, n))
  }

  predicate SameName(a: string, b: string) {
    ParseLine(a).Some? && ParseLine(b).Some? && ParseLine(a).value.name == ParseLine(b).value.name
  }

  predicate Checks(line: string, dir: Directory, sha: string -> string) {
    var item := ParseLine(line);
    && item.Some? && item.value.name !in SIDECARS && item.value.name in dir
    && dir[item.value.name].File? && sha(dir[item.value.name].content) == item.value.digest
  }

  ghost predicate Lists(lines: seq<string>, name: string) {
    exists i :: 0 <= i < |lines| && ParseLine(lines[i]).Some? && ParseLine(lines[i]).value.name == name
  }

  function Readable(dir: Directory, name: string): Option<string> {
    if name in dir && !dir[name].Other? then Some(dir[name].content) else None
  }

  ghost predicate Accepted(dir: Directory, sha: string -> string) {
    Readable(dir, SUMS).Some? && Matches(SplitLines(Readable(dir, SUMS).value), dir, sha)
  }

  lemma MatchesStep(lines: seq<string>, i: nat, names: set<string>, dir: Directory, sha: string -> string)
    requires i < |lines| && names == Names(lines[..i]) && Checks(lines[i], dir, sha)
    requires ParseLine(lines[i]).value.name !in names
    ensures names + {ParseLine(lines[i]).value.name} == Names(lines[..i + 1])
    ensures forall k :: 0 <= k < i ==> !SameName(lines[k], lines[i])
  {
    assert lines[..i + 1][..i] == lines[..i];
    forall k | 0 <= k < i && ParseLine(lines[k]).Some? ensures ParseLine(lines[k]).value.name in names {
      NamesHold(lines[..i], k);
    }
  }

  function Names(lines: seq<string>): set<string> {
    if lines == [] then {}
    else Names(lines[..|lines| - 1]) + match ParseLine(lines[|lines| - 1]) case Some(item) => {item.name} case None => {}
  }

  lemma {:induction false} NamesHold(lines: seq<string>, k: nat)
    requires k < |lines| && ParseLine(lines[k]).Some?
    ensures ParseLine(lines[k]).value.name in Names(lines)
    decreases |lines|
  {
    if k < |lines| - 1 {
      NamesHold(lines[..|lines| - 1], k);
    }
  }

  lemma {:induction false} NamesAreListed(lines: seq<string>, name: string)
    ensures name in Names(lines) <==> Lists(lines, name)
    decreases |lines|
  {
    if lines != [] {
      NamesAreListed(lines[..|lines| - 1], name);
      if k :| 0 <= k < |lines| && ParseLine(lines[k]).Some? && ParseLine(lines[k]).value.name == name {
        NamesHold(lines, k);
      }
    }
  }

  /** verify_files: accepted if and only if the manifest matches the directory. */
  method VerifyFiles(dir: Directory, sha: string -> string) returns (ok: bool)
    ensures ok <==> Accepted(dir, sha)
  {
    var text := Readable(dir, SUMS);
    if text.None? {
      return false;
    }
    var lines := SplitLines(text.value);
    var names: set<string> := {};
    for i := 0 to |lines|
      invariant names == Names(lines[..i])
      invariant forall k :: 0 <= k < i ==> Checks(lines[k], dir, sha)
      invariant forall j, k :: 0 <= j < k < i ==> !SameName(lines[j], lines[k])
    {
      var item := ParseLine(lines[i]);
      if item.None? {
        return false;
      }
      var name := item.value.name;
      if name in names {
        NamesAreListed(lines[..i], name);
        return false;
      }
      if name in SIDECARS {
        return false;
      }
      if name !in dir || !dir[name].File? || sha(dir[name].content) != item.value.digest {
        return false;
      }
      MatchesStep(lines, i, names, dir, sha);
      names := names + {name};
    }
    assert lines[..|lines|] == lines;
    ok := names != {} && dir.Keys - SIDECARS == names;
    CoverageDecides(lines, dir, sha);
  }

  /** With every line in order, coverage is all that is left to check. */
  lemma CoverageDecides(lines: seq<string>, dir: Directory, sha: string -> string)
    requires forall k :: 0 <= k < |lines| ==> Checks(lines[k], dir, sha)
    requires forall j, k :: 0 <= j < k < |lines| ==> !SameName(lines[j], lines[k])
    ensures Matches(lines, dir, sha) <==> Names(lines) != {} && dir.Keys - SIDECARS == Names(lines)
  {
    forall n ensures n in Names(lines) <==> Lists(lines, n) {
      NamesAreListed(lines, n);
    }
    NamesNonEmpty(lines, dir, sha);
    ListedInDirectory(lines, dir, sha);
  }

  lemma NamesNonEmpty(lines: seq<string>, dir: Directory, sha: string -> string)
    requires forall k :: 0 <= k < |lines| ==> Checks(lines[k], dir, sha)
    ensures Names(lines) != {} <==> lines != []
  {
    if lines != [] {
      NamesHold(lines, 0);
    }
  }

  lemma ListedInDirectory(lines: seq<string>, dir: Directory, sha: string -> string)
    requires forall k :: 0 <= k < |lines| ==> Checks(lines[k], dir, sha)
    ensures Names(lines) <= dir.Keys - SIDECARS
  {
    forall n | n in Names(lines) ensures n in dir.Keys - SIDECARS {
      NamesAreListed(lines, n);
    }
  }

  /* ---------------------------------------------------------------- printing a directory */

  ghost predicate Enumerates(names: seq<string>, dir: Directory) {
    && (forall i, j :: 0 <= i < j < |names| ==> names[i] != names[j])
    && (forall n :: n in dir <==> n in names)
  }

  function ItemsOf(names: seq<string>, dir: Directory, sha: string -> string): (items: seq<Item>)
    requires forall i :: 0 <= i < |names| ==> names[i] in dir && !dir[names[i]].Other?
    ensures |items| == |names|
    ensures forall i :: 0 <= i < |names| ==> items[i] == Item(sha(dir[names[i]].content), names[i])
  {
    seq(|names|, i requires 0 <= i < |names| => Item(sha(dir[names[i]].content), names[i]))
  }

  /** The manifest of every entry, in the order given. */
  function Manifest(names: seq<string>, dir: Directory, sha: string -> string): string
    requires forall i :: 0 <= i < |names| ==> names[i] in dir && !dir[names[i]].Other?
  {
    PrintAll(ItemsOf(names, dir, sha))
  }

  ghost predicate YieldsDigests(sha: string -> string) { forall content :: IsDigest(sha(content)) }

  predicate Releasable(dir: Directory, n: string)
    requires n in dir
  {
    IsSafeName(n) && dir[n].File? && n !in SIDECARS
  }

  /** The directory once its manifest is written. */
  function WithManifest(names: seq<string>, dir: Directory, sha: string -> string): Directory
    requires forall i :: 0 <= i < |names| ==> names[i] in dir && !dir[names[i]].Other?
  {
    dir[SUMS := File(Manifest(names, dir, sha))]
  }

  ghost predicate Printable(names: seq<string>, dir: Directory, sha: string -> string) {
    && SUMS !in dir && Enumerates(names, dir) && YieldsDigests(sha)
    && (forall n :: n in dir ==> !dir[n].Other? && OneLine(n))
  }

  /** Line i of a printed manifest passes exactly when file i is releasable. */
  lemma PrintedLineChecks(names: seq<string>, dir: Directory, sha: string -> string, i: nat)
    requires Printable(names, dir, sha) && i < |names|
    ensures var lines := SplitLines(Manifest(names, dir, sha));
            && |lines| == |names|
            && (IsSafeName(names[i]) ==> ParseLine(lines[i]).Some? && ParseLine(lines[i]).value.name == names[i])
            && (Checks(lines[i], WithManifest(names, dir, sha), sha) <==> Releasable(dir, names[i]))
  {
    var items := ItemsOf(names, dir, sha);
    PrintedLines(items);
    LineRoundTrip(items[i]);
  }

  lemma PrintedLineCount(names: seq<string>, dir: Directory, sha: string -> string)
    requires Printable(names, dir, sha)
    ensures |SplitLines(Manifest(names, dir, sha))| == |names|
  {
    PrintedLines(ItemsOf(names, dir, sha));
  }

  predicate IsLineOf(line: string, name: string) { ParseLine(line).Some? && ParseLine(line).value.name == name }

  lemma LinesOfNamesMatch(lines: seq<string>, names: seq<string>, dir: Directory, sha: string -> string)
    requires |lines| == |names| > 0
    requires forall i :: 0 <= i < |names| ==> Checks(lines[i], dir, sha) && IsLineOf(lines[i], names[i])
    requires forall i, j :: 0 <= i < j < |names| ==> names[i] != names[j]
    requires forall n :: n in dir && n !in SIDECARS ==> n in names
    ensures Matches(lines, dir, sha)
  {
    forall n | n in dir && n !in SIDECARS ensures Lists(lines, n) {
      var i :| 0 <= i < |names| && names[i] == n;
      assert IsLineOf(lines[i], n);
    }
  }

  lemma ReleasableIsAccepted(names: seq<string>, dir: Directory, sha: string -> string)
    requires Printable(names, dir, sha) && names != [] && forall n :: n in dir ==> Releasable(dir, n)
    ensures Accepted(WithManifest(names, dir, sha), sha)
  {
    var lines, full := SplitLines(Manifest(names, dir, sha)), WithManifest(names, dir, sha);
    PrintedLineCount(names, dir, sha);
    forall i | 0 <= i < |names| ensures Checks(lines[i], full, sha) && IsLineOf(lines[i], names[i]) {
      PrintedLineChecks(names, dir, sha, i);
    }
    LinesOfNamesMatch(lines, names, full, sha);
  }

  /** A printed manifest, beside the files it was printed from, is accepted if and only if there is a file and
      all of them are regular files with safe, unreserved names.  The order of printing does not matter. */
  lemma PrintedManifestAcceptedIff(names: seq<string>, dir: Directory, sha: string -> string)
    requires Printable(names, dir, sha)
    ensures Accepted(WithManifest(names, dir, sha), sha) <==> names != [] && forall n :: n in dir ==> Releasable(dir, n)
  {
    if names != [] && forall n :: n in dir ==> Releasable(dir, n) {
      ReleasableIsAccepted(names, dir, sha);
    } else {
      var lines, full := SplitLines(Manifest(names, dir, sha)), WithManifest(names, dir, sha);
      PrintedLineCount(names, dir, sha);
      if names != [] {
        var n :| n in dir && !Releasable(dir, n);
        var i :| 0 <= i < |names| && names[i] == n;
        PrintedLineChecks(names, dir, sha, i);
        assert !Checks(lines[i], full, sha);
      }
      assert Readable(full, SUMS) == Some(Manifest(names, dir, sha));
      assert !Matches(lines, full, sha);
    }
  }

  /** One manifest pins the downloads: two directories accepted under the same text hold the same files by name
      and digest, and the same contents wherever the digest tells contents apart. */
  lemma ManifestPinsTheFiles(a: Directory, b: Directory, sha: string -> string, n: string)
    requires Accepted(a, sha) && Accepted(b, sha) && Readable(a, SUMS) == Readable(b, SUMS)
    requires n in a && n !in SIDECARS
    ensures n in b && a[n].File? && b[n].File? && sha(a[n].content) == sha(b[n].content)
    ensures (forall x, y :: sha(x) == sha(y) ==> x == y) ==> a[n] == b[n]
  {
    var lines := SplitLines(Readable(a, SUMS).value);
    assert Lists(lines, n);
    var i :| 0 <= i < |lines| && ParseLine(lines[i]).Some? && ParseLine(lines[i]).value.name == n;
    assert Checks(lines[i], a, sha) && Checks(lines[i], b, sha);
  }

  /* ---------------------------------------------------------------- candidate versions */

  /** A number without a leading zero.  digit is Python's \d, which is not only 0 to 9. */
  predicate IsNumber(s: string, digit: char -> bool) {
    s == "0" || (s != "" && '1' <= s[0] <= '9' && forall i :: 1 <= i < |s| ==> digit(s[i]))
  }

  ghost predicate IsCandidate(version: string, digit: char -> bool) {
    exists a, b, c, d :: IsNumber(a, digit) && IsNumber(b, digit) && IsNumber(c, digit) && IsNumber(d, digit)
      && version == "v" + a + "." + b + "." + c + "-rc." + d
  }

  /** VERSION.fullmatch, part by part: dots occur only between the numbers. */
  predicate MatchesVersion(version: string, digit: char -> bool) {
    var parts := Split(version, '.');
    && |parts| == 4 && parts[0] != "" && parts[0][0] == 'v' && IsNumber(parts[0][1..], digit) && IsNumber(parts[1], digit)
    && |parts[2]| >= 3 && parts[2][|parts[2]| - 3..] == "-rc" && IsNumber(parts[2][..|parts[2]| - 3], digit)
    && IsNumber(parts[3], digit)
  }

  lemma NumberHasNoDot(s: string, digit: char -> bool)
    requires IsNumber(s, digit) && PythonDigit(digit)
    ensures '.' !in s
  {
    assert !digit('.');
  }

  /** Four texts with dots between them. */
  function Dotted(a: string, b: string, c: string, d: string): string { a + ['.'] + (b + ['.'] + (c + ['.'] + d)) }

  lemma FourParts(a: string, b: string, c: string, d: string)
    requires '.' !in a && '.' !in b && '.' !in c && '.' !in d
    ensures Split(Dotted(a, b, c, d), '.') == [a, b, c, d]
  {
    SplitJoined(a, '.', b + ['.'] + (c + ['.'] + d));
    SplitJoined(b, '.', c + ['.'] + d);
    SplitJoined(c, '.', d);
    SplitWhole(a, '.');
    SplitWhole(b, '.');
    SplitWhole(c, '.');
    SplitWhole(d, '.');
  }

  lemma FourJoined(parts: seq<string>)
    requires |parts| == 4
    ensures Join(parts, '.') == Dotted(parts[0], parts[1], parts[2], parts[3])
  {
    assert parts[1..][1..] == parts[2..] && parts[2..][1..] == parts[3..];
    assert Join(parts[3..], '.') == parts[3];
    assert Join(parts[2..], '.') == parts[2] + ['.'] + parts[3];
  }

  lemma VersionIsDotted(a: string, b: string, c: string, d: string)
    ensures "v" + a + "." + b + "." + c + "-rc." + d == Dotted("v" + a, b, c + "-rc", d)
  {
    var x, y := "v" + a, c + "-rc";
    assert "-rc." == "-rc" + ['.'];
    assert x + "." + b + "." + c + "-rc." + d == x + ['.'] + (b + ['.'] + (y + ['.'] + d));
  }

  lemma PartsMatch(version: string, a: string, b: string, c: string, d: string, digit: char -> bool)
    requires Split(version, '.') == ["v" + a, b, c + "-rc", d]
    requires IsNumber(a, digit) && IsNumber(b, digit) && IsNumber(c, digit) && IsNumber(d, digit)
    ensures MatchesVersion(version, digit)
  {
    var first, third := "v" + a, c + "-rc";
    assert first[1..] == a && third[..|third| - 3] == c && third[|third| - 3..] == "-rc";
  }

  lemma CandidateMatches(a: string, b: string, c: string, d: string, digit: char -> bool)
    requires IsNumber(a, digit) && IsNumber(b, digit) && IsNumber(c, digit) && IsNumber(d, digit) && PythonDigit(digit)
    ensures MatchesVersion("v" + a + "." + b + "." + c + "-rc." + d, digit)
  {
    NumberHasNoDot(a, digit);
    NumberHasNoDot(b, digit);
    NumberHasNoDot(c, digit);
    NumberHasNoDot(d, digit);
    FourParts("v" + a, b, c + "-rc", d);
    VersionIsDotted(a, b, c, d);
    PartsMatch("v" + a + "." + b + "." + c + "-rc." + d, a, b, c, d, digit);
  }

  lemma MatchIsCandidate(version: string, digit: char -> bool)
    requires MatchesVersion(version, digit)
    ensures IsCandidate(version, digit)
  {
    var parts := Split(version, '.');
    JoinSplit(version, '.');
    FourJoined(parts);
    var a, c := parts[0][1..], parts[2][..|parts[2]| - 3];
    assert parts[0] == "v" + a && parts[2] == c + "-rc";
    VersionIsDotted(a, parts[1], c, parts[3]);
  }

  /** The version check accepts exactly the candidate versions. */
  lemma MatchesIffCandidate(version: string, digit: char -> bool)
    requires PythonDigit(digit)
    ensures MatchesVersion(version, digit) <==> IsCandidate(version, digit)
  {
    if MatchesVersion(version, digit) {
      MatchIsCandidate(version, digit);
    }
    if a, b, c, d :| IsNumber(a, digit) && IsNumber(b, digit) && IsNumber(c, digit) && IsNumber(d, digit)
                     && version == "v" + a + "." + b + "." + c + "-rc." + d {
      CandidateMatches(a, b, c, d, digit);
    }
  }

  predicate Ascii(s: string) { forall i :: 0 <= i < |s| ==> s[i] < '\U{80}' }

  /** Among ASCII characters \d is 0 to 9, and nothing it matches ends a line. */
  ghost predicate PythonDigit(digit: char -> bool) {
    forall c :: (c < '\U{80}' ==> (digit(c) <==> '0' <= c <= '9')) && (digit(c) ==> !IsBreak(c))
  }

  predicate NameChars(s: string) {
    forall i :: 0 <= i < |s| ==> IsAlnum(s[i]) || s[i] == '.' || s[i] == '_' || s[i] == '-'
  }

  /** Text whose characters are unsafe in a name exactly where they are not ASCII, all on one line. */
  predicate Plain(s: string) { OneLine(s) && (Ascii(s) <==> NameChars(s)) }

  lemma PlainConcat(x: string, y: string)
    requires Plain(x) && Plain(y)
    ensures Plain(x + y)
  {
    Concat(x, y);
  }

  lemma PlainJoin(x: string, separator: string, y: string)
    requires Plain(x) && Plain(separator) && Plain(y)
    ensures Plain(x + separator + y)
  {
    PlainConcat(x, separator);
    PlainConcat(x + separator, y);
  }

  lemma PlainVersion(a: string, b: string, c: string, d: string)
    requires Plain(a) && Plain(b) && Plain(c) && Plain(d) && Plain("v") && Plain(".") && Plain("-rc.")
    ensures Plain("v" + a + "." + b + "." + c + "-rc." + d)
  {
    var s := "v" + a;
    PlainConcat("v", a);
    var t := s + "." + b;
    PlainJoin(s, ".", b);
    var u := t + "." + c;
    PlainJoin(t, ".", c);
    PlainJoin(u, "-rc.", d);
  }

  lemma PlainPunctuation()
    ensures Plain("v") && Plain(".") && Plain("-rc.")
  {
  }

  lemma CandidateIsPlain(version: string, digit: char -> bool)
    requires IsCandidate(version, digit) && PythonDigit(digit)
    ensures Plain(version)
  {
    var a, b, c, d :| IsNumber(a, digit) && IsNumber(b, digit) && IsNumber(c, digit) && IsNumber(d, digit)
      && version == "v" + a + "." + b + "." + c + "-rc." + d;
    NumberIsPlain(a, digit);
    NumberIsPlain(b, digit);
    NumberIsPlain(c, digit);
    NumberIsPlain(d, digit);
    PlainPunctuation();
    PlainVersion(a, b, c, d);
  }

  lemma NumberIsPlain(s: string, digit: char -> bool)
    requires IsNumber(s, digit) && PythonDigit(digit)
    ensures Plain(s)
  {
    forall i | 0 <= i < |s| ensures !IsBreak(s[i]) && (s[i] < '\U{80}' <==> IsAlnum(s[i]) || s[i] == '.' || s[i] == '_' || s[i] == '-') {
      assert i > 0 && s != "0" ==> digit(s[i]);
    }
  }

  lemma Concat(x: string, y: string)
    ensures OneLine(x + y) <==> OneLine(x) && OneLine(y)
    ensures Ascii(x + y) <==> Ascii(x) && Ascii(y)
    ensures NameChars(x + y) <==> NameChars(x) && NameChars(y)
  {
    forall i | 0 <= i < |x| + |y| ensures (x + y)[i] == if i < |x| then x[i] else y[i - |x|] {
    }
    assert forall i :: 0 <= i < |x| ==> (x + y)[i] == x[i];
    assert forall i :: 0 <= i < |y| ==> (x + y)[|x| + i] == y[i];
  }

  /* ---------------------------------------------------------------- assemble */

  /** What a build records about itself; agreed holds the fields both platforms must share. */
  datatype Info = Info(arch: string, version: string, commit: string, agreed: seq<string>)

  function ArchiveName(version: string, arch: string): string { "rekenraam-" + version + "-linux-" + arch + ".tar.gz" }

  const NOTES: string := "RELEASE-NOTES.md"

  lemma ArchiveNameIsSafe(version: string, arch: string)
    requires Plain(version) && (arch == "amd64" || arch == "arm64")
    ensures OneLine(ArchiveName(version, arch)) && (IsSafeName(ArchiveName(version, arch)) <==> Ascii(version))
    ensures ArchiveName(version, arch) !in SIDECARS && ArchiveName(version, arch) != NOTES
  {
    var head, tail := "rekenraam-", "-linux-" + arch + ".tar.gz";
    assert ArchiveName(version, arch) == head + version + tail;
    ArchiveNameAffixes(head, tail, arch);
    Concat(head, version);
    Concat(head + version, tail);
    var name := head + version + tail;
    assert name[0] == 'r';
    assert SUMS[0] == 'S' && "SHA256SUMS.sigstore.json"[0] == 'S' && NOTES[0] == 'R';
  }

  lemma ArchiveNameAffixes(head: string, tail: string, arch: string)
    requires head == "rekenraam-" && tail == "-linux-" + arch + ".tar.gz" && (arch == "amd64" || arch == "arm64")
    ensures NameChars(head) && OneLine(head) && NameChars(tail) && OneLine(tail) && Ascii(head) && Ascii(tail)
  {
  }

  lemma ArchiveNamesDiffer(version: string)
    ensures ArchiveName(version, "amd64") != ArchiveName(version, "arm64")
  {
    var at := |"rekenraam-" + version + "-linux-"| + 1;
    assert ArchiveName(version, "amd64")[at] == 'm' && ArchiveName(version, "arm64")[at] == 'r';
  }

  /** Exactly the two archives, readable, each recording its own target and both the checked-out source. */
  ghost predicate Assemblable(dir: Directory, version: string, info: string -> Option<Info>, head: string) {
    var amd64, arm64 := ArchiveName(version, "amd64"), ArchiveName(version, "arm64");
    && dir.Keys == {amd64, arm64} && !dir[amd64].Other? && !dir[arm64].Other?
    && exists agreed :: && info(dir[amd64].content) == Some(Info("amd64", version, head, agreed))
                        && info(dir[arm64].content) == Some(Info("arm64", version, head, agreed))
  }

  class ReleaseDirectory {
    var entries: Directory

    constructor (entries: Directory)
      ensures this.entries == entries
    {
      this.entries := entries;
    }

    /** assemble: given exactly the two archives of one source commit, add the notes and the manifest.  info reads
        an archive's build record, digit is Python's \d, head the checked-out commit. */
    method Assemble(version: string, digit: char -> bool, info: string -> Option<Info>, head: string, notes: string, sha: string -> string)
      returns (ok: bool)
      requires PythonDigit(digit)
      modifies this
      ensures ok <==> IsCandidate(version, digit) && Assemblable(old(entries), version, info, head)
      ensures ok ==> entries == WithManifest([NOTES, ArchiveName(version, "amd64"), ArchiveName(version, "arm64")],
                                             old(entries)[NOTES := File(notes)], sha)
      ensures !ok ==> entries == old(entries)
    {
      var amd64, arm64 := ArchiveName(version, "amd64"), ArchiveName(version, "arm64");
      MatchesIffCandidate(version, digit);
      if !MatchesVersion(version, digit) || entries.Keys != {amd64, arm64} {
        return false;
      }
      if entries[amd64].Other? || entries[arm64].Other? {
        return false;
      }
      var first, second := info(entries[amd64].content), info(entries[arm64].content);
      if first.None? || second.None? {
        return false;
      }
      if first.value.arch != "amd64" || second.value.arch != "arm64" || first.value.version != version || second.value.version != version {
        return false;
      }
      if first.value.commit != second.value.commit || first.value.agreed != second.value.agreed || first.value.commit != head {
        return false;
      }
      entries := entries[NOTES := File(notes)];
      entries := WithManifest([NOTES, amd64, arm64], entries, sha);
      ok := true;
    }
  }

  lemma ThreeFilesAcceptedIff(a: string, b: string, c: string, dir: Directory, sha: string -> string)
    requires a != b && b != c && a != c && dir.Keys == {a, b, c} && SUMS !in dir && YieldsDigests(sha)
    requires OneLine(a) && OneLine(b) && OneLine(c) && !dir[a].Other? && !dir[b].Other? && !dir[c].Other?
    ensures Accepted(WithManifest([a, b, c], dir, sha), sha) <==> Releasable(dir, a) && Releasable(dir, b) && Releasable(dir, c)
  {
    var names := [a, b, c];
    assert forall n :: n in dir <==> n in {a, b, c};
    assert Enumerates(names, dir);
    assert Printable(names, dir, sha);
    PrintedManifestAcceptedIff(names, dir, sha);
  }

  lemma NotesAreReleasable()
    ensures OneLine(NOTES) && IsSafeName(NOTES) && NOTES !in SIDECARS && NOTES != SUMS
  {
    assert SUMS[0] == 'S' && "SHA256SUMS.sigstore.json"[0] == 'S' && NOTES[0] == 'R';
  }

  /** What assemble leaves behind passes verify_files if and only if the version is plain ASCII and both archives
      are regular files.  The version check lets other decimal digits through, which the manifest's file names
      do not allow, and archives that are links are read when the manifest is printed but refused afterwards. */
  lemma AssembledIsVerifiedIff(dir: Directory, version: string, digit: char -> bool, notes: string, sha: string -> string)
    requires IsCandidate(version, digit) && PythonDigit(digit) && YieldsDigests(sha)
    requires var amd64, arm64 := ArchiveName(version, "amd64"), ArchiveName(version, "arm64");
             dir.Keys == {amd64, arm64} && !dir[amd64].Other? && !dir[arm64].Other?
    ensures var amd64, arm64 := ArchiveName(version, "amd64"), ArchiveName(version, "arm64");
            Accepted(WithManifest([NOTES, amd64, arm64], dir[NOTES := File(notes)], sha), sha)
            <==> Ascii(version) && dir[amd64].File? && dir[arm64].File?
  {
    var amd64, arm64 := ArchiveName(version, "amd64"), ArchiveName(version, "arm64");
    CandidateIsPlain(version, digit);
    ArchiveNameIsSafe(version, "amd64");
    ArchiveNameIsSafe(version, "arm64");
    ArchiveNamesDiffer(version);
    NotesAreReleasable();
    ThreeFilesAcceptedIff(NOTES, amd64, arm64, dir[NOTES := File(notes)], sha);
  }

  /** Assemble, then verify what it left: verification can still refuse, and this tells when. */
  method AssembleAndVerify(release: ReleaseDirectory, version: string, digit: char -> bool, info: string -> Option<Info>,
                           head: string, notes: string, sha: string -> string) returns (assembled: bool, verified: bool)
    requires PythonDigit(digit) && YieldsDigests(sha)
    modifies release
    ensures assembled <==> IsCandidate(version, digit) && Assemblable(old(release.entries), version, info, head)
    ensures assembled ==>
              var amd64, arm64 := ArchiveName(version, "amd64"), ArchiveName(version, "arm64");
              verified <==> Ascii(version) && old(release.entries)[amd64].File? && old(release.entries)[arm64].File?
  {
    ghost var before := release.entries;
    assembled := release.Assemble(version, digit, info, head, notes, sha);
    verified := VerifyFiles(release.entries, sha);
    if assembled {
      AssembledIsVerifiedIff(before, version, digit, notes, sha);
    }
  }

  /** What assemble leaves of two archives. */
  function Assembled(version: string, amd64: Entry, arm64: Entry, notes: string, sha: string -> string): Directory
    requires !amd64.Other? && !arm64.Other?
  {
    var a, b := ArchiveName(version, "amd64"), ArchiveName(version, "arm64");
    WithManifest([NOTES, a, b], map[a := amd64, b := arm64][NOTES := File(notes)], sha)
  }

  lemma AssembledAccepted(version: string, digit: char -> bool, amd64: Entry, arm64: Entry, notes: string, sha: string -> string)
    requires IsCandidate(version, digit) && PythonDigit(digit) && YieldsDigests(sha) && !amd64.Other? && !arm64.Other?
    ensures Accepted(Assembled(version, amd64, arm64, notes, sha), sha) <==> Ascii(version) && amd64.File? && arm64.File?
  {
    ArchiveNamesDiffer(version);
    var a, b := ArchiveName(version, "amd64"), ArchiveName(version, "arm64");
    AssembledIsVerifiedIff(map[a := amd64, b := arm64], version, digit, notes, sha);
  }

  predicate ArabicIndic(c: char) { '0' <= c <= '9' || c == '\U{661}' }

  const ARABIC_VERSION: string := "v1\U{661}.0.0-rc.0"

  lemma ArabicIsCandidate()
    ensures PythonDigit(ArabicIndic) && IsCandidate(ARABIC_VERSION, ArabicIndic) && !Ascii(ARABIC_VERSION)
  {
    var major := "1\U{661}";
    assert IsNumber(major, ArabicIndic) && IsNumber("0", ArabicIndic);
    assert ARABIC_VERSION == "v" + major + "." + "0" + "." + "0" + "-rc." + "0";
    assert ARABIC_VERSION[2] == '\U{661}';
  }

  /** A candidate version that assemble takes and verify_files then refuses, whatever the archives: its major number is
      written with an Arabic-Indic digit. */
  lemma UnicodeVersionSlipsThrough(amd64: Entry, arm64: Entry, notes: string, sha: string -> string)
    requires YieldsDigests(sha) && !amd64.Other? && !arm64.Other?
    ensures IsCandidate(ARABIC_VERSION, ArabicIndic)
    ensures !Accepted(Assembled(ARABIC_VERSION, amd64, arm64, notes, sha), sha)
  {
    ArabicIsCandidate();
    AssembledAccepted(ARABIC_VERSION, ArabicIndic, amd64, arm64, notes, sha);
  }

  /** So is an archive that is a link, under any version. */
  lemma LinkSlipsThrough(version: string, digit: char -> bool, content: string, arm64: Entry, notes: string, sha: string -> string)
    requires IsCandidate(version, digit) && PythonDigit(digit) && YieldsDigests(sha) && !arm64.Other?
    ensures !Accepted(Assembled(version, Link(content), arm64, notes, sha), sha)
  {
    AssembledAccepted(version, digit, Link(content), arm64, notes, sha);
  }
}
