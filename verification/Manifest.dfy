/**
 * MANIFEST.sha256 as text (scripts/check-migrations.ts): the printer, the line
 * parser, and the rows an operator pastes for --expect.
 */
module Manifest {
  import opened Names

  type Hashes = map<string, string>

  datatype Result<+T> = Ok(value: T) | Error(line: string)

  /* ---- Text ---- */

  /** What JavaScript's trim and \s take as white space, line terminators among them. */
  predicate Space(c: char) {
    var n := c as int;
    9 <= n <= 13 || n == 32 || n == 0xa0 || n == 0x1680 || 0x2000 <= n <= 0x200a
    || n == 0x2028 || n == 0x2029 || n == 0x202f || n == 0x205f || n == 0x3000 || n == 0xfeff
  }

  /** What a dot in a pattern does not match. */
  predicate Terminator(c: char) {
    var n := c as int;
    n == 10 || n == 13 || n == 0x2028 || n == 0x2029
  }

  /** The code points of sections 12.2 and 12.3 of ECMA-262: tabs and feeds, the space separators and the byte order mark, and the four line terminators. */
  lemma WhiteSpaceIs(c: char)
    ensures var tabs, lines := {9, 11, 12, 0xfeff}, {10, 13, 0x2028, 0x2029};
      var separators := {32, 0xa0, 0x1680, 0x2000, 0x2001, 0x2002, 0x2003, 0x2004, 0x2005, 0x2006, 0x2007, 0x2008, 0x2009, 0x200a, 0x202f, 0x205f, 0x3000};
      (Space(c) <==> c as int in tabs + separators + lines) && (Terminator(c) <==> c as int in lines)
  {
  }

  predicate Hex(c: char) { '0' <= c <= '9' || 'a' <= c <= 'f' }

  predicate IsHash(s: string) { |s| == 64 && forall i :: 0 <= i < |s| ==> Hex(s[i]) }

  function TrimStart(s: string): (r: string)
    ensures r != "" ==> !Space(r[0])
    ensures s != "" && !Space(s[0]) ==> r == s
  {
    if s != "" && Space(s[0]) then TrimStart(s[1..]) else s
  }

  function TrimEnd(s: string): (r: string)
    ensures |r| <= |s| && r == s[..|r|]
    ensures r != "" ==> !Space(r[|r| - 1])
    ensures s != "" && !Space(s[|s| - 1]) ==> r == s
  {
    if s != "" && Space(s[|s| - 1]) then TrimEnd(s[..|s| - 1]) else s
  }

  function Trim(s: string): string { TrimEnd(TrimStart(s)) }

  function SplitLines(s: string): (r: seq<string>)
    ensures |r| > 0
  {
    if s == "" then [""]
    else
      var rest := SplitLines(s[1..]);
      if s[0] == '\n' then [""] + rest else [[s[0]] + rest[0]] + rest[1..]
  }

  predicate OneLine(s: string) { forall i :: 0 <= i < |s| ==> s[i] != '\n' }

  /** Every line with its newline. */
  function Unlines(lines: seq<string>): string {
    if lines == [] then "" else lines[0] + "\n" + Unlines(lines[1..])
  }

  function Join(lines: seq<string>): string {
    if lines == [] then "" else if |lines| == 1 then lines[0] else lines[0] + "\n" + Join(lines[1..])
  }

  lemma {:induction false} SplitFirst(line: string, rest: string)
    requires OneLine(line)
    ensures SplitLines(line + "\n" + rest) == [line] + SplitLines(rest)
  {
    var s := line + "\n" + rest;
    if line == "" {
      assert s[1..] == rest;
    } else {
      assert s[1..] == line[1..] + "\n" + rest;
      assert forall i :: 0 <= i < |line[1..]| ==> line[1..][i] == line[i + 1];
      SplitFirst(line[1..], rest);
      assert [line[0]] + line[1..] == line;
    }
  }

  lemma {:induction false} SplitUnlines(lines: seq<string>)
    requires forall i :: 0 <= i < |lines| ==> OneLine(lines[i])
    ensures SplitLines(Unlines(lines)) == lines + [""]
  {
    if lines != [] {
      SplitUnlines(lines[1..]);
      SplitFirst(lines[0], Unlines(lines[1..]));
      assert [lines[0]] + (lines[1..] + [""]) == lines + [""];
    }
  }

  lemma {:induction false} JoinIsUnlines(lines: seq<string>)
    ensures Join(lines) + "\n" == Unlines(if lines == [] then [""] else lines)
  {
    if |lines| > 1 {
      JoinIsUnlines(lines[1..]);
      assert lines[0] + "\n" + Join(lines[1..]) + "\n" == lines[0] + "\n" + (Join(lines[1..]) + "\n");
    } else if |lines| == 1 {
      assert Unlines(lines) == lines[0] + "\n" + Unlines(lines[1..]);
      assert lines[0] + "\n" + "" == lines[0] + "\n";
    }
  }

  lemma {:induction false} UnlinesConcat(a: seq<string>, b: seq<string>)
    ensures Unlines(a + b) == Unlines(a) + Unlines(b)
  {
    if a == [] {
      assert a + b == b;
    } else {
      UnlinesConcat(a[1..], b);
      assert (a + b)[1..] == a[1..] + b;
    }
  }

  /* ---- Parsing a line-by-line file ---- */

  datatype Line = Skip | Entry(name: string, hash: string) | Bad

  /** A reader of single lines decides what each line of a file adds. */
  type Reader = string -> Line

  /** Later lines win; the first bad line ends the run. */
  function ReadFrom(read: Reader, lines: seq<string>, out: Hashes): Result<Hashes> {
    if lines == [] then Ok(out)
    else match read(lines[0])
      case Skip => ReadFrom(read, lines[1..], out)
      case Entry(name, hash) => ReadFrom(read, lines[1..], out[name := hash])
      case Bad => Error(lines[0])
  }

  lemma {:induction false} ReadConcat(read: Reader, a: seq<string>, b: seq<string>, out: Hashes)
    ensures ReadFrom(read, a + b, out)
         == match ReadFrom(read, a, out) case Ok(m) => ReadFrom(read, b, m) case Error(e) => Error(e)
  {
    if a == [] {
      assert a + b == b;
    } else {
      assert (a + b)[1..] == a[1..] + b;
      match read(a[0])
      case Skip => ReadConcat(read, a[1..], b, out);
      case Entry(name, hash) => ReadConcat(read, a[1..], b, out[name := hash]);
      case Bad =>
    }
  }

  lemma {:induction false} ReadSkips(read: Reader, lines: seq<string>, out: Hashes)
    requires forall i :: 0 <= i < |lines| ==> read(lines[i]) == Skip
    ensures ReadFrom(read, lines, out) == Ok(out)
  {
    if lines != [] {
      assert read(lines[0]) == Skip;
      ReadSkips(read, lines[1..], out);
    }
  }

  ghost predicate ReadAs(read: Reader, lines: seq<string>, names: seq<string>, m: Hashes) {
    && |lines| == |names|
    && forall i :: 0 <= i < |names| ==> names[i] in m && read(lines[i]) == Entry(names[i], m[names[i]])
  }

  lemma {:induction false} ReadEntries(read: Reader, lines: seq<string>, names: seq<string>, m: Hashes, out: Hashes)
    requires ReadAs(read, lines, names, m)
    ensures var r := ReadFrom(read, lines, out);
      r.Ok? && forall n :: (n in r.value <==> n in out || n in names)
                 && (n in names ==> r.value[n] == m[n]) && (n in out && n !in names ==> r.value[n] == out[n])
  {
    if names != [] {
      assert names == [names[0]] + names[1..];
      assert read(lines[0]) == Entry(names[0], m[names[0]]);
      ReadEntries(read, lines[1..], names[1..], m, out[names[0] := m[names[0]]]);
    }
  }

  /** One line a name, each read back as its entry, rebuild the map they were printed from. */
  lemma ReadWhole(read: Reader, lines: seq<string>, names: seq<string>, m: Hashes)
    requires ReadAs(read, lines, names, m) && forall n :: n in names <==> n in m
    ensures ReadFrom(read, lines, map[]) == Ok(m)
  {
    ReadEntries(read, lines, names, m, map[]);
    assert ReadFrom(read, lines, map[]).value == m;
  }

  ghost predicate AllGood(m: Hashes, good: (string, string) -> bool) {
    forall n :: n in m ==> good(n, m[n])
  }

  /** Whatever a file holds, every name and hash read from it is one its reader can produce. */
  lemma {:induction false} ReadProduces(read: Reader, lines: seq<string>, out: Hashes, good: (string, string) -> bool)
    requires forall l :: read(l).Entry? ==> good(read(l).name, read(l).hash)
    requires AllGood(out, good)
    ensures var r := ReadFrom(read, lines, out); r.Ok? ==> AllGood(r.value, good)
  {
    if lines != [] {
      var line := read(lines[0]);
      if line.Entry? {
        assert AllGood(out[line.name := line.hash], good);
        ReadProduces(read, lines[1..], out[line.name := line.hash], good);
      } else if line.Skip? {
        ReadProduces(read, lines[1..], out, good);
      }
    }
  }

  /* ---- The manifest ---- */

  /** `<sha256>  <filename>`: a hash, white space, and the rest of the trimmed line. */
  function ManifestLine(raw: string): Line {
    var t := Trim(raw);
    if t == "" || t[0] == '#' then Skip
    else if |t| <= 64 || !IsHash(t[..64]) || !Space(t[64]) then Bad
    else
      var name := TrimStart(t[64..]);
      if name == "" || !NoTerminators(name) then Bad else Entry(name, t[..64])
  }

  predicate NoTerminators(s: string) { forall i :: 0 <= i < |s| ==> !Terminator(s[i]) }

  predicate AllSpace(s: string) { forall i :: 0 <= i < |s| ==> Space(s[i]) }

  predicate HashDigits(s: string) { |s| == 64 && forall i :: 0 <= i < 64 ==> s[i] in "0123456789abcdef" }

  lemma DigitsAreHex(s: string)
    ensures HashDigits(s) <==> IsHash(s)
  {
    forall c: char ensures Hex(c) <==> c in "0123456789abcdef" { HexDigit(c); }
  }

  lemma HexDigit(c: char)
    ensures Hex(c) <==> c in "0123456789abcdef"
  {
    var digits := "0123456789abcdef";
    if '0' <= c <= '9' { assert digits[c as int - '0' as int] == c; }
    else if 'a' <= c <= 'f' { assert digits[c as int - 'a' as int + 10] == c; }
  }

  lemma {:induction false} GapDropped(gap: string, rest: string)
    requires AllSpace(gap) && rest != "" && !Space(rest[0])
    ensures TrimStart(gap + rest) == rest
  {
    if gap == "" {
      assert gap + rest == rest;
    } else {
      assert Space(gap[0]) && (gap + rest)[1..] == gap[1..] + rest;
      GapDropped(gap[1..], rest);
    }
  }

  lemma {:induction false} StartGap(s: string) returns (gap: string)
    ensures AllSpace(gap) && s == gap + TrimStart(s)
  {
    if s != "" && Space(s[0]) {
      var more := StartGap(s[1..]);
      gap := [s[0]] + more;
    } else {
      gap := "";
    }
  }

  /** 64 hex digits, white space, and a name that has neither white space in front nor the end of a line in it. */
  predicate ManifestShape(t: string, hash: string, gap: string, name: string) {
    && t == hash + gap + name
    && HashDigits(hash) && gap != "" && AllSpace(gap)
    && name != "" && !Space(name[0]) && NoTerminators(name)
  }

  lemma ShapeReads(raw: string, hash: string, gap: string, name: string)
    requires ManifestShape(Trim(raw), hash, gap, name)
    ensures ManifestLine(raw) == Entry(name, hash)
  {
    var t := Trim(raw);
    DigitsAreHex(hash);
    assert t == hash + (gap + name);
    assert t[..64] == hash && t[64..] == gap + name && t[64] == gap[0] && t[0] == hash[0];
    GapDropped(gap, name);
  }

  /** A line of the manifest, trimmed, is passed over when it is empty or a comment, names a file and its hash when it has that shape, and is bad otherwise. */
  lemma ManifestLineIs(raw: string)
    ensures var t, l := Trim(raw), ManifestLine(raw);
      && (l.Skip? <==> t == "" || t[0] == '#')
      && (l.Entry? ==> exists gap :: ManifestShape(t, l.hash, gap, l.name))
      && (forall hash, gap, name :: ManifestShape(t, hash, gap, name) ==> l == Entry(name, hash))
  {
    var t, l := Trim(raw), ManifestLine(raw);
    if l.Entry? {
      var gap := StartGap(t[64..]);
      DigitsAreHex(l.hash);
      assert t == t[..64] + t[64..];
      assert t[64..][0] == t[64] && Space(t[64]);
      assert gap != "" by { assert gap + l.name == t[64..] && !Space(l.name[0]); }
      assert ManifestShape(t, l.hash, gap, l.name);
    }
    forall hash, gap, name | ManifestShape(t, hash, gap, name) ensures l == Entry(name, hash) { ShapeReads(raw, hash, gap, name); }
  }

  /** A name the manifest can carry: on one line, with no white space at either end. */
  predicate Representable(name: string) {
    name != "" && !Space(name[0]) && !Space(name[|name| - 1]) && NoTerminators(name)
  }

  /** None is a manifest that is not there, which reads as an empty one. */
  function ParseManifest(text: Option<string>): Result<Hashes> {
    if text.None? then Ok(map[]) else ReadFrom(ManifestLine, SplitLines(text.value), map[])
  }

  function EntryLine(entries: Hashes, name: string): string {
    (if name in entries then entries[name] else "") + "  " + name
  }

  function EntryLines(entries: Hashes, names: seq<string>): seq<string> {
    seq(|names|, i requires 0 <= i < |names| => EntryLine(entries, names[i]))
  }

  /** header is the fixed comment block the script writes first. */
  ghost function ManifestText(header: seq<string>, entries: Hashes): string {
    Unlines(header) + Join(EntryLines(entries, Sorted(entries.Keys))) + "\n"
  }

  predicate Comments(header: seq<string>) {
    forall i :: 0 <= i < |header| ==> OneLine(header[i]) && ManifestLine(header[i]) == Skip
  }

  method WriteManifest(header: seq<string>, entries: Hashes, keys: seq<string>) returns (text: string)
    requires forall i, j :: 0 <= i < j < |keys| ==> keys[i] != keys[j]
    requires (set k | k in keys) == entries.Keys
    ensures text == ManifestText(header, entries)
  {
    var names := Sort(keys);
    text := Unlines(header) + Join(EntryLines(entries, names)) + "\n";
  }

  method ReadManifest(text: Option<string>) returns (r: Result<Hashes>)
    ensures r == ParseManifest(text)
  {
    var out: Hashes := map[];
    if text.None? { return Ok(out); }
    var lines := SplitLines(text.value);
    for i := 0 to |lines|
      invariant ReadFrom(ManifestLine, lines, map[]) == ReadFrom(ManifestLine, lines[i..], out)
    {
      assert lines[i..][1..] == lines[i + 1..];
      match ManifestLine(lines[i])
      case Skip =>
      case Bad => return Error(lines[i]);
      case Entry(name, hash) => out := out[name := hash];
    }
    r := Ok(out);
  }

  lemma TrimmedAlready(s: string)
    requires s != "" && !Space(s[0]) && !Space(s[|s| - 1])
    ensures Trim(s) == s
  {
  }

  lemma GapSkipped(name: string)
    requires name != "" && !Space(name[0])
    ensures TrimStart("  " + name) == name
  {
    assert ("  " + name)[1..] == " " + name;
    assert (" " + name)[1..] == name;
    assert TrimStart(" " + name) == TrimStart(name);
  }

  lemma EntryLineReads(entries: Hashes, name: string)
    requires name in entries && IsHash(entries[name]) && Representable(name)
    ensures ManifestLine(EntryLine(entries, name)) == Entry(name, entries[name])
    ensures OneLine(EntryLine(entries, name))
  {
    var hash := entries[name];
    var line := EntryLine(entries, name);
    assert line == hash + "  " + name;
    assert Hex(line[0]) && line[|line| - 1] == name[|name| - 1];
    TrimmedAlready(line);
    assert line[..64] == hash;
    assert line[64..] == "  " + name;
    GapSkipped(name);
    forall i | 0 <= i < |line| ensures line[i] != '\n' {
      if i < 64 { assert line[i] == hash[i] && Hex(hash[i]); }
      else if i >= 66 { assert line[i] == name[i - 66] && !Terminator(name[i - 66]); }
    }
  }

  lemma ManifestLines(header: seq<string>, entries: Hashes)
    requires Comments(header)
    requires forall n :: n in entries ==> IsHash(entries[n]) && Representable(n)
    ensures var body := EntryLines(entries, Sorted(entries.Keys));
      SplitLines(ManifestText(header, entries)) == header + (if body == [] then [""] else body) + [""]
  {
    var names := Sorted(entries.Keys);
    var body := EntryLines(entries, names);
    var shown := if body == [] then [""] else body;
    JoinIsUnlines(body);
    UnlinesConcat(header, shown);
    assert ManifestText(header, entries) == Unlines(header) + (Join(body) + "\n");
    assert forall i :: 0 <= i < |names| ==> names[i] in names;
    EntriesReadAs(entries, names);
    SplitUnlines(header + shown);
  }

  lemma EntriesReadAs(entries: Hashes, names: seq<string>)
    requires forall i :: 0 <= i < |names| ==> names[i] in entries
    requires forall n :: n in entries ==> IsHash(entries[n]) && Representable(n)
    ensures ReadAs(ManifestLine, EntryLines(entries, names), names, entries)
    ensures forall i :: 0 <= i < |names| ==> OneLine(EntryLines(entries, names)[i])
  {
    forall i | 0 <= i < |names|
      ensures ManifestLine(EntryLines(entries, names)[i]) == Entry(names[i], entries[names[i]])
      ensures OneLine(EntryLines(entries, names)[i])
    {
      EntryLineReads(entries, names[i]);
    }
  }

  lemma ReadThenEmpty(read: Reader, body: seq<string>, m: Hashes)
    requires read("") == Skip && ReadFrom(read, body, map[]) == Ok(m)
    ensures ReadFrom(read, body + [""], map[]) == Ok(m)
  {
    ReadConcat(read, body, [""], map[]);
    ReadSkips(read, [""], m);
  }

  lemma ReadBetweenSkips(read: Reader, before: seq<string>, body: seq<string>, m: Hashes)
    requires (forall i :: 0 <= i < |before| ==> read(before[i]) == Skip) && read("") == Skip
    requires ReadFrom(read, body, map[]) == Ok(m)
    ensures ReadFrom(read, before + body + [""], map[]) == Ok(m)
  {
    ReadSkips(read, before, map[]);
    ReadConcat(read, before, body, map[]);
    ReadThenEmpty(read, before + body, m);
  }

  lemma ReadsBack(header: seq<string>, entries: Hashes)
    requires Comments(header)
    requires forall n :: n in entries ==> IsHash(entries[n]) && Representable(n)
    ensures ParseManifest(Some(ManifestText(header, entries))) == Ok(entries)
  {
    ManifestLines(header, entries);
    var names := Sorted(entries.Keys);
    var body := EntryLines(entries, names);
    assert forall i :: 0 <= i < |names| ==> names[i] in names;
    EntriesReadAs(entries, names);
    ReadWhole(ManifestLine, body, names, entries);
    EmptyIsSkipped();
    if body == [] {
      ReadSkips(ManifestLine, [""], map[]);
      ReadBetweenSkips(ManifestLine, header, [""], entries);
    } else {
      ReadBetweenSkips(ManifestLine, header, body, entries);
    }
  }

  lemma LineProduces(raw: string)
    ensures var l := ManifestLine(raw); l.Entry? ==> Representable(l.name) && IsHash(l.hash)
  {
    var t := Trim(raw);
    var l := ManifestLine(raw);
    if l.Entry? { SuffixEnds(t[64..]); }
  }

  lemma {:induction false} SuffixEnds(s: string)
    ensures var r := TrimStart(s); r != "" ==> r[|r| - 1] == s[|s| - 1]
  {
    if s != "" && Space(s[0]) { SuffixEnds(s[1..]); }
  }

  /** Printing and parsing give the map back exactly when every name and hash in it can be printed. */
  lemma ManifestRoundTrip(header: seq<string>, entries: Hashes)
    requires Comments(header)
    ensures ParseManifest(Some(ManifestText(header, entries))) == Ok(entries)
       <==> forall n :: n in entries ==> IsHash(entries[n]) && Representable(n)
  {
    if forall n :: n in entries ==> IsHash(entries[n]) && Representable(n) {
      ReadsBack(header, entries);
    } else if ParseManifest(Some(ManifestText(header, entries))) == Ok(entries) {
      forall raw ensures var l := ManifestLine(raw); l.Entry? ==> Representable(l.name) && IsHash(l.hash) {
        LineProduces(raw);
      }
      ReadProduces(ManifestLine, SplitLines(ManifestText(header, entries)), map[], (n, h) => Representable(n) && IsHash(h));
    }
  }

  /* ---- The rows of an environment, as psql prints them ---- */

  predicate NameChar(c: char) {
    '0' <= c <= '9' || 'a' <= c <= 'z' || 'A' <= c <= 'Z' || c == '_' || c == '.' || c == '-'
  }

  /** The names a pasted row may have. */
  predicate Plain(name: string) {
    |name| > 4 && name[|name| - 4..] == ".sql" && forall i :: 0 <= i < |name| ==> NameChar(name[i])
  }

  /** The name in front of a gap that may end in one bar. */
  function NameBefore(text: string): string {
    var before := TrimEnd(text);
    if before != "" && before[|before| - 1] == '|' then TrimEnd(before[..|before| - 1]) else before
  }

  /** A name, a gap that may hold one bar, and a hash; any other line is passed over. */
  function RowLine(raw: string): Line {
    var t := Trim(raw);
    if t == "" || t[0] == '#' || |t| < 64 || !IsHash(t[|t| - 64..]) then Skip
    else
      var name := NameBefore(t[..|t| - 64]);
      if Plain(name) then Entry(name, t[|t| - 64..]) else Skip
  }

  /** Digits, letters, dash, dot and underscore, by code point. */
  lemma NameCharIs(c: char)
    ensures var n := c as int; NameChar(c) <==> 48 <= n <= 57 || 65 <= n <= 90 || 97 <= n <= 122 || n in {45, 46, 95}
  {
  }

  lemma {:induction false} EndDropped(rest: string, gap: string)
    requires AllSpace(gap) && rest != "" && !Space(rest[|rest| - 1])
    ensures TrimEnd(rest + gap) == rest
  {
    var s := rest + gap;
    if gap == "" {
      assert s == rest;
    } else {
      assert Space(gap[|gap| - 1]) && s[..|s| - 1] == rest + gap[..|gap| - 1];
      EndDropped(rest, gap[..|gap| - 1]);
    }
  }

  lemma {:induction false} EndGap(s: string) returns (gap: string)
    ensures AllSpace(gap) && s == TrimEnd(s) + gap
  {
    if s != "" && Space(s[|s| - 1]) {
      var more := EndGap(s[..|s| - 1]);
      gap := more + [s[|s| - 1]];
    } else {
      gap := "";
    }
  }

  /** White space with at most one bar in it. */
  predicate OneBar(gap: string) {
    (forall i :: 0 <= i < |gap| ==> Space(gap[i]) || gap[i] == '|') && forall i, j :: 0 <= i < j < |gap| ==> gap[i] != '|' || gap[j] != '|'
  }

  /** A plain name, white space with at most one bar in it, and a hash. */
  predicate RowShape(t: string, name: string, gap: string, hash: string) {
    t == name + gap + hash && Plain(name) && OneBar(gap) && HashDigits(hash)
  }

  lemma NameEnds(name: string)
    requires Plain(name)
    ensures name != "" && !Space(name[|name| - 1]) && name[|name| - 1] != '|' && !Space(name[0]) && name[0] != '#'
  {
    assert NameChar(name[|name| - 1]) && NameChar(name[0]);
  }

  lemma BarGap(name: string, gap: string, k: nat)
    requires Plain(name) && OneBar(gap) && k < |gap| && gap[k] == '|'
    ensures NameBefore(name + gap) == name
  {
    NameEnds(name);
    var before, after := gap[..k], gap[k + 1..];
    assert name + gap == (name + before + "|") + after;
    EndDropped(name + before + "|", after);
    assert (name + before + "|")[..|name + before|] == name + before;
    EndDropped(name, before);
  }

  lemma GapReads(name: string, gap: string)
    requires Plain(name) && OneBar(gap)
    ensures NameBefore(name + gap) == name
  {
    if k: nat :| k < |gap| && gap[k] == '|' {
      BarGap(name, gap, k);
    } else {
      NameEnds(name);
      EndDropped(name, gap);
    }
  }

  lemma RowReads(raw: string, name: string, gap: string, hash: string)
    requires RowShape(Trim(raw), name, gap, hash)
    ensures RowLine(raw) == Entry(name, hash)
  {
    var t := Trim(raw);
    DigitsAreHex(hash);
    NameEnds(name);
    assert t[|t| - 64..] == hash && t[..|t| - 64] == name + gap && t[0] == name[0];
    GapReads(name, gap);
  }

  lemma BarsOnce(before: string, after: string)
    requires AllSpace(before) && AllSpace(after)
    ensures OneBar(before + "|" + after) && OneBar(after)
  {
  }

  lemma FourParts(name: string, before: string, after: string)
    ensures (name + before + "|") + after == name + (before + "|" + after)
  {
  }

  lemma BarredFront(u: string, after: string) returns (gap: string)
    requires u != "" && u[|u| - 1] == '|' && AllSpace(after)
    ensures u + after == TrimEnd(u[..|u| - 1]) + gap && OneBar(gap)
  {
    var before := EndGap(u[..|u| - 1]);
    gap := before + "|" + after;
    BarsOnce(before, after);
    assert u == u[..|u| - 1] + "|";
    FourParts(TrimEnd(u[..|u| - 1]), before, after);
  }

  /** The name taken is what the text begins with, and after it there is at most a bar and white space. */
  lemma NameIsFront(text: string) returns (gap: string)
    ensures text == NameBefore(text) + gap && OneBar(gap)
  {
    var u := TrimEnd(text);
    var after := EndGap(text);
    if u != "" && u[|u| - 1] == '|' {
      gap := BarredFront(u, after);
    } else {
      gap := after;
      BarsOnce("", after);
    }
  }

  ghost predicate HasRowShape(t: string, name: string, hash: string) { exists gap :: RowShape(t, name, gap, hash) }

  lemma RowHasShape(raw: string)
    requires RowLine(raw).Entry?
    ensures HasRowShape(Trim(raw), RowLine(raw).name, RowLine(raw).hash)
  {
    var t, hash := Trim(raw), RowLine(raw).hash;
    DigitsAreHex(hash);
    assert t == t[..|t| - 64] + hash;
    var gap := NameIsFront(t[..|t| - 64]);
    assert RowShape(t, RowLine(raw).name, gap, hash);
  }

  /** A pasted line, trimmed, names a file and its hash exactly when it has that shape; any other is passed over. */
  lemma RowLineIs(raw: string)
    ensures var t, l := Trim(raw), RowLine(raw);
      && !l.Bad?
      && (l.Entry? ==> HasRowShape(t, l.name, l.hash))
      && (forall name, gap, hash :: RowShape(t, name, gap, hash) ==> l == Entry(name, hash))
  {
    if RowLine(raw).Entry? { RowHasShape(raw); }
    forall name, gap, hash | RowShape(Trim(raw), name, gap, hash) ensures RowLine(raw) == Entry(name, hash) { RowReads(raw, name, gap, hash); }
  }

  function DumpLine(rows: Hashes, name: string): string {
    name + " " + if name in rows then rows[name] else ""
  }

  /** psql -At -F' ' over the table, its rows in any order. */
  function Dump(rows: Hashes, order: seq<string>): string {
    Unlines(DumpLines(rows, order))
  }

  function DumpLines(rows: Hashes, order: seq<string>): seq<string> {
    seq(|order|, i requires 0 <= i < |order| => DumpLine(rows, order[i]))
  }

  function ParseRows(text: string): Hashes {
    match ReadFrom(RowLine, SplitLines(text), map[]) case Ok(m) => m case Error(_) => map[]
  }

  lemma DumpLineReads(rows: Hashes, name: string)
    requires name in rows && IsHash(rows[name]) && Plain(name)
    ensures RowLine(DumpLine(rows, name)) == Entry(name, rows[name]) && OneLine(DumpLine(rows, name))
  {
    var hash, line := rows[name], DumpLine(rows, name);
    assert line == name + " " + hash;
    assert NameChar(line[0]) && Hex(hash[63]) && line[|line| - 1] == hash[63];
    TrimmedAlready(line);
    assert line[|line| - 64..] == hash;
    assert line[..|line| - 64] == name + " ";
    assert (name + " ")[..|name|] == name;
    assert NameChar(name[|name| - 1]);
    assert TrimEnd(name) == name;
    assert TrimEnd(name + " ") == name;
    forall i | 0 <= i < |line| ensures line[i] != '\n' {
      if i < |name| { assert NameChar(name[i]); }
      else if i > |name| { assert line[i] == hash[i - |name| - 1] && Hex(line[i]); }
    }
  }

  lemma RowsReadAs(rows: Hashes, order: seq<string>)
    requires forall i :: 0 <= i < |order| ==> order[i] in rows
    requires forall n :: n in rows ==> IsHash(rows[n]) && Plain(n)
    ensures ReadAs(RowLine, DumpLines(rows, order), order, rows)
    ensures forall i :: 0 <= i < |order| ==> OneLine(DumpLines(rows, order)[i])
  {
    forall i | 0 <= i < |order|
      ensures RowLine(DumpLines(rows, order)[i]) == Entry(order[i], rows[order[i]])
      ensures OneLine(DumpLines(rows, order)[i])
    {
      DumpLineReads(rows, order[i]);
    }
  }

  /** A table of plain names and real hashes is read back whole, whatever the order of its rows. */
  lemma RowsReadBack(rows: Hashes, order: seq<string>)
    requires (forall n :: n in order <==> n in rows) && forall n :: n in rows ==> IsHash(rows[n]) && Plain(n)
    ensures ParseRows(Dump(rows, order)) == rows
  {
    var lines := DumpLines(rows, order);
    assert forall i :: 0 <= i < |order| ==> order[i] in order;
    RowsReadAs(rows, order);
    SplitUnlines(lines);
    ReadWhole(RowLine, lines, order, rows);
    EmptyIsSkipped();
    ReadThenEmpty(RowLine, lines, rows);
  }

  lemma EmptyIsSkipped()
    ensures RowLine("") == Skip && ManifestLine("") == Skip
  {
  }

  lemma RowsArePlain(text: string)
    ensures forall n :: n in ParseRows(text) ==> Plain(n)
  {
    ReadProduces(RowLine, SplitLines(text), map[], (n, h) => Plain(n));
  }
}
