/**
 * Comparing the declared schema with the live one (scripts/check-drift.ts):
 * type names brought to one spelling, and both directions of the comparison.
 */
module Drift {
  import opened Names
  import Manifest

  /* ---- Type names ---- */

  function LowerChar(c: char): char { if 'A' <= c <= 'Z' then 'a' + (c - 'A') else c }

  /** White space taken out, letters made small. */
  function Compact(raw: string): (r: string)
    ensures forall i :: 0 <= i < |r| ==> Plain(r[i])
  {
    if raw == "" then ""
    else if Manifest.Space(raw[0]) then Compact(raw[1..])
    else [LowerChar(raw[0])] + Compact(raw[1..])
  }

  predicate Plain(c: char) { !Manifest.Space(c) && !('A' <= c <= 'Z') }

  predicate Letter(c: char) { 'a' <= c <= 'z' || c == '_' }

  function BaseLength(s: string): (n: nat)
    ensures n <= |s| && (forall i :: 0 <= i < n ==> Letter(s[i])) && (n < |s| ==> !Letter(s[n]))
  {
    if s != "" && Letter(s[0]) then 1 + BaseLength(s[1..]) else 0
  }

  /** A name, a modifier in brackets, an array mark: "char(3)[]" and the like. */
  datatype Parts = Parts(base: string, modifier: string, arrayMark: string)

  predicate Bracketed(s: string) { |s| >= 2 && s[0] == '(' && s[|s| - 1] == ')' }

  predicate EndsInArray(s: string) { |s| >= 2 && s[|s| - 2..] == "[]" }

  /** What follows the name: nothing, a modifier, an array mark, or both. */
  function SplitTail(rest: string): Option<(string, string)> {
    if rest == "" then Some(("", ""))
    else if Bracketed(rest) then Some((rest, ""))
    else if rest == "[]" then Some(("", "[]"))
    else if EndsInArray(rest) && Bracketed(rest[..|rest| - 2]) then Some((rest[..|rest| - 2], "[]"))
    else None
  }

  function Split(s: string): Option<Parts> {
    var n := BaseLength(s);
    var tail := SplitTail(s[n..]);
    if n == 0 || tail.None? then None else Some(Parts(s[..n], tail.value.0, tail.value.1))
  }

  function Join(p: Parts): string { p.base + p.modifier + p.arrayMark }

  /** The other spellings of a type's name. */
  function Alias(base: string): string {
    if base == "char" then "character"
    else if base == "varchar" then "charactervarying"
    else if base == "bool" then "boolean"
    else if base == "int" || base == "int4" then "integer"
    else if base == "int2" then "smallint"
    else if base == "int8" then "bigint"
    else if base == "float8" then "doubleprecision"
    else if base == "float4" then "real"
    else if base == "decimal" then "numeric"
    else if base == "timestamptz" then "timestampwithtimezone"
    else if base == "timetz" then "timewithtimezone"
    else base
  }

  /** The names in small letters that every JavaScript object answers to. */
  predicate Inherited(base: string) { base == "constructor" || base == "__proto__" }

  /** Looked up in an object, an inherited name gives what it inherits, as text. */
  function Canonical(base: string): string {
    if base == "constructor" then "function Object() { [native code] }"
    else if base == "__proto__" then "[object Object]"
    else Alias(base)
  }

  function NormaliseType(raw: string): string {
    var compact := Compact(raw);
    var parts := Split(compact);
    if parts.None? then compact else Join(parts.value.(base := Canonical(parts.value.base)))
  }

  /** A modifier and an array mark as a split leaves them. */
  predicate Tail(modifier: string, arrayMark: string) {
    (modifier == "" || Bracketed(modifier)) && (arrayMark == "" || arrayMark == "[]")
  }

  predicate Word(s: string) { s != "" && forall i :: 0 <= i < |s| ==> Letter(s[i]) }

  predicate AllPlain(s: string) { forall i :: 0 <= i < |s| ==> Plain(s[i]) }

  lemma SplitGives(s: string)
    ensures var p := Split(s);
      p.Some? ==> Word(p.value.base) && Tail(p.value.modifier, p.value.arrayMark) && s == p.value.base + (p.value.modifier + p.value.arrayMark)
  {
    var n := BaseLength(s);
    assert s == s[..n] + s[n..];
    TailGives(s[n..]);
  }

  lemma TailGives(rest: string)
    ensures var t := SplitTail(rest); t.Some? ==> Tail(t.value.0, t.value.1) && t.value.0 + t.value.1 == rest
  {
    assert rest + "" == rest && "" + rest == rest;
    if EndsInArray(rest) { assert rest == rest[..|rest| - 2] + rest[|rest| - 2..]; }
  }

  lemma BaseOf(base: string, rest: string)
    requires Word(base) && (rest != "" ==> !Letter(rest[0]))
    ensures BaseLength(base + rest) == |base|
  {
    var s := base + rest;
    assert forall i :: 0 <= i < |base| ==> s[i] == base[i];
    assert rest != "" ==> s[|base|] == rest[0];
  }

  lemma TailSplits(rest: string, modifier: string, arrayMark: string)
    requires Tail(modifier, arrayMark) && rest == modifier + arrayMark
    ensures SplitTail(rest) == Some((modifier, arrayMark))
  {
    if arrayMark == "[]" {
      assert rest[|rest| - 2..] == "[]" && rest[..|rest| - 2] == modifier;
      assert rest[|rest| - 1] == ']';
      assert modifier == "" ==> rest == "[]";
    } else {
      assert rest == modifier;
    }
  }

  /** Splitting undoes joining. */
  lemma SplitJoin(p: Parts)
    requires Word(p.base) && Tail(p.modifier, p.arrayMark)
    ensures Split(Join(p)) == Some(p)
  {
    var rest := p.modifier + p.arrayMark;
    assert Join(p) == p.base + rest;
    assert rest != "" ==> rest[0] == '(' || rest[0] == '[';
    BaseOf(p.base, rest);
    assert Join(p)[..|p.base|] == p.base && Join(p)[|p.base|..] == rest;
    TailSplits(rest, p.modifier, p.arrayMark);
  }

  lemma {:induction false} CompactKeeps(s: string)
    requires AllPlain(s)
    ensures Compact(s) == s
  {
    if s != "" {
      assert Plain(s[0]);
      assert forall i :: 0 <= i < |s| - 1 ==> s[1..][i] == s[i + 1];
      CompactKeeps(s[1..]);
    }
  }

  predicate ShortName(t: string) { t in ["boolean", "integer", "smallint", "bigint", "real", "numeric"] }

  predicate LongName(t: string) {
    t in ["character", "charactervarying", "doubleprecision", "timestampwithtimezone", "timewithtimezone"]
  }

  lemma AliasGives(base: string)
    ensures Alias(base) == base || ShortName(Alias(base)) || LongName(Alias(base))
  {
  }

  lemma ShortNamesAreWords(t: string)
    requires ShortName(t)
    ensures Word(t) && !Inherited(t)
  {
  }

  lemma LongNamesAreWords(t: string)
    requires LongName(t)
    ensures Word(t) && !Inherited(t)
  {
  }

  lemma ShortNamesStay(t: string)
    requires ShortName(t)
    ensures Alias(t) == t
  {
  }

  lemma LongNamesStay(t: string)
    requires LongName(t)
    ensures Alias(t) == t
  {
  }

  lemma AliasIsFinal(base: string)
    requires Word(base) && !Inherited(base)
    ensures Word(Alias(base)) && !Inherited(Alias(base)) && Alias(Alias(base)) == Alias(base)
  {
    AliasGives(base);
    var t := Alias(base);
    if ShortName(t) {
      ShortNamesAreWords(t);
      ShortNamesStay(t);
    } else if LongName(t) {
      LongNamesAreWords(t);
      LongNamesStay(t);
    }
  }

  /** The name of the type, where there is one, is not a name every object has. */
  predicate Ordinary(raw: string) {
    var parts := Split(Compact(raw));
    parts.Some? ==> !Inherited(parts.value.base)
  }

  lemma JoinIsPlain(base: string, s: string, n: nat)
    requires Word(base) && AllPlain(s) && n <= |s|
    ensures AllPlain(base + s[n..])
  {
    var t := base + s[n..];
    forall i | 0 <= i < |t| ensures Plain(t[i]) {
      if i >= |base| { assert t[i] == s[n + (i - |base|)]; } else { assert t[i] == base[i]; }
    }
  }

  /** Another name put before the tail of compact text is compact, and splits into that name and that tail. */
  lemma Renamed(s: string, name: string)
    requires AllPlain(s) && Split(s).Some? && Word(name)
    ensures var q := Split(s).value.(base := name);
      AllPlain(Join(q)) && Compact(Join(q)) == Join(q) && Split(Join(q)) == Some(q)
  {
    SplitGives(s);
    var p := Split(s).value;
    var q := p.(base := name);
    SplitJoin(q);
    assert s[|p.base|..] == p.modifier + p.arrayMark;
    JoinIsPlain(name, s, |p.base|);
    assert Join(q) == name + s[|p.base|..];
    CompactKeeps(Join(q));
  }

  lemma NormalisedSplits(raw: string)
    requires Ordinary(raw) && Split(Compact(raw)).Some?
    ensures var p := Split(Compact(raw)).value;
      var n := NormaliseType(raw);
      AllPlain(n) && Compact(n) == n && Split(n) == Some(p.(base := Alias(p.base)))
      && !Inherited(Alias(p.base)) && Alias(Alias(p.base)) == Alias(p.base)
  {
    SplitGives(Compact(raw));
    var p := Split(Compact(raw)).value;
    AliasIsFinal(p.base);
    Renamed(Compact(raw), Alias(p.base));
  }

  lemma OrdinaryIsPlain(raw: string)
    requires Ordinary(raw)
    ensures AllPlain(NormaliseType(raw))
  {
    if Split(Compact(raw)).Some? { NormalisedSplits(raw); }
  }

  /** What is put for an inherited name has a space in it, and starts with nothing an inherited name starts with. */
  lemma InheritedStandsOut(base: string, tail: string)
    requires Inherited(base)
    ensures var n := Canonical(base) + tail; !AllPlain(n) && Ordinary(n)
  {
    var n := Canonical(base) + tail;
    var i := if base == "constructor" then 8 else 7;
    assert Canonical(base)[i] == ' ';
    assert n[i] == ' ';
    assert n[0] == if base == "constructor" then 'f' else '[';
    assert Compact(n)[0] == n[0];
    SplitGives(Compact(n));
  }

  /**
   * Normalising twice is normalising once, for every type name but two: a
   * look-up of "constructor" or "__proto__" finds what every object inherits.
   */
  lemma NormalisingTwice(raw: string)
    ensures NormaliseType(NormaliseType(raw)) == NormaliseType(raw) <==> Ordinary(raw)
  {
    var s, n := Compact(raw), NormaliseType(raw);
    if Split(s).None? {
      CompactKeeps(s);
    } else if Ordinary(raw) {
      NormalisedSplits(raw);
    } else {
      var p := Split(s).value;
      assert n == Canonical(p.base) + (p.modifier + p.arrayMark);
      InheritedStandsOut(p.base, p.modifier + p.arrayMark);
      OrdinaryIsPlain(n);
    }
  }

  /** What a type name says: a name up to its alias, a modifier and an array mark; or text that does not read so. */
  datatype Meaning = Named(name: string, modifier: string, arrayMark: string) | Unread(text: string)

  function MeaningOf(raw: string): Meaning {
    var parts := Split(Compact(raw));
    if parts.None? then Unread(Compact(raw))
    else
      var p := parts.value;
      Named(if Inherited(p.base) then p.base else Alias(p.base), p.modifier, p.arrayMark)
  }

  lemma TailsTellApart(m: string, a: string, n: string, b: string)
    requires Tail(m, a) && Tail(n, b)
    ensures m + a == n + b <==> m == n && a == b
  {
    TailSplits(m + a, m, a);
    TailSplits(n + b, n, b);
  }

  lemma InheritedSame(p: Parts, q: Parts)
    requires Inherited(p.base) && Inherited(q.base) && Tail(p.modifier, p.arrayMark) && Tail(q.modifier, q.arrayMark)
    ensures Canonical(p.base) + (p.modifier + p.arrayMark) == Canonical(q.base) + (q.modifier + q.arrayMark) <==> p == q
  {
    var x, y := Canonical(p.base) + (p.modifier + p.arrayMark), Canonical(q.base) + (q.modifier + q.arrayMark);
    assert x[0] == (if p.base == "constructor" then 'f' else '[') && y[0] == if q.base == "constructor" then 'f' else '[';
    if p.base == q.base {
      assert x[|Canonical(p.base)|..] == p.modifier + p.arrayMark && y[|Canonical(p.base)|..] == q.modifier + q.arrayMark;
      TailsTellApart(p.modifier, p.arrayMark, q.modifier, q.arrayMark);
    }
  }

  lemma NormalisedInherited(raw: string)
    requires !Ordinary(raw)
    ensures var p := Split(Compact(raw)).value;
      Tail(p.modifier, p.arrayMark) && NormaliseType(raw) == Canonical(p.base) + (p.modifier + p.arrayMark) && !AllPlain(NormaliseType(raw))
  {
    SplitGives(Compact(raw));
    var p := Split(Compact(raw)).value;
    assert Join(p.(base := Canonical(p.base))) == Canonical(p.base) + (p.modifier + p.arrayMark);
    InheritedStandsOut(p.base, p.modifier + p.arrayMark);
  }

  lemma OneInherited(a: string, b: string)
    requires !Ordinary(a) && Ordinary(b)
    ensures NormaliseType(a) != NormaliseType(b) && MeaningOf(a) != MeaningOf(b)
  {
    NormalisedInherited(a);
    OrdinaryIsPlain(b);
    if Split(Compact(b)).Some? { NormalisedSplits(b); }
  }

  /** Any two type names come out equal exactly when they mean the same. */
  lemma EqualWhenMeantSo(a: string, b: string)
    ensures NormaliseType(a) == NormaliseType(b) <==> MeaningOf(a) == MeaningOf(b)
  {
    if Ordinary(a) && Ordinary(b) {
      if Split(Compact(a)).Some? { NormalisedSplits(a); }
      if Split(Compact(b)).Some? { NormalisedSplits(b); }
    } else if !Ordinary(a) && !Ordinary(b) {
      NormalisedInherited(a);
      NormalisedInherited(b);
      InheritedSame(Split(Compact(a)).value, Split(Compact(b)).value);
    } else if Ordinary(b) {
      OneInherited(a, b);
    } else {
      OneInherited(b, a);
    }
  }

  lemma SpelledSo(s: string, n: nat)
    requires AllPlain(s) && n < |s| && Word(s[..n]) && '0' <= s[n] <= '9'
    requires |s| == n + 1 && n > 0
    ensures NormaliseType(s) == s
  {
    CompactKeeps(s);
    assert s == s[..n] + s[n..];
    BaseOf(s[..n], s[n..]);
    assert s[n..] != "" && s[n..][0] == s[n];
  }

  /** The aliases that end in a digit are never looked up, since the name before a modifier is only letters. */
  lemma NumberedAliasesNeverApply(raw: string)
    requires Split(Compact(raw)).Some?
    ensures Split(Compact(raw)).value.base !in ["int2", "int4", "int8", "float4", "float8"]
  {
    var base := Split(Compact(raw)).value.base;
    SplitGives(Compact(raw));
    if |base| == 4 { assert Letter(base[3]); } else if |base| == 6 { assert Letter(base[5]); }
  }

  lemma WordStays(s: string)
    requires Word(s) && !Inherited(s) && Alias(s) == s
    ensures NormaliseType(s) == s
  {
    LettersArePlain(s);
    CompactKeeps(s);
    SplitJoin(Parts(s, "", ""));
    assert Join(Parts(s, "", "")) == s;
  }

  /** So a column declared int8 is reported against a live bigint, which is the same type. */
  lemma Int8IsReported()
    ensures NormaliseType("int8") != NormaliseType("bigint")
  {
    assert "int8"[3] == '8';
    SpelledSo("int8", 3);
    ShortNamesAreWords("bigint");
    ShortNamesStay("bigint");
    WordStays("bigint");
  }

  lemma LettersArePlain(s: string)
    requires Word(s)
    ensures AllPlain(s)
  {
  }

  lemma {:induction false} CompactConcat(a: string, b: string)
    ensures Compact(a + b) == Compact(a) + Compact(b)
  {
    if a == "" {
      assert a + b == b;
    } else {
      assert (a + b)[1..] == a[1..] + b;
      CompactConcat(a[1..], b);
    }
  }

  /** One letter, large or small. */
  predicate SameLetter(a: char, b: char) {
    a == b || ('A' <= a <= 'Z' && b as int == a as int + 32) || ('A' <= b <= 'Z' && a as int == b as int + 32)
  }

  predicate SameButForCase(a: string, b: string) { |a| == |b| && forall i :: 0 <= i < |a| ==> SameLetter(a[i], b[i]) }

  lemma {:induction false} CompactIgnoresCase(a: string, b: string)
    requires SameButForCase(a, b)
    ensures Compact(a) == Compact(b)
  {
    if a != "" {
      assert SameLetter(a[0], b[0]);
      forall i | 0 <= i < |a| - 1 ensures SameLetter(a[1..][i], b[1..][i]) {
        assert SameLetter(a[i + 1], b[i + 1]);
      }
      CompactIgnoresCase(a[1..], b[1..]);
    }
  }

  /** Letters large or small, and white space anywhere, make no difference to a type's name. */
  lemma CaseAndSpaceIgnored(a: string, b: string, c: char, x: string, y: string)
    requires SameButForCase(a, b) && Manifest.Space(c)
    ensures NormaliseType(a) == NormaliseType(b) && NormaliseType(x + [c] + y) == NormaliseType(x + y)
  {
    CompactIgnoresCase(a, b);
    CompactConcat(x + [c], y);
    CompactConcat(x, [c]);
    CompactConcat(x, y);
    assert Compact([c]) == "";
    assert Compact(x) + "" == Compact(x);
  }

  /** Whatever is in the brackets is the modifier, and an array mark may follow it or stand alone. */
  lemma ModifierReads(inner: string)
    ensures var m := "(" + inner + ")";
      SplitTail(m) == Some((m, "")) && SplitTail(m + "[]") == Some((m, "[]"))
    ensures SplitTail("") == Some(("", "")) && SplitTail("[]") == Some(("", "[]"))
  {
    var m := "(" + inner + ")";
    assert m[0] == '(' && m[|m| - 1] == ')';
    TailSplits(m + "[]", m, "[]");
    TailSplits("" + "[]", "", "[]");
  }

  /** The two names every object has come out as what it has under them. */
  lemma InheritedComesOut()
    ensures NormaliseType("constructor") == "function Object() { [native code] }"
    ensures NormaliseType("__proto__") == "[object Object]"
  {
    assert Word("constructor") && Word("__proto__");
    ComesOutAs("constructor");
    ComesOutAs("__proto__");
  }

  lemma ComesOutAs(w: string)
    requires Word(w)
    ensures NormaliseType(w) == Canonical(w)
  {
    WordRuns(w);
    assert w + "" == w && Canonical(w) + "" == Canonical(w);
    NamedComesOut(w, w, "");
  }

  /** The types PostgreSQL has a short and a long name for, of those an alias is kept for and reached. */
  datatype TwoNames = Char | Varchar | Bool | Int | Decimal | Timestamptz | Timetz

  function Short(t: TwoNames): string {
    match t
    case Char => "char"
    case Varchar => "varchar"
    case Bool => "bool"
    case Int => "int"
    case Decimal => "decimal"
    case Timestamptz => "timestamptz"
    case Timetz => "timetz"
  }

  function Long(t: TwoNames): string {
    match t
    case Char => "character"
    case Varchar => "character varying"
    case Bool => "boolean"
    case Int => "integer"
    case Decimal => "numeric"
    case Timestamptz => "timestamp with time zone"
    case Timetz => "time with time zone"
  }

  /** The words of a name run together. */
  predicate RunsTogether(name: string, w: string) { Word(w) && Compact(name) == w }

  lemma WordRuns(w: string)
    requires Word(w)
    ensures RunsTogether(w, w)
  {
    LettersArePlain(w);
    CompactKeeps(w);
  }

  lemma MoreRuns(name: string, w: string, more: string)
    requires RunsTogether(name, w) && Word(more)
    ensures RunsTogether(name + " " + more, w + more)
  {
    CompactConcat(name + " ", more);
    CompactConcat(name, " ");
    assert Compact(" ") == "";
    assert w + "" == w;
    WordRuns(more);
  }

  lemma ZoneRuns(name: string)
    requires Word(name)
    ensures RunsTogether(name + " with time zone", name + "withtimezone")
  {
    WordRuns(name);
    MoreRuns(name, name, "with");
    MoreRuns(name + " " + "with", name + "with", "time");
    MoreRuns(name + " " + "with" + " " + "time", name + "with" + "time", "zone");
    assert name + " " + "with" + " " + "time" + " " + "zone" == name + " with time zone";
    assert name + "with" + "time" + "zone" == name + "withtimezone";
  }

  lemma VaryingText()
    ensures "character" + " " + "varying" == "character varying" && "character" + "varying" == "charactervarying"
  {
  }

  lemma VaryingRuns()
    ensures RunsTogether("character varying", "charactervarying")
  {
    assert Word("character") && Word("varying");
    WordRuns("character");
    MoreRuns("character", "character", "varying");
    VaryingText();
  }

  lemma TimestampText()
    ensures "timestamp" + " with time zone" == "timestamp with time zone" && "timestamp" + "withtimezone" == "timestampwithtimezone"
  {
  }

  lemma TimestampRuns()
    ensures RunsTogether("timestamp with time zone", "timestampwithtimezone")
  {
    assert Word("timestamp");
    ZoneRuns("timestamp");
    TimestampText();
  }

  lemma TimeText()
    ensures "time" + " with time zone" == "time with time zone" && "time" + "withtimezone" == "timewithtimezone"
  {
  }

  lemma TimeRuns()
    ensures RunsTogether("time with time zone", "timewithtimezone")
  {
    assert Word("time");
    ZoneRuns("time");
    TimeText();
  }

  /** The long name run together. */
  function OneWord(t: TwoNames): string {
    match t
    case Varchar => "charactervarying"
    case Timestamptz => "timestampwithtimezone"
    case Timetz => "timewithtimezone"
    case _ => Long(t)
  }

  lemma AliasIsOneWord(t: TwoNames)
    ensures Alias(Short(t)) == OneWord(t)
  {
  }

  lemma LongIsWord(t: TwoNames)
    requires OneWord(t) == Long(t)
    ensures Word(Long(t))
  {
  }

  lemma LongRuns(t: TwoNames)
    ensures RunsTogether(Long(t), OneWord(t))
  {
    match t
    case Varchar => VaryingRuns();
    case Timestamptz => TimestampRuns();
    case Timetz => TimeRuns();
    case _ =>
      LongIsWord(t);
      WordRuns(Long(t));
  }

  lemma JoinIs(base: string, t: (string, string), rest: string)
    requires t.0 + t.1 == rest
    ensures Join(Parts(base, t.0, t.1)) == base + rest
  {
    assert base + t.0 + t.1 == base + (t.0 + t.1);
  }

  /** A name with a tail comes out as what it is looked up as, with that tail. */
  lemma NamedComesOut(name: string, w: string, tail: string)
    requires RunsTogether(name, w) && SplitTail(Compact(tail)).Some?
    ensures NormaliseType(name + tail) == Canonical(w) + Compact(tail)
  {
    var t := SplitTail(Compact(tail)).value;
    CompactConcat(name, tail);
    TailGives(Compact(tail));
    SplitJoin(Parts(w, t.0, t.1));
    JoinIs(w, t, Compact(tail));
    JoinIs(Canonical(w), t, Compact(tail));
  }

  lemma ShortIsWord(t: TwoNames)
    ensures Word(Short(t)) && !Inherited(Short(t))
  {
  }

  /** Spelled short or long, with any modifier and array mark, a type comes out the same. */
  lemma SpelledEitherWay(t: TwoNames, tail: string)
    requires SplitTail(Compact(tail)).Some?
    ensures NormaliseType(Short(t) + tail) == NormaliseType(Long(t) + tail)
  {
    LongRuns(t);
    AliasIsOneWord(t);
    ShortIsWord(t);
    WordRuns(Short(t));
    AliasIsFinal(Short(t));
    NamedComesOut(Short(t), Short(t), tail);
    NamedComesOut(Long(t), OneWord(t), tail);
  }

  /* ---- The comparison ---- */

  datatype Column = Column(name: string, sqlType: string, notNull: bool)

  datatype Table = Table(name: string, columns: seq<Column>)

  /** One row of the live catalogue. */
  datatype Row = Row(table: string, column: string, dataType: string, notNull: bool)

  datatype Problem =
    | TableAbsent(table: string)
    | ColumnAbsent(table: string, column: string)
    | TypesDiffer(table: string, column: string, declared: string, live: string)
    | NullabilityDiffers(table: string, column: string, declaredNotNull: bool)
    | ColumnUndeclared(table: string, column: string)
    | TableUndeclared(table: string)

  ghost predicate HasTable(rows: seq<Row>, t: string) { exists i :: 0 <= i < |rows| && rows[i].table == t }

  /** The last row for a column: a later one takes the place of an earlier. */
  function Live(rows: seq<Row>, t: string, c: string): (r: Option<Row>)
    ensures r.Some? ==> r.value in rows && r.value.table == t && r.value.column == c
    ensures r.None? ==> forall i :: 0 <= i < |rows| ==> !(rows[i].table == t && rows[i].column == c)
  {
    if rows == [] then None
    else
      var last := rows[|rows| - 1];
      if last.table == t && last.column == c then Some(last) else Live(rows[..|rows| - 1], t, c)
  }

  type Catalogue = map<string, map<string, Row>>

  ghost predicate Catalogues(catalogue: Catalogue, rows: seq<Row>) {
    && (forall t :: t in catalogue <==> HasTable(rows, t))
    && (forall t, c :: t in catalogue ==> (c in catalogue[t] <==> Live(rows, t, c).Some?))
    && (forall t, c :: t in catalogue && c in catalogue[t] ==> Live(rows, t, c) == Some(catalogue[t][c]))
  }

  lemma CatalogueGrows(catalogue: Catalogue, rows: seq<Row>, row: Row, next: Catalogue)
    requires Catalogues(catalogue, rows)
    requires next == catalogue[row.table := (if row.table in catalogue then catalogue[row.table] else map[])[row.column := row]]
    ensures Catalogues(next, rows + [row])
  {
    var more := rows + [row];
    assert more[..|more| - 1] == rows && more[|more| - 1] == row;
    forall t ensures t in next <==> HasTable(more, t) {
      if HasTable(rows, t) {
        var i :| 0 <= i < |rows| && rows[i].table == t;
        assert more[i].table == t;
      }
    }
    forall t, c ensures Live(more, t, c) == if t == row.table && c == row.column then Some(row) else Live(rows, t, c) {
    }
    assert row.table !in catalogue ==> forall c :: Live(rows, row.table, c).None?;
  }

  method CatalogueOf(rows: seq<Row>) returns (catalogue: Catalogue)
    ensures Catalogues(catalogue, rows)
  {
    catalogue := map[];
    for i := 0 to |rows|
      invariant Catalogues(catalogue, rows[..i])
    {
      var row := rows[i];
      var next := catalogue;
      if row.table !in next { next := next[row.table := map[]]; }
      next := next[row.table := next[row.table][row.column := row]];
      CatalogueGrows(catalogue, rows[..i], row, next);
      assert rows[..i + 1] == rows[..i] + [row];
      catalogue := next;
    }
    assert rows[..|rows|] == rows;
  }

  /** What a declared column is reported for. */
  ghost predicate ColumnProblem(t: string, c: Column, live: Option<Row>, p: Problem) {
    if live.None? then p == ColumnAbsent(t, c.name)
    else
      || (p == TypesDiffer(t, c.name, c.sqlType, live.value.dataType) && NormaliseType(c.sqlType) != NormaliseType(live.value.dataType))
      || (p == NullabilityDiffers(t, c.name, c.notNull) && c.notNull != live.value.notNull)
  }

  ghost predicate DeclaresColumn(d: Table, c: string) { exists i :: 0 <= i < |d.columns| && d.columns[i].name == c }

  ghost predicate AnyColumnProblem(d: Table, n: nat, rows: seq<Row>, p: Problem)
    requires n <= |d.columns|
  {
    exists i :: 0 <= i < n && ColumnProblem(d.name, d.columns[i], Live(rows, d.name, d.columns[i].name), p)
  }

  /** What a declared table is reported for. */
  ghost predicate TableProblem(d: Table, rows: seq<Row>, p: Problem) {
    if !HasTable(rows, d.name) then p == TableAbsent(d.name)
    else
      AnyColumnProblem(d, |d.columns|, rows, p)
      || (p.ColumnUndeclared? && p.table == d.name && Live(rows, d.name, p.column).Some? && !DeclaresColumn(d, p.column))
  }

  method CompareTable(d: Table, catalogue: Catalogue, ghost rows: seq<Row>) returns (problems: seq<Problem>)
    requires Catalogues(catalogue, rows)
    ensures forall p :: p in problems <==> TableProblem(d, rows, p)
  {
    if d.name !in catalogue { return [TableAbsent(d.name)]; }
    var actual := catalogue[d.name];
    problems := [];
    for i := 0 to |d.columns|
      invariant forall p :: p in problems <==> AnyColumnProblem(d, i, rows, p)
    {
      var found := CompareColumn(d.name, d.columns[i], if d.columns[i].name in actual then Some(actual[d.columns[i].name]) else None);
      OneMore(d, i, rows, problems, found);
      problems := problems + found;
    }
    ghost var before := problems;
    var left := actual.Keys;
    while left != {}
      invariant left <= actual.Keys
      invariant forall p :: p in problems <==> p in before || Undeclared(d, actual.Keys - left, p)
      decreases left
    {
      var name :| name in left;
      left := left - {name};
      if forall i :: 0 <= i < |d.columns| ==> d.columns[i].name != name {
        problems := problems + [ColumnUndeclared(d.name, name)];
      }
    }
  }

  ghost predicate Undeclared(d: Table, names: set<string>, p: Problem) {
    p.ColumnUndeclared? && p.table == d.name && p.column in names && !DeclaresColumn(d, p.column)
  }

  lemma OneMore(d: Table, i: nat, rows: seq<Row>, problems: seq<Problem>, found: seq<Problem>)
    requires i < |d.columns|
    requires forall p :: p in problems <==> AnyColumnProblem(d, i, rows, p)
    requires forall p :: p in found <==> ColumnProblem(d.name, d.columns[i], Live(rows, d.name, d.columns[i].name), p)
    ensures forall p :: p in problems + found <==> AnyColumnProblem(d, i + 1, rows, p)
  {
  }

  method CompareColumn(t: string, c: Column, live: Option<Row>) returns (problems: seq<Problem>)
    ensures forall p :: p in problems <==> ColumnProblem(t, c, live, p)
  {
    if live.None? { return [ColumnAbsent(t, c.name)]; }
    problems := [];
    if NormaliseType(c.sqlType) != NormaliseType(live.value.dataType) {
      problems := problems + [TypesDiffer(t, c.name, c.sqlType, live.value.dataType)];
    }
    if c.notNull != live.value.notNull {
      problems := problems + [NullabilityDiffers(t, c.name, c.notNull)];
    }
  }

  ghost predicate Declares(declared: seq<Table>, n: nat, t: string)
    requires n <= |declared|
  {
    exists i :: 0 <= i < n && declared[i].name == t
  }

  ghost predicate AnyTableProblem(declared: seq<Table>, n: nat, rows: seq<Row>, p: Problem)
    requires n <= |declared|
  {
    exists i :: 0 <= i < n && TableProblem(declared[i], rows, p)
  }

  /** Everything the check reports. */
  ghost predicate Reported(declared: seq<Table>, rows: seq<Row>, p: Problem) {
    || AnyTableProblem(declared, |declared|, rows, p)
    || (p.TableUndeclared? && HasTable(rows, p.table) && !Declares(declared, |declared|, p.table))
  }

  /** The whole check: what it reports is exactly what there is to report. */
  method Compare(declared: seq<Table>, rows: seq<Row>) returns (problems: seq<Problem>)
    ensures forall p :: p in problems <==> Reported(declared, rows, p)
  {
    var catalogue := CatalogueOf(rows);
    problems := [];
    var declaredTables: set<string> := {};
    for i := 0 to |declared|
      invariant forall t :: t in declaredTables <==> Declares(declared, i, t)
      invariant forall p :: p in problems <==> AnyTableProblem(declared, i, rows, p)
    {
      declaredTables := declaredTables + {declared[i].name};
      var found := CompareTable(declared[i], catalogue, rows);
      problems := problems + found;
    }
    ghost var before := problems;
    var left := catalogue.Keys;
    while left != {}
      invariant left <= catalogue.Keys
      invariant forall p :: p in problems <==> p in before || (p.TableUndeclared? && p.table in catalogue.Keys - left && p.table !in declaredTables)
      decreases left
    {
      var t :| t in left;
      left := left - {t};
      if t !in declaredTables { problems := problems + [TableUndeclared(t)]; }
    }
  }

  /** A declared table and the live one have the same columns, of the same types and nullability. */
  ghost predicate TableAgrees(d: Table, rows: seq<Row>) {
    && HasTable(rows, d.name)
    && (forall i :: 0 <= i < |d.columns| ==> ColumnAgrees(d.columns[i], Live(rows, d.name, d.columns[i].name)))
    && (forall c :: Live(rows, d.name, c).Some? ==> DeclaresColumn(d, c))
  }

  ghost predicate ColumnAgrees(c: Column, live: Option<Row>) {
    live.Some? && NormaliseType(c.sqlType) == NormaliseType(live.value.dataType) && c.notNull == live.value.notNull
  }

  ghost predicate Agree(declared: seq<Table>, rows: seq<Row>) {
    && (forall i :: 0 <= i < |declared| ==> TableAgrees(declared[i], rows))
    && (forall i :: 0 <= i < |rows| ==> Declares(declared, |declared|, rows[i].table))
  }

  lemma ColumnReported(t: string, c: Column, live: Option<Row>)
    ensures ColumnAgrees(c, live) <==> forall p :: !ColumnProblem(t, c, live, p)
  {
    assert live.None? ==> ColumnProblem(t, c, live, ColumnAbsent(t, c.name));
    if live.Some? {
      var x, y := TypesDiffer(t, c.name, c.sqlType, live.value.dataType), NullabilityDiffers(t, c.name, c.notNull);
      assert NormaliseType(c.sqlType) != NormaliseType(live.value.dataType) ==> ColumnProblem(t, c, live, x);
      assert c.notNull != live.value.notNull ==> ColumnProblem(t, c, live, y);
    }
  }

  lemma TableReported(d: Table, rows: seq<Row>)
    ensures TableAgrees(d, rows) <==> forall p :: !TableProblem(d, rows, p)
  {
    if !HasTable(rows, d.name) {
      assert TableProblem(d, rows, TableAbsent(d.name));
    } else if TableAgrees(d, rows) {
      forall p ensures !TableProblem(d, rows, p) {
        if AnyColumnProblem(d, |d.columns|, rows, p) {
          var i :| 0 <= i < |d.columns| && ColumnProblem(d.name, d.columns[i], Live(rows, d.name, d.columns[i].name), p);
          ColumnReported(d.name, d.columns[i], Live(rows, d.name, d.columns[i].name));
        }
      }
    } else if i :| 0 <= i < |d.columns| && !ColumnAgrees(d.columns[i], Live(rows, d.name, d.columns[i].name)) {
      ColumnReported(d.name, d.columns[i], Live(rows, d.name, d.columns[i].name));
      var p :| ColumnProblem(d.name, d.columns[i], Live(rows, d.name, d.columns[i].name), p);
      assert TableProblem(d, rows, p);
    } else {
      var c :| Live(rows, d.name, c).Some? && !DeclaresColumn(d, c);
      assert TableProblem(d, rows, ColumnUndeclared(d.name, c));
    }
  }

  /** Nothing is reported exactly when the two schemas agree, whatever their size. */
  lemma NothingReportedWhenAgreed(declared: seq<Table>, rows: seq<Row>)
    ensures (forall p :: !Reported(declared, rows, p)) <==> Agree(declared, rows)
  {
    if Agree(declared, rows) {
      forall p ensures !Reported(declared, rows, p) {
        if AnyTableProblem(declared, |declared|, rows, p) {
          var i :| 0 <= i < |declared| && TableProblem(declared[i], rows, p);
          TableReported(declared[i], rows);
        }
      }
    } else if i :| 0 <= i < |declared| && !TableAgrees(declared[i], rows) {
      TableReported(declared[i], rows);
      var p :| TableProblem(declared[i], rows, p);
      assert Reported(declared, rows, p);
    } else {
      var i :| 0 <= i < |rows| && !Declares(declared, |declared|, rows[i].table);
      assert Reported(declared, rows, TableUndeclared(rows[i].table));
    }
  }
}
