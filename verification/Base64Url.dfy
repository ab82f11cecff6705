/**
 * The extension's byte encoding (extension/src/store.ts), over btoa and atob
 * with the URL-safe letters and no padding: section 5 of RFC 4648, on the
 * alphabet and padding of its section 4. A string is its char codes.
 */
module Base64Url {
  import opened Names

  type byte = b: int | 0 <= b < 256
  type sextet = v: int | 0 <= v < 64

  /* ---- Bytes and six-bit groups ---- */

  function First(a: byte): sextet { a / 4 }
  function Second(a: byte, b: byte): sextet { a % 4 * 16 + b / 16 }
  function Third(b: byte, c: byte): sextet { b % 16 * 4 + c / 64 }
  function Fourth(c: byte): sextet { c % 64 }

  function Byte0(u: sextet, v: sextet): byte { u * 4 + v / 16 }
  function Byte1(v: sextet, w: sextet): byte { v % 16 * 16 + w / 4 }
  function Byte2(w: sextet, x: sextet): byte { w % 4 * 64 + x }

  /** Three bytes make four groups; a last one or two bytes are filled out with zero bits. */
  function Sextets(bytes: seq<byte>): seq<sextet> {
    if |bytes| == 0 then []
    else if |bytes| == 1 then [First(bytes[0]), Second(bytes[0], 0)]
    else if |bytes| == 2 then [First(bytes[0]), Second(bytes[0], bytes[1]), Third(bytes[1], 0)]
    else [First(bytes[0]), Second(bytes[0], bytes[1]), Third(bytes[1], bytes[2]), Fourth(bytes[2])] + Sextets(bytes[3..])
  }

  /** Four groups make three bytes; the bits past the last whole byte are dropped. */
  function Bytes(q: seq<sextet>): seq<byte> {
    if |q| <= 1 then []
    else if |q| == 2 then [Byte0(q[0], q[1])]
    else if |q| == 3 then [Byte0(q[0], q[1]), Byte1(q[1], q[2])]
    else [Byte0(q[0], q[1]), Byte1(q[1], q[2]), Byte2(q[2], q[3])] + Bytes(q[4..])
  }

  lemma {:induction false} SextetCount(bytes: seq<byte>)
    ensures |Sextets(bytes)| == (4 * |bytes| + 2) / 3 && |Sextets(bytes)| % 4 != 1
  {
    if |bytes| >= 3 { SextetCount(bytes[3..]); }
  }

  lemma GroupOfBytes(a: byte, b: byte, c: byte)
    ensures Byte0(First(a), Second(a, b)) == a
    ensures Byte1(Second(a, b), Third(b, c)) == b
    ensures Byte2(Third(b, c), Fourth(c)) == c
  {
  }

  lemma GroupOfSextets(u: sextet, v: sextet, w: sextet, x: sextet)
    ensures First(Byte0(u, v)) == u && Second(Byte0(u, v), Byte1(v, w)) == v
    ensures Third(Byte1(v, w), Byte2(w, x)) == w && Fourth(Byte2(w, x)) == x
    ensures v % 16 == 0 ==> Second(Byte0(u, v), 0) == v
    ensures w % 4 == 0 ==> Third(Byte1(v, w), 0) == w
  {
  }

  lemma BytesStep(u: sextet, v: sextet, w: sextet, x: sextet, t: seq<sextet>)
    ensures Bytes([u, v, w, x] + t) == [Byte0(u, v), Byte1(v, w), Byte2(w, x)] + Bytes(t)
  {
    assert ([u, v, w, x] + t)[4..] == t;
  }

  lemma SextetsStep(a: byte, b: byte, c: byte, t: seq<byte>)
    ensures Sextets([a, b, c] + t) == [First(a), Second(a, b), Third(b, c), Fourth(c)] + Sextets(t)
  {
    assert ([a, b, c] + t)[3..] == t;
  }

  lemma GroupRoundTrip(a: byte, b: byte, c: byte, t: seq<byte>)
    requires Bytes(Sextets(t)) == t
    ensures Bytes(Sextets([a, b, c] + t)) == [a, b, c] + t
  {
    SextetsStep(a, b, c, t);
    BytesStep(First(a), Second(a, b), Third(b, c), Fourth(c), Sextets(t));
    GroupOfBytes(a, b, c);
  }

  lemma BytesTail(q: seq<sextet>)
    requires |q| == 2 || |q| == 3
    ensures Bytes(q) == if |q| == 2 then [Byte0(q[0], q[1])] else [Byte0(q[0], q[1]), Byte1(q[1], q[2])]
  {
  }

  lemma OneRoundTrip(a: byte)
    ensures Bytes(Sextets([a])) == [a]
  {
    var q := Sextets([a]);
    assert q == [First(a), Second(a, 0)];
    BytesTail(q);
    GroupOfBytes(a, 0, 0);
  }

  lemma TwoRoundTrip(a: byte, b: byte)
    ensures Bytes(Sextets([a, b])) == [a, b]
  {
    var q := Sextets([a, b]);
    assert q == [First(a), Second(a, b), Third(b, 0)];
    BytesTail(q);
    GroupOfBytes(a, b, 0);
  }

  lemma {:induction false} BytesOfSextets(bytes: seq<byte>)
    ensures Bytes(Sextets(bytes)) == bytes
  {
    if |bytes| >= 3 {
      BytesOfSextets(bytes[3..]);
      GroupRoundTrip(bytes[0], bytes[1], bytes[2], bytes[3..]);
      assert bytes == [bytes[0], bytes[1], bytes[2]] + bytes[3..];
    } else if |bytes| == 2 {
      TwoRoundTrip(bytes[0], bytes[1]);
      assert bytes == [bytes[0], bytes[1]];
    } else if |bytes| == 1 {
      OneRoundTrip(bytes[0]);
      assert bytes == [bytes[0]];
    }
  }

  /** No bits are set past the last whole byte. */
  predicate NoStrayBits(q: seq<sextet>) {
    && |q| % 4 != 1
    && (|q| % 4 == 2 ==> q[|q| - 1] % 16 == 0)
    && (|q| % 4 == 3 ==> q[|q| - 1] % 4 == 0)
  }

  lemma StrayBitsStep(g: seq<sextet>, t: seq<sextet>)
    requires |g| == 4
    ensures NoStrayBits(g + t) <==> NoStrayBits(t)
  {
    assert t != [] ==> (g + t)[|t| + 3] == t[|t| - 1];
  }

  predicate ComesBack(q: seq<sextet>) { Sextets(Bytes(q)) == q }

  lemma {:induction false} SextetsOfBytes(q: seq<sextet>)
    requires NoStrayBits(q)
    ensures ComesBack(q)
  {
    if |q| >= 4 {
      var u, v, w, x, t := q[0], q[1], q[2], q[3], q[4..];
      assert q == [u, v, w, x] + t;
      StrayBitsStep([u, v, w, x], t);
      SextetsOfBytes(t);
      BytesStep(u, v, w, x, t);
      SextetsStep(Byte0(u, v), Byte1(v, w), Byte2(w, x), Bytes(t));
      GroupOfSextets(u, v, w, x);
    } else if |q| >= 2 {
      GroupOfSextets(q[0], q[1], if |q| == 3 then q[2] else 0, 0);
    }
  }

  lemma {:induction false} SextetsAreClean(bytes: seq<byte>)
    ensures NoStrayBits(Sextets(bytes))
  {
    SextetCount(bytes);
    if |bytes| >= 3 {
      SextetsAreClean(bytes[3..]);
      StrayBitsStep(Sextets(bytes)[..4], Sextets(bytes[3..]));
    }
  }

  /* ---- Letters ---- */

  function Letter(v: sextet): char {
    if v < 26 then ('A' as int + v) as char
    else if v < 52 then ('a' as int + v - 26) as char
    else if v < 62 then ('0' as int + v - 52) as char
    else if v == 62 then '+' else '/'
  }

  function ValueOf(c: char): Option<sextet> {
    if 'A' <= c <= 'Z' then Some(c as int - 'A' as int)
    else if 'a' <= c <= 'z' then Some(c as int - 'a' as int + 26)
    else if '0' <= c <= '9' then Some(c as int - '0' as int + 52)
    else if c == '+' then Some(62)
    else if c == '/' then Some(63)
    else None
  }

  function UrlLetter(c: char): char { if c == '+' then '-' else if c == '/' then '_' else c }
  function PlainLetter(c: char): char { if c == '-' then '+' else if c == '_' then '/' else c }

  predicate UrlSafe(c: char) {
    'A' <= c <= 'Z' || 'a' <= c <= 'z' || '0' <= c <= '9' || c == '-' || c == '_'
  }

  function Url(v: sextet): char { UrlLetter(Letter(v)) }

  lemma LetterValue(v: sextet)
    ensures ValueOf(Letter(v)) == Some(v) && PlainLetter(Url(v)) == Letter(v) && UrlSafe(Url(v))
  {
  }

  lemma UrlValue(c: char)
    requires UrlSafe(c)
    ensures ValueOf(PlainLetter(c)).Some? && Url(ValueOf(PlainLetter(c)).value) == c
  {
  }

  /* ---- btoa and atob ---- */

  function Padding(n: nat): string { if n % 3 == 1 then "==" else if n % 3 == 2 then "=" else "" }

  function Map(f: char -> char, s: string): string { seq(|s|, i requires 0 <= i < |s| => f(s[i])) }

  function Letters(q: seq<sextet>): string { seq(|q|, i requires 0 <= i < |q| => Letter(q[i])) }

  /** btoa: the letters, padded to a multiple of four. */
  function Btoa(bytes: seq<byte>): string { Letters(Sextets(bytes)) + Padding(|bytes|) }

  predicate AsciiSpace(c: char) { c == ' ' || c == '\t' || c == '\n' || c == '\r' || c as int == 12 }

  function WithoutSpaces(s: string): string {
    if s == "" then "" else (if AsciiSpace(s[0]) then "" else [s[0]]) + WithoutSpaces(s[1..])
  }

  /** At most two '=' at the end go, and only from a length that is a multiple of four. */
  function WithoutPadding(s: string): string {
    if |s| == 0 || |s| % 4 != 0 || s[|s| - 1] != '=' then s
    else if s[|s| - 2] != '=' then s[..|s| - 1]
    else s[..|s| - 2]
  }

  predicate AllLetters(s: string) {
    forall i :: 0 <= i < |s| ==> ValueOf(s[i]).Some?
  }

  function Values(s: string): seq<sextet>
    requires AllLetters(s)
  {
    seq(|s|, i requires 0 <= i < |s| => ValueOf(s[i]).value)
  }

  /** atob: None where it throws. */
  function Atob(s: string): Option<seq<byte>> {
    var data := WithoutPadding(WithoutSpaces(s));
    if |data| % 4 == 1 || !AllLetters(data) then None else Some(Bytes(Values(data)))
  }

  /* ---- toBase64Url and fromBase64Url ---- */

  /** Section 5 of RFC 4648 without padding: what the encoding has to be. */
  function Encode(bytes: seq<byte>): string {
    var q := Sextets(bytes);
    seq(|q|, i requires 0 <= i < |q| => Url(q[i]))
  }

  function Decode(value: string): Option<seq<byte>> {
    Atob(Map(PlainLetter, value))
  }

  function StripEquals(s: string): string {
    if s != "" && s[|s| - 1] == '=' then StripEquals(s[..|s| - 1]) else s
  }

  lemma StripsPadding(s: string, n: nat)
    requires s == "" || s[|s| - 1] != '='
    ensures StripEquals(s + Padding(n)) == s
  {
    assert StripEquals(s) == s && s + "" == s;
    assert (s + "=")[..|s|] == s;
    assert StripEquals(s + "=") == s;
    assert (s + "==")[..|s| + 1] == s + "=";
  }

  /** The length is ceil(4n/3) and every character is URL-safe. */
  lemma EncodedShape(bytes: seq<byte>)
    ensures |Encode(bytes)| == (4 * |bytes| + 2) / 3
    ensures forall i :: 0 <= i < |Encode(bytes)| ==> UrlSafe(Encode(bytes)[i])
  {
    SextetCount(bytes);
    var q := Sextets(bytes);
    forall i | 0 <= i < |q| ensures UrlSafe(Encode(bytes)[i]) { LetterValue(q[i]); }
  }

  /** The value of a character in the alphabet of section 5 of RFC 4648. */
  predicate StandsFor(c: char, v: sextet) {
    if 'A' <= c <= 'Z' then v == c as int - 'A' as int
    else if 'a' <= c <= 'z' then v == 26 + (c as int - 'a' as int)
    else if '0' <= c <= '9' then v == 52 + (c as int - '0' as int)
    else (c == '-' && v == 62) || (c == '_' && v == 63)
  }

  /** A byte of the text, and zero past its end. */
  function At(bytes: seq<byte>, k: nat): byte { if k < |bytes| then bytes[k] else 0 }

  /** Three bytes as one number of 24 bits. */
  function Group(bytes: seq<byte>, g: nat): nat {
    At(bytes, 3 * g) * 0x1_0000 + At(bytes, 3 * g + 1) * 0x100 + At(bytes, 3 * g + 2)
  }

  /** The four groups of six bits of such a number. */
  function SixBits(n: nat, j: nat): sextet
    requires j < 4
  {
    (if j == 0 then n / 64 / 64 / 64 else if j == 1 then n / 64 / 64 else if j == 2 then n / 64 else n) % 64
  }

  lemma Sixth(n: nat, q: nat, r: nat)
    requires n == 64 * q + r && r < 64
    ensures n / 64 == q && n % 64 == r
  {
  }

  /** The number of a group, six bits at a time. */
  lemma SixAtATime(a: byte, b: byte, c: byte)
    ensures var n := a * 0x1_0000 + b * 0x100 + c;
      n == 64 * (64 * (64 * First(a) + Second(a, b)) + Third(b, c)) + Fourth(c)
  {
    assert a == 4 * (a / 4) + a % 4;
    assert b == 16 * (b / 16) + b % 16;
    assert c == 64 * (c / 64) + c % 64;
  }

  lemma GroupSplits(n: nat, u: sextet, v: sextet, w: sextet, x: sextet)
    requires n == 64 * (64 * (64 * u + v) + w) + x
    ensures SixBits(n, 0) == u && SixBits(n, 1) == v && SixBits(n, 2) == w && SixBits(n, 3) == x
  {
    Sixth(n, 64 * (64 * u + v) + w, x);
    Sixth(64 * (64 * u + v) + w, 64 * u + v, w);
    Sixth(64 * u + v, u, v);
  }

  lemma {:induction false} SextetIs(bytes: seq<byte>, g: nat, j: nat)
    requires j < 4 && 4 * g + j < |Sextets(bytes)|
    ensures Sextets(bytes)[4 * g + j] == SixBits(Group(bytes, g), j)
  {
    SextetCount(bytes);
    if g == 0 {
      FirstSextets(bytes, j);
    } else {
      SextetIs(bytes[3..], g - 1, j);
      LaterSextet(bytes, g, j);
    }
  }

  lemma FirstSextets(bytes: seq<byte>, j: nat)
    requires j < 4 && j < |Sextets(bytes)|
    ensures Sextets(bytes)[j] == SixBits(Group(bytes, 0), j)
  {
    var a, b, c := At(bytes, 0), At(bytes, 1), At(bytes, 2);
    SixAtATime(a, b, c);
    GroupSplits(Group(bytes, 0), First(a), Second(a, b), Third(b, c), Fourth(c));
  }

  lemma LaterSextet(bytes: seq<byte>, g: nat, j: nat)
    requires g > 0 && j < 4 && 4 * g + j < |Sextets(bytes)| && |bytes| >= 3
    ensures var i := 4 * (g - 1) + j; i < |Sextets(bytes[3..])| && Sextets(bytes)[4 * g + j] == Sextets(bytes[3..])[i]
    ensures Group(bytes, g) == Group(bytes[3..], g - 1)
  {
  }

  /** Each character stands for its own six bits of its three bytes, a text that ends early being filled out with zeros. */
  lemma EncodesSixBits(bytes: seq<byte>, g: nat, j: nat)
    requires j < 4 && 4 * g + j < |Encode(bytes)|
    ensures StandsFor(Encode(bytes)[4 * g + j], SixBits(Group(bytes, g), j))
  {
    SextetIs(bytes, g, j);
  }

  lemma MapPadded(s: string, n: nat)
    ensures Map(UrlLetter, s + Padding(n)) == Map(UrlLetter, s) + Padding(n)
  {
    var t, u := Map(UrlLetter, s + Padding(n)), Map(UrlLetter, s) + Padding(n);
    forall i | 0 <= i < |t| ensures t[i] == u[i] {
      assert t[i] == UrlLetter((s + Padding(n))[i]);
      if i < |s| {
        assert u[i] == Map(UrlLetter, s)[i];
      } else {
        assert Padding(n)[i - |s|] == '=';
      }
    }
  }

  /** Replacing btoa's two letters and stripping its padding leaves the encoding. */
  lemma ToIsEncode(bytes: seq<byte>)
    ensures StripEquals(Map(UrlLetter, Btoa(bytes))) == Encode(bytes)
  {
    EncodedShape(bytes);
    MapPadded(Letters(Sextets(bytes)), |bytes|);
    assert Map(UrlLetter, Letters(Sextets(bytes))) == Encode(bytes);
    StripsPadding(Encode(bytes), |bytes|);
  }

  method ToBase64Url(bytes: array<byte>) returns (r: string)
    ensures r == Encode(bytes[..])
  {
    var binary := "";
    for i := 0 to bytes.Length
      invariant |binary| == i && forall k :: 0 <= k < i ==> binary[k] as int == bytes[k]
    {
      binary := binary + [bytes[i] as char];
    }
    var codes: seq<byte> := seq(|binary|, i requires 0 <= i < |binary| && binary[i] as int < 256 => binary[i] as int);
    assert codes == bytes[..];
    ToIsEncode(codes);
    r := StripEquals(Map(UrlLetter, Btoa(codes)));
  }

  method FromBase64Url(value: string) returns (bytes: array?<byte>)
    ensures bytes == null <==> Decode(value) == None
    ensures bytes != null ==> fresh(bytes) && Decode(value) == Some(bytes[..])
  {
    var binary := Atob(Map(PlainLetter, value));
    if binary == None { return null; }
    bytes := new byte[|binary.value|];
    for i := 0 to |binary.value|
      invariant bytes[..i] == binary.value[..i]
    {
      bytes[i] := binary.value[i];
    }
    assert bytes[..] == binary.value;
  }

  /* ---- What the pair keeps ---- */

  lemma {:induction false} LettersAsTheyAre(s: string)
    requires AllLetters(s)
    ensures WithoutSpaces(s) == s && WithoutPadding(s) == s
  {
    if s != "" {
      assert forall i :: 0 <= i < |s[1..]| ==> s[1..][i] == s[i + 1];
      LettersAsTheyAre(s[1..]);
      assert ValueOf(s[0]).Some? && ValueOf(s[|s| - 1]).Some?;
    }
  }

  lemma PlainOfUrl(q: seq<sextet>)
    ensures var s := Map(PlainLetter, seq(|q|, i requires 0 <= i < |q| => Url(q[i])));
      AllLetters(s) && Values(s) == q
  {
    var s := Map(PlainLetter, seq(|q|, i requires 0 <= i < |q| => Url(q[i])));
    forall i | 0 <= i < |q| ensures ValueOf(s[i]) == Some(q[i]) { LetterValue(q[i]); }
  }

  lemma RoundTrip(bytes: seq<byte>)
    ensures Decode(Encode(bytes)) == Some(bytes)
  {
    PlainOfUrl(Sextets(bytes));
    LettersAsTheyAre(Map(PlainLetter, Encode(bytes)));
    BytesOfSextets(bytes);
    SextetCount(bytes);
  }

  lemma EncodeInjective(a: seq<byte>, b: seq<byte>)
    requires Encode(a) == Encode(b)
    ensures a == b
  {
    RoundTrip(a);
    RoundTrip(b);
  }

  /** Only URL-safe characters, a possible length, and no stray bits in the last one. */
  predicate Canonical(s: string) {
    && AllLetters(Map(PlainLetter, s))
    && (forall i :: 0 <= i < |s| ==> UrlSafe(s[i]))
    && NoStrayBits(Values(Map(PlainLetter, s)))
  }

  /** A text survives decoding and encoding again exactly when it is canonical. */
  lemma TextRoundTrip(s: string)
    ensures (Decode(s).Some? && Encode(Decode(s).value) == s) <==> Canonical(s)
  {
    if Canonical(s) {
      var p := Map(PlainLetter, s);
      LettersAsTheyAre(p);
      SextetsOfBytes(Values(p));
      forall i | 0 <= i < |s| ensures Url(Values(p)[i]) == s[i] { UrlValue(s[i]); }
    } else if Decode(s).Some? {
      var bytes := Decode(s).value;
      EncodedShape(bytes);
      PlainOfUrl(Sextets(bytes));
      SextetsAreClean(bytes);
    }
  }
}
