/** Unpadded base64 as encoding/base64 reads and writes it: sections 4 and 5 of RFC 4648, with the
    decoder's habit of skipping line breaks (section 3.3 lets a decoder do so). */
module Base64 {
  import opened Prelude

  /** The 62nd and 63rd symbols are all that tells the two alphabets apart. */
  datatype Alphabet = Standard | Url

  type Sextet = n: int | 0 <= n < 64

  function Symbol(a: Alphabet, n: Sextet): char {
    if n < 26 then ('A' as int + n) as char
    else if n < 52 then ('a' as int + n - 26) as char
    else if n < 62 then ('0' as int + n - 52) as char
    else if n == 62 then (if a.Standard? then '+' else '-')
    else if a.Standard? then '/' else '_'
  }

  function SextetOf(a: Alphabet, c: char): Option<Sextet> {
    if 'A' <= c <= 'Z' then Some(c as int - 'A' as int)
    else if 'a' <= c <= 'z' then Some(c as int - 'a' as int + 26)
    else if '0' <= c <= '9' then Some(c as int - '0' as int + 52)
    else if c == (if a.Standard? then '+' else '-') then Some(62)
    else if c == (if a.Standard? then '/' else '_') then Some(63)
    else None
  }

  lemma SextetOfSymbol(a: Alphabet, n: Sextet)
    ensures SextetOf(a, Symbol(a, n)) == Some(n)
  {}

  lemma SymbolOfSextet(a: Alphabet, c: char)
    requires SextetOf(a, c).Some?
    ensures Symbol(a, SextetOf(a, c).value) == c
  {}

  // Three octets are four sextets.

  function First(x: Byte): Sextet { x / 4 }
  function Second(x: Byte, y: Byte): Sextet { x % 4 * 16 + y / 16 }
  function Third(y: Byte, z: Byte): Sextet { y % 16 * 4 + z / 64 }
  function Fourth(z: Byte): Sextet { z % 64 }

  function Octet1(s: Sextet, t: Sextet): Byte { s * 4 + t / 16 }
  function Octet2(t: Sextet, u: Sextet): Byte { t % 16 * 16 + u / 4 }
  function Octet3(u: Sextet, v: Sextet): Byte { u % 4 * 64 + v }

  lemma OctetsOfSextets(x: Byte, y: Byte, z: Byte)
    ensures Octet1(First(x), Second(x, y)) == x
    ensures Octet2(Second(x, y), Third(y, z)) == y
    ensures Octet3(Third(y, z), Fourth(z)) == z
    ensures Second(x, 0) % 16 == 0 && Third(y, 0) % 4 == 0
  {}

  lemma SextetsOfOctets(s: Sextet, t: Sextet, u: Sextet, v: Sextet)
    ensures First(Octet1(s, t)) == s
    ensures Second(Octet1(s, t), Octet2(t, u)) == t
    ensures Third(Octet2(t, u), Octet3(u, v)) == u
    ensures Fourth(Octet3(u, v)) == v
    ensures t % 16 == 0 ==> Octet2(t, 0) == 0
    ensures u % 4 == 0 ==> Octet3(u, 0) == 0
  {}

  function Sextets(b: seq<Byte>): seq<Sextet> {
    if |b| == 0 then []
    else if |b| == 1 then [First(b[0]), Second(b[0], 0)]
    else if |b| == 2 then [First(b[0]), Second(b[0], b[1]), Third(b[1], 0)]
    else [First(b[0]), Second(b[0], b[1]), Third(b[1], b[2]), Fourth(b[2])] + Sextets(b[3..])
  }

  /** A last group of two or three symbols has bits left over, which strict decoding wants zero. */
  function Octets(s: seq<Sextet>, strict: bool): Option<seq<Byte>> {
    if |s| == 0 then Some([])
    else if |s| == 1 then None
    else if |s| == 2 then if strict && s[1] % 16 != 0 then None else Some([Octet1(s[0], s[1])])
    else if |s| == 3 then
      if strict && s[2] % 4 != 0 then None else Some([Octet1(s[0], s[1]), Octet2(s[1], s[2])])
    else
      var rest := Octets(s[4..], strict);
      if rest.None? then None
      else Some([Octet1(s[0], s[1]), Octet2(s[1], s[2]), Octet3(s[2], s[3])] + rest.value)
  }

  lemma {:induction false} OctetsUndoSextets(b: seq<Byte>, strict: bool)
    ensures Octets(Sextets(b), strict) == Some(b)
  {
    hide First, Second, Third, Fourth, Octet1, Octet2, Octet3;
    if |b| > 0 {
      OctetsOfSextets(b[0], if |b| > 1 then b[1] else 0, if |b| > 2 then b[2] else 0);
    }
    if |b| >= 3 {
      OctetsUndoSextets(b[3..], strict);
      assert Sextets(b)[4..] == Sextets(b[3..]);
      assert b == [b[0], b[1], b[2]] + b[3..];
    } else {
      assert b == if |b| == 0 then [] else if |b| == 1 then [b[0]] else [b[0], b[1]];
    }
  }

  /** Strict decoding accepts one spelling of each string of octets. */
  lemma {:induction false} SextetsUndoStrictOctets(s: seq<Sextet>)
    requires Octets(s, true).Some?
    ensures Sextets(Octets(s, true).value) == s
  {
    hide First, Second, Third, Fourth, Octet1, Octet2, Octet3;
    if |s| > 0 {
      SextetsOfOctets(s[0], s[1], if |s| > 2 then s[2] else 0, if |s| > 3 then s[3] else 0);
    }
    if |s| >= 4 {
      SextetsUndoStrictOctets(s[4..]);
      assert Octets(s, true).value[3..] == Octets(s[4..], true).value;
    }
  }

  /** EncodedLen: four symbols for three octets, the last group rounded up. */
  lemma {:induction false} SextetCount(b: seq<Byte>)
    ensures |Sextets(b)| == |b| / 3 * 4 + (|b| % 3 * 8 + 5) / 6
  {
    if |b| >= 3 {
      SextetCount(b[3..]);
    }
  }

  /** What is read: any number of symbols that leaves no lone one, and strictly only if the bits no octet
      uses are zero. */
  lemma {:induction false} OctetsAccept(s: seq<Sextet>, strict: bool)
    ensures Octets(s, strict).Some? <==>
              && |s| % 4 != 1
              && (strict && |s| % 4 == 2 ==> s[|s| - 1] % 16 == 0)
              && (strict && |s| % 4 == 3 ==> s[|s| - 1] % 4 == 0)
    ensures Octets(s, true).Some? ==> Octets(s, false) == Octets(s, true)
    decreases |s|
  {
    hide Octet1, Octet2, Octet3;
    if |s| >= 4 {
      var rest := s[4..];
      OctetsAccept(rest, strict);
      OctetsUnfold(s, strict);
      OctetsUnfold(s, true);
      OctetsUnfold(s, false);
      hide Octets;
      assert |rest| % 4 == |s| % 4;
      assert rest != [] ==> rest[|rest| - 1] == s[|s| - 1];
    }
  }

  lemma OctetsUnfold(s: seq<Sextet>, strict: bool)
    requires |s| >= 4
    ensures
      var rest := Octets(s[4..], strict);
      Octets(s, strict) ==
        if rest.None? then None
        else Some([Octet1(s[0], s[1]), Octet2(s[1], s[2]), Octet3(s[2], s[3])] + rest.value)
  {
    hide Octet1, Octet2, Octet3;
  }

  // Text.

  function Symbols(a: Alphabet, s: seq<Sextet>): (text: string)
    ensures |text| == |s|
    ensures forall i | 0 <= i < |s| :: text[i] == Symbol(a, s[i])
  {
    seq(|s|, i requires 0 <= i < |s| => Symbol(a, s[i]))
  }

  function Encode(a: Alphabet, b: seq<Byte>): string {
    Symbols(a, Sextets(b))
  }

  const UPPER := "ABCDEFGHIJKLMNOPQRSTUVWXYZ"
  const LOWER := "abcdefghijklmnopqrstuvwxyz"
  const OTHERS := "0123456789+/"
  const OTHERS_OF_URL := "0123456789-_"

  function AlphabetOf(a: Alphabet): (s: string)
    ensures |s| == 64
  {
    UPPER + LOWER + if a.Standard? then OTHERS else OTHERS_OF_URL
  }

  /** Octet i, or zero after the end. */
  function OctetAt(b: seq<Byte>, i: nat): Byte {
    if i < |b| then b[i] else 0
  }

  /** The k-th 24-bit group, its first octet the most significant. */
  function GroupAt(b: seq<Byte>, k: nat): nat {
    OctetAt(b, 3 * k) * 65536 + OctetAt(b, 3 * k + 1) * 256 + OctetAt(b, 3 * k + 2)
  }

  /** The j-th six bits of a group, from the most significant. */
  function SixBits(group: nat, j: nat): (n: Sextet)
    requires j < 4
  {
    (if j == 0 then group / 262144 else if j == 1 then group / 4096 else if j == 2 then group / 64 else group) % 64
  }

  lemma SixBitsOfOctets(x: Byte, y: Byte, z: Byte)
    ensures
      var group := x * 65536 + y * 256 + z;
      && SixBits(group, 0) == First(x) && SixBits(group, 1) == Second(x, y)
      && SixBits(group, 2) == Third(y, z) && SixBits(group, 3) == Fourth(z)
  {
    var group := x * 65536 + y * 256 + z;
    Quotient(x / 4, x % 4 * 65536 + y * 256 + z, 262144);
    assert group / 262144 == x / 4;
    Quotient(x * 16 + y / 16, y % 16 * 256 + z, 4096);
    assert group / 4096 == x / 4 * 64 + (x % 4 * 16 + y / 16);
    Quotient(x * 1024 + y * 4 + z / 64, z % 64, 64);
    assert group / 64 == (x * 16 + y / 16) * 64 + (y % 16 * 4 + z / 64);
    Quotient(x / 4, x % 4 * 16 + y / 16, 64);
    Quotient(x * 16 + y / 16, y % 16 * 4 + z / 64, 64);
  }

  lemma Quotient(q: int, r: int, d: int)
    requires 0 <= r < d
    ensures (q * d + r) / d == q && (q * d + r) % d == r
  {
    var n := q * d + r;
    if n / d < q {
      Less(n / d, q, d);
    } else if n / d > q {
      Less(q, n / d, d);
    }
  }

  lemma {:induction false} Less(a: int, b: int, d: int)
    requires a < b && d > 0
    ensures a * d + d <= b * d
    decreases b - a
  {
    if a + 1 < b {
      Less(a, b - 1, d);
    }
  }

  lemma SextetsBegin(b: seq<Byte>, i: nat)
    requires i < 4 && i < |Sextets(b)|
    ensures
      var x, y, z := OctetAt(b, 0), OctetAt(b, 1), OctetAt(b, 2);
      Sextets(b)[i] == [First(x), Second(x, y), Third(y, z), Fourth(z)][i]
  {
    hide First, Second, Third, Fourth;
  }

  lemma SextetsGoOn(b: seq<Byte>, i: nat)
    requires 4 <= i < |Sextets(b)|
    ensures |b| >= 3 && i - 4 < |Sextets(b[3..])| && Sextets(b)[i] == Sextets(b[3..])[i - 4]
  {
    hide First, Second, Third, Fourth;
    assert |b| >= 3;
    var group := Sextets(b)[..4];
    assert Sextets(b) == group + Sextets(b[3..]);
  }

  lemma GroupsGoOn(b: seq<Byte>, k: nat)
    requires |b| >= 3 && k > 0
    ensures GroupAt(b, k) == GroupAt(b[3..], k - 1)
  {
    OctetsGoOn(b, 3 * k);
    OctetsGoOn(b, 3 * k + 1);
    OctetsGoOn(b, 3 * k + 2);
    hide OctetAt;
  }

  lemma OctetsGoOn(b: seq<Byte>, i: nat)
    requires 3 <= i && |b| >= 3
    ensures OctetAt(b, i) == OctetAt(b[3..], i - 3)
  {}

  lemma {:induction false} SextetsAreSixBits(b: seq<Byte>, i: nat)
    requires i < |Sextets(b)|
    ensures Sextets(b)[i] == SixBits(GroupAt(b, i / 4), i % 4)
  {
    hide First, Second, Third, Fourth, SixBits, Sextets;
    if i < 4 {
      SextetsBegin(b, i);
      SixBitsOfOctets(OctetAt(b, 0), OctetAt(b, 1), OctetAt(b, 2));
    } else {
      SextetsGoOn(b, i);
      GroupsGoOn(b, i / 4);
      SextetsAreSixBits(b[3..], i - 4);
    }
  }

  /** Section 4 of RFC 4648: each symbol stands for six bits of a 24-bit group, the groups padded with
      zeros at the end, in the alphabet of that section or of section 5. */
  lemma SymbolsAreSixBits(a: Alphabet, b: seq<Byte>, i: nat)
    requires i < |Encode(a, b)|
    ensures Encode(a, b)[i] ==
            AlphabetOf(a)[SixBits(GroupAt(b, i / 4), i % 4)]
  {
    SextetsAreSixBits(b, i);
    hide Sextets, SixBits, GroupAt;
    SymbolIsInAlphabet(a, Sextets(b)[i]);
  }

  lemma SymbolIsInAlphabet(a: Alphabet, n: Sextet)
    ensures Symbol(a, n) == AlphabetOf(a)[n]
  {
    if n < 26 {
      assert AlphabetOf(a)[n] == UPPER[n];
    } else if n < 52 {
      assert AlphabetOf(a)[n] == LOWER[n - 26];
    } else {
      assert AlphabetOf(a)[n] == (if a.Standard? then OTHERS else OTHERS_OF_URL)[n - 52];
    }
  }

  predicate LineBreak(c: char) {
    c == '\n' || c == '\r'
  }

  function Unbroken(s: string): (r: string)
    ensures |r| <= |s| && (|r| == |s| ==> r == s)
  {
    if s == "" then ""
    else if LineBreak(s[0]) then Unbroken(s[1..])
    else [s[0]] + Unbroken(s[1..])
  }

  /** Line feeds and carriage returns are left out, and nothing else. */
  lemma {:induction false} OnlyBreaksAreSkipped(s: string)
    ensures forall c :: c in Unbroken(s) <==> c in s && c != '\n' && c != '\r'
  {
    if s != "" {
      OnlyBreaksAreSkipped(s[1..]);
      assert s == [s[0]] + s[1..] && forall c :: c in s <==> c == s[0] || c in s[1..];
      assert Unbroken(s) == (if LineBreak(s[0]) then "" else [s[0]]) + Unbroken(s[1..]);
    }
  }

  predicate AllSymbols(a: Alphabet, s: string) {
    forall i | 0 <= i < |s| :: SextetOf(a, s[i]).Some?
  }

  function SextetsOf(a: Alphabet, s: string): (r: seq<Sextet>)
    requires AllSymbols(a, s)
    ensures |r| == |s|
    ensures forall i | 0 <= i < |s| :: r[i] == SextetOf(a, s[i]).value
  {
    seq(|s|, i requires 0 <= i < |s| => SextetOf(a, s[i]).value)
  }

  function Decode(a: Alphabet, s: string, strict: bool): Option<seq<Byte>> {
    var text := Unbroken(s);
    if AllSymbols(a, text) then Octets(SextetsOf(a, text), strict) else None
  }

  lemma {:induction false} NothingToSkip(s: string)
    requires forall c | c in s :: !LineBreak(c)
    ensures Unbroken(s) == s
  {
    if s != "" {
      NothingToSkip(s[1..]);
    }
  }

  lemma SymbolsAreSymbols(a: Alphabet, s: seq<Sextet>)
    ensures AllSymbols(a, Symbols(a, s)) && SextetsOf(a, Symbols(a, s)) == s
    ensures Unbroken(Symbols(a, s)) == Symbols(a, s)
  {
    var text := Symbols(a, s);
    forall i | 0 <= i < |s| ensures SextetOf(a, text[i]) == Some(s[i]) {
      SextetOfSymbol(a, s[i]);
    }
    NothingToSkip(text);
  }

  /** What is written is read back, strictly or not. */
  lemma DecodeUndoesEncode(a: Alphabet, b: seq<Byte>, strict: bool)
    ensures Decode(a, Encode(a, b), strict) == Some(b)
  {
    hide Symbols, SextetsOf;
    SymbolsAreSymbols(a, Sextets(b));
    OctetsUndoSextets(b, strict);
  }

  /** What is read strictly was written, up to line breaks. */
  lemma EncodeUndoesStrictDecode(a: Alphabet, s: string)
    requires Decode(a, s, true).Some?
    ensures Encode(a, Decode(a, s, true).value) == Unbroken(s)
  {
    var text := Unbroken(s);
    SextetsUndoStrictOctets(SextetsOf(a, text));
    forall i | 0 <= i < |text| ensures Symbol(a, SextetsOf(a, text)[i]) == text[i] {
      SymbolOfSextet(a, text[i]);
    }
    assert Encode(a, Decode(a, s, true).value) == text;
  }

  lemma {:induction false} BreaksAreSkipped(s: string, t: string)
    ensures Unbroken(s + t) == Unbroken(s) + Unbroken(t)
  {
    if s == "" {
      assert s + t == t;
    } else {
      BreaksAreSkipped(s[1..], t);
      assert (s + t)[1..] == s[1..] + t;
    }
  }
}
