/** password.go: the PHC string of an argon2id hash, written and read back. */
module PasswordHashes {
  import opened Prelude
  import opened Text
  import opened Decimals
  import Base64

  datatype Params = Params(memory: nat, iterations: nat, parallelism: nat, saltLength: nat, keyLength: nat)

  datatype Stored = Stored(params: Params, salt: seq<Byte>, key: seq<Byte>)

  const VERSION := 19
  const MAX_MEMORY := 1024 * 1024
  const MAX_UINT8 := 0xFF
  const MAX_UINT32 := 0xFFFF_FFFF
  const MAX_INT64 := 0x7FFF_FFFF_FFFF_FFFF

  // Writing.

  function VersionPart(): string { "v=" + Print(VERSION) }

  function CostPart(p: Params): string {
    "m=" + Print(p.memory) + ",t=" + Print(p.iterations) + ",p=" + Print(p.parallelism)
  }

  function Encode(p: Params, salt: seq<Byte>, key: seq<Byte>): string {
    "$argon2id$" + VersionPart() + "$" + CostPart(p) + "$"
    + Base64.Encode(Base64.Standard, salt) + "$" + Base64.Encode(Base64.Standard, key)
  }

  // Scanning, as fmt.Sscanf does it: literals must match, %d may be preceded by spaces, and whatever
  // follows the last verb is not looked at.

  datatype Scan = Scan(value: int, rest: string)

  function AfterLiteral(s: string, literal: string): Option<string> {
    if |literal| <= |s| && s[..|literal|] == literal then Some(s[|literal|..]) else None
  }

  /** The space runes of package fmt, other than the newline. fmt scans runes, so here, and here only, a
      char is one rune; those above 0x7f are never part of a hash that encode writes. */
  predicate IsSpace(c: char) {
    var r := c as int;
    || 0x09 <= r <= 0x0d || r == 0x20 || r == 0x85 || r == 0xa0 || r == 0x1680 || 0x2000 <= r <= 0x200a
    || r == 0x2028 || r == 0x2029 || r == 0x202f || r == 0x205f || r == 0x3000
  }

  /** A newline ends the scan with an error. */
  function AfterSpace(s: string): Option<string> {
    if s == "" then Some(s)
    else if s[0] == '\n' then None
    else if IsSpace(s[0]) then AfterSpace(s[1..])
    else Some(s)
  }

  function ScanUint(s: string, max: nat): Option<Scan> {
    match AfterSpace(s)
    case None => None
    case Some(t) =>
      var n := DigitRun(t);
      if n == 0 || Value(t[..n]) > max then None else Some(Scan(Value(t[..n]), t[n..]))
  }

  /** Signed numbers may carry a sign. */
  function ScanInt(s: string): Option<Scan> {
    match AfterSpace(s)
    case None => None
    case Some(t) =>
      var u := if t != "" && (t[0] == '+' || t[0] == '-') then t[1..] else t;
      var n := DigitRun(u);
      if n == 0 then None
      else
        var v: int := if t[0] == '-' then 0 - Value(u[..n]) else Value(u[..n]);
        if -MAX_INT64 - 1 <= v <= MAX_INT64 then Some(Scan(v, u[n..])) else None
  }

  function ScanVersion(s: string): Option<int> {
    match AfterLiteral(s, "v=")
    case None => None
    case Some(t) => if ScanInt(t).Some? then Some(ScanInt(t).value.value) else None
  }

  /** One "literal, number" pair of a format. */
  function ScanField(s: string, literal: string, max: nat): Option<Scan> {
    match AfterLiteral(s, literal)
    case None => None
    case Some(t) => ScanUint(t, max)
  }

  function ScanCosts(s: string): Option<(int, int, int)> {
    match ScanField(s, "m=", MAX_UINT32)
    case None => None
    case Some(m) =>
      match ScanField(m.rest, ",t=", MAX_UINT32)
      case None => None
      case Some(t) =>
        match ScanField(t.rest, ",p=", MAX_UINT8)
        case None => None
        case Some(p) => Some((m.value, t.value, p.value))
  }

  predicate Blanks(s: string) {
    forall c | c in s :: IsSpace(c) && c != '\n'
  }

  lemma {:induction false} BlanksAreSkipped(a: string, s: string)
    requires Blanks(a)
    ensures AfterSpace(a + s) == AfterSpace(s)
  {
    if a == "" {
      assert a + s == s;
    } else {
      assert (a + s)[1..] == a[1..] + s && a[0] in a;
      assert forall c | c in a[1..] :: c in a;
      BlanksAreSkipped(a[1..], s);
    }
  }

  lemma {:induction false} OnlyBlanksAreSkipped(s: string) returns (a: string)
    requires AfterSpace(s).Some?
    ensures Blanks(a) && s == a + AfterSpace(s).value
  {
    if s != "" && IsSpace(s[0]) {
      a := OnlyBlanksAreSkipped(s[1..]);
      a := [s[0]] + a;
    } else {
      a := "";
    }
  }

  /** A field's text: its letter, spaces if there are any, a number, and what comes after it. */
  predicate FieldText(s: string, literal: string, a: string, digits: string, rest: string) {
    && s == literal + (a + (digits + rest))
    && Blanks(a) && digits != "" && AllDigits(digits) && (rest == "" || !IsDigit(rest[0]))
  }

  lemma FieldIsRead(s: string, literal: string, a: string, digits: string, rest: string, max: nat)
    requires FieldText(s, literal, a, digits, rest)
    ensures ScanField(s, literal, max) == if Value(digits) <= max then Some(Scan(Value(digits), rest)) else None
  {
    var number := digits + rest;
    assert s[..|literal|] == literal && s[|literal|..] == a + number;
    BlanksAreSkipped(a, number);
    DigitsAreNotSpace(number[0]);
    DigitsRunOn(digits, rest);
    assert number[..|digits|] == digits && number[|digits|..] == rest;
  }

  lemma FieldHasText(s: string, literal: string, max: nat) returns (a: string, digits: string)
    requires ScanField(s, literal, max).Some?
    ensures FieldText(s, literal, a, digits, ScanField(s, literal, max).value.rest)
    ensures Value(digits) == ScanField(s, literal, max).value.value <= max
  {
    var t := s[|literal|..];
    a := OnlyBlanksAreSkipped(t);
    var number := AfterSpace(t).value;
    digits := number[..DigitRun(number)];
    assert number == digits + number[DigitRun(number)..];
    assert s == literal + t;
  }

  /** The costs of a hash: three numbers, each after its letter and perhaps spaces, and then anything that
      does not go on the last number. */
  ghost predicate CostText(s: string, m: int, t: int, p: int) {
    exists rest1, rest2, rest3 ::
      && NumberedField(s, "m=", m, 4_294_967_295, rest1)
      && NumberedField(rest1, ",t=", t, 4_294_967_295, rest2)
      && NumberedField(rest2, ",p=", p, 255, rest3)
  }

  ghost predicate NumberedField(s: string, literal: string, n: int, max: nat, rest: string) {
    exists a, digits :: FieldText(s, literal, a, digits, rest) && Value(digits) == n <= max
  }

  lemma FieldMeans(s: string, literal: string, max: nat)
    ensures forall n: int, rest: string ::
              ScanField(s, literal, max) == Some(Scan(n, rest)) <==> NumberedField(s, literal, n, max, rest)
  {
    hide ScanField;
    forall n: int, rest: string
      ensures ScanField(s, literal, max) == Some(Scan(n, rest)) <==> NumberedField(s, literal, n, max, rest)
    {
      if ScanField(s, literal, max) == Some(Scan(n, rest)) {
        var a, digits := FieldHasText(s, literal, max);
      }
      if NumberedField(s, literal, n, max, rest) {
        var a, digits :| FieldText(s, literal, a, digits, rest) && Value(digits) == n <= max;
        FieldIsRead(s, literal, a, digits, rest, max);
      }
    }
  }

  /** What "m=%d,t=%d,p=%d" reads, and nothing else is read. */
  lemma CostsAreReadSo(s: string, m: int, t: int, p: int)
    ensures ScanCosts(s) == Some((m, t, p)) <==> CostText(s, m, t, p)
  {
    hide ScanField, NumberedField;
    FieldMeans(s, "m=", MAX_UINT32);
    if first :| ScanField(s, "m=", MAX_UINT32) == Some(first) {
      FieldMeans(first.rest, ",t=", MAX_UINT32);
      if second :| ScanField(first.rest, ",t=", MAX_UINT32) == Some(second) {
        FieldMeans(second.rest, ",p=", MAX_UINT8);
      }
    }
  }

  /** A version's text: its letter, spaces if there are any, a sign if there is one, a number, and what
      comes after it. */
  predicate VersionText(s: string, a: string, sign: string, digits: string, rest: string) {
    && s == "v=" + (a + (sign + (digits + rest)))
    && Blanks(a) && sign in {"", "+", "-"}
    && digits != "" && AllDigits(digits) && (rest == "" || !IsDigit(rest[0]))
  }

  function Signed(sign: string, digits: string): int
    requires AllDigits(digits)
  {
    if sign == "-" then 0 - Value(digits) else Value(digits)
  }

  lemma VersionIsRead(s: string, a: string, sign: string, digits: string, rest: string)
    requires VersionText(s, a, sign, digits, rest)
    ensures ScanVersion(s) == if -MAX_INT64 - 1 <= Signed(sign, digits) <= MAX_INT64 then Some(Signed(sign, digits))
                              else None
  {
    var number := digits + rest;
    var signed := sign + number;
    assert s[..2] == "v=" && s[2..] == a + signed;
    BlanksAreSkipped(a, signed);
    DigitsAreNotSpace(digits[0]);
    assert signed[0] == if sign == "" then digits[0] else sign[0];
    assert AfterSpace(signed) == Some(signed);
    assert sign == "" ==> signed == number;
    assert sign != "" ==> signed[1..] == number;
    DigitsRunOn(digits, rest);
    assert number[..|digits|] == digits && number[|digits|..] == rest;
  }

  /** A text as an optional sign, the digits after it, and the rest. */
  lemma SignAndDigits(s: string) returns (sign: string, digits: string, rest: string)
    ensures s == sign + (digits + rest) && sign in {"", "+", "-"}
    ensures AllDigits(digits) && (rest == "" || !IsDigit(rest[0]))
    ensures
      var u := if s != "" && (s[0] == '+' || s[0] == '-') then s[1..] else s;
      digits == u[..DigitRun(u)] && rest == u[DigitRun(u)..] && (sign == "-" <==> s != "" && s[0] == '-')
  {
    var u := if s != "" && (s[0] == '+' || s[0] == '-') then s[1..] else s;
    sign, digits, rest := if |u| < |s| then [s[0]] else "", u[..DigitRun(u)], u[DigitRun(u)..];
    assert u == digits + rest;
  }

  lemma VersionHasText(s: string) returns (a: string, sign: string, digits: string, rest: string)
    requires ScanVersion(s).Some?
    ensures VersionText(s, a, sign, digits, rest) && Signed(sign, digits) == ScanVersion(s).value
    ensures -MAX_INT64 - 1 <= Signed(sign, digits) <= MAX_INT64
  {
    var t := s[2..];
    assert s == "v=" + t;
    a := OnlyBlanksAreSkipped(t);
    sign, digits, rest := SignAndDigits(AfterSpace(t).value);
    hide AfterSpace, DigitRun, Value, Blanks;
  }

  /** What "v=%d" reads, and nothing else is read. */
  lemma VersionIsReadSo(s: string, n: int)
    ensures ScanVersion(s) == Some(n) <==>
              && -MAX_INT64 - 1 <= n <= MAX_INT64
              && exists a, sign, digits, rest :: VersionText(s, a, sign, digits, rest) && Signed(sign, digits) == n
  {
    hide ScanVersion, Signed;
    if ScanVersion(s).Some? {
      var a, sign, digits, rest := VersionHasText(s);
    }
    forall a, sign, digits, rest | VersionText(s, a, sign, digits, rest)
      ensures -MAX_INT64 - 1 <= Signed(sign, digits) <= MAX_INT64 ==> ScanVersion(s) == Some(Signed(sign, digits))
    {
      VersionIsRead(s, a, sign, digits, rest);
    }
  }

  lemma DigitsAreNotSpace(c: char)
    requires IsDigit(c)
    ensures !IsSpace(c) && c !in {'\n', '+', '-'}
  {}

  /** A printed number is scanned back, with everything after it left over. */
  lemma ScanUndoesPrint(n: nat, rest: string)
    requires rest == "" || !IsDigit(rest[0])
    ensures forall max: nat | n <= max :: ScanUint(Print(n) + rest, max) == Some(Scan(n, rest))
    ensures n <= MAX_INT64 ==> ScanInt(Print(n) + rest) == Some(Scan(n, rest))
  {
    var s := Print(n) + rest;
    DigitsAreNotSpace(s[0]);
    assert AfterSpace(s) == Some(s);
    DigitsRunOn(Print(n), rest);
    assert s[..|Print(n)|] == Print(n) && s[|Print(n)|..] == rest;
    ValueOfPrint(n);
  }

  lemma FieldUndoesPrint(literal: string, n: nat, max: nat, rest: string)
    requires n <= max && (rest == "" || !IsDigit(rest[0]))
    ensures ScanField(literal + Print(n) + rest, literal, max) == Some(Scan(n, rest))
  {
    ScanUndoesPrint(n, rest);
    assert (literal + Print(n) + rest)[..|literal|] == literal;
    assert (literal + Print(n) + rest)[|literal|..] == Print(n) + rest;
  }

  lemma CostsUndoCostPart(p: Params)
    requires p.memory <= MAX_UINT32 && p.iterations <= MAX_UINT32 && p.parallelism <= MAX_UINT8
    ensures ScanCosts(CostPart(p)) == Some((p.memory, p.iterations, p.parallelism))
  {
    hide ScanField;
    var last := ",p=" + Print(p.parallelism);
    var rest := ",t=" + Print(p.iterations) + last;
    assert CostPart(p) == "m=" + Print(p.memory) + rest;
    FieldUndoesPrint("m=", p.memory, MAX_UINT32, rest);
    FieldUndoesPrint(",t=", p.iterations, MAX_UINT32, last);
    FieldUndoesPrint(",p=", p.parallelism, MAX_UINT8, "");
    assert last == ",p=" + Print(p.parallelism) + "";
  }

  lemma VersionUndoesVersionPart()
    ensures ScanVersion(VersionPart()) == Some(VERSION)
  {
    ScanUndoesPrint(VERSION, "");
    assert VersionPart()[..2] == "v=" && VersionPart()[2..] == Print(VERSION) + "";
  }

  // Reading.

  function FromBase64(s: string): Option<seq<Byte>> {
    match Base64.Decode(Base64.Standard, s, false)
    case None => None
    case Some(b) => if |b| == 0 then None else Some(b)
  }

  predicate CostsInRange(p: Params) {
    0 < p.memory <= MAX_MEMORY && 0 < p.iterations <= MAX_UINT32 && 0 < p.parallelism <= MAX_UINT8
  }

  /** The parts of a PHC string, and what they stand for. */
  function FromParts(parts: seq<string>): Option<Stored> {
    if |parts| != 6 || parts[0] != "" || parts[1] != "argon2id" || ScanVersion(parts[2]) != Some(VERSION) then None
    else
      match ScanCosts(parts[3])
      case None => None
      case Some((m, t, p)) =>
        if m <= 0 || m > MAX_MEMORY || t <= 0 || p <= 0 then None
        else
          match FromBase64(parts[4])
          case None => None
          case Some(salt) =>
            match FromBase64(parts[5])
            case None => None
            case Some(key) =>
              Some(Stored(Params(m, t, p, |salt| % (MAX_UINT32 + 1), |key| % (MAX_UINT32 + 1)), salt, key))
  }

  function Decoded(encoded: string): Option<Stored> {
    FromParts(Split(encoded, '$'))
  }

  /** decode, check by check. */
  method Decode(encoded: string) returns (r: Option<Stored>)
    ensures r == Decoded(encoded)
    ensures r.Some? ==> CostsInRange(r.value.params) && r.value.salt != [] && r.value.key != []
  {
    CostsFit(Split(encoded, '$'));
    hide ScanVersion, ScanCosts, Base64.Decode;
    var parts := Split(encoded, '$');
    if |parts| != 6 || parts[0] != "" || parts[1] != "argon2id" {
      return None;
    }
    var version := ScanVersion(parts[2]);
    if version.None? || version.value != VERSION {
      return None;
    }
    var costs := ScanCosts(parts[3]);
    if costs.None? {
      return None;
    }
    var (memory, iterations, parallelism) := costs.value;
    if memory <= 0 || memory > MAX_MEMORY || iterations <= 0 || parallelism <= 0 {
      return None;
    }
    var salt := Base64.Decode(Base64.Standard, parts[4], false);
    if salt.None? || |salt.value| == 0 {
      return None;
    }
    var key := Base64.Decode(Base64.Standard, parts[5], false);
    if key.None? || |key.value| == 0 {
      return None;
    }
    var p := Params(memory, iterations, parallelism,
                    |salt.value| % (MAX_UINT32 + 1), |key.value| % (MAX_UINT32 + 1));
    r := Some(Stored(p, salt.value, key.value));
  }

  /** The four parts of a hash after its scheme, none of which can hold a dollar. */
  predicate HashText(encoded: string, version: string, costs: string, salt: string, key: string) {
    && encoded == "$" + "argon2id" + "$" + version + "$" + costs + "$" + salt + "$" + key
    && '$' !in version && '$' !in costs && '$' !in salt && '$' !in key
  }

  lemma PartsOfHash(encoded: string, version: string, costs: string, salt: string, key: string)
    requires HashText(encoded, version, costs, salt, key)
    ensures Split(encoded, '$') == ["", "argon2id", version, costs, salt, key]
  {
    SixParts("argon2id", version, costs, salt, key);
    hide Join, Split;
    SplitUndoesJoin(["", "argon2id", version, costs, salt, key], '$');
  }

  lemma HashOfParts(encoded: string)
    requires
      var parts := Split(encoded, '$');
      |parts| == 6 && parts[0] == "" && parts[1] == "argon2id"
    ensures
      var parts := Split(encoded, '$');
      HashText(encoded, parts[2], parts[3], parts[4], parts[5])
  {
    var parts := Split(encoded, '$');
    JoinUndoesSplit(encoded, '$');
    SixParts("argon2id", parts[2], parts[3], parts[4], parts[5]);
    CharsOfParts(encoded, '$', '$');
    hide Split, Join;
    assert parts == ["", "argon2id", parts[2], parts[3], parts[4], parts[5]];
  }

  /** A hash is read exactly if it is an argon2id hash of version 19 whose costs are in range and whose salt
      and key are base64 of something; what it is read as is what its parts say. */
  lemma DecodeReadsItsParts(encoded: string, h: Stored)
    ensures Decoded(encoded) == Some(h) <==>
              exists version, costs, salt, key ::
                && HashText(encoded, version, costs, salt, key)
                && ScanVersion(version) == Some(19)
                && CostText(costs, h.params.memory, h.params.iterations, h.params.parallelism)
                && 0 < h.params.memory <= 1_048_576 && 0 < h.params.iterations && 0 < h.params.parallelism
                && Base64.Decode(Base64.Standard, salt, false) == Some(h.salt) && h.salt != []
                && Base64.Decode(Base64.Standard, key, false) == Some(h.key) && h.key != []
                && h.params.saltLength == |h.salt| % 4_294_967_296 && h.params.keyLength == |h.key| % 4_294_967_296
  {
    var parts := Split(encoded, '$');
    hide Split, ScanVersion, ScanCosts, CostText, Base64.Decode, HashText;
    if |parts| == 6 && parts[0] == "" && parts[1] == "argon2id" {
      HashOfParts(encoded);
      CostsAreReadSo(parts[3], h.params.memory, h.params.iterations, h.params.parallelism);
    }
    forall version, costs, salt, key | HashText(encoded, version, costs, salt, key)
      ensures parts == ["", "argon2id", version, costs, salt, key]
    {
      PartsOfHash(encoded, version, costs, salt, key);
    }
  }

  lemma CostsFit(parts: seq<string>)
    ensures |parts| == 6 && ScanCosts(parts[3]).Some? ==>
              && ScanCosts(parts[3]).value.1 <= MAX_UINT32 && ScanCosts(parts[3]).value.2 <= MAX_UINT8
  {
    hide AfterLiteral, AfterSpace, DigitRun, Value;
  }

  lemma SymbolsHoldNoDollar(b: seq<Byte>)
    ensures '$' !in Base64.Encode(Base64.Standard, b)
  {
    hide Base64.Sextets;
  }

  lemma SixParts(a: string, b: string, c: string, d: string, e: string)
    ensures Join(["", a, b, c, d, e], '$') == "$" + a + "$" + b + "$" + c + "$" + d + "$" + e
  {
    assert Join([d, e], '$') == d + ['$'] + Join([e], '$');
    assert Join([c, d, e], '$') == c + ['$'] + Join([d, e], '$');
    assert Join([b, c, d, e], '$') == b + ['$'] + Join([c, d, e], '$');
    assert Join([a, b, c, d, e], '$') == a + ['$'] + Join([b, c, d, e], '$');
    assert Join(["", a, b, c, d, e], '$') == "" + ['$'] + Join([a, b, c, d, e], '$');
  }

  lemma PartsOfEncode(p: Params, salt: seq<Byte>, key: seq<Byte>)
    ensures Split(Encode(p, salt, key), '$') ==
            ["", "argon2id", VersionPart(), CostPart(p),
             Base64.Encode(Base64.Standard, salt), Base64.Encode(Base64.Standard, key)]
  {
    SymbolsHoldNoDollar(salt);
    SymbolsHoldNoDollar(key);
    assert '$' !in VersionPart() && '$' !in CostPart(p);
    var s, k := Base64.Encode(Base64.Standard, salt), Base64.Encode(Base64.Standard, key);
    SixParts("argon2id", VersionPart(), CostPart(p), s, k);
    assert "$argon2id$" == "$" + "argon2id" + "$";
    assert Encode(p, salt, key) == Join(["", "argon2id", VersionPart(), CostPart(p), s, k], '$');
    hide Base64.Encode, VersionPart, CostPart, Join;
    SplitUndoesJoin(["", "argon2id", VersionPart(), CostPart(p), s, k], '$');
  }

  /** decode undoes encode, whatever the costs in range and the octets of salt and key. */
  lemma DecodeUndoesEncode(p: Params, salt: seq<Byte>, key: seq<Byte>)
    requires CostsInRange(p) && salt != [] && key != []
    requires p.saltLength == |salt| % (MAX_UINT32 + 1) && p.keyLength == |key| % (MAX_UINT32 + 1)
    ensures Decoded(Encode(p, salt, key)) == Some(Stored(p, salt, key))
  {
    hide Encode, VersionPart, CostPart, ScanVersion, ScanCosts, Base64.Encode, Base64.Decode, Split;
    PartsOfEncode(p, salt, key);
    VersionUndoesVersionPart();
    CostsUndoCostPart(p);
    Base64.DecodeUndoesEncode(Base64.Standard, salt, false);
    Base64.DecodeUndoesEncode(Base64.Standard, key, false);
  }

  /** The text of a hash, part by part: each cost under its own letter, as the PHC format has them. Reading
      such a text gives each number back as the cost its letter stands for. */
  lemma CostsAreWrittenByName(p: Params, salt: seq<Byte>, key: seq<Byte>)
    requires CostsInRange(p) && salt != [] && key != []
    requires p.saltLength == |salt| % (MAX_UINT32 + 1) && p.keyLength == |key| % (MAX_UINT32 + 1)
    ensures
      var costs := "m=" + Print(p.memory) + ",t=" + Print(p.iterations) + ",p=" + Print(p.parallelism);
      var text := "$argon2id$v=19$" + costs
                  + "$" + Base64.Encode(Base64.Standard, salt) + "$" + Base64.Encode(Base64.Standard, key);
      Encode(p, salt, key) == text && Decoded(text) == Some(Stored(p, salt, key))
  {
    DecodeUndoesEncode(p, salt, key);
    Version19();
    hide Decoded, Base64.Encode, Print, VersionPart;
  }

  lemma Version19()
    ensures "$argon2id$" + VersionPart() + "$" == "$argon2id$v=19$"
  {
    assert Print(19) == Print(1) + "9" && Print(1) == "1";
    assert VersionPart() == "v=19";
  }

  /** Whatever is accepted, however it is spelt, stands for a hash encode could have written. */
  lemma AcceptedHashHasCanonicalSpelling(encoded: string)
    requires Decoded(encoded).Some?
    ensures
      var h := Decoded(encoded).value;
      CostsInRange(h.params) && Decoded(Encode(h.params, h.salt, h.key)) == Some(h)
  {
    hide Encode, ScanVersion, ScanCosts, Base64.Decode, Split;
    CostsFit(Split(encoded, '$'));
    var h := Decoded(encoded).value;
    DecodeUndoesEncode(h.params, h.salt, h.key);
  }

  /** Costs beyond those bounds, and empty salts and keys, are never accepted back. */
  lemma OutOfRangeIsNotDecoded(p: Params, salt: seq<Byte>, key: seq<Byte>)
    requires p.iterations <= MAX_UINT32 && p.parallelism <= MAX_UINT8 && p.memory <= MAX_UINT32
    ensures Decoded(Encode(p, salt, key)).Some? <==> CostsInRange(p) && salt != [] && key != []
  {
    hide Encode, VersionPart, CostPart, ScanVersion, ScanCosts, Base64.Encode, Base64.Decode, Split;
    PartsOfEncode(p, salt, key);
    VersionUndoesVersionPart();
    CostsUndoCostPart(p);
    Base64.DecodeUndoesEncode(Base64.Standard, salt, false);
    Base64.DecodeUndoesEncode(Base64.Standard, key, false);
  }

  // Hashing and verifying, over any key derivation.

  const MAX_PASSWORD := 256

  const DEFAULT_PARAMS := Params(64 * 1024, 2, 1, 16, 32)

  /** argon2.IDKey: password, salt, costs and the length of the key. */
  type Kdf = (seq<Byte>, seq<Byte>, Params) -> seq<Byte>

  ghost predicate DerivesKeys(kdf: Kdf) {
    forall password, salt, p :: |kdf(password, salt, p)| == p.keyLength
  }

  function HashWith(kdf: Kdf, p: Params, password: seq<Byte>, salt: seq<Byte>): Option<string> {
    if |password| > MAX_PASSWORD then None else Some(Encode(p, salt, kdf(password, salt, p)))
  }

  datatype Verdict = Match | Mismatch | Malformed

  function Verify(kdf: Kdf, encoded: string, password: seq<Byte>): Verdict {
    match Decoded(encoded)
    case None => Malformed
    case Some(h) =>
      if |password| > MAX_PASSWORD || kdf(password, h.salt, h.params) != h.key then Mismatch else Match
  }

  function NeedsRehash(encoded: string): bool {
    match Decoded(encoded)
    case None => true
    case Some(h) =>
      h.params.memory < DEFAULT_PARAMS.memory || h.params.iterations < DEFAULT_PARAMS.iterations
      || h.params.keyLength < DEFAULT_PARAMS.keyLength
  }

  /** A password matches a stored hash exactly when it derives the same key under the salt and the
      costs the hash was made with, whatever the defaults are now. */
  lemma VerifyComparesKeys(kdf: Kdf, p: Params, password: seq<Byte>, salt: seq<Byte>, other: seq<Byte>)
    requires DerivesKeys(kdf) && CostsInRange(p)
    requires 0 < p.saltLength == |salt| <= MAX_UINT32 && 0 < p.keyLength <= MAX_UINT32
    ensures HashWith(kdf, p, password, salt).Some? <==> |password| <= 256
    ensures |password| <= 256 ==>
            Verify(kdf, HashWith(kdf, p, password, salt).value, other) ==
            if |other| <= 256 && kdf(other, salt, p) == kdf(password, salt, p) then Match else Mismatch
    ensures |password| <= 256 ==>
            (NeedsRehash(HashWith(kdf, p, password, salt).value) <==>
            p.memory < 65536 || p.iterations < 2 || p.keyLength < 32)
  {
    hide Encode, Decoded;
    DecodeUndoesEncode(p, salt, kdf(password, salt, p));
  }
}
