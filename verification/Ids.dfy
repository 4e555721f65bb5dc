/** id.go: UUIDs of version 7, their text, and the order of both. */
module Ids {
  import opened Prelude

  const TWO_48 := 0x1_0000_0000_0000

  type Id = u: seq<Byte> | |u| == 16 witness NIL

  const NIL: seq<Byte> := seq(16, _ => 0)

  // Minting.

  /** What a minted id holds: six bytes of time, then randomness around a version and a variant. */
  predicate MintedAt(u: Id, ms: int, random: seq<Byte>)
    requires |random| == 10
  {
    && Millis(u) == ms % TWO_48
    && u[6] == 0x70 + random[0] % 16 && u[7] == random[1] && u[8] == 0x80 + random[2] % 64
    && u[9..] == random[3..]
  }

  function Millis(u: Id): int {
    u[0] as int * 0x100_0000_0000 + u[1] as int * 0x1_0000_0000 + u[2] as int * 0x100_0000
    + u[3] as int * 0x1_0000 + u[4] as int * 0x100 + u[5] as int
  }

  /** int64's arithmetic shift floors, and the conversion to byte keeps the low eight bits. */
  method NewAt(ms: int, random: seq<Byte>) returns (u: array<Byte>)
    requires |random| == 10
    ensures fresh(u) && u.Length == 16 && MintedAt(u[..], ms, random)
  {
    u := new Byte[16](_ => 0);
    u[0] := ms / 0x100_0000_0000 % 256;
    u[1] := ms / 0x1_0000_0000 % 256;
    u[2] := ms / 0x100_0000 % 256;
    u[3] := ms / 0x1_0000 % 256;
    u[4] := ms / 0x100 % 256;
    u[5] := ms % 256;
    BigEndian(ms);
    ghost var time := u[..6];
    for k := 0 to 10
      invariant u[..6] == time
      invariant forall j | 0 <= j < k :: u[6 + j] == random[j]
    {
      u[6 + k] := random[k];
    }
    u[6] := u[6] % 16 + 0x70;
    u[8] := u[8] % 64 + 0x80;
    assert forall k | 0 <= k < 6 :: u[k] == time[k];
  }

  lemma BigEndian(ms: int)
    ensures ms / 0x100_0000_0000 % 256 * 0x100_0000_0000 + ms / 0x1_0000_0000 % 256 * 0x1_0000_0000
            + ms / 0x100_0000 % 256 * 0x100_0000 + ms / 0x1_0000 % 256 * 0x1_0000
            + ms / 0x100 % 256 * 0x100 + ms % 256
            == ms % TWO_48
  {
    var a := ms / 256;
    var b := a / 256;
    var c := b / 256;
    var d := c / 256;
    var e := d / 256;
    assert b == ms / 0x1_0000 && c == ms / 0x100_0000 && d == ms / 0x1_0000_0000 && e == ms / 0x100_0000_0000;
    var f := e / 256;
    var low := e % 256 * 0x100_0000_0000 + d % 256 * 0x1_0000_0000 + c % 256 * 0x100_0000
               + b % 256 * 0x1_0000 + a % 256 * 0x100 + ms % 256;
    assert ms == f * TWO_48 + low;
    assert 0 <= low < TWO_48;
  }

  /** Time gives back the millisecond of minting exactly when it fits 48 bits: from 1970 to 10889. */
  lemma TimeUndoesNewAt(u: Id, ms: int, random: seq<Byte>)
    requires |random| == 10 && MintedAt(u, ms, random)
    ensures Millis(u) == ms <==> 0 <= ms < TWO_48
    ensures u[6] / 16 == 7 && u[8] / 64 == 2
  {}

  /** A minted id is never the nil id. */
  lemma MintedIsNotNil(u: Id, ms: int, random: seq<Byte>)
    requires |random| == 10 && MintedAt(u, ms, random)
    ensures u != NIL
  {
    assert u[6] >= 0x70 && NIL[6] == 0;
  }

  // Text.

  predicate IsHyphen(i: int) {
    i == 8 || i == 13 || i == 18 || i == 23
  }

  /** Which hexadecimal digit stands at place i of the text. */
  function DigitAt(i: nat): nat {
    if i < 8 then i else if i < 13 then i - 1 else if i < 18 then i - 2 else if i < 23 then i - 3 else i - 4
  }

  /** Where byte k of the id begins in the text. */
  function PlaceOf(k: nat): nat {
    2 * k + if k < 4 then 0 else if k < 6 then 1 else if k < 8 then 2 else if k < 10 then 3 else 4
  }

  const HEX := "0123456789abcdef"

  function HexValue(c: char): Option<int> {
    if '0' <= c <= '9' then Some(c as int - '0' as int)
    else if 'a' <= c <= 'f' then Some(c as int - 'a' as int + 10)
    else if 'A' <= c <= 'F' then Some(c as int - 'A' as int + 10)
    else None
  }

  function NibbleOf(u: Id, digit: nat): (n: nat)
    requires digit < 32
    ensures n < 16
  {
    if digit % 2 == 0 then u[digit / 2] / 16 else u[digit / 2] % 16
  }

  function Text(u: Id): string {
    seq(36, i requires 0 <= i < 36 => if IsHyphen(i) then '-' else HEX[NibbleOf(u, DigitAt(i))])
  }

  /** hex.Encode of u[from..to] into buf. */
  method EncodeInto(buf: array<char>, at: nat, u: Id, from: nat, to: nat)
    requires from <= to <= 16 && at + 2 * (to - from) <= buf.Length
    modifies buf
    ensures forall i | 0 <= i < buf.Length && !(at <= i < at + 2 * (to - from)) :: buf[i] == old(buf[i])
    ensures forall p | at <= p < at + 2 * (to - from) :: buf[p] == HEX[NibbleOf(u, p - at + 2 * from)]
  {
    for k := from to to
      invariant forall i | 0 <= i < buf.Length && !(at <= i < at + 2 * (k - from)) :: buf[i] == old(buf[i])
      invariant forall p | at <= p < at + 2 * (k - from) :: buf[p] == HEX[NibbleOf(u, p - at + 2 * from)]
    {
      assert NibbleOf(u, 2 * k) == u[k] / 16 && NibbleOf(u, 2 * k + 1) == u[k] % 16;
      var place := at + 2 * (k - from);
      buf[place] := HEX[u[k] / 16];
      buf[place + 1] := HEX[u[k] % 16];
    }
  }

  method String(u: Id) returns (s: string)
    ensures s == Text(u)
  {
    var buf := new char[36](_ => ' ');
    EncodeInto(buf, 0, u, 0, 4);
    buf[8] := '-';
    EncodeInto(buf, 9, u, 4, 6);
    buf[13] := '-';
    EncodeInto(buf, 14, u, 6, 8);
    buf[18] := '-';
    EncodeInto(buf, 19, u, 8, 10);
    buf[23] := '-';
    EncodeInto(buf, 24, u, 10, 16);
    forall i | 0 <= i < 36 ensures buf[i] == Text(u)[i] {
      if !IsHyphen(i) {
        assert buf[i] == HEX[NibbleOf(u, DigitAt(i))];
      }
    }
    s := buf[..];
    assert s == Text(u);
  }

  /** Two digits for each byte, the high half first. */
  function Hex(b: seq<Byte>): string {
    if b == [] then "" else ["0123456789abcdef"[b[0] / 16], "0123456789abcdef"[b[0] % 16]] + Hex(b[1..])
  }

  lemma {:induction false} HexDigits(b: seq<Byte>)
    ensures |Hex(b)| == 2 * |b|
    ensures forall i | 0 <= i < 2 * |b| :: Hex(b)[i] == HEX[if i % 2 == 0 then b[i / 2] / 16 else b[i / 2] % 16]
  {
    if b != [] {
      HexDigits(b[1..]);
      forall i | 2 <= i < 2 * |b| ensures Hex(b)[i] == HEX[if i % 2 == 0 then b[i / 2] / 16 else b[i / 2] % 16] {
        assert Hex(b)[i] == Hex(b[1..])[i - 2] && b[1..][(i - 2) / 2] == b[i / 2];
      }
    }
  }

  /** Section 4 of RFC 9562: five groups of 4, 2, 2, 2 and 6 bytes. */
  function FiveGroups(u: Id): string {
    Hex(u[..4]) + "-" + Hex(u[4..6]) + "-" + Hex(u[6..8]) + "-" + Hex(u[8..10]) + "-" + Hex(u[10..])
  }

  lemma DigitInGroup(u: Id, from: nat, to: nat, i: nat)
    requires from <= to <= 16 && i < 2 * (to - from)
    ensures |Hex(u[from..to])| == 2 * (to - from)
    ensures Hex(u[from..to])[i] == HEX[NibbleOf(u, 2 * from + i)]
  {
    HexDigits(u[from..to]);
  }

  lemma TextIsFiveGroups(u: Id)
    ensures Text(u) == FiveGroups(u)
  {
    GroupLengths(u);
    hide Hex, NibbleOf;
    forall i | 0 <= i < 36 ensures Text(u)[i] == FiveGroups(u)[i] {
      if IsHyphen(i) {
      } else if i < 8 {
        DigitInGroup(u, 0, 4, i);
      } else if i < 13 {
        DigitInGroup(u, 4, 6, i - 9);
      } else if i < 18 {
        DigitInGroup(u, 6, 8, i - 14);
      } else if i < 23 {
        DigitInGroup(u, 8, 10, i - 19);
      } else {
        DigitInGroup(u, 10, 16, i - 24);
      }
    }
    assert u[..4] == u[0..4] && u[10..] == u[10..16];
  }

  lemma GroupLengths(u: Id)
    ensures |Hex(u[..4])| == 8 && |Hex(u[4..6])| == 4 && |Hex(u[6..8])| == 4 && |Hex(u[8..10])| == 4
    ensures |Hex(u[10..])| == 12
  {
    HexDigits(u[..4]);
    HexDigits(u[4..6]);
    HexDigits(u[6..8]);
    HexDigits(u[8..10]);
    HexDigits(u[10..]);
  }

  /** Hyphens in their four places and hexadecimal digits everywhere else. */
  predicate Canonical(s: string) {
    |s| == 36 && forall i | 0 <= i < 36 :: if IsHyphen(i) then s[i] == '-' else HexValue(s[i]).Some?
  }

  lemma WhatIsCanonical(s: string)
    ensures Canonical(s) <==>
              && |s| == 36 && s[8] == '-' && s[13] == '-' && s[18] == '-' && s[23] == '-'
              && forall i | 0 <= i < 36 && i !in {8, 13, 18, 23} ::
                   '0' <= s[i] <= '9' || 'a' <= s[i] <= 'f' || 'A' <= s[i] <= 'F'
  {}

  function ByteAt(s: string, at: nat): Byte
    requires at + 2 <= |s| && HexValue(s[at]).Some? && HexValue(s[at + 1]).Some?
  {
    16 * HexValue(s[at]).value + HexValue(s[at + 1]).value
  }

  function BytesOf(s: string): (u: Id)
    requires Canonical(s)
    ensures forall k | 0 <= k < 16 :: u[k] == ByteAt(s, PlaceOf(k))
  {
    seq(16, k requires 0 <= k < 16 => ByteAt(s, PlaceOf(k)))
  }

  function Parsed(s: string): Option<Id> {
    if Canonical(s) then Some(BytesOf(s)) else None
  }

  /** hex.Decode of s[lo..hi] into u[dst..]; it stops at the first character that is no digit. */
  method DecodeInto(u: array<Byte>, dst: nat, s: string, lo: nat, hi: nat) returns (ok: bool)
    requires lo <= hi <= |s| && (hi - lo) % 2 == 0 && dst + (hi - lo) / 2 <= u.Length
    modifies u
    ensures ok <==> forall i | lo <= i < hi :: HexValue(s[i]).Some?
    ensures forall k | 0 <= k < u.Length && !(dst <= k < dst + (hi - lo) / 2) :: u[k] == old(u[k])
    ensures ok ==> forall j | dst <= j < dst + (hi - lo) / 2 :: u[j] == ByteAt(s, lo + 2 * (j - dst))
  {
    for k := 0 to (hi - lo) / 2
      invariant forall i | lo <= i < lo + 2 * k :: HexValue(s[i]).Some?
      invariant forall j | 0 <= j < u.Length && !(dst <= j < dst + k) :: u[j] == old(u[j])
      invariant forall j | dst <= j < dst + k :: u[j] == ByteAt(s, lo + 2 * (j - dst))
    {
      if HexValue(s[lo + 2 * k]).None? || HexValue(s[lo + 2 * k + 1]).None? {
        return false;
      }
      u[dst + k] := ByteAt(s, lo + 2 * k);
    }
    ok := true;
  }

  datatype Group = Group(dst: nat, lo: nat, hi: nat)

  const GROUPS := [Group(0, 0, 8), Group(4, 9, 13), Group(6, 14, 18), Group(8, 19, 23), Group(10, 24, 36)]

  predicate GroupParsed(u: seq<Byte>, s: string, g: Group)
    requires |u| == 16 && |s| == 36 && g in GROUPS
  {
    && (forall i | g.lo <= i < g.hi :: HexValue(s[i]).Some?)
    && (forall j | g.dst <= j < g.dst + (g.hi - g.lo) / 2 :: u[j] == ByteAt(s, g.lo + 2 * (j - g.dst)))
  }

  lemma GroupsFit(g: nat)
    requires g < |GROUPS|
    ensures GROUPS[g].lo <= GROUPS[g].hi <= 36 && (GROUPS[g].hi - GROUPS[g].lo) % 2 == 0
    ensures GROUPS[g].dst + (GROUPS[g].hi - GROUPS[g].lo) / 2 <= 16
    ensures forall i | GROUPS[g].lo <= i < GROUPS[g].hi :: !IsHyphen(i)
    ensures forall h | 0 <= h < g :: GROUPS[h].dst + (GROUPS[h].hi - GROUPS[h].lo) / 2 <= GROUPS[g].dst
  {}

  lemma EarlierGroupsStay(was: seq<Byte>, now: seq<Byte>, s: string, g: nat)
    requires |was| == |now| == 16 && |s| == 36 && g < |GROUPS|
    requires forall h | 0 <= h < g :: GroupParsed(was, s, GROUPS[h])
    requires forall k | 0 <= k < GROUPS[g].dst :: now[k] == was[k]
    ensures forall h | 0 <= h < g :: GroupParsed(now, s, GROUPS[h])
  {
    GroupsFit(g);
    hide HexValue, ByteAt;
    forall h | 0 <= h < g ensures GroupParsed(now, s, GROUPS[h]) {
      assert GroupParsed(was, s, GROUPS[h]);
    }
  }

  method Parse(s: string) returns (r: Option<Id>)
    ensures r == Parsed(s)
    ensures r.Some? <==>
              && |s| == 36 && s[8] == '-' && s[13] == '-' && s[18] == '-' && s[23] == '-'
              && forall i | 0 <= i < 36 && i !in {8, 13, 18, 23} ::
                   '0' <= s[i] <= '9' || 'a' <= s[i] <= 'f' || 'A' <= s[i] <= 'F'
  {
    WhatIsCanonical(s);
    hide HexValue, ByteAt, BytesOf;
    if |s| != 36 || s[8] != '-' || s[13] != '-' || s[18] != '-' || s[23] != '-' {
      return None;
    }
    var u := new Byte[16](_ => 0);
    for g := 0 to |GROUPS|
      invariant forall h | 0 <= h < g :: GroupParsed(u[..], s, GROUPS[h])
    {
      ghost var was := u[..];
      GroupsFit(g);
      var ok := DecodeInto(u, GROUPS[g].dst, s, GROUPS[g].lo, GROUPS[g].hi);
      if !ok {
        var i :| GROUPS[g].lo <= i < GROUPS[g].hi && HexValue(s[i]).None?;
        assert !IsHyphen(i);
        return None;
      }
      EarlierGroupsStay(was, u[..], s, g);
      assert GroupParsed(u[..], s, GROUPS[g]);
    }
    hide GroupParsed;
    AllGroupsParsed(u[..], s);
    r := Some(u[..]);
  }

  lemma AllGroupsParsed(u: Id, s: string)
    requires |s| == 36 && s[8] == '-' && s[13] == '-' && s[18] == '-' && s[23] == '-'
    requires forall h | 0 <= h < |GROUPS| :: GroupParsed(u, s, GROUPS[h])
    ensures Parsed(s) == Some(u)
  {
    assert GroupParsed(u, s, GROUPS[0]) && GroupParsed(u, s, GROUPS[1]) && GroupParsed(u, s, GROUPS[2])
        && GroupParsed(u, s, GROUPS[3]) && GroupParsed(u, s, GROUPS[4]);
    assert Canonical(s);
    forall k | 0 <= k < 16 ensures u[k] == ByteAt(s, PlaceOf(k)) {
      var g := if k < 4 then 0 else if k < 6 then 1 else if k < 8 then 2 else if k < 10 then 3 else 4;
      assert PlaceOf(k) == GROUPS[g].lo + 2 * (k - GROUPS[g].dst);
    }
    assert u == BytesOf(s);
  }

  // Round trips and order.

  lemma HexValueOfDigit(n: nat)
    requires n < 16
    ensures HexValue(HEX[n]) == Some(n)
  {}

  lemma DigitOfHexValue(c: char)
    requires HexValue(c).Some?
    ensures HEX[HexValue(c).value] == LowerChar(c)
  {}

  function LowerChar(c: char): char {
    if 'A' <= c <= 'Z' then (c as int - 'A' as int + 'a' as int) as char else c
  }

  function Lower(s: string): string {
    seq(|s|, i requires 0 <= i < |s| => LowerChar(s[i]))
  }

  /** Byte k is written as the digits 2k and 2k+1. */
  lemma PlacesOfAByte(k: nat)
    requires k < 16
    ensures PlaceOf(k) < 35 && !IsHyphen(PlaceOf(k)) && !IsHyphen(PlaceOf(k) + 1)
    ensures DigitAt(PlaceOf(k)) == 2 * k && DigitAt(PlaceOf(k) + 1) == 2 * k + 1
  {}

  lemma DigitsOfAByte(u: Id, k: nat)
    requires k < 16
    ensures NibbleOf(u, 2 * k) == u[k] / 16 && NibbleOf(u, 2 * k + 1) == u[k] % 16
  {}

  /** Parsing the text of an id gives the id back. */
  lemma ParseUndoesString(u: Id)
    ensures Parsed(Text(u)) == Some(u)
  {
    var s := Text(u);
    forall i | 0 <= i < 36 && !IsHyphen(i) ensures HexValue(s[i]) == Some(NibbleOf(u, DigitAt(i))) {
      HexValueOfDigit(NibbleOf(u, DigitAt(i)));
    }
    hide HexValue, NibbleOf, DigitAt, PlaceOf;
    forall k | 0 <= k < 16 ensures BytesOf(s)[k] == u[k] {
      PlacesOfAByte(k);
      DigitsOfAByte(u, k);
    }
    assert BytesOf(s) == u;
  }

  lemma PlaceOfADigit(i: nat)
    requires i < 36 && !IsHyphen(i)
    ensures
      var k := DigitAt(i) / 2;
      k < 16 && i == PlaceOf(k) + DigitAt(i) % 2 && !IsHyphen(PlaceOf(k)) && !IsHyphen(PlaceOf(k) + 1)
      && PlaceOf(k) < 35
  {}

  lemma NibbleOfParsed(s: string, i: nat)
    requires Canonical(s) && i < 36 && !IsHyphen(i)
    ensures DigitAt(i) < 32 && HexValue(s[i]) == Some(NibbleOf(BytesOf(s), DigitAt(i)))
  {
    PlaceOfADigit(i);
    var k := DigitAt(i) / 2;
    HalvesOfAByte(HexValue(s[PlaceOf(k)]).value, HexValue(s[PlaceOf(k) + 1]).value);
    hide DigitAt, PlaceOf, HexValue;
    assert BytesOf(s)[k] == ByteAt(s, PlaceOf(k));
  }

  lemma HalvesOfAByte(a: int, b: int)
    requires 0 <= b < 16
    ensures (16 * a + b) / 16 == a && (16 * a + b) % 16 == b
  {}

  /** An id has one spelling up to the case of its digits. */
  lemma StringOfParsed(s: string)
    requires Parsed(s).Some?
    ensures Text(Parsed(s).value) == Lower(s)
  {
    var u := Parsed(s).value;
    hide HexValue, NibbleOf, DigitAt, PlaceOf, BytesOf;
    forall i | 0 <= i < 36 ensures Text(u)[i] == Lower(s)[i] {
      if !IsHyphen(i) {
        DigitOfHexValue(s[i]);
        NibbleOfParsed(s, i);
      }
    }
    assert Text(u) == Lower(s);
  }

  /** Lexicographic order of two texts of one length. */
  ghost predicate Before(a: string, b: string) {
    exists k | 0 <= k < |a| && k < |b| :: a[..k] == b[..k] && a[k] < b[k]
  }

  /** The place where two times first differ decides their order. */
  lemma FirstByteDecides(u: Id, v: Id) returns (k: nat)
    requires Millis(u) < Millis(v)
    ensures k < 6 && u[..k] == v[..k] && u[k] < v[k]
  {
    k := if u[0] != v[0] then 0 else if u[1] != v[1] then 1 else if u[2] != v[2] then 2
    else if u[3] != v[3] then 3 else if u[4] != v[4] then 4 else 5;
  }

  lemma DigitsBefore(i: nat, k: nat)
    requires k < 16 && i < PlaceOf(k) && !IsHyphen(i)
    ensures DigitAt(i) / 2 < k
  {}

  lemma TextsFollowBytes(u: Id, v: Id, k: nat)
    requires k < 16 && u[..k] == v[..k] && u[k] < v[k]
    ensures Before(Text(u), Text(v))
  {
    PlacesOfAByte(k);
    DigitsOfAByte(u, k);
    DigitsOfAByte(v, k);
    var digit := if u[k] / 16 == v[k] / 16 then 1 else 0;
    var at := PlaceOf(k) + digit;
    HexDigitsAscend(if digit == 0 then u[k] / 16 else u[k] % 16, if digit == 0 then v[k] / 16 else v[k] % 16);
    hide DigitAt, PlaceOf;
    forall i | 0 <= i < PlaceOf(k) ensures Text(u)[i] == Text(v)[i] {
      if !IsHyphen(i) {
        DigitsBefore(i, k);
        var j := DigitAt(i) / 2;
        assert u[..k][j] == v[..k][j];
      }
    }
    assert Text(u)[..at] == Text(v)[..at];
  }

  lemma HexDigitsAscend(a: nat, b: nat)
    requires a < b < 16
    ensures HEX[a] < HEX[b]
  {}

  /** Ids minted in different milliseconds sort by time, as bytes and as text, whatever the
      randomness. */
  lemma EarlierSortsFirst(u: Id, v: Id, ms: int, ms': int, random: seq<Byte>, random': seq<Byte>)
    requires |random| == 10 && |random'| == 10 && MintedAt(u, ms, random) && MintedAt(v, ms', random')
    requires 0 <= ms < ms' < TWO_48
    ensures Before(Text(u), Text(v))
    ensures exists k | 0 <= k < 6 :: u[..k] == v[..k] && u[k] < v[k]
  {
    var k := FirstByteDecides(u, v);
    TextsFollowBytes(u, v, k);
  }
}
