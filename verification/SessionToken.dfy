/** The session tokens of auth.go: minted by open, accepted by Authenticate. */
module SessionTokens {
  import opened Prelude
  import opened Base64

  type User = nat

  const TOKEN_BYTES := 32
  const TOKEN_LENGTH := 43

  /** What open mints: the canonical encoding of 32 octets. */
  ghost predicate Canonical(token: string) {
    exists raw: seq<Byte> | |raw| == TOKEN_BYTES :: token == Encode(Url, raw)
  }

  lemma TokensAre43Long(raw: seq<Byte>)
    requires |raw| == TOKEN_BYTES
    ensures |Encode(Url, raw)| == TOKEN_LENGTH
  {
    SextetCount(raw);
  }

  /** The two length checks and the strict decoding. */
  predicate Accepted(token: string) {
    |token| == TOKEN_LENGTH && Decode(Url, token, true).Some? && |Decode(Url, token, true).value| == TOKEN_BYTES
  }

  /** They accept exactly what open mints, although the decoder skips line breaks. */
  lemma AcceptedIffCanonical(token: string)
    ensures Accepted(token) <==> Canonical(token)
  {
    hide Encode, Decode;
    if Accepted(token) {
      var raw := Decode(Url, token, true).value;
      EncodeUndoesStrictDecode(Url, token);
      TokensAre43Long(raw);
    }
    if Canonical(token) {
      var raw: seq<Byte> :| |raw| == TOKEN_BYTES && token == Encode(Url, raw);
      TokensAre43Long(raw);
      DecodeUndoesEncode(Url, raw, true);
    }
  }

  /** The length check is not idle: every token has a longer spelling that decodes to the same
      octets. */
  lemma LineBreaksWouldPass(raw: seq<Byte>)
    ensures Decode(Url, Encode(Url, raw) + "\n", true) == Some(raw)
  {
    BreaksAreSkipped(Encode(Url, raw), "\n");
    assert Unbroken("\n"[1..]) == "";
    assert Unbroken(Encode(Url, raw) + "\n") == Unbroken(Encode(Url, raw));
    DecodeUndoesEncode(Url, raw, true);
  }

  /** Nor is strictness: the last symbol of a token carries two bits no octet uses, so every token has
      another spelling of its own length. */
  lemma LooseBitsWouldPass(raw: seq<Byte>)
    requires |raw| == TOKEN_BYTES
    ensures exists token ::
              |token| == TOKEN_LENGTH && token != Encode(Url, raw) && Decode(Url, token, false) == Some(raw)
  {
    var s := LooseSpelling(raw);
    hide Symbols, SextetsOf;
    SymbolsAreSymbols(Url, s);
    SymbolsAreSymbols(Url, Sextets(raw));
    TokensAre43Long(raw);
    assert Decode(Url, Symbols(Url, s), false) == Some(raw);
  }

  lemma LoosePair(x: Byte, y: Byte) returns (s: seq<Sextet>)
    ensures s != Sextets([x, y]) && |s| == |Sextets([x, y])| && Octets(s, false) == Some([x, y])
  {
    OctetsOfSextets(x, y, 0);
    LooseBit(Second(x, y), y);
    hide First, Second, Third, Fourth, Octet1, Octet2, Octet3;
    s := [First(x), Second(x, y), Third(y, 0) + 1];
  }

  lemma {:induction false} LooseSpelling(raw: seq<Byte>) returns (s: seq<Sextet>)
    requires |raw| % 3 == 2
    ensures s != Sextets(raw) && |s| == |Sextets(raw)| && Octets(s, false) == Some(raw)
  {
    hide First, Second, Third, Fourth, Octet1, Octet2, Octet3;
    if |raw| == 2 {
      s := LoosePair(raw[0], raw[1]);
      assert raw == [raw[0], raw[1]];
    } else {
      OctetsOfSextets(raw[0], raw[1], raw[2]);
      var rest := LooseSpelling(raw[3..]);
      s := [First(raw[0]), Second(raw[0], raw[1]), Third(raw[1], raw[2]), Fourth(raw[2])] + rest;
      assert s[4..] == rest && Sextets(raw)[4..] == Sextets(raw[3..]);
      assert raw == [raw[0], raw[1], raw[2]] + raw[3..];
    }
  }

  lemma LooseBit(t: Sextet, y: Byte)
    ensures Third(y, 0) + 1 < 64
    ensures Octet2(t, Third(y, 0) + 1) == Octet2(t, Third(y, 0))
  {}

  type Digest = seq<Byte>

  /** The sessions table and what auth.go does to it; digest is SHA-256, now the store's clock. */
  class Sessions {
    var users: map<Digest, User>
    const digest: string -> Digest

    constructor (digest: string -> Digest)
      ensures users == map[] && this.digest == digest
    {
      this.digest := digest;
      users := map[];
    }

    method Open(raw: seq<Byte>, user: User) returns (token: string)
      requires |raw| == TOKEN_BYTES
      modifies this`users
      ensures Canonical(token)
      ensures users == old(users)[digest(token) := user]
      ensures Decode(Url, token, true) == Some(raw)
    {
      token := Encode(Url, raw);
      DecodeUndoesEncode(Url, raw, true);
      users := users[digest(token) := user];
    }

    /** Nobody but the holder of a canonical token whose digest is stored. */
    method Authenticate(token: string) returns (user: Option<User>)
      ensures user.Some? <==> Canonical(token) && digest(token) in users
      ensures user.Some? ==> user.value == users[digest(token)]
    {
      hide Decode, Canonical;
      AcceptedIffCanonical(token);
      if |token| != TOKEN_LENGTH {
        return None;
      }
      var raw := Decode(Url, token, true);
      if raw.None? || |raw.value| != TOKEN_BYTES {
        return None;
      }
      var key := digest(token);
      user := if key in users then Some(users[key]) else None;
    }
  }
}
