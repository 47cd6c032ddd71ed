/** Access tokens: signing and parsing of JSON Web Tokens (section 3.1 of RFC 7515, section 4 of
    RFC 7519).  The HMAC is any function of key and message. */
module Jwt {
  import opened Prelude
  import opened Decimal
  import opened Strings
  import opened Base64Url
  import opened Claims

  type Mac = (seq<Byte>, seq<Byte>) -> seq<Byte>

  /** The bytes of a Go string. */
  function Bytes(s: string): seq<Byte> {
    seq(|s|, i requires 0 <= i < |s| => s[i] as int % 256)
  }

  function Text(b: seq<Byte>): string {
    seq(|b|, i requires 0 <= i < |b| => b[i] as char)
  }

  const HEADER: string := "{\"alg\":\"HS256\",\"typ\":\"JWT\"}"

  /** Header and payload, each coded, joined by a dot. */
  function SigningInput(header: string, c: AccessClaims): string {
    Base64URL(Bytes(header)) + "." + Base64URL(Bytes(Marshal(c)))
  }

  function Signed(header: string, c: AccessClaims, secret: seq<Byte>, mac: Mac): string {
    SigningInput(header, c) + "." + Base64URL(mac(secret, Bytes(SigningInput(header, c))))
  }

  function SignedString(c: AccessClaims, secret: seq<Byte>, mac: Mac): string {
    Signed(HEADER, c, secret, mac)
  }

  datatype TokenError = Invalid | BadSignatureEncoding | BadPayloadEncoding | BadClaims | BeforeIssued | Expired

  /** The claims of a payload that has been authenticated, if this is their time. */
  function ReadPayload(payload: string, now: int): Result<AccessClaims, TokenError> {
    match Decode(payload)
    case None => Err(BadPayloadEncoding)
    case Some(bytes) =>
      match Unmarshal(Text(bytes))
      case None => Err(BadClaims)
      case Some(c) =>
        if c.iat > now then Err(BeforeIssued)
        else if c.exp < now then Err(Expired)
        else Ok(c)
  }

  function CheckParts(header: string, payload: string, sig: string, secret: seq<Byte>, mac: Mac, now: int)
    : Result<AccessClaims, TokenError>
  {
    match Decode(sig)
    case None => Err(BadSignatureEncoding)
    case Some(bytes) =>
      if bytes != mac(secret, Bytes(header + "." + payload)) then Err(Invalid)
      else ReadPayload(payload, now)
  }

  /** `now` is in whole seconds. */
  function ParseAndValidate(token: string, secret: seq<Byte>, mac: Mac, now: int): Result<AccessClaims, TokenError> {
    var parts := Split(token, '.');
    if |parts| != 3 then Err(Invalid) else CheckParts(parts[0], parts[1], parts[2], secret, mac, now)
  }

  // ----- the use case

  const SECOND: int := 1_000_000_000

  /** Whole seconds of a clock reading in nanoseconds. */
  function Unix(nanos: int): int {
    nanos / SECOND
  }

  /** The access token that `issueTokens` makes at `now` for a lifetime of `ttl`. */
  function IssueAccess(userID: int, now: int, ttl: int, secret: seq<Byte>, mac: Mac): string {
    SignedString(AccessClaims(FormatInt(userID), Unix(now), Unix(now + ttl)), secret, mac)
  }

  function ParseAccess(token: string, secret: seq<Byte>, mac: Mac, now: int): Option<int> {
    match ParseAndValidate(token, secret, mac, Unix(now))
    case Err(_) => None
    case Ok(c) => ParseInt(c.sub)
  }

  // ----- round trip

  lemma TextOfBytes(s: string)
    requires forall i :: 0 <= i < |s| ==> s[i] < 256 as char
    ensures Text(Bytes(s)) == s
  {
  }

  lemma {:induction false} PrintedIsPlain(ms: seq<Member>)
    requires forall i :: 0 <= i < |ms| ==> PrintableMember(ms[i])
    ensures forall i :: 0 <= i < |PrintMembers(ms)| ==> PrintMembers(ms)[i] < 256 as char
  {
    if ms != [] {
      ValuePlain(ms[0].1);
      if |ms| > 1 {
        PrintedIsPlain(ms[1..]);
      }
    }
  }

  lemma ValuePlain(v: Value)
    requires Printable(v)
    ensures forall i :: 0 <= i < |PrintValue(v)| ==> PrintValue(v)[i] < 256 as char
  {
    if v.VInt? {
      FormatAlphabet(v.n);
    }
  }

  lemma SplitThree(a: string, b: string, c: string)
    requires '.' !in a && '.' !in b && '.' !in c
    ensures Split(a + "." + b + "." + c, '.') == [a, b, c]
  {
    SplitFirst(a, b + "." + c, '.');
    SplitFirst(b, c, '.');
    SplitFirst(c, "", '.');
    assert a + "." + b + "." + c == a + ['.'] + (b + "." + c);
    assert b + "." + c == b + ['.'] + c;
  }

  /** A signed token has exactly three parts: the coded header, payload and signature. */
  lemma TokenParts(header: string, c: AccessClaims, secret: seq<Byte>, mac: Mac)
    ensures Split(Signed(header, c, secret, mac), '.')
            == [Base64URL(Bytes(header)), Base64URL(Bytes(Marshal(c))),
                Base64URL(mac(secret, Bytes(SigningInput(header, c))))]
  {
    OnlyAlphabet(Bytes(header));
    OnlyAlphabet(Bytes(Marshal(c)));
    OnlyAlphabet(mac(secret, Bytes(SigningInput(header, c))));
    SplitThree(Base64URL(Bytes(header)), Base64URL(Bytes(Marshal(c))),
               Base64URL(mac(secret, Bytes(SigningInput(header, c)))));
  }

  lemma ReadMarshalled(c: AccessClaims, now: int)
    requires Plain(c.sub) && IsInt64(c.iat) && IsInt64(c.exp)
    ensures ReadPayload(Base64URL(Bytes(Marshal(c))), now)
            == if now < c.iat then Err(BeforeIssued) else if c.exp < now then Err(Expired) else Ok(c)
  {
    DecodeInverts(Bytes(Marshal(c)));
    ReadText(c);
  }

  lemma ReadText(c: AccessClaims)
    requires Plain(c.sub) && IsInt64(c.iat) && IsInt64(c.exp)
    ensures Unmarshal(Text(Bytes(Marshal(c)))) == Some(c)
  {
    PrintedIsPlain(Fields(c));
    TextOfBytes(Marshal(c));
    UnmarshalMarshalled(c);
  }

  /** Whoever parses a signed token with the same secret gets the claims back, exactly from the
      second they were issued to the second they expire. */
  lemma ParseSigned(header: string, c: AccessClaims, secret: seq<Byte>, mac: Mac, now: int)
    requires Plain(c.sub) && IsInt64(c.iat) && IsInt64(c.exp)
    ensures ParseAndValidate(Signed(header, c, secret, mac), secret, mac, now)
            == if now < c.iat then Err(BeforeIssued) else if c.exp < now then Err(Expired) else Ok(c)
  {
    TokenParts(header, c, secret, mac);
    DecodeInverts(mac(secret, Bytes(SigningInput(header, c))));
    ReadMarshalled(c, now);
  }

  /** For every 64-bit user id, `ParseAccess` on an issued token returns that id at every second
      from issue to expiry, both included, and nothing at any other time. */
  lemma AccessRoundTrip(userID: int, issued: int, ttl: int, secret: seq<Byte>, mac: Mac, now: int)
    requires IsInt64(userID) && IsInt64(Unix(issued)) && IsInt64(Unix(issued + ttl))
    ensures ParseAccess(IssueAccess(userID, issued, ttl, secret, mac), secret, mac, now)
            == if issued / 1_000_000_000 <= now / 1_000_000_000 <= (issued + ttl) / 1_000_000_000
               then Some(userID) else None
  {
    FormatAlphabet(userID);
    ParseSigned(HEADER, AccessClaims(FormatInt(userID), Unix(issued), Unix(issued + ttl)), secret, mac, Unix(now));
    FormatParse(userID);
  }

  lemma {:induction false} SameBytes(a: string, b: string)
    requires Bytes(a) == Bytes(b)
    requires forall i :: 0 <= i < |a| ==> a[i] < 256 as char
    requires forall i :: 0 <= i < |b| ==> b[i] < 256 as char
    ensures a == b
  {
    TextOfBytes(a);
    TextOfBytes(b);
  }

  lemma CodedIsPlain(b: seq<Byte>)
    ensures '.' !in Base64URL(b)
    ensures forall i :: 0 <= i < |Base64URL(b)| ==> Base64URL(b)[i] < 256 as char
  {
    OnlyAlphabet(b);
  }

  lemma SameJoined(h: string, p: string, a: string, b: string)
    requires '.' !in h && '.' !in p && '.' !in a && '.' !in b
    requires forall i :: 0 <= i < |h + "." + p| ==> (h + "." + p)[i] < 256 as char
    requires forall i :: 0 <= i < |a| ==> a[i] < 256 as char
    requires forall i :: 0 <= i < |b| ==> b[i] < 256 as char
    requires Bytes(h + "." + p) == Bytes(a + "." + b)
    ensures h == a && p == b
  {
    SameBytes(h + "." + p, a + "." + b);
    SeparatorInjective(h, a, p, b, '.');
  }

  /** A signature speaks for one header and payload: an accepted token that carries the signature of
      an issued one is the issued one, header and claims, or its signing input is another message
      with the very same MAC. */
  lemma NoTampering(h: string, p: string, sig: string, header: string, c: AccessClaims,
                    secret: seq<Byte>, mac: Mac, now: int)
    requires Plain(c.sub) && IsInt64(c.iat) && IsInt64(c.exp)
    requires '.' !in h && '.' !in p && '.' !in sig
    requires forall i :: 0 <= i < |h + "." + p| ==> (h + "." + p)[i] < 256 as char
    requires Decode(sig) == Some(mac(secret, Bytes(SigningInput(header, c))))
    requires ParseAndValidate(h + "." + p + "." + sig, secret, mac, now).Ok?
    ensures mac(secret, Bytes(h + "." + p)) == mac(secret, Bytes(SigningInput(header, c)))
    ensures || (Bytes(h + "." + p) == Bytes(SigningInput(header, c))
                && h == Base64URL(Bytes(header)) && p == Base64URL(Bytes(Marshal(c)))
                && ParseAndValidate(h + "." + p + "." + sig, secret, mac, now) == Ok(c))
            || Bytes(h + "." + p) != Bytes(SigningInput(header, c))
  {
    SplitThree(h, p, sig);
    if Bytes(h + "." + p) == Bytes(SigningInput(header, c)) {
      CodedIsPlain(Bytes(header));
      CodedIsPlain(Bytes(Marshal(c)));
      SameJoined(h, p, Base64URL(Bytes(header)), Base64URL(Bytes(Marshal(c))));
      ReadMarshalled(c, now);
    }
  }

  // ----- exactly which tokens are accepted

  /** The token is `h.p.sig`, authenticated by the MAC of `h.p`, and its payload says `c`. */
  ghost predicate Carries(token: string, secret: seq<Byte>, mac: Mac, c: AccessClaims,
                          h: string, p: string, sig: string, payload: seq<Byte>) {
    && '.' !in h && '.' !in p && '.' !in sig && token == h + "." + p + "." + sig
    && Decode(sig) == Some(mac(secret, Bytes(h + "." + p)))
    && Decode(p) == Some(payload) && Unmarshal(Text(payload)) == Some(c)
  }

  lemma ThreeParts(token: string)
    requires |Split(token, '.')| == 3
    ensures var parts := Split(token, '.');
            && token == parts[0] + "." + parts[1] + "." + parts[2]
            && '.' !in parts[0] && '.' !in parts[1] && '.' !in parts[2]
  {
    var parts := Split(token, '.');
    JoinSplit(token, '.');
    SplitClean(token, '.');
    assert parts[1..][1..] == [parts[2]];
    assert Join(parts[1..], ['.']) == parts[1] + "." + parts[2];
  }

  /** For every token: parsing accepts it and yields `c` exactly when it has three parts, the last of
      which is the coded MAC of the other two under this secret, the payload decodes to `c`, and the
      time is between issue and expiry, both included. */
  lemma AcceptedIff(token: string, secret: seq<Byte>, mac: Mac, now: int, c: AccessClaims)
    ensures ParseAndValidate(token, secret, mac, now) == Ok(c) <==>
              c.iat <= now <= c.exp && exists h, p, sig, payload :: Carries(token, secret, mac, c, h, p, sig, payload)
  {
    if ParseAndValidate(token, secret, mac, now) == Ok(c) {
      var parts := Split(token, '.');
      ThreeParts(token);
      assert Carries(token, secret, mac, c, parts[0], parts[1], parts[2], Decode(parts[1]).value);
    }
    forall h, p, sig, payload | c.iat <= now <= c.exp && Carries(token, secret, mac, c, h, p, sig, payload)
      ensures ParseAndValidate(token, secret, mac, now) == Ok(c)
    {
      SplitThree(h, p, sig);
    }
  }

  /** `ParseAccess` yields the number that the subject of an accepted token denotes, and nothing for
      any other token. */
  lemma AccessIff(token: string, secret: seq<Byte>, mac: Mac, now: int, id: int)
    ensures ParseAccess(token, secret, mac, now) == Some(id) <==>
              exists c ::
                ParseAndValidate(token, secret, mac, now / 1_000_000_000) == Ok(c) && ParseInt(c.sub) == Some(id)
  {
    assert Unix(now) == now / 1_000_000_000;
  }

  // ----- what stands in a token

  /** Bytes of a text are its characters' codes. */
  lemma BytesAt(s: string, i: int)
    requires 0 <= i < |s| && s[i] < 256 as char
    ensures |Bytes(s)| == |s| && Bytes(s)[i] == s[i] as int
  {
  }

  /** The first part of an issued token is the coded standard header, the second the coded claims. */
  lemma IssuedText(userID: int, now: int, ttl: int, secret: seq<Byte>, mac: Mac)
    ensures var parts := Split(IssueAccess(userID, now, ttl, secret, mac), '.');
            && |parts| == 3
            && Decode(parts[0]) == Some(Bytes("{\"alg\":\"HS256\",\"typ\":\"JWT\"}"))
            && Decode(parts[1]) == Some(Bytes("{" + (("\"" + "sub" + "\":" + ("\"" + FormatInt(userID) + "\"")) + ","
                 + ("\"" + "iat" + "\":" + FormatInt(now / 1_000_000_000)) + ","
                 + ("\"" + "exp" + "\":" + FormatInt((now + ttl) / 1_000_000_000)) + "}")))
  {
    var c := AccessClaims(FormatInt(userID), Unix(now), Unix(now + ttl));
    TokenParts(HEADER, c, secret, mac);
    DecodeInverts(Bytes(HEADER));
    DecodeInverts(Bytes(Marshal(c)));
    MarshalText(c);
  }
}
