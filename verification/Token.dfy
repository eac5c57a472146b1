/** Issuing and verifying tokens: the compact serialization of section 7.1 of RFC 7515,
    with the claims of section 4.1 of RFC 7519. */
module Token {
  import opened Common
  import opened Text
  import opened Base64Url

  const ALGORITHM := "HS256"
  const SECOND := 1_000_000_000 // nanoseconds

  datatype Config = Config(secret: seq<Byte>, issuer: string, audience: seq<string>, ttl: int)
  {
    /** Defaults fill what is not configured; times are in nanoseconds. */
    function Normalized(): Config {
      Config(secret,
             if issuer == "" then "email-triage-system" else issuer,
             if audience == [] then ["email-triage-system", "pg-ops-console"] else audience,
             if ttl <= 0 then 24 * 3600 * SECOND else ttl)
    }
  }

  datatype Principal = Principal(userId: string, role: string, provider: string)

  datatype Header = Header(alg: string, typ: string)

  datatype Claims = Claims(
    issuer: string, audience: seq<string>, subject: string, role: string, provider: string,
    expiry: int, issuedAt: int)

  /** The library code behind a token: HMAC-SHA-256 and JSON. */
  datatype Codec = Codec(
    sign: (seq<Byte>, string) -> seq<Byte>,
    marshalHeader: Header -> seq<Byte>,
    unmarshalAlgorithm: seq<Byte> -> Option<string>,
    marshalClaims: Claims -> seq<Byte>,
    unmarshalClaims: seq<Byte> -> Option<Claims>)
  {
    /** Reading JSON back gives what was written. */
    ghost predicate Faithful() {
      && (forall h :: unmarshalAlgorithm(marshalHeader(h)) == Some(h.alg))
      && (forall c :: unmarshalClaims(marshalClaims(c)) == Some(c))
    }
  }

  datatype Error = NotConfigured | InvalidToken

  datatype Manager = Manager(secret: seq<Byte>, issuer: string, audience: seq<string>, ttl: int)

  /** A manager always has an issuer, an audience and a positive lifetime. */
  function NewManager(cfg: Config): (m: Manager)
    ensures m.ttl > 0 && m.issuer != "" && m.audience != [] && m.secret == cfg.secret
    ensures cfg.issuer != "" ==> m.issuer == cfg.issuer
    ensures cfg.audience != [] ==> m.audience == cfg.audience
    ensures cfg.ttl > 0 ==> m.ttl == cfg.ttl
    ensures cfg == Config(cfg.secret, "", [], 0) ==>
      m == Manager(cfg.secret, "email-triage-system", ["email-triage-system", "pg-ops-console"], 86_400_000_000_000)
  {
    var c := cfg.Normalized();
    Manager(c.secret, c.issuer, c.audience, c.ttl)
  }

  /** Seconds since the epoch of a time in nanoseconds, rounded down. */
  function Unix(t: int): int { t / SECOND }

  function ClaimsFor(m: Manager, p: Principal, now: int): Claims {
    Claims(m.issuer, m.audience, p.userId, p.role, p.provider, Unix(now + m.ttl), Unix(now))
  }

  /** Three base64url segments: header, claims, and the signature over the first two. */
  function Serialize(codec: Codec, secret: seq<Byte>, header: Header, claims: Claims): string {
    var input := Encode(codec.marshalHeader(header)) + "." + Encode(codec.marshalClaims(claims));
    input + "." + Encode(codec.sign(secret, input))
  }

  function Issue(codec: Codec, m: Manager, p: Principal, now: int): Result<string, Error> {
    if m.secret == [] then Err(NotConfigured)
    else Ok(Serialize(codec, m.secret, Header(ALGORITHM, "JWT"), ClaimsFor(m, p, now)))
  }

  function Verify(codec: Codec, m: Manager, token: string, audience: string, now: int): Result<Principal, Error> {
    if m.secret == [] then Err(NotConfigured)
    else
      var parts := Split(token, '.');
      if |parts| != 3 then Err(InvalidToken)
      else
        var input := parts[0] + "." + parts[1];
        if Decode(parts[2]) != Some(codec.sign(m.secret, input)) then Err(InvalidToken)
        else
          var header := Decode(parts[0]);
          if header.None? || codec.unmarshalAlgorithm(header.value) != Some(ALGORITHM) then Err(InvalidToken)
          else
            var body := Decode(parts[1]);
            if body.None? || codec.unmarshalClaims(body.value).None? then Err(InvalidToken)
            else CheckClaims(m, codec.unmarshalClaims(body.value).value, audience, now)
  }

  function CheckClaims(m: Manager, c: Claims, audience: string, now: int): Result<Principal, Error> {
    if c.issuer != m.issuer || c.subject == "" || c.role == "" then Err(InvalidToken)
    else if c.expiry <= Unix(now) then Err(InvalidToken)
    else if audience != "" && audience !in c.audience then Err(InvalidToken)
    else if c.role != "user" && c.role != "admin" then Err(InvalidToken)
    else Ok(Principal(c.subject, c.role, c.provider))
  }

  /** Segments use the alphabet only, so a token splits back into its three segments. */
  lemma SegmentHasNoDot(bs: seq<Byte>)
    ensures '.' !in Encode(bs)
  {
    EncodeAlphabet(bs);
  }

  lemma SplitToken(a: seq<Byte>, b: seq<Byte>, c: seq<Byte>)
    ensures Split(Encode(a) + "." + Encode(b) + "." + Encode(c), '.') == [Encode(a), Encode(b), Encode(c)]
  {
    SegmentHasNoDot(a);
    SegmentHasNoDot(b);
    SegmentHasNoDot(c);
    var token := Encode(a) + "." + Encode(b) + "." + Encode(c);
    assert token == Encode(a) + ['.'] + (Encode(b) + ['.'] + Encode(c));
    SplitHead(Encode(a), '.', Encode(b) + ['.'] + Encode(c));
    SplitHead(Encode(b), '.', Encode(c));
    SplitWhole(Encode(c), '.');
  }

  // ----- what is accepted ---------------------------------------------------------

  /** The token is three segments: a header that says HS256, claims, and the signature of both under the secret.
      The claims are the manager's, name the principal, have not expired and are for the audience. */
  predicate Proves(codec: Codec, m: Manager, token: string, a: string, b: string, c: string, k: Claims,
                   audience: string, now: int, p: Principal) {
    && token == a + "." + b + "." + c && '.' !in a && '.' !in b && '.' !in c
    && Decode(c) == Some(codec.sign(m.secret, a + "." + b))
    && Decode(a).Some? && codec.unmarshalAlgorithm(Decode(a).value) == Some("HS256")
    && Decode(b).Some? && codec.unmarshalClaims(Decode(b).value) == Some(k)
    && k.issuer == m.issuer
    && k.subject == p.userId && p.userId != ""
    && k.role == p.role && p.role in {"user", "admin"}
    && k.provider == p.provider
    && now < k.expiry * 1_000_000_000
    && (audience == "" || audience in k.audience)
  }

  lemma SplitThree(token: string, a: string, b: string, c: string)
    ensures Split(token, '.') == [a, b, c] <==>
      token == a + "." + b + "." + c && '.' !in a && '.' !in b && '.' !in c
  {
    if Split(token, '.') == [a, b, c] {
      var rest := SplitFirst(token, '.');
      var last := SplitFirst(rest, '.');
      SplitSingle(last, '.');
      forall part | part in [a, b, c] ensures '.' !in part { SplitPlain(token, '.', part); }
      assert a + ['.'] + (b + ['.'] + c) == a + "." + b + "." + c;
    }
    if token == a + "." + b + "." + c && '.' !in a && '.' !in b && '.' !in c {
      assert token == a + ['.'] + (b + ['.'] + c);
      SplitHead(a, '.', b + ['.'] + c);
      SplitHead(b, '.', c);
      SplitWhole(c, '.');
    }
  }

  lemma ClaimsExactly(m: Manager, k: Claims, audience: string, now: int, p: Principal)
    ensures CheckClaims(m, k, audience, now) == Ok(p) <==>
      && k.issuer == m.issuer
      && k.subject == p.userId && p.userId != ""
      && k.role == p.role && p.role in {"user", "admin"}
      && k.provider == p.provider
      && now < k.expiry * 1_000_000_000
      && (audience == "" || audience in k.audience)
    ensures CheckClaims(m, k, audience, now).Err? ==> CheckClaims(m, k, audience, now) == Err(InvalidToken)
  {
  }

  /** Verification, for every text: it lets a principal through if and only if the text proves it with a signature
      under the secret, and refuses everything else as invalid. */
  lemma VerifyExactly(codec: Codec, m: Manager, token: string, audience: string, now: int, p: Principal)
    ensures Verify(codec, m, token, audience, now) == Ok(p) <==>
      m.secret != [] && exists a, b, c, k :: Proves(codec, m, token, a, b, c, k, audience, now, p)
    ensures Verify(codec, m, token, audience, now).Err? ==>
      Verify(codec, m, token, audience, now) == if m.secret == [] then Err(NotConfigured) else Err(InvalidToken)
  {
    var parts := Split(token, '.');
    if |parts| == 3 {
      SplitThree(token, parts[0], parts[1], parts[2]);
      var body := Decode(parts[1]);
      if body.Some? && codec.unmarshalClaims(body.value).Some? {
        var k := codec.unmarshalClaims(body.value).value;
        ClaimsExactly(m, k, audience, now, p);
        assert Verify(codec, m, token, audience, now) == Ok(p) ==>
          Proves(codec, m, token, parts[0], parts[1], parts[2], k, audience, now, p);
      }
    }
    if a, b, c, k :| Proves(codec, m, token, a, b, c, k, audience, now, p) {
      SplitThree(token, a, b, c);
      ClaimsExactly(m, k, audience, now, p);
    }
  }

  /** What an issued token says: the algorithm, the manager's issuer and audience, the principal, and the whole
      seconds of its issue and its end. */
  lemma IssuedClaims(codec: Codec, m: Manager, p: Principal, now: int)
    returns (a: string, b: string, c: string, k: Claims)
    requires codec.Faithful() && m.secret != []
    ensures Issue(codec, m, p, now) == Ok(a + "." + b + "." + c)
    ensures Decode(a) == Some(codec.marshalHeader(Header("HS256", "JWT"))) && Decode(b) == Some(codec.marshalClaims(k))
    ensures Decode(c) == Some(codec.sign(m.secret, a + "." + b))
    ensures k.issuer == m.issuer && k.audience == m.audience
    ensures k.subject == p.userId && k.role == p.role && k.provider == p.provider
    ensures k.issuedAt * 1_000_000_000 <= now < (k.issuedAt + 1) * 1_000_000_000
    ensures k.expiry * 1_000_000_000 <= now + m.ttl < (k.expiry + 1) * 1_000_000_000
  {
    k := ClaimsFor(m, p, now);
    var h := codec.marshalHeader(Header(ALGORITHM, "JWT"));
    a, b := Encode(h), Encode(codec.marshalClaims(k));
    var signature := codec.sign(m.secret, a + "." + b);
    c := Encode(signature);
    RoundTrip(h);
    RoundTrip(codec.marshalClaims(k));
    RoundTrip(signature);
  }

  /** Verification reads a serialized token down to its claims. */
  lemma VerifySerialized(codec: Codec, m: Manager, header: Header, claims: Claims, audience: string, now: int)
    requires codec.Faithful() && m.secret != [] && header.alg == ALGORITHM
    ensures Verify(codec, m, Serialize(codec, m.secret, header, claims), audience, now)
         == CheckClaims(m, claims, audience, now)
  {
    var h := codec.marshalHeader(header);
    var b := codec.marshalClaims(claims);
    var s := codec.sign(m.secret, Encode(h) + "." + Encode(b));
    SplitToken(h, b, s);
    RoundTrip(h);
    RoundTrip(b);
    RoundTrip(s);
  }

  /** When a token issued at `issued` is good for `audience` at `now`. */
  predicate Accepts(m: Manager, p: Principal, issued: int, audience: string, now: int) {
    && p.userId != ""
    && (p.role == "user" || p.role == "admin")
    && (audience == "" || audience in m.audience)
    && Unix(now) < Unix(issued + m.ttl)
  }

  /** Issue then verify: the same principal comes back exactly when it may, else the token is refused. */
  lemma IssueVerify(codec: Codec, m: Manager, p: Principal, issued: int, audience: string, now: int)
    requires codec.Faithful() && m.secret != []
    ensures Issue(codec, m.(secret := []), p, issued) == Err(NotConfigured)
    ensures Issue(codec, m, p, issued).Ok?
    ensures Verify(codec, m, Issue(codec, m, p, issued).value, audience, now)
         == if Accepts(m, p, issued, audience, now) then Ok(p) else Err(InvalidToken)
  {
    VerifySerialized(codec, m, Header(ALGORITHM, "JWT"), ClaimsFor(m, p, issued), audience, now);
    AcceptedClaims(m, p, issued, audience, now);
  }

  lemma AcceptedClaims(m: Manager, p: Principal, issued: int, audience: string, now: int)
    ensures CheckClaims(m, ClaimsFor(m, p, issued), audience, now)
         == if Accepts(m, p, issued, audience, now) then Ok(p) else Err(InvalidToken)
  {
  }

  /** Acceptance ends within the second before `issued + ttl`, never after it. */
  lemma AcceptanceWindow(codec: Codec, m: Manager, p: Principal, issued: int, audience: string, now: int)
    requires codec.Faithful() && m.secret != []
    requires p.userId != "" && (p.role == "user" || p.role == "admin")
    requires audience == "" || audience in m.audience
    ensures var ok := Verify(codec, m, Issue(codec, m, p, issued).value, audience, now).Ok?;
      (ok ==> now < issued + m.ttl) && (now <= issued + m.ttl - SECOND ==> ok)
  {
    IssueVerify(codec, m, p, issued, audience, now);
  }
}
