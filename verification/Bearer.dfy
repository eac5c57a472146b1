/** The bearer header in front of token verification. */
module Bearer {
  import opened Common
  import opened Text
  import opened Base64Url
  import opened Token

  datatype Refusal = MissingToken | InvalidHeader | InvalidBearerToken

  /** strings.Cut on the first occurrence of a character. */
  function Cut(s: string, sep: char): Option<(string, string)> {
    if s == [] then None
    else if s[0] == sep then Some(([], s[1..]))
    else
      match Cut(s[1..], sep)
      case None => None
      case Some((a, b)) => Some(([s[0]] + a, b))
  }

  /** What the middleware lets through, and how it refuses the rest. */
  function Authenticate(lib: Lib, codec: Codec, m: Manager, audience: string, header: string, now: int)
    : Result<Principal, Refusal>
  {
    if header == "" then Err(MissingToken)
    else
      match Cut(header, ' ')
      case None => Err(InvalidHeader)
      case Some((scheme, token)) =>
        if !EqualFold(lib, scheme, "Bearer") || Trim(lib, token) == "" then Err(InvalidHeader)
        else
          match Verify(codec, m, Trim(lib, token), audience, now)
          case Ok(p) => Ok(p)
          case Err(_) => Err(InvalidBearerToken)
  }

  lemma {:induction false} CutFirst(a: string, sep: char, b: string)
    requires sep !in a
    ensures Cut(a + [sep] + b, sep) == Some((a, b))
  {
    var s := a + [sep] + b;
    if a == [] {
      assert s[1..] == b;
    } else {
      CutFirst(a[1..], sep, b);
      assert s[1..] == a[1..] + [sep] + b;
      assert a == [a[0]] + a[1..];
    }
  }

  /** A header made of any spelling of the scheme, a blank and an issued token with any padding
      authenticates exactly the principals that verification accepts. */
  lemma IssuedTokenAuthenticates(lib: Lib, codec: Codec, m: Manager, p: Principal, issued: int,
                                 audience: string, now: int, scheme: string, before: string, after: string)
    requires codec.Faithful() && m.secret != []
    requires forall c :: Alphabet(c) || c == '.' ==> !lib.space(c)
    requires EqualFold(lib, scheme, "Bearer") && ' ' !in scheme
    requires forall c :: c in before || c in after ==> lib.space(c)
    ensures var header := scheme + " " + before + Issue(codec, m, p, issued).value + after;
      Authenticate(lib, codec, m, audience, header, now)
      == if Accepts(m, p, issued, audience, now) then Ok(p) else Err(InvalidBearerToken)
  {
    IssueVerify(codec, m, p, issued, audience, now);
    var token := Issue(codec, m, p, issued).value;
    TokenHasNoSpace(lib, codec, m, p, issued);
    PaddedHeader(lib, codec, m, audience, now, scheme, before, token, after);
  }

  /** A well-formed header is judged by its token alone. */
  lemma PaddedHeader(lib: Lib, codec: Codec, m: Manager, audience: string, now: int,
                     scheme: string, before: string, token: string, after: string)
    requires EqualFold(lib, scheme, "Bearer") && ' ' !in scheme
    requires forall c :: c in before || c in after ==> lib.space(c)
    requires token != [] && forall c :: c in token ==> !lib.space(c)
    ensures Authenticate(lib, codec, m, audience, scheme + " " + before + token + after, now)
      == match Verify(codec, m, token, audience, now)
         case Ok(p) => Ok(p)
         case Err(_) => Err(InvalidBearerToken)
  {
    assert token[0] in token && token[|token| - 1] in token;
    TrimStretch(lib, before, token, after);
    assert scheme + " " + before + token + after == scheme + [' '] + (before + token + after);
    CutFirst(scheme, ' ', before + token + after);
  }

  lemma TokenHasNoSpace(lib: Lib, codec: Codec, m: Manager, p: Principal, issued: int)
    requires m.secret != []
    requires forall c :: Alphabet(c) || c == '.' ==> !lib.space(c)
    ensures var token := Issue(codec, m, p, issued).value;
      token != [] && forall c :: c in token ==> !lib.space(c)
  {
    SerializedHasNoSpace(lib, codec, m.secret, Header(ALGORITHM, "JWT"), ClaimsFor(m, p, issued));
  }

  lemma SerializedHasNoSpace(lib: Lib, codec: Codec, secret: seq<Byte>, header: Header, claims: Claims)
    requires forall c :: Alphabet(c) || c == '.' ==> !lib.space(c)
    ensures var token := Serialize(codec, secret, header, claims);
      token != [] && forall c :: c in token ==> !lib.space(c)
  {
    var h := codec.marshalHeader(header);
    var b := codec.marshalClaims(claims);
    var s := codec.sign(secret, Encode(h) + "." + Encode(b));
    EncodeAlphabet(h);
    EncodeAlphabet(b);
    EncodeAlphabet(s);
    assert |Serialize(codec, secret, header, claims)| > 0;
  }

  // ----- every header ------------------------------------------------------------------

  /** The scheme, a blank, and a text: the header up to its first blank, and what comes after it. */
  predicate Divided(header: string, scheme: string, rest: string) {
    header == scheme + " " + rest && ' ' !in scheme
  }

  /** The scheme is Bearer in some spelling. */
  predicate Spells(lib: Lib, scheme: string) {
    |scheme| == 6 && forall i :: 0 <= i < 6 ==> lib.fold(scheme[i]) == lib.fold("Bearer"[i])
  }

  lemma {:induction false} CutDivides(header: string)
    ensures Cut(header, ' ').Some? ==> Divided(header, Cut(header, ' ').value.0, Cut(header, ' ').value.1)
    ensures Cut(header, ' ').None? ==> ' ' !in header
  {
    if header != [] {
      CutDivides(header[1..]);
      assert header == [header[0]] + header[1..];
    }
  }

  lemma SpellsBearer(lib: Lib, scheme: string)
    ensures EqualFold(lib, scheme, "Bearer") <==> Spells(lib, scheme)
  {
    EqualFoldEach(lib, scheme, "Bearer");
  }

  /** A header that asks for verification: Bearer, a blank, and a text with something but spaces in it. */
  ghost predicate WellFormed(lib: Lib, header: string) {
    exists scheme, rest :: Divided(header, scheme, rest) && Spells(lib, scheme) && !Blank(lib, rest)
  }

  /** Where the token stands in a header. */
  predicate Carries(lib: Lib, header: string, scheme: string, before: string, token: string, after: string) {
    && Divided(header, scheme, before + token + after) && Spells(lib, scheme)
    && Blank(lib, before) && Blank(lib, after)
    && token != [] && !lib.space(token[0]) && !lib.space(token[|token| - 1])
  }

  lemma DividedOnce(header: string, scheme: string, rest: string)
    requires Divided(header, scheme, rest)
    ensures Cut(header, ' ') == Some((scheme, rest)) && header != ""
  {
    assert header == scheme + [' '] + rest;
    CutFirst(scheme, ' ', rest);
  }

  /** A well-formed header carries a token. */
  lemma TokenOf(lib: Lib, header: string, scheme: string, rest: string) returns (before: string, after: string)
    requires Divided(header, scheme, rest) && Spells(lib, scheme) && !Blank(lib, rest)
    ensures Carries(lib, header, scheme, before, Trim(lib, rest), after)
  {
    TrimBlank(lib, rest);
    var middle;
    before, middle, after := NormalForm(lib, rest);
  }

  /** The middleware, for every header: nothing there, not well-formed, or judged by the token it carries. */
  lemma AuthenticateExactly(lib: Lib, codec: Codec, m: Manager, audience: string, header: string, now: int,
                            p: Principal)
    ensures var r := Authenticate(lib, codec, m, audience, header, now);
      && (r == Err(MissingToken) <==> header == "")
      && (r == Err(InvalidHeader) <==> header != "" && !WellFormed(lib, header))
      && (r == Ok(p) <==> exists scheme, before, token, after ::
            Carries(lib, header, scheme, before, token, after) && Verify(codec, m, token, audience, now) == Ok(p))
  {
    CutDivides(header);
    var cut := Cut(header, ' ');
    if cut.Some? {
      var (scheme, rest) := cut.value;
      SpellsBearer(lib, scheme);
      TrimBlank(lib, rest);
      if Spells(lib, scheme) && !Blank(lib, rest) {
        var before, after := TokenOf(lib, header, scheme, rest);
        assert WellFormed(lib, header);
      }
    }
    if scheme, rest :| Divided(header, scheme, rest) && Spells(lib, scheme) && !Blank(lib, rest) {
      DividedOnce(header, scheme, rest);
    }
    forall scheme, before, token, after | Carries(lib, header, scheme, before, token, after)
      ensures cut == Some((scheme, before + token + after)) && Trim(lib, before + token + after) == token
    {
      DividedOnce(header, scheme, before + token + after);
      TrimStretch(lib, before, token, after);
    }
  }
}
