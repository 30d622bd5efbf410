/** `JwtTokenProvider`: bearer-header extraction, token issue, claim parsing,
    the boolean validity check and the lookup of the authenticated user.

    The JWS signing and parsing of the jjwt library is a `Codec`: a pair of
    functions on the decoded key. The property the code relies on, that a
    token signed with the key parses back to the claims it was signed with,
    is the predicate `Faithful`, taken as a hypothesis by the lemmas that need
    it. The clock is a parameter `now` in milliseconds. */
module TokenProvider {
  import opened Results
  import opened JavaLang
  import opened Principals
  import opened UserDetails

  /** The authentication scheme prefix of the `Authorization` header. */
  const BearerPrefix: string := "Bearer "

  /** The HMAC-SHA key bytes. */
  type Key = seq<bv8>

  type Token = string

  /** The registered claims the code sets and reads: `sub`, `iat` and `exp`
      (sections 4.1.2, 4.1.6 and 4.1.4 of RFC 7519), each possibly absent.
      The dates are epoch milliseconds. */
  datatype Claims = Claims(sub: Option<string>, iat: Option<Long>, exp: Option<Long>)

  /** JWS compact serialisation with the key (`signWith(key).compact()`) and
      parsing with signature check (`parseClaimsJws(token).getBody()`, which
      yields `None` for a malformed, unsigned or wrongly signed token). */
  datatype Codec = Codec(sign: (Key, Claims) -> Token, verify: (Key, Token) -> Option<Claims>)

  /** A signed token has text and parses back to exactly its claims. */
  ghost predicate Faithful(codec: Codec) {
    forall key: Key, claims: Claims ::
      HasText(codec.sign(key, claims)) && codec.verify(key, codec.sign(key, claims)) == Some(claims)
  }

  /** `UsernamePasswordAuthenticationToken(principal, credentials, authorities)`,
      whose three-argument constructor marks it authenticated. */
  datatype Authentication = UsernamePasswordAuthenticationToken(
    principal: UserPrincipal,
    credentials: Option<string>,
    authorities: seq<GrantedAuthority>,
    authenticated: bool)

  /** The provider's three final fields, set once by its constructor. */
  datatype JwtTokenProvider = JwtTokenProvider(
    key: Key,
    validityInMilliseconds: Long,
    codec: Codec,
    userDetailsService: MyUserDetailsService)

  /** `resolveToken`: the header must have text and start with the exact,
      case-sensitive "Bearer "; the token is everything after it. */
  function ResolveToken(header: Option<string>): (token: Option<string>)
    ensures token.Some? <==> header.Some? && BearerPrefix <= header.value
    ensures token.Some? ==> BearerPrefix + token.value == header.value
  {
    if header.Some? && HasText(header.value) && BearerPrefix <= header.value then
      Some(header.value[|BearerPrefix|..])
    else
      BearerHeaderHasText(header);
      None
  }

  /** The prefix check makes the text check redundant: 'B' is not whitespace. */
  lemma BearerHeaderHasText(header: Option<string>)
    ensures header.Some? && BearerPrefix <= header.value ==> HasText(header.value)
  {
    if header.Some? && BearerPrefix <= header.value {
      assert !IsWhitespace(header.value[0]);
    }
  }

  /** Prefixing "Bearer " to any token gives a header that resolves to it. */
  lemma ResolveBearerHeader(token: string)
    ensures ResolveToken(Some(BearerPrefix + token)) == Some(token)
  {
  }

  /** Headers that carry no token, and one that does. */
  lemma ResolveTokenExamples()
    ensures ResolveToken(None) == None
    ensures ResolveToken(Some("")) == None
    ensures ResolveToken(Some("   ")) == None
    ensures ResolveToken(Some("Bearer")) == None
    ensures ResolveToken(Some("bearer xyz")) == None
    ensures ResolveToken(Some(" Bearer xyz")) == None
    ensures ResolveToken(Some("Bearer ")) == Some("")
    ensures ResolveToken(Some("Bearer abc.def.ghi")) == Some("abc.def.ghi")
  {
    assert !(BearerPrefix <= "bearer xyz") by { assert "bearer xyz"[0] != BearerPrefix[0]; }
    assert !(BearerPrefix <= " Bearer xyz") by { assert " Bearer xyz"[0] != BearerPrefix[0]; }
    ResolveBearerHeader("");
    ResolveBearerHeader("abc.def.ghi");
  }

  /** The claims `createToken` signs: the subject is the decimal id, issued
      now, expiring `validityInMilliseconds` later (Java `long` addition). */
  function IssuedClaims(p: JwtTokenProvider, userId: Long, now: Long): (claims: Claims)
    ensures claims.sub == Some(ToDecimal(userId)) && claims.iat == Some(now)
    ensures claims.exp.Some?
    ensures MinLong <= now + p.validityInMilliseconds <= MaxLong ==> claims.exp.value - claims.iat.value == p.validityInMilliseconds
  {
    Claims(Some(ToDecimal(userId)), Some(now), Some(WrapLong(now + p.validityInMilliseconds)))
  }

  /** `createToken`. */
  function CreateToken(p: JwtTokenProvider, userId: Long, now: Long): (token: Token)
    ensures Faithful(p.codec) ==> HasText(token) && p.codec.verify(p.key, token) == Some(IssuedClaims(p, userId, now))
  {
    p.codec.sign(p.key, IssuedClaims(p, userId, now))
  }

  /** jjwt's expiry check: expired when the clock is strictly after `exp`. */
  predicate Expired(claims: Claims, now: Long) {
    claims.exp.Some? && now > claims.exp.value
  }

  /** `getClaims`: jjwt rejects a token without text, then checks the
      signature and format, then the expiry. The claims returned are always
      the ones the signature vouches for. */
  function GetClaims(p: JwtTokenProvider, token: Token, now: Long): (r: Result<Claims>)
    ensures r.Ok? ==> HasText(token) && p.codec.verify(p.key, token) == Some(r.value)
    ensures r.Ok? ==> !Expired(r.value, now)
    ensures r.Failure? ==> !HasText(token) || p.codec.verify(p.key, token).None? || Expired(p.codec.verify(p.key, token).value, now)
  {
    if !HasText(token) then Failure
    else
      match p.codec.verify(p.key, token)
      case None => Failure
      case Some(claims) => if Expired(claims, now) then Failure else Ok(claims)
  }

  /** `validateToken`: every failure of `getClaims` is caught and becomes `false`. */
  function ValidateToken(p: JwtTokenProvider, token: Token, now: Long): (valid: bool)
    ensures valid <==> HasText(token) && p.codec.verify(p.key, token).Some? && !Expired(p.codec.verify(p.key, token).value, now)
  {
    match GetClaims(p, token, now)
    case Ok(_) => true
    case Failure => false
  }

  /** `getAuthentication`: parse the claims (failures propagate), load the
      user named by the subject (failures propagate), and wrap the details
      with `null` credentials and the details' authorities. */
  function GetAuthentication(p: JwtTokenProvider, token: Token, now: Long): (r: Result<Authentication>)
    ensures r.Ok? <==> GetClaims(p, token, now).Ok? && LoadUserByUsername(p.userDetailsService, GetClaims(p, token, now).value.sub).Ok?
    ensures r.Ok? ==>
      var sub := GetClaims(p, token, now).value.sub;
      && sub.Some? && ParseLong(sub.value).Some?
      && r.value.principal.user == p.userDetailsService.users[ParseLong(sub.value).value]
      && r.value.credentials == None
      && r.value.authorities == [] && r.value.authenticated
  {
    match GetClaims(p, token, now)
    case Failure => Failure
    case Ok(claims) =>
      match LoadUserByUsername(p.userDetailsService, claims.sub)
      case Failure => Failure
      case Ok(details) => Ok(UsernamePasswordAuthenticationToken(details, None, Authorities(details), true))
  }

  /** A token just created, checked no later than its expiry, validates and
      carries the decimal user id as subject, which parses back to the id. */
  lemma IssuedTokenValidates(p: JwtTokenProvider, userId: Long, now: Long, later: Long)
    requires Faithful(p.codec)
    requires now + p.validityInMilliseconds <= MaxLong
    requires later <= now + p.validityInMilliseconds
    ensures ValidateToken(p, CreateToken(p, userId, now), later)
    ensures GetClaims(p, CreateToken(p, userId, now), later) == Ok(IssuedClaims(p, userId, now))
    ensures GetClaims(p, CreateToken(p, userId, now), later).value.sub == Some(ToDecimal(userId))
    ensures ParseLong(GetClaims(p, CreateToken(p, userId, now), later).value.sub.value) == Some(userId)
  {
    var claims := IssuedClaims(p, userId, now);
    assert p.codec.verify(p.key, p.codec.sign(p.key, claims)) == Some(claims);
    ParseToDecimal(userId);
  }

  /** After its expiry a created token no longer validates. */
  lemma IssuedTokenExpires(p: JwtTokenProvider, userId: Long, now: Long, later: Long)
    requires Faithful(p.codec)
    requires MinLong <= now + p.validityInMilliseconds <= MaxLong
    requires later > now + p.validityInMilliseconds
    ensures !ValidateToken(p, CreateToken(p, userId, now), later)
  {
  }

  /** When `now + validityInMilliseconds` overflows a `long`, the expiry wraps
      round to a date before `now`, and the token never validates. */
  lemma OverflowedExpiryNeverValidates(p: JwtTokenProvider, userId: Long, now: Long, later: Long)
    requires Faithful(p.codec)
    requires now + p.validityInMilliseconds > MaxLong
    requires later >= now
    ensures !ValidateToken(p, CreateToken(p, userId, now), later)
  {
  }

  /** A token without text never validates, whatever the codec. */
  lemma BlankTokenNeverValidates(p: JwtTokenProvider, token: Token, now: Long)
    requires !HasText(token)
    ensures !ValidateToken(p, token, now)
  {
  }

  /** A token that validates and whose subject names a stored user
      authenticates at the same instant. */
  lemma ValidTokenAuthenticates(p: JwtTokenProvider, token: Token, now: Long)
    requires ValidateToken(p, token, now)
    requires LoadUserByUsername(p.userDetailsService, GetClaims(p, token, now).value.sub).Ok?
    ensures GetAuthentication(p, token, now).Ok?
  {
  }

  /** End to end: the token created for a stored user authenticates as that
      user, and the principal's username is the decimal id. */
  lemma IssuedTokenAuthenticates(p: JwtTokenProvider, userId: Long, now: Long, later: Long)
    requires Faithful(p.codec) && WellKeyed(p.userDetailsService.users)
    requires userId in p.userDetailsService.users
    requires now + p.validityInMilliseconds <= MaxLong
    requires later <= now + p.validityInMilliseconds
    ensures GetAuthentication(p, CreateToken(p, userId, now), later)
         == Ok(UsernamePasswordAuthenticationToken(UserPrincipal(p.userDetailsService.users[userId]), None, [], true))
    ensures Username(GetAuthentication(p, CreateToken(p, userId, now), later).value.principal) == ToDecimal(userId)
  {
    IssuedTokenValidates(p, userId, now, later);
    LoadUserRoundTrip(p.userDetailsService, userId);
  }

  /** A correctly signed, unexpired token for an id that is not stored fails
      to authenticate. */
  lemma IssuedTokenForUnknownUserFails(p: JwtTokenProvider, userId: Long, now: Long, later: Long)
    requires Faithful(p.codec)
    requires userId !in p.userDetailsService.users
    requires now + p.validityInMilliseconds <= MaxLong
    requires later <= now + p.validityInMilliseconds
    ensures ValidateToken(p, CreateToken(p, userId, now), later)
    ensures GetAuthentication(p, CreateToken(p, userId, now), later).Failure?
  {
    IssuedTokenValidates(p, userId, now, later);
    LoadUnknownUserFails(p.userDetailsService, userId);
  }
}
