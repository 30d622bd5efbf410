/** `JwtAuthenticationFilter.doFilterInternal`: extract the bearer token,
    validate it, resolve the user, publish the authentication into the
    security context, and forward the request down the chain.

    The security context is the filter object's `authentication` field, and
    every call of `filterChain.doFilter` is appended to the log `forwarded`
    together with the authentication the rest of the chain sees. The two
    parsing steps each read the clock, so the filter takes one reading for
    `validateToken` and one for `getAuthentication`. */
module AuthenticationFilter {
  import opened Results
  import opened JavaLang
  import opened Principals
  import opened UserDetails
  import opened TokenProvider

  /** An incoming request, reduced to its `Authorization` header. */
  datatype Request = Request(authorization: Option<string>)

  /** One call of `filterChain.doFilter`: the request passed on and the
      authentication in the security context at that moment. */
  datatype Forward = Forward(request: Request, authentication: Option<Authentication>)

  /** What one pass of the filter does: forward without writing the context,
      write this authentication and forward, or propagate a failure. */
  datatype Decision = Anonymous | Authenticate(authentication: Authentication) | Propagate

  /** The decision `doFilterInternal` takes for a request. */
  function Decide(p: JwtTokenProvider, request: Request, validateNow: Long, resolveNow: Long): (d: Decision)
    ensures !d.Anonymous? <==> ResolveToken(request.authorization).Some? && ValidateToken(p, ResolveToken(request.authorization).value, validateNow)
    ensures d.Propagate? ==> GetAuthentication(p, ResolveToken(request.authorization).value, resolveNow).Failure?
    ensures d.Authenticate? ==> Ok(d.authentication) == GetAuthentication(p, ResolveToken(request.authorization).value, resolveNow)
  {
    var token := ResolveToken(request.authorization);
    if token.Some? && ValidateToken(p, token.value, validateNow) then
      match GetAuthentication(p, token.value, resolveNow)
      case Ok(a) => Authenticate(a)
      case Failure => Propagate
    else
      Anonymous
  }

  class JwtAuthenticationFilter {
    const provider: JwtTokenProvider
    /** The security context's authentication. */
    var authentication: Option<Authentication>
    /** The calls made to the rest of the filter chain, oldest first. */
    var forwarded: seq<Forward>

    constructor (provider: JwtTokenProvider)
      ensures this.provider == provider
      ensures authentication == None && forwarded == []
    {
      this.provider := provider;
      authentication := None;
      forwarded := [];
    }

    /** One request. Returns `false` when `getAuthentication` threw, in which
        case neither the context nor the chain was touched. */
    method DoFilterInternal(request: Request, validateNow: Long, resolveNow: Long) returns (completed: bool)
      modifies this
      ensures completed <==> !Decide(provider, request, validateNow, resolveNow).Propagate?
      ensures authentication ==
        match Decide(provider, request, validateNow, resolveNow)
        case Authenticate(a) => Some(a)
        case _ => old(authentication)
      ensures forwarded ==
        if completed then old(forwarded) + [Forward(request, authentication)] else old(forwarded)
    {
      var token := ResolveToken(request.authorization);
      if token.Some? && ValidateToken(provider, token.value, validateNow) {
        var result := GetAuthentication(provider, token.value, resolveNow);
        if result.Failure? {
          return false;
        }
        authentication := Some(result.value);
      }
      forwarded := forwarded + [Forward(request, authentication)];
      completed := true;
    }
  }

  /** Without a bearer token the context is not written and the request is forwarded. */
  lemma MissingTokenPassesThrough(p: JwtTokenProvider, request: Request, validateNow: Long, resolveNow: Long)
    requires request.authorization.None? || !(BearerPrefix <= request.authorization.value)
    ensures Decide(p, request, validateNow, resolveNow) == Anonymous
  {
  }

  /** A token that does not validate is not rejected by the filter: the
      request is forwarded without an identity. */
  lemma InvalidTokenPassesThrough(p: JwtTokenProvider, token: Token, validateNow: Long, resolveNow: Long)
    requires !ValidateToken(p, token, validateNow)
    ensures Decide(p, Request(Some(BearerPrefix + token)), validateNow, resolveNow) == Anonymous
  {
  }

  /** A well-formed header with a created token for a stored user, checked
      before the token expires, authenticates as that user. */
  lemma IssuedTokenAuthenticatesRequest(p: JwtTokenProvider, userId: Long, now: Long, validateNow: Long, resolveNow: Long)
    requires Faithful(p.codec) && WellKeyed(p.userDetailsService.users)
    requires userId in p.userDetailsService.users
    requires now + p.validityInMilliseconds <= MaxLong
    requires validateNow <= now + p.validityInMilliseconds && resolveNow <= now + p.validityInMilliseconds
    ensures Decide(p, Request(Some(BearerPrefix + CreateToken(p, userId, now))), validateNow, resolveNow)
         == Authenticate(UsernamePasswordAuthenticationToken(UserPrincipal(p.userDetailsService.users[userId]), None, [], true))
  {
    var token := CreateToken(p, userId, now);
    ResolveBearerHeader(token);
    IssuedTokenValidates(p, userId, now, validateNow);
    IssuedTokenAuthenticates(p, userId, now, resolveNow);
  }

  /** A created token for an id that is not stored makes the request fail
      instead of passing through anonymously. */
  lemma UnknownUserPropagates(p: JwtTokenProvider, userId: Long, now: Long, validateNow: Long, resolveNow: Long)
    requires Faithful(p.codec)
    requires userId !in p.userDetailsService.users
    requires now + p.validityInMilliseconds <= MaxLong
    requires validateNow <= now + p.validityInMilliseconds && resolveNow <= now + p.validityInMilliseconds
    ensures Decide(p, Request(Some(BearerPrefix + CreateToken(p, userId, now))), validateNow, resolveNow) == Propagate
  {
    var token := CreateToken(p, userId, now);
    ResolveBearerHeader(token);
    IssuedTokenValidates(p, userId, now, validateNow);
    IssuedTokenForUnknownUserFails(p, userId, now, resolveNow);
  }

  /** A token that is still valid when `validateToken` reads the clock but
      has expired when `getAuthentication` reads it makes the request fail. */
  lemma ExpiryBetweenChecksPropagates(p: JwtTokenProvider, userId: Long, now: Long, validateNow: Long, resolveNow: Long)
    requires Faithful(p.codec)
    requires now + p.validityInMilliseconds <= MaxLong
    requires validateNow <= now + p.validityInMilliseconds < resolveNow
    ensures Decide(p, Request(Some(BearerPrefix + CreateToken(p, userId, now))), validateNow, resolveNow) == Propagate
  {
  }

  /** With one clock reading for both steps, a failure can only come from
      resolving the subject, never from the token itself. */
  lemma SameInstantPropagatesOnlyOnResolution(p: JwtTokenProvider, request: Request, now: Long)
    requires Decide(p, request, now, now) == Propagate
    ensures var claims := GetClaims(p, ResolveToken(request.authorization).value, now);
            claims.Ok? && LoadUserByUsername(p.userDetailsService, claims.value.sub).Failure?
  {
  }

  /** A client: an anonymous request, then an authenticated one. */
  method FilterTwoRequests(p: JwtTokenProvider, userId: Long, now: Long)
    requires Faithful(p.codec) && WellKeyed(p.userDetailsService.users)
    requires userId in p.userDetailsService.users
    requires 0 <= p.validityInMilliseconds && now + p.validityInMilliseconds <= MaxLong
  {
    var filter := new JwtAuthenticationFilter(p);
    var anonymous := Request(None);
    var ok := filter.DoFilterInternal(anonymous, now, now);
    assert ok && filter.authentication == None;
    assert filter.forwarded == [Forward(anonymous, None)];

    var signedIn := Request(Some(BearerPrefix + CreateToken(p, userId, now)));
    IssuedTokenAuthenticatesRequest(p, userId, now, now, now);
    ok := filter.DoFilterInternal(signedIn, now, now);
    var expected := UsernamePasswordAuthenticationToken(UserPrincipal(p.userDetailsService.users[userId]), None, [], true);
    assert ok && filter.authentication == Some(expected);
    assert filter.forwarded == [Forward(anonymous, None), Forward(signedIn, Some(expected))];
  }
}
