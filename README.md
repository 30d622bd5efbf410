# JWT authentication slice and response envelopes

A Dafny model of the authentication core of the `likelion` Spring backend:

- **Bearer extraction** (`JwtTokenProvider.resolveToken`): the `Authorization`
  header must have text and start with the exact, case-sensitive `"Bearer "`.
  The token is the rest of the header, untrimmed. This is the carrier of
  section 2.1 of RFC 6750, with a stricter (case-sensitive) scheme name.
- **Token issue and validation** (`createToken`, `getClaims`, `validateToken`,
  `getAuthentication`). The claims are `sub`, `iat` and `exp` (sections 4.1.2,
  4.1.6 and 4.1.4 of RFC 7519). The jjwt signer and parser are a `Codec`, a
  pair of functions. The lemmas that need the round trip "a token signed with
  the key parses back to its claims" take it as the hypothesis `Faithful`.
  The clock is a parameter. `exp = now + validity` is Java `long` addition,
  so it wraps on overflow.
- **Identity resolution** (`MyUserDetailsService.loadUserByUsername`,
  `UserRepository.getUserById`, `UserPrincipal`). The subject goes through
  `Long.parseLong`, then a lookup in the user store (a `map` from id to user),
  then is wrapped in a principal. The principal has constant flags, no
  authorities, no password, and the decimal id as username.
- **The per-request filter** (`JwtAuthenticationFilter.doFilterInternal`).
  It is a class whose `authentication` field is the security context and whose
  `forwarded` log records each call of the rest of the filter chain, together
  with the authentication that call sees. Missing or invalid credentials
  forward the request with the context untouched. A valid token writes one
  authentication and then forwards. A resolution failure propagates without
  forwarding. `validateToken` and `getAuthentication` each run jjwt's parser,
  and each reads the clock. The filter therefore takes two clock readings.
  A token that expires between them makes the request fail
  (`ExpiryBetweenChecksPropagates`).
- **Response envelopes** (`BaseResponse`, `ErrorResponse`): the factories as
  record constructors.

Every operation is a function of its inputs, except the filter method. So
`resolveToken` and `validateToken` are deterministic by construction, and the
user-details service cannot change the store it reads.

Files: `results.dfy` (null and exceptions as `Option`/`Result`), `java_lang.dfy`
(`long`, `String.valueOf`, `Long.parseLong`, `Character.isWhitespace`,
`StringUtils.hasText`), `user_principal.dfy`, `user_details_service.dfy`,
`jwt_token_provider.dfy`, `jwt_authentication_filter.dfy`,
`base_response.dfy`, `error_response.dfy`.

## Model

| member | source | states |
|---|---|---|
| JavaLang.WrapLong | likelion/src/main/java/com/hansung/likelion/global/auth/jwt/JwtTokenProvider.java:56 | `long` addition: exact inside the range, off by 2^64 when it overflows either end |
| JavaLang.ToDecimal | likelion/src/main/java/com/hansung/likelion/global/auth/jwt/UserPrincipal.java:29 | `String.valueOf(long)`: non-empty, a leading '-' exactly for negatives, digits otherwise, canonical form |
| JavaLang.ParseLong | likelion/src/main/java/com/hansung/likelion/global/auth/jwt/MyUserDetailsService.java:30 | `Long.parseLong` accepts only an optional sign followed by digits; a negative result needs a '-' |
| JavaLang.LeadingZerosValue | likelion/src/main/java/com/hansung/likelion/global/auth/jwt/MyUserDetailsService.java:30 | leading zeros do not change the value `Long.parseLong` reads from the digits |
| JavaLang.ParseLongAccepts | likelion/src/main/java/com/hansung/likelion/global/auth/jwt/MyUserDetailsService.java:30 | every optional sign ("", "+", "-") followed by digits parses exactly when its value fits a `long`, to that value |
| JavaLang.ParseLongLeadingZeros | likelion/src/main/java/com/hansung/likelion/global/auth/jwt/MyUserDetailsService.java:30 | a zero-padded decimal ("042") parses to the unpadded value |
| JavaLang.ParseLongPlusSign | likelion/src/main/java/com/hansung/likelion/global/auth/jwt/MyUserDetailsService.java:30 | a '+' before a zero-padded decimal ("+42") parses to the value |
| JavaLang.ParseLongMinusSign | likelion/src/main/java/com/hansung/likelion/global/auth/jwt/MyUserDetailsService.java:30 | a '-' before a zero-padded magnitude parses to its negation, so "-0" is 0 |
| JavaLang.ParseToDecimal | likelion/src/main/java/com/hansung/likelion/global/auth/jwt/MyUserDetailsService.java:30 | parsing the decimal string of any `long` gives that `long` back |
| JavaLang.ToDecimalOfParse | likelion/src/main/java/com/hansung/likelion/global/auth/jwt/MyUserDetailsService.java:30 | a canonical decimal that parses is exactly the decimal string of its value |
| JavaLang.ToDecimalInjective | likelion/src/main/java/com/hansung/likelion/global/auth/jwt/UserPrincipal.java:29 | distinct ids have distinct decimal strings |
| Principals.Username | likelion/src/main/java/com/hansung/likelion/global/auth/jwt/UserPrincipal.java:26-30 | the username is the canonical decimal of the wrapped user's id and parses back to it |
| Principals.PrincipalIsAlwaysActive | likelion/src/main/java/com/hansung/likelion/global/auth/jwt/UserPrincipal.java:15-52 | no authorities, `null` password, and the four status flags true for every user |
| Principals.UsernameIdentifiesUser | likelion/src/main/java/com/hansung/likelion/global/auth/jwt/UserPrincipal.java:13-30 | equal usernames mean the same wrapped user |
| UserDetails.GetUserById | likelion/src/main/java/com/hansung/likelion/domain/user/repository/UserRepository.java:10-12 | succeeds exactly when the id is stored, with the stored user |
| UserDetails.LoadUserByUsername | likelion/src/main/java/com/hansung/likelion/global/auth/jwt/MyUserDetailsService.java:27-33 | succeeds exactly when the subject is non-null, parses as a `long` and names a stored user; the principal wraps that user |
| UserDetails.LoadUserRoundTrip | likelion/src/main/java/com/hansung/likelion/global/auth/jwt/MyUserDetailsService.java:30-32 | loading by the decimal of a stored id yields that user, whose username is that decimal |
| UserDetails.LoadUnknownUserFails | likelion/src/main/java/com/hansung/likelion/global/auth/jwt/MyUserDetailsService.java:30 | the decimal of an id absent from the store fails to load |
| UserDetails.LoadUserNonCanonicalSubject | likelion/src/main/java/com/hansung/likelion/global/auth/jwt/MyUserDetailsService.java:30-32 | a subject "+00…42" loads user 42, whose username "42" differs from the subject |
| TokenProvider.ResolveToken | likelion/src/main/java/com/hansung/likelion/global/auth/jwt/JwtTokenProvider.java:108-115 | a token is found exactly when the header exists and starts with "Bearer ", and prefix plus token is the header |
| TokenProvider.BearerHeaderHasText | likelion/src/main/java/com/hansung/likelion/global/auth/jwt/JwtTokenProvider.java:110 | a header starting with "Bearer " always passes `hasText` |
| TokenProvider.ResolveBearerHeader | likelion/src/main/java/com/hansung/likelion/global/auth/jwt/JwtTokenProvider.java:110-112 | "Bearer " followed by any token resolves to that token |
| TokenProvider.ResolveTokenExamples | likelion/src/main/java/com/hansung/likelion/global/auth/jwt/JwtTokenProvider.java:108-115 | missing, empty, blank, "Bearer", wrong-case and space-led headers give no token; "Bearer " gives "" |
| TokenProvider.IssuedClaims | likelion/src/main/java/com/hansung/likelion/global/auth/jwt/JwtTokenProvider.java:54-61 | subject is the decimal user id, issued-at is now, and without overflow exp minus iat is the validity |
| TokenProvider.CreateToken | likelion/src/main/java/com/hansung/likelion/global/auth/jwt/JwtTokenProvider.java:54-64 | under a faithful codec the token has text and verifies to exactly the issued claims |
| TokenProvider.GetClaims | likelion/src/main/java/com/hansung/likelion/global/auth/jwt/JwtTokenProvider.java:72-79 | claims are returned only for a token with text whose signature verifies, and they are the verified claims, unexpired |
| TokenProvider.ValidateToken | likelion/src/main/java/com/hansung/likelion/global/auth/jwt/JwtTokenProvider.java:122-133 | true exactly when the token has text, verifies and is unexpired; every failure is false |
| TokenProvider.GetAuthentication | likelion/src/main/java/com/hansung/likelion/global/auth/jwt/JwtTokenProvider.java:87-101 | succeeds exactly when the claims parse and the subject loads; the principal is the user stored under the parsed subject, credentials null, no authorities |
| TokenProvider.IssuedTokenValidates | likelion/src/main/java/com/hansung/likelion/global/auth/jwt/JwtTokenProvider.java:54-79 | a created token validates until its expiry and its subject parses back to the user id |
| TokenProvider.IssuedTokenExpires | likelion/src/main/java/com/hansung/likelion/global/auth/jwt/JwtTokenProvider.java:55-61 | after now plus validity a created token no longer validates |
| TokenProvider.OverflowedExpiryNeverValidates | likelion/src/main/java/com/hansung/likelion/global/auth/jwt/JwtTokenProvider.java:56 | if now plus validity overflows a `long`, the created token never validates |
| TokenProvider.BlankTokenNeverValidates | likelion/src/main/java/com/hansung/likelion/global/auth/jwt/JwtTokenProvider.java:122-133 | a token without text is invalid whatever the codec |
| TokenProvider.ValidTokenAuthenticates | likelion/src/main/java/com/hansung/likelion/global/auth/jwt/JwtTokenProvider.java:87-100 | a valid token whose subject loads authenticates at the same instant |
| TokenProvider.IssuedTokenAuthenticates | likelion/src/main/java/com/hansung/likelion/global/auth/jwt/JwtTokenProvider.java:54-100 | a created token for a stored user authenticates as that user, username the decimal id |
| TokenProvider.IssuedTokenForUnknownUserFails | likelion/src/main/java/com/hansung/likelion/global/auth/jwt/JwtTokenProvider.java:87-100 | a created token for an unstored id validates but does not authenticate |
| AuthenticationFilter.Decide | likelion/src/main/java/com/hansung/likelion/global/auth/jwt/JwtAuthenticationFilter.java:21-39 | authentication is attempted exactly when a token is extracted and validates; it writes the result of `getAuthentication`, or propagates its failure |
| AuthenticationFilter.JwtAuthenticationFilter.constructor | likelion/src/main/java/com/hansung/likelion/global/auth/jwt/JwtAuthenticationFilter.java:15-18 | the filter holds the given provider; empty context, nothing forwarded |
| AuthenticationFilter.JwtAuthenticationFilter.DoFilterInternal | likelion/src/main/java/com/hansung/likelion/global/auth/jwt/JwtAuthenticationFilter.java:21-39 | the context is written only on authentication; the request is forwarded once, after the write, unless resolution failed, in which case nothing changes |
| AuthenticationFilter.MissingTokenPassesThrough | likelion/src/main/java/com/hansung/likelion/global/auth/jwt/JwtAuthenticationFilter.java:23-38 | without a bearer header the request is forwarded anonymously |
| AuthenticationFilter.InvalidTokenPassesThrough | likelion/src/main/java/com/hansung/likelion/global/auth/jwt/JwtAuthenticationFilter.java:27-38 | an invalid token is forwarded anonymously, never rejected by the filter |
| AuthenticationFilter.IssuedTokenAuthenticatesRequest | likelion/src/main/java/com/hansung/likelion/global/auth/jwt/JwtAuthenticationFilter.java:27-38 | a bearer header with a live created token for a stored user writes that user's authentication |
| AuthenticationFilter.UnknownUserPropagates | likelion/src/main/java/com/hansung/likelion/global/auth/jwt/JwtAuthenticationFilter.java:27-29 | a live created token for an unstored id fails the request rather than passing through |
| AuthenticationFilter.ExpiryBetweenChecksPropagates | likelion/src/main/java/com/hansung/likelion/global/auth/jwt/JwtAuthenticationFilter.java:27-29 | a token valid at validation but expired at resolution fails the request |
| AuthenticationFilter.SameInstantPropagatesOnlyOnResolution | likelion/src/main/java/com/hansung/likelion/global/auth/jwt/JwtAuthenticationFilter.java:27-29 | with one clock reading, a failure comes only from loading the subject |
| BaseResponses.OfCode | likelion/src/main/java/com/hansung/likelion/global/response/BaseResponse.java:23-25 | success flag as given; code and message from the code object |
| BaseResponses.OfCodeWithMessage | likelion/src/main/java/com/hansung/likelion/global/response/BaseResponse.java:27-29 | success flag as given; code from the object, message from the argument |
| BaseResponses.Of | likelion/src/main/java/com/hansung/likelion/global/response/BaseResponse.java:31-33 | all three values copied verbatim |
| BaseResponses.FactoriesAgree | likelion/src/main/java/com/hansung/likelion/global/response/BaseResponse.java:16-33 | the three factories build the same envelope from the same code and message |
| ErrorResponses.New | likelion/src/main/java/com/hansung/likelion/global/response/ErrorResponse.java:19-23 | not a success; code and status from the object; message from the object; payload kept |
| ErrorResponses.NewWithMessage | likelion/src/main/java/com/hansung/likelion/global/response/ErrorResponse.java:26-30 | not a success; code and status from the object; the given message; payload kept |
| ErrorResponses.From | likelion/src/main/java/com/hansung/likelion/global/response/ErrorResponse.java:33-37 | failure envelope with the code's message and a null payload |
| ErrorResponses.OfMessage | likelion/src/main/java/com/hansung/likelion/global/response/ErrorResponse.java:39-41 | failure envelope with the given message and a null payload |
| ErrorResponses.OfData | likelion/src/main/java/com/hansung/likelion/global/response/ErrorResponse.java:43-45 | failure envelope with the code's message carrying the payload unchanged |
| ErrorResponses.OfDataWithMessage | likelion/src/main/java/com/hansung/likelion/global/response/ErrorResponse.java:47-49 | failure envelope with the given message carrying the payload unchanged |
| ErrorResponses.CodeMessageOverrideIsNeutral | likelion/src/main/java/com/hansung/likelion/global/response/ErrorResponse.java:19-49 | passing the code's own message agrees with omitting it on every field but the timestamp |
| ErrorResponses.ErrorEnvelopeIsFailedBase | likelion/src/main/java/com/hansung/likelion/global/response/ErrorResponse.java:13-30 | an error envelope's inherited part is the base envelope for a failure with the same code and message |

## Left out

- Cryptography: HMAC-SHA signing, JWS compact serialisation and parsing, Base64 decoding of the secret and `Keys.hmacShaKeyFor` (with its key-length check) belong to jjwt. The codec is a parameter, and the round trip is the hypothesis `Faithful`. A different key or a flipped signature bit being rejected is a property of the cryptography, so it is not stated.
- The provider's constructor (`JwtTokenProvider.java:31-47`): it only decodes the key, so the provider is built directly from the key bytes.
- Second granularity of JWT dates: jjwt writes `iat` and `exp` in whole seconds. The codec here round-trips exact milliseconds, so a token's lifetime ends at exactly `now + validity`.
- The `nbf` claim and jjwt's other structural checks: these are inside `verify`.
- `createToken(null)`: the subject would be the string "null". The user id is modelled as a non-null `long`.
- `Long.parseLong` also accepts non-ASCII Unicode decimal digits; only ASCII digits are modelled. Strings are sequences of Unicode scalar values, not UTF-16 code units.
- The servlet request and response are reduced to the first `Authorization` header value (header-name case folding and repeated headers are the container's). The response is not modelled.
- `SecurityContextHolder` is thread-local. It is a field of the filter object here, and concurrency is not modelled.
- The framework clears the security context at the end of every request. That reset is not modelled. The `authentication` field stands for the context as the filter finds it when a call begins. A sequence of calls therefore carries an earlier authentication into a later anonymous request, which the real program does not do.
- Exception types are not distinguished: `NumberFormatException`, the null-pointer failure of `orElseThrow(null)` and jjwt's exceptions are all one `Failure`.
- The wall clock and the timestamp formatting of `BaseResponse` (`LocalDateTime.now()` with the pattern `yyyy-MM-dd HH:mm:ss`): the formatted timestamp is a parameter.
- Null `Boolean` or `String` arguments to the response factories are not modelled. A null `data` payload is `None`.
- `BaseResponseCode` is not part of this model beyond its three getters. The `User` entity is not part of this model beyond its id.
- Lombok `@Builder`, `@ToString` and Jackson's property order, `BaseEntity` auditing, and the Spring Boot application class.
