/** `UserPrincipal`: the Spring Security `UserDetails` view of a stored user.
    It wraps one user, fixed at construction, and every getter is either a
    constant or derived from that user's id. */
module Principals {
  import opened Results
  import opened JavaLang

  /** A stored user. Only the id is read by the authentication code. */
  datatype User = User(id: Long)

  /** A granted authority, by its name. */
  type GrantedAuthority = string

  datatype UserPrincipal = UserPrincipal(user: User)

  /** `getAuthorities`: no roles are assigned. */
  function Authorities(p: UserPrincipal): seq<GrantedAuthority> { [] }

  /** `getPassword`: token authentication uses no password, so `null`. */
  function Password(p: UserPrincipal): Option<string> { None }

  /** `getUsername`: the decimal string of the wrapped user's id. */
  function Username(p: UserPrincipal): (name: string)
    ensures CanonicalDecimal(name)
    ensures ParseLong(name) == Some(p.user.id)
  {
    ParseToDecimal(p.user.id);
    ToDecimal(p.user.id)
  }

  predicate IsAccountNonExpired(p: UserPrincipal) { true }
  predicate IsAccountNonLocked(p: UserPrincipal) { true }
  predicate IsCredentialsNonExpired(p: UserPrincipal) { true }
  predicate IsEnabled(p: UserPrincipal) { true }

  /** Every principal is active, has no authorities and no password. */
  lemma PrincipalIsAlwaysActive(p: UserPrincipal)
    ensures Authorities(p) == [] && Password(p) == None
    ensures IsAccountNonExpired(p) && IsAccountNonLocked(p)
    ensures IsCredentialsNonExpired(p) && IsEnabled(p)
  {
  }

  /** The username identifies the user: two principals with the same username
      wrap users with the same id. */
  lemma UsernameIdentifiesUser(p: UserPrincipal, q: UserPrincipal)
    requires Username(p) == Username(q)
    ensures p == q
  {
  }
}
