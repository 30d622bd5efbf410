/** `MyUserDetailsService` and the one repository call it makes: a token
    subject is parsed as a `long` and the user with that id is loaded from the
    store and wrapped in a `UserPrincipal`. The store is only read. */
module UserDetails {
  import opened Results
  import opened JavaLang
  import opened Principals

  /** The service, holding the user store it reads (the repository's rows by id). */
  datatype MyUserDetailsService = MyUserDetailsService(users: map<Long, User>)

  /** A store in which each row's key is the stored user's own id. */
  ghost predicate WellKeyed(users: map<Long, User>) {
    forall id :: id in users ==> users[id].id == id
  }

  /** `UserRepository.getUserById`: `findById(id).orElseThrow(null)`, which
      throws when the id is absent. */
  function GetUserById(users: map<Long, User>, id: Long): (r: Result<User>)
    ensures r.Ok? <==> id in users
    ensures r.Ok? ==> r.value == users[id]
  {
    if id in users then Ok(users[id]) else Failure
  }

  /** `loadUserByUsername`: `Long.parseLong` of the subject (which throws for
      `null` and for anything that is not a `long`), then the store lookup. */
  function LoadUserByUsername(service: MyUserDetailsService, userId: Option<string>): (r: Result<UserPrincipal>)
    ensures r.Ok? <==> userId.Some? && ParseLong(userId.value).Some? && ParseLong(userId.value).value in service.users
    ensures r.Ok? ==> r.value.user == service.users[ParseLong(userId.value).value]
  {
    match userId
    case None => Failure
    case Some(text) =>
      match ParseLong(text)
      case None => Failure
      case Some(id) =>
        match GetUserById(service.users, id)
        case Failure => Failure
        case Ok(user) => Ok(UserPrincipal(user))
  }

  /** Loading by the decimal string of a stored id yields that user, and the
      principal's username is that same string. */
  lemma LoadUserRoundTrip(service: MyUserDetailsService, id: Long)
    requires WellKeyed(service.users) && id in service.users
    ensures LoadUserByUsername(service, Some(ToDecimal(id))) == Ok(UserPrincipal(service.users[id]))
    ensures Username(LoadUserByUsername(service, Some(ToDecimal(id))).value) == ToDecimal(id)
  {
    ParseToDecimal(id);
  }

  /** A subject spelled with leading zeros or a '+' still loads the user with
      that id, and then the principal's username differs from the subject. */
  lemma LoadUserNonCanonicalSubject(service: MyUserDetailsService, k: nat, id: Long)
    requires WellKeyed(service.users) && id in service.users && id >= 0
    ensures var subject := "+" + Zeros(k) + ToDecimal(id);
      && LoadUserByUsername(service, Some(subject)) == Ok(UserPrincipal(service.users[id]))
      && Username(LoadUserByUsername(service, Some(subject)).value) != subject
  {
    ParseLongPlusSign(k, id);
    assert ("+" + Zeros(k) + ToDecimal(id))[0] == '+';
  }

  /** A subject that names no stored user fails to load. */
  lemma LoadUnknownUserFails(service: MyUserDetailsService, id: Long)
    requires id !in service.users
    ensures LoadUserByUsername(service, Some(ToDecimal(id))).Failure?
  {
    ParseToDecimal(id);
  }
}
