/** The JWT strategy's `validate`: which email of a verified payload names the
    caller, and the user it resolves to. */
module JwtStrategy {
  import opened Common
  import opened Users

  datatype PayloadUser = PayloadUser(email: Option<string>)

  /** The two payload shapes the strategy accepts: an activation-style
      `{ user: { email } }` and a login-style `{ email }`. */
  datatype JwtPayload = JwtPayload(user: Option<PayloadUser>, email: Option<string>)

  /** The email `validate` looks up, tested by truthiness: `payload.user.email`
      first, then `payload.email`. */
  function ChosenEmail(p: JwtPayload): Option<string> {
    if p.user.Some? && Truthy(p.user.value.email) then p.user.value.email
    else if Truthy(p.email) then p.email
    else None
  }

  /** `validate`. */
  function Validate(users: seq<User>, p: JwtPayload): (r: Result<User>)
    ensures ChosenEmail(p).None? ==> r == Err(Http("Invalid payload structure", 401))
    ensures ChosenEmail(p).Some? && FindOneByEmail(users, ChosenEmail(p).value).None? ==>
              r == Err(Http("You are not authorized to perform the operation", 401))
    ensures r.Ok? ==> ChosenEmail(p).Some? && r == Ok(FindOneByEmail(users, ChosenEmail(p).value).value)
  {
    match ChosenEmail(p)
    case None => Err(Http("Invalid payload structure", 401))
    case Some(e) =>
      match FindOneByEmail(users, e)
      case None => Err(Http("You are not authorized to perform the operation", 401))
      case Some(u) => Ok(u)
  }

  /** A non-empty `payload.user.email` wins: whatever `payload.email` says, the
      caller is the live user holding the nested email. */
  lemma NestedEmailWins(users: seq<User>, p: JwtPayload, other: Option<string>)
    requires p.user.Some? && Truthy(p.user.value.email)
    ensures Validate(users, p) == Validate(users, p.(email := other))
    ensures Validate(users, p).Ok? ==> Validate(users, p).value.email == p.user.value.email.value
  {
  }

  /** Without a usable nested email, `payload.email` is used. */
  lemma TopLevelEmailFallback(users: seq<User>, p: JwtPayload)
    requires p.user.None? || !Truthy(p.user.value.email)
    requires Truthy(p.email)
    ensures Validate(users, p) == Validate(users, JwtPayload(None, p.email))
    ensures Validate(users, p).Ok? <==> FindOneByEmail(users, p.email.value).Some?
  {
  }

  /** With neither email usable, the request is refused before any lookup: the
      answer is the same whatever the collection holds. */
  lemma NoEmailRefusedWithoutLookup(users: seq<User>, others: seq<User>, p: JwtPayload)
    requires p.user.None? || !Truthy(p.user.value.email)
    requires !Truthy(p.email)
    ensures Validate(users, p) == Validate(others, p) == Err(Http("Invalid payload structure", 401))
  {
  }

  /** An accepted payload resolves to a live user that holds the chosen email. */
  lemma ValidatedUserHoldsEmail(users: seq<User>, p: JwtPayload)
    requires Validate(users, p).Ok?
    ensures var u := Validate(users, p).value;
      u in users && !u.isDeleted && Some(u.email) == ChosenEmail(p)
  {
  }
}
