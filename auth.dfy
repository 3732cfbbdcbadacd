/** The authentication service: the email format check, credential validation,
    login, registration (which only issues an activation token) and account
    activation (which inserts the user). Password hashing, token signing and
    token verification are parameters of the operations. */
module Authentication {
  import opened Common
  import opened Users

  /** The characters `\s` matches in a JavaScript regular expression. */
  predicate IsJsWhitespace(c: char) {
    c == '\t' || c == '\n' || c == '\U{000B}' || c == '\U{000C}' || c == '\r' || c == ' ' ||
    c == '\U{00A0}' || c == '\U{1680}' || ('\U{2000}' <= c <= '\U{200A}') ||
    c == '\U{2028}' || c == '\U{2029}' || c == '\U{202F}' || c == '\U{205F}' ||
    c == '\U{3000}' || c == '\U{FEFF}'
  }

  /** The class `[^\s@]`. */
  predicate IsEmailChar(c: char) {
    !IsJsWhitespace(c) && c != '@'
  }

  predicate AllEmailChars(s: string) {
    forall k :: 0 <= k < |s| ==> IsEmailChar(s[k])
  }

  /** A '.' that is neither the first nor the last character. */
  predicate HasInnerDot(d: string) {
    exists j :: 0 < j < |d| - 1 && d[j] == '.'
  }

  /** The strings `/^[^\s@]+@[^\s@]+\.[^\s@]+$/` matches: three non-empty runs of
      `[^\s@]`, the first two separated by '@' and the last two by '.'. */
  ghost predicate MatchesEmailPattern(s: string) {
    exists i, j :: 0 < i && i + 1 < j && j + 1 < |s| && s[i] == '@' && s[j] == '.' &&
      AllEmailChars(s[..i]) && AllEmailChars(s[i + 1..j]) && AllEmailChars(s[j + 1..])
  }

  /** `isValidEmail`, computed by splitting at the first '@': a non-empty local
      part, a domain free of '@' and whitespace that holds an inner '.'. */
  predicate IsValidEmail(s: string) {
    match FindFirst(s, (c: char) => c == '@')
    case None => false
    case Some(i) => i > 0 && AllEmailChars(s[..i]) && AllEmailChars(s[i + 1..]) && HasInnerDot(s[i + 1..])
  }

  lemma AllEmailCharsSlice(s: string, a: nat, b: nat)
    requires a <= b <= |s|
    ensures AllEmailChars(s[a..b]) <==> forall k :: a <= k < b ==> IsEmailChar(s[k])
  {
    if forall k :: a <= k < b ==> IsEmailChar(s[k]) {
      forall k | 0 <= k < b - a ensures IsEmailChar(s[a..b][k]) {
        assert s[a..b][k] == s[a + k];
      }
    } else {
      var k :| a <= k < b && !IsEmailChar(s[k]);
      assert s[a..b][k - a] == s[k];
    }
  }

  /** Every string the computed check accepts matches the regular expression. */
  lemma AcceptedEmailMatchesPattern(s: string)
    requires IsValidEmail(s)
    ensures MatchesEmailPattern(s)
  {
    var i := FindFirst(s, (c: char) => c == '@').value;
    assert i > 0 && AllEmailChars(s[..i]) && AllEmailChars(s[i + 1..]) && HasInnerDot(s[i + 1..]);
    var d := s[i + 1..];
    var dj :| 0 < dj < |d| - 1 && d[dj] == '.';
    var j := i + 1 + dj;
    assert s[j] == '.';
    AllEmailCharsSlice(s, i + 1, |s|);
    AllEmailCharsSlice(s, i + 1, j);
    AllEmailCharsSlice(s, j + 1, |s|);
    assert s[i] == '@';
  }

  /** Every string that matches the regular expression passes the computed check;
      the '@' of the match is the first one. */
  lemma PatternMatchAccepted(s: string, i: nat, j: nat)
    requires 0 < i && i + 1 < j && j + 1 < |s| && s[i] == '@' && s[j] == '.'
    requires AllEmailChars(s[..i]) && AllEmailChars(s[i + 1..j]) && AllEmailChars(s[j + 1..])
    ensures IsValidEmail(s)
  {
    var p := (c: char) => c == '@';
    AllEmailCharsSlice(s, 0, i);
    AllEmailCharsSlice(s, i + 1, j);
    AllEmailCharsSlice(s, j + 1, |s|);
    var f := FindFirst(s, p);
    assert f == Some(i) by {
      assert p(s[i]);
    }
    assert IsEmailChar(s[j]);
    AllEmailCharsSlice(s, i + 1, |s|);
    var d := s[i + 1..];
    assert d[j - (i + 1)] == '.';
  }

  /** The computed check agrees with the regular expression on every string. */
  lemma EmailCheckMatchesPattern(s: string)
    ensures IsValidEmail(s) <==> MatchesEmailPattern(s)
  {
    if IsValidEmail(s) {
      AcceptedEmailMatchesPattern(s);
    }
    if MatchesEmailPattern(s) {
      var i: nat, j: nat :| 0 < i && i + 1 < j && j + 1 < |s| && s[i] == '@' && s[j] == '.' &&
        AllEmailChars(s[..i]) && AllEmailChars(s[i + 1..j]) && AllEmailChars(s[j + 1..]);
      PatternMatchAccepted(s, i, j);
    }
  }

  /** The shape of an accepted address in the terms of its callers: no
      whitespace, exactly one '@' with something before it, and a domain with a
      '.' that is neither its first nor its last character. */
  ghost predicate EmailShape(s: string) {
    (forall k :: 0 <= k < |s| ==> !IsJsWhitespace(s[k])) &&
    exists i :: 0 < i < |s| && s[i] == '@' &&
      (forall k :: 0 <= k < |s| && k != i ==> s[k] != '@') &&
      HasInnerDot(s[i + 1..])
  }

  lemma AcceptedEmailHasShape(s: string)
    requires IsValidEmail(s)
    ensures EmailShape(s)
  {
    var i := FindFirst(s, (c: char) => c == '@').value;
    AllEmailCharsSlice(s, 0, i);
    AllEmailCharsSlice(s, i + 1, |s|);
    assert forall k :: 0 <= k < |s| && k != i ==> IsEmailChar(s[k]);
  }

  lemma ShapedEmailAccepted(s: string, i: nat)
    requires forall k :: 0 <= k < |s| ==> !IsJsWhitespace(s[k])
    requires 0 < i < |s| && s[i] == '@' && HasInnerDot(s[i + 1..])
    requires forall k :: 0 <= k < |s| && k != i ==> s[k] != '@'
    ensures IsValidEmail(s)
  {
    var p := (c: char) => c == '@';
    assert FindFirst(s, p) == Some(i) by {
      assert p(s[i]);
    }
    assert forall k :: 0 <= k < |s| && k != i ==> IsEmailChar(s[k]);
    AllEmailCharsSlice(s, 0, i);
    AllEmailCharsSlice(s, i + 1, |s|);
  }

  /** `isValidEmail` holds exactly for strings of that shape. */
  lemma EmailCheckMeaning(s: string)
    ensures IsValidEmail(s) <==> EmailShape(s)
  {
    if IsValidEmail(s) {
      AcceptedEmailHasShape(s);
    }
    if EmailShape(s) {
      var i: nat :| 0 < i < |s| && s[i] == '@' &&
        (forall k :: 0 <= k < |s| && k != i ==> s[k] != '@') && HasInnerDot(s[i + 1..]);
      ShapedEmailAccepted(s, i);
    }
  }

  /** `validateUser`: the live user registered under the email, provided the
      password verifies against the stored hash. */
  function ValidateUser(users: seq<User>, email: string, password: string,
                        verify: (string, string) -> bool): (r: Option<User>)
    ensures r.Some? ==> r.value in users && r.value.email == email && !r.value.isDeleted &&
                        verify(r.value.password, password)
    ensures r.None? <==> FindOneByEmail(users, email).None? || !verify(FindOneByEmail(users, email).value.password, password)
  {
    var found := FindOneByEmail(users, email);
    if found.Some? && verify(found.value.password, password) then found else None
  }

  /** What `login` signs: `{ email, sub }`. */
  datatype LoginClaims = LoginClaims(email: string, sub: Id)

  datatype LoginResponse = LoginResponse(user: UserDetails, accessToken: string)

  /** `login`. */
  function Login(users: seq<User>, email: string, password: string,
                 verify: (string, string) -> bool, sign: LoginClaims -> string): (r: Result<LoginResponse>)
    ensures r.Err? <==> ValidateUser(users, email, password, verify).None?
    ensures r.Err? ==> r.failure == Http("Please confirm your login details", 400)
    ensures r.Ok? ==> exists u :: u in users && u.email == email && !u.isDeleted && verify(u.password, password) &&
                                 r.value == LoginResponse(GetUserDetails(u), sign(LoginClaims(u.email, u.id)))
  {
    match ValidateUser(users, email, password, verify)
    case None => Err(Http("Please confirm your login details", 400))
    case Some(u) => Ok(LoginResponse(GetUserDetails(u), sign(LoginClaims(u.email, u.id))))
  }

  /** The body of a registration, and what the activation token carries. */
  datatype Registration = Registration(name: string, email: string, password: string)

  datatype ActivationClaims = ActivationClaims(user: Registration, activationCode: string)

  /** Whether `userModel.findOne({ email })` finds a user: a live user with that email. */
  predicate EmailTaken(users: seq<User>, email: string) {
    FindFirst(users, (u: User) => u.email == email && !u.isDeleted).Some?
  }

  /** `register`: checks the email, refuses one a live user holds, and otherwise
      returns the token that signs the registration with the activation code.
      It takes the collection by value: registering stores nothing. */
  function Register(users: seq<User>, body: Registration, activationCode: string,
                    sign: ActivationClaims -> string): (r: Result<string>)
    ensures !IsValidEmail(body.email) ==> r == Err(Http("Invalid email address.", 400))
    ensures IsValidEmail(body.email) && (exists u :: u in users && u.email == body.email && !u.isDeleted) ==>
              r == Err(Http("Email already exist", 400))
    ensures r.Ok? <==> IsValidEmail(body.email) && forall u :: u in users ==> u.email != body.email || u.isDeleted
    ensures r.Ok? ==> r.value == sign(ActivationClaims(body, activationCode))
  {
    if !IsValidEmail(body.email) then Err(Http("Invalid email address.", 400))
    else if EmailTaken(users, body.email) then Err(Http("Email already exist", 400))
    else Ok(sign(ActivationClaims(body, activationCode)))
  }

  /** `activateUser` on the collection: the user it would insert, or why not.
      `verifyToken` yields `None` where `jwt.verify` throws. */
  function Activate(users: seq<User>, newId: Id, token: string, code: string,
                    verifyToken: string -> Option<ActivationClaims>, hash: string -> string): (r: Result<User>)
    ensures verifyToken(token).None? ==> r == Err(TokenRejected)
    ensures verifyToken(token).Some? && verifyToken(token).value.activationCode != code ==>
              r == Err(Http("Invalid activation code", 400))
    ensures verifyToken(token).Some? && verifyToken(token).value.activationCode == code &&
            (exists u :: u in users && u.email == verifyToken(token).value.user.email && !u.isDeleted) ==>
              r == Err(Http("Email already exist", 400))
    ensures r.Ok? ==> verifyToken(token).Some? && verifyToken(token).value.activationCode == code &&
                      var reg := verifyToken(token).value.user;
                      r.value.id == newId && r.value.name == reg.name && r.value.email == reg.email &&
                      r.value.password == hash(reg.password) && !r.value.isDeleted &&
                      forall u :: u in users ==> u.email != reg.email
  {
    match verifyToken(token)
    case None => Err(TokenRejected)
    case Some(claims) =>
      if claims.activationCode != code then Err(Http("Invalid activation code", 400))
      else if EmailTaken(users, claims.user.email) then Err(Http("Email already exist", 400))
      else CreateUser(users, newId, claims.user.name, claims.user.email, hash(claims.user.password))
  }

  /** A soft-deleted account still holds its email in the unique index: the
      existence check does not see it, and the insert is refused by the store. */
  lemma ActivationOverSoftDeletedEmail(users: seq<User>, newId: Id, token: string, code: string,
                                       verifyToken: string -> Option<ActivationClaims>, hash: string -> string,
                                       gone: User)
    requires verifyToken(token).Some? && verifyToken(token).value.activationCode == code
    requires gone in users && gone.isDeleted && gone.email == verifyToken(token).value.user.email
    requires forall u :: u in users && u.email == gone.email ==> u.isDeleted
    ensures Activate(users, newId, token, code, verifyToken, hash) == Err(StoreRejected)
  {
  }

  /** `activateUser`: inserts the user the activation token describes. */
  method ActivateUser(dir: UserDirectory, token: string, code: string,
                      verifyToken: string -> Option<ActivationClaims>, hash: string -> string)
    returns (r: Outcome)
    requires dir.Valid()
    modifies dir
    ensures dir.Valid()
    ensures var a := Activate(old(dir.users), old(dir.nextId), token, code, verifyToken, hash);
      (a.Ok? ==> r == Pass && dir.users == old(dir.users) + [a.value] && dir.nextId == old(dir.nextId) + 1) &&
      (a.Err? ==> r == Fail(a.failure) && dir.users == old(dir.users) && dir.nextId == old(dir.nextId))
  {
    var claims := verifyToken(token);
    if claims.None? {
      return Fail(TokenRejected);
    }
    if claims.value.activationCode != code {
      return Fail(Http("Invalid activation code", 400));
    }
    var reg := claims.value.user;
    if EmailTaken(dir.users, reg.email) {
      return Fail(Http("Email already exist", 400));
    }
    var hashed := hash(reg.password);
    var created := dir.Create(reg.name, reg.email, hashed);
    if created.Err? {
      return Fail(created.failure);
    }
    r := Pass;
  }
}
