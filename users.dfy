/** The user collection and the parts of the user service that read or write it:
    lookups by id and by email, the public details of a user, the two-factor
    switches and the profile update. */
module Users {
  import opened Common

  /** A stored user. `isDeleted` is the soft-delete flag every `findOne` (and so
      every `findById`) on this collection filters out. */
  datatype User = User(
    id: Id,
    name: string,
    email: string,
    phone: string,
    gender: string,
    account_type: string,
    role: string,
    password: string,
    secret: string,
    business_address: string,
    business_email: string,
    business_name: string,
    business_line: string,
    is_verified: bool,
    isTwoFactorEnabled: bool,
    isDeleted: bool,
    createdAt: nat,
    updatedAt: nat)

  /** What `getUserDetails` hands out: the listed fields and nothing else. */
  datatype UserDetails = UserDetails(
    id: Id,
    name: string,
    email: string,
    phone: string,
    gender: string,
    account_type: string,
    role: string,
    business_address: string,
    business_email: string,
    business_name: string,
    business_line: string,
    createdAt: nat,
    updatedAt: nat)

  /** A value of a request body: a JSON string or a JSON boolean. */
  datatype BodyValue = Text(text: string) | Flag(flag: bool)

  /** A request body as the untyped `@Body()` hands it over: any keys at all. */
  type Body = map<string, BodyValue>

  /** The string paths of a stored user. */
  const TextPaths: set<string> := {
    "name", "email", "phone", "gender", "account_type", "role", "password", "secret",
    "business_address", "business_email", "business_name", "business_line"
  }

  /** The boolean paths of a stored user. */
  const FlagPaths: set<string> := { "is_verified", "isTwoFactorEnabled", "isDeleted" }

  /** The role a user is created with (`E_USER_ROLE.user`). */
  const DefaultRole: string := "user"

  function UserId(u: User): Id { u.id }
  function UserEmail(u: User): string { u.email }

  /** The store's invariant: ids and emails are unique indexes, and the next id is fresh. */
  ghost predicate WellFormed(users: seq<User>, nextId: Id) {
    UniqueKeys(users, UserId) && UniqueKeys(users, UserEmail) && KeysBelow(users, UserId, nextId)
  }

  /** Position of the user `findById(id)` returns: a user with that id that is not soft-deleted. */
  function LiveIndex(users: seq<User>, id: Id): Option<nat> {
    FindFirst(users, (u: User) => u.id == id && !u.isDeleted)
  }

  /** `userModel.findById(id)` (also `userService.findOneById`). */
  function FindUserById(users: seq<User>, id: Id): (r: Option<User>)
    ensures r.Some? ==> r.value in users && r.value.id == id && !r.value.isDeleted
    ensures r.None? <==> forall u :: u in users ==> u.id != id || u.isDeleted
  {
    match LiveIndex(users, id)
    case None => None
    case Some(i) => Some(users[i])
  }

  /** `findOneByEmail`: no lookup at all unless the email is non-empty and holds an
      '@'; otherwise the live user with exactly that email, if any. */
  function FindOneByEmail(users: seq<User>, email: string): (r: Option<User>)
    ensures (email == "" || '@' !in email) ==> r.None?
    ensures r.Some? ==> r.value in users && r.value.email == email && !r.value.isDeleted
    ensures email != "" && '@' in email && (exists u :: u in users && u.email == email && !u.isDeleted) ==> r.Some?
  {
    if email != "" && '@' in email then
      match FindFirst(users, (u: User) => u.email == email && !u.isDeleted)
      case None => None
      case Some(i) => Some(users[i])
    else None
  }

  /** `getUserDetails`. */
  function GetUserDetails(u: User): UserDetails {
    UserDetails(u.id, u.name, u.email, u.phone, u.gender, u.account_type, u.role,
                u.business_address, u.business_email, u.business_name, u.business_line,
                u.createdAt, u.updatedAt)
  }

  /** The details reveal nothing of the password or the 2FA secret, and two users
      have the same details exactly when they agree on every listed field. */
  lemma DetailsHideCredentials(u: User, v: User)
    ensures GetUserDetails(u.(password := v.password, secret := v.secret)) == GetUserDetails(u)
    ensures GetUserDetails(u) == GetUserDetails(v) <==>
      u.(password := v.password, secret := v.secret, is_verified := v.is_verified,
         isTwoFactorEnabled := v.isTwoFactorEnabled, isDeleted := v.isDeleted) == v
  {
  }

  /** `enableTwoFA` (on = true) and `disableTwoFA` (on = false): the new collection. */
  function SetTwoFactor(users: seq<User>, id: Id, on: bool): (r: Result<seq<User>>)
    ensures FindUserById(users, id).None? <==> r == Err(Http("User not found", 404))
    ensures r.Ok? ==> |r.value| == |users|
  {
    match LiveIndex(users, id)
    case None => Err(Http("User not found", 404))
    case Some(i) => Ok(users[i := users[i].(isTwoFactorEnabled := on)])
  }

  /** A toggle sets the flag of exactly the user with that id and changes no other
      field and no other user. */
  lemma TwoFactorTouchesOnlyFlag(users: seq<User>, id: Id, on: bool)
    requires UniqueKeys(users, UserId)
    requires SetTwoFactor(users, id, on).Ok?
    ensures forall j :: 0 <= j < |users| ==>
      SetTwoFactor(users, id, on).value[j] ==
        (if users[j].id == id then users[j].(isTwoFactorEnabled := on) else users[j])
  {
    var i := LiveIndex(users, id).value;
    assert forall j :: 0 <= j < |users| && users[j].id == id ==> UserId(users[j]) == UserId(users[i]);
  }

  /** Toggling twice to the same value is toggling once. */
  lemma TwoFactorIdempotent(users: seq<User>, id: Id, on: bool)
    requires SetTwoFactor(users, id, on).Ok?
    ensures SetTwoFactor(SetTwoFactor(users, id, on).value, id, on) == SetTwoFactor(users, id, on)
  {
    var i := LiveIndex(users, id).value;
    var once := SetTwoFactor(users, id, on).value;
    var p := (u: User) => u.id == id && !u.isDeleted;
    assert forall j :: 0 <= j < |users| ==> (p(once[j]) <==> p(users[j]));
    assert LiveIndex(once, id) == Some(i) by {
      assert p(once[i]);
      assert forall j :: 0 <= j < i ==> !p(once[j]);
    }
    assert once[i := once[i].(isTwoFactorEnabled := on)] == once;
  }

  /** Mongoose's cast of a body value to a string path: a boolean becomes
      "true" or "false". */
  function AsText(v: BodyValue): string {
    if v.Text? then v.text else if v.flag then "true" else "false"
  }

  /** Mongoose's cast of a body value to a boolean path: besides the booleans,
      "true", "1" and "yes" are true and "false", "0" and "no" are false; any
      other string is a cast error. */
  function AsFlag(v: BodyValue): (r: Option<bool>)
    ensures v.Flag? ==> r == Some(v.flag)
  {
    if v.Flag? then Some(v.flag)
    else if v.text == "true" || v.text == "1" || v.text == "yes" then Some(true)
    else if v.text == "false" || v.text == "0" || v.text == "no" then Some(false)
    else None
  }

  /** The value the body gives a string path, or the current one. */
  function TextOr(body: Body, path: string, current: string): string {
    if path in body then AsText(body[path]) else current
  }

  /** The value the body gives a boolean path, or the current one. */
  function FlagOr(body: Body, path: string, current: bool): bool {
    if path in body && AsFlag(body[path]).Some? then AsFlag(body[path]).value else current
  }

  /** What path `path` of `u` holds, as a body value; `None` for a key that is
      no path of the model. */
  function PathValue(u: User, path: string): Option<BodyValue> {
    match path
    case "name" => Some(Text(u.name))
    case "email" => Some(Text(u.email))
    case "phone" => Some(Text(u.phone))
    case "gender" => Some(Text(u.gender))
    case "account_type" => Some(Text(u.account_type))
    case "role" => Some(Text(u.role))
    case "password" => Some(Text(u.password))
    case "secret" => Some(Text(u.secret))
    case "business_address" => Some(Text(u.business_address))
    case "business_email" => Some(Text(u.business_email))
    case "business_name" => Some(Text(u.business_name))
    case "business_line" => Some(Text(u.business_line))
    case "is_verified" => Some(Flag(u.is_verified))
    case "isTwoFactorEnabled" => Some(Flag(u.isTwoFactorEnabled))
    case "isDeleted" => Some(Flag(u.isDeleted))
    case _ => None
  }

  /** The user after `$set: body`: every path the body names takes the cast
      value; strict mode drops every other key. */
  function Patched(u: User, body: Body): User {
    u.(name := TextOr(body, "name", u.name),
       email := TextOr(body, "email", u.email),
       phone := TextOr(body, "phone", u.phone),
       gender := TextOr(body, "gender", u.gender),
       account_type := TextOr(body, "account_type", u.account_type),
       role := TextOr(body, "role", u.role),
       password := TextOr(body, "password", u.password),
       secret := TextOr(body, "secret", u.secret),
       business_address := TextOr(body, "business_address", u.business_address),
       business_email := TextOr(body, "business_email", u.business_email),
       business_name := TextOr(body, "business_name", u.business_name),
       business_line := TextOr(body, "business_line", u.business_line),
       is_verified := FlagOr(body, "is_verified", u.is_verified),
       isTwoFactorEnabled := FlagOr(body, "isTwoFactorEnabled", u.isTwoFactorEnabled),
       isDeleted := FlagOr(body, "isDeleted", u.isDeleted))
  }

  /** Whether the store accepts `$set: body` on the user at position `i`: every
      boolean path casts, `email` is required (so not empty) and a unique index
      (so no other user holds it), and `password` is required. */
  predicate PatchAccepted(users: seq<User>, i: nat, body: Body)
    requires i < |users|
  {
    (forall path :: path in body && path in FlagPaths ==> AsFlag(body[path]).Some?) &&
    ("email" in body ==>
       AsText(body["email"]) != "" &&
       forall j :: 0 <= j < |users| && j != i ==> users[j].email != AsText(body["email"])) &&
    ("password" in body ==> AsText(body["password"]) != "")
  }

  /** `updateUserProfile`: `findOneAndUpdate` by `_id` (not filtered on soft
      deletion), `$set` of the whole body with validators. Every failure inside
      the `try`, the 404 thrown for a missing user included, leaves as 'Failed to
      update user profile' with status 500. */
  function UpdateProfile(users: seq<User>, id: Id, body: Body): (r: Result<(seq<User>, User)>)
    ensures r.Err? ==> r.failure == Http("Failed to update user profile", 500)
    ensures (forall u :: u in users ==> u.id != id) ==> r.Err?
    ensures r.Ok? ==> r.value.1 in r.value.0 && r.value.1.id == id && |r.value.0| == |users|
  {
    match FindFirst(users, (u: User) => u.id == id)
    case None => Err(Http("Failed to update user profile", 500))
    case Some(i) =>
      if PatchAccepted(users, i, body) then
        var updated := Patched(users[i], body);
        var after := users[i := updated];
        assert after[i] == updated;
        Ok((after, updated))
      else Err(Http("Failed to update user profile", 500))
  }

  /** `$set` gives each path the body names its cast value, leaves every other
      path as it was, and ignores keys that are no path; the id and the
      timestamps never change. */
  lemma PatchSetsExactlySuppliedPaths(u: User, body: Body)
    requires forall path :: path in body && path in FlagPaths ==> AsFlag(body[path]).Some?
    ensures forall path :: path in TextPaths ==>
      PathValue(Patched(u, body), path) == if path in body then Some(Text(AsText(body[path]))) else PathValue(u, path)
    ensures forall path :: path in FlagPaths ==>
      PathValue(Patched(u, body), path) == if path in body then Some(Flag(AsFlag(body[path]).value)) else PathValue(u, path)
    ensures forall path :: path !in TextPaths && path !in FlagPaths ==> PathValue(Patched(u, body), path).None?
    ensures var v := Patched(u, body); v.id == u.id && v.createdAt == u.createdAt && v.updatedAt == u.updatedAt
    ensures (forall path :: path in body ==> path !in TextPaths && path !in FlagPaths) ==> Patched(u, body) == u
  {
    forall path | path in TextPaths || path in FlagPaths || PathValue(Patched(u, body), path).Some?
      ensures PathValue(Patched(u, body), path) ==
        if path in TextPaths && path in body then Some(Text(AsText(body[path])))
        else if path in FlagPaths && path in body then Some(Flag(AsFlag(body[path]).value))
        else PathValue(u, path)
      ensures PathValue(Patched(u, body), path).Some? ==> path in TextPaths || path in FlagPaths
    {
      PatchedPath(u, body, path);
    }
    if forall path :: path in body ==> path !in TextPaths && path !in FlagPaths {
      PatchIgnoresOtherKeys(u, body);
    }
  }

  /** One path of a patched user. */
  lemma PatchedPath(u: User, body: Body, path: string)
    requires path in body && path in FlagPaths ==> AsFlag(body[path]).Some?
    ensures PathValue(Patched(u, body), path) ==
      if path in TextPaths && path in body then Some(Text(AsText(body[path])))
      else if path in FlagPaths && path in body then Some(Flag(AsFlag(body[path]).value))
      else PathValue(u, path)
    ensures PathValue(Patched(u, body), path).Some? ==> path in TextPaths || path in FlagPaths
  {
    var v := Patched(u, body);
    match path
    case "name" =>
    case "email" =>
    case "phone" =>
    case "gender" =>
    case "account_type" =>
    case "role" =>
    case "password" =>
    case "secret" =>
    case "business_address" =>
    case "business_email" =>
    case "business_name" =>
    case "business_line" =>
    case "is_verified" =>
    case "isTwoFactorEnabled" =>
    case "isDeleted" =>
    case _ =>
  }

  /** A body with no key that is a path changes nothing. */
  lemma PatchIgnoresOtherKeys(u: User, body: Body)
    requires forall path :: path in body ==> path !in TextPaths && path !in FlagPaths
    ensures Patched(u, body) == u
  {
    assert "name" !in body && "email" !in body && "phone" !in body && "gender" !in body;
    assert "account_type" !in body && "role" !in body && "password" !in body && "secret" !in body;
    assert "business_address" !in body && "business_email" !in body;
    assert "business_name" !in body && "business_line" !in body;
    assert "is_verified" !in body && "isTwoFactorEnabled" !in body && "isDeleted" !in body;
  }

  /** A user is determined by its id, its timestamps and the values of its paths. */
  lemma PathsDetermineUser(u: User, v: User)
    requires u.id == v.id && u.createdAt == v.createdAt && u.updatedAt == v.updatedAt
    requires forall path :: path in TextPaths || path in FlagPaths ==> PathValue(u, path) == PathValue(v, path)
    ensures u == v
  {
    assert PathValue(u, "name") == PathValue(v, "name");
    assert PathValue(u, "email") == PathValue(v, "email");
    assert PathValue(u, "phone") == PathValue(v, "phone");
    assert PathValue(u, "gender") == PathValue(v, "gender");
    assert PathValue(u, "account_type") == PathValue(v, "account_type");
    assert PathValue(u, "role") == PathValue(v, "role");
    assert PathValue(u, "password") == PathValue(v, "password");
    assert PathValue(u, "secret") == PathValue(v, "secret");
    assert PathValue(u, "business_address") == PathValue(v, "business_address");
    assert PathValue(u, "business_email") == PathValue(v, "business_email");
    assert PathValue(u, "business_name") == PathValue(v, "business_name");
    assert PathValue(u, "business_line") == PathValue(v, "business_line");
    assert PathValue(u, "is_verified") == PathValue(v, "is_verified");
    assert PathValue(u, "isTwoFactorEnabled") == PathValue(v, "isTwoFactorEnabled");
    assert PathValue(u, "isDeleted") == PathValue(v, "isDeleted");
  }

  /** A successful profile update applies the body to exactly the user with that
      id, returns that updated user, and leaves every other user as it was. */
  lemma ProfileUpdateTouchesOnlyThatUser(users: seq<User>, id: Id, body: Body)
    requires UniqueKeys(users, UserId)
    requires UpdateProfile(users, id, body).Ok?
    ensures var (after, u) := UpdateProfile(users, id, body).value;
      forall j :: 0 <= j < |users| ==>
        if users[j].id == id then after[j] == u && u == Patched(users[j], body)
        else after[j] == users[j]
  {
    var i := FindFirst(users, (u: User) => u.id == id).value;
    assert forall j :: 0 <= j < |users| && users[j].id == id ==> UserId(users[j]) == UserId(users[i]);
  }

  /** The profile update keeps the store's invariant. */
  lemma UpdateProfileKeepsWellFormed(users: seq<User>, nextId: Id, id: Id, body: Body)
    requires WellFormed(users, nextId)
    requires UpdateProfile(users, id, body).Ok?
    ensures WellFormed(UpdateProfile(users, id, body).value.0, nextId)
  {
    var i := FindFirst(users, (u: User) => u.id == id).value;
    var after := UpdateProfile(users, id, body).value.0;
    forall a, b | 0 <= a < b < |after| ensures UserEmail(after[a]) != UserEmail(after[b]) {
      if a != i && b != i {
        assert UserEmail(users[a]) != UserEmail(users[b]);
      }
    }
  }

  /** An update whose body does not touch `isDeleted` leaves every `findById`
      pointing at the same position. */
  lemma UpdateKeepsLiveIndex(users: seq<User>, id: Id, body: Body, caller: Id)
    requires UniqueKeys(users, UserId)
    requires UpdateProfile(users, id, body).Ok?
    requires "isDeleted" !in body
    ensures LiveIndex(UpdateProfile(users, id, body).value.0, caller) == LiveIndex(users, caller)
  {
    var after := UpdateProfile(users, id, body).value.0;
    ProfileUpdateTouchesOnlyThatUser(users, id, body);
    var p := (u: User) => u.id == caller && !u.isDeleted;
    forall j | 0 <= j < |after| ensures p(after[j]) == p(users[j]) {
      if users[j].id == id {
        PatchedPath(users[j], body, "isDeleted");
      }
    }
    FindFirstAgrees(after, users, p);
  }

  /** As written, nothing filters the body: a caller who sends a role gets it. */
  lemma ProfileUpdateSetsAnyRole(users: seq<User>, id: Id, role: string)
    requires exists j :: 0 <= j < |users| && users[j].id == id
    ensures var r := UpdateProfile(users, id, map["role" := Text(role)]);
      r.Ok? && r.value.1.role == role
  {
    var body := map["role" := Text(role)];
    var i := FindFirst(users, (u: User) => u.id == id).value;
    assert PatchAccepted(users, i, body);
  }

  /** The paths a user may change about their own profile. */
  const ProfilePaths: set<string> := {
    "name", "email", "phone", "gender",
    "business_address", "business_email", "business_name", "business_line"
  }

  /** The body cut down to the profile paths. */
  function ProfileOnly(body: Body): (r: Body)
    ensures forall path :: path in r <==> path in body && path in ProfilePaths
    ensures forall path :: path in r ==> r[path] == body[path]
  {
    map path | path in body && path in ProfilePaths :: body[path]
  }

  /** The profile update with the body cut down to the profile paths. */
  function UpdateOwnProfile(users: seq<User>, id: Id, body: Body): (r: Result<(seq<User>, User)>)
    ensures r.Err? ==> r.failure == Http("Failed to update user profile", 500)
    ensures (forall u :: u in users ==> u.id != id) ==> r.Err?
    ensures r.Ok? ==> r.value.1 in r.value.0 && r.value.1.id == id && |r.value.0| == |users|
  {
    UpdateProfile(users, id, ProfileOnly(body))
  }

  /** The corrected update never changes a role, a credential or a flag: whatever
      the body holds, the user keeps role, account type, password, secret, the
      verification and 2FA flags and the soft-delete flag. */
  lemma OwnProfileUpdateKeepsPrivileges(users: seq<User>, id: Id, body: Body)
    requires UniqueKeys(users, UserId)
    requires UpdateOwnProfile(users, id, body).Ok?
    ensures var (after, u) := UpdateOwnProfile(users, id, body).value;
      forall j :: 0 <= j < |users| && users[j].id == id ==>
        after[j] == u &&
        u.role == users[j].role && u.account_type == users[j].account_type &&
        u.password == users[j].password && u.secret == users[j].secret &&
        u.is_verified == users[j].is_verified && u.isTwoFactorEnabled == users[j].isTwoFactorEnabled &&
        u.isDeleted == users[j].isDeleted
  {
    var b := ProfileOnly(body);
    ProfileUpdateTouchesOnlyThatUser(users, id, b);
    forall j | 0 <= j < |users| && users[j].id == id
      ensures PrivilegesOf(Patched(users[j], b)) == PrivilegesOf(users[j])
    {
      ProfileBodyKeepsPrivileges(users[j], body);
    }
  }

  /** Role, account type, credentials and flags of a user. */
  function PrivilegesOf(u: User): (string, string, string, string, bool, bool, bool) {
    (u.role, u.account_type, u.password, u.secret, u.is_verified, u.isTwoFactorEnabled, u.isDeleted)
  }

  /** After the corrected update, `findById` finds a user exactly where it did
      before, and one with the same privileges. */
  lemma OwnProfileUpdateKeepsLookup(users: seq<User>, id: Id, body: Body, caller: Id)
    requires UniqueKeys(users, UserId)
    requires UpdateOwnProfile(users, id, body).Ok?
    ensures var found := FindUserById(UpdateOwnProfile(users, id, body).value.0, caller);
      found.Some? == FindUserById(users, caller).Some? &&
      (found.Some? ==> PrivilegesOf(found.value) == PrivilegesOf(FindUserById(users, caller).value))
  {
    var b := ProfileOnly(body);
    var after := UpdateOwnProfile(users, id, body).value.0;
    ProfileUpdateTouchesOnlyThatUser(users, id, b);
    forall j | 0 <= j < |users|
      ensures after[j].id == users[j].id && PrivilegesOf(after[j]) == PrivilegesOf(users[j])
    {
      if users[j].id == id {
        ProfileBodyKeepsPrivileges(users[j], body);
      }
    }
    SamePrivilegesSameLookup(users, after, caller);
  }

  /** Two collections that agree, position by position, on ids and privileges
      answer every `findById` at the same position with the same privileges. */
  lemma SamePrivilegesSameLookup(users: seq<User>, after: seq<User>, caller: Id)
    requires |after| == |users|
    requires forall j :: 0 <= j < |users| ==> after[j].id == users[j].id && PrivilegesOf(after[j]) == PrivilegesOf(users[j])
    ensures LiveIndex(after, caller) == LiveIndex(users, caller)
    ensures FindUserById(after, caller).Some? == FindUserById(users, caller).Some?
    ensures FindUserById(after, caller).Some? ==>
      PrivilegesOf(FindUserById(after, caller).value) == PrivilegesOf(FindUserById(users, caller).value)
  {
    var p := (u: User) => u.id == caller && !u.isDeleted;
    forall j | 0 <= j < |after| ensures p(after[j]) == p(users[j]) {
      assert PrivilegesOf(after[j]).6 == PrivilegesOf(users[j]).6;
    }
    FindFirstAgrees(after, users, p);
  }

  /** A body cut down to the profile paths leaves the privileges alone. */
  lemma ProfileBodyKeepsPrivileges(u: User, body: Body)
    ensures PrivilegesOf(Patched(u, ProfileOnly(body))) == PrivilegesOf(u)
  {
    var b := ProfileOnly(body);
    assert "role" !in ProfilePaths && "account_type" !in ProfilePaths;
    assert "password" !in ProfilePaths && "secret" !in ProfilePaths;
    assert "is_verified" !in ProfilePaths && "isTwoFactorEnabled" !in ProfilePaths && "isDeleted" !in ProfilePaths;
  }

  /** The validators of `userModel.create({ name, email, password })`: email and
      password are required, and email is a unique index over every stored user,
      soft-deleted ones too. */
  function CreateUser(users: seq<User>, newId: Id, name: string, email: string, password: string): (r: Result<User>)
    ensures r.Ok? <==> email != "" && password != "" && forall u :: u in users ==> u.email != email
    ensures r.Err? ==> r.failure == StoreRejected
    ensures r.Ok? ==> r.value.id == newId && r.value.name == name && r.value.email == email &&
                      r.value.password == password && r.value.role == DefaultRole &&
                      !r.value.isDeleted && !r.value.isTwoFactorEnabled && !r.value.is_verified
  {
    if email != "" && password != "" && forall j :: 0 <= j < |users| ==> users[j].email != email then
      Ok(User(newId, name, email, "", "", "", DefaultRole, password, "", "", "", "", "",
              false, false, false, 0, 0))
    else Err(StoreRejected)
  }

  /** The user collection. */
  class UserDirectory {
    var users: seq<User>
    var nextId: Id

    ghost predicate Valid() reads this {
      WellFormed(users, nextId)
    }

    constructor (initial: seq<User>, firstFreeId: Id)
      requires WellFormed(initial, firstFreeId)
      ensures Valid() && users == initial && nextId == firstFreeId
    {
      users := initial;
      nextId := firstFreeId;
    }

    /** `enableTwoFA` / `disableTwoFA`: load the user, set the flag, save. */
    method SetTwoFactorFlag(id: Id, on: bool) returns (r: Outcome)
      requires Valid()
      modifies this
      ensures Valid() && nextId == old(nextId)
      ensures SetTwoFactor(old(users), id, on).Ok? ==> r == Pass && users == SetTwoFactor(old(users), id, on).value
      ensures SetTwoFactor(old(users), id, on).Err? ==> r == Fail(SetTwoFactor(old(users), id, on).failure) && users == old(users)
    {
      var found := LiveIndex(users, id);
      if found.None? {
        return Fail(Http("User not found", 404));
      }
      var i := found.value;
      var user := users[i].(isTwoFactorEnabled := on);
      users := users[i := user];
      r := Pass;
      assert forall a, b :: 0 <= a < b < |users| ==> UserEmail(users[a]) != UserEmail(users[b]) by {
        forall a, b | 0 <= a < b < |users| ensures UserEmail(users[a]) != UserEmail(users[b]) {
          assert UserEmail(old(users)[a]) != UserEmail(old(users)[b]);
        }
      }
    }

    method EnableTwoFA(id: Id) returns (r: Outcome)
      requires Valid()
      modifies this
      ensures Valid() && nextId == old(nextId)
      ensures SetTwoFactor(old(users), id, true).Ok? ==> r == Pass && users == SetTwoFactor(old(users), id, true).value
      ensures SetTwoFactor(old(users), id, true).Err? ==> r == Fail(Http("User not found", 404)) && users == old(users)
    {
      r := SetTwoFactorFlag(id, true);
    }

    method DisableTwoFA(id: Id) returns (r: Outcome)
      requires Valid()
      modifies this
      ensures Valid() && nextId == old(nextId)
      ensures SetTwoFactor(old(users), id, false).Ok? ==> r == Pass && users == SetTwoFactor(old(users), id, false).value
      ensures SetTwoFactor(old(users), id, false).Err? ==> r == Fail(Http("User not found", 404)) && users == old(users)
    {
      r := SetTwoFactorFlag(id, false);
    }

    /** `updateUserProfile`, with the body cut down to the profile paths. */
    method UpdateUserProfile(id: Id, body: Body) returns (r: Result<User>)
      requires Valid()
      modifies this
      ensures Valid() && nextId == old(nextId)
      ensures UpdateOwnProfile(old(users), id, body).Ok? ==>
        r == Ok(UpdateOwnProfile(old(users), id, body).value.1) && users == UpdateOwnProfile(old(users), id, body).value.0
      ensures UpdateOwnProfile(old(users), id, body).Err? ==>
        r == Err(Http("Failed to update user profile", 500)) && users == old(users)
    {
      var outcome := UpdateOwnProfile(users, id, body);
      if outcome.Err? {
        return Err(outcome.failure);
      }
      UpdateProfileKeepsWellFormed(users, nextId, id, ProfileOnly(body));
      users := outcome.value.0;
      r := Ok(outcome.value.1);
    }

    /** Inserts a new user (the `userModel.create` of account activation). */
    method Create(name: string, email: string, password: string) returns (r: Result<User>)
      requires Valid()
      modifies this
      ensures Valid()
      ensures var c := CreateUser(old(users), old(nextId), name, email, password);
        (c.Ok? ==> r == c && users == old(users) + [c.value] && nextId == old(nextId) + 1) &&
        (c.Err? ==> r == c && users == old(users) && nextId == old(nextId))
    {
      r := CreateUser(users, nextId, name, email, password);
      if r.Ok? {
        users := users + [r.value];
        nextId := nextId + 1;
      }
    }
  }
}
