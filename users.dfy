/** The account actions of `actions/users.ts`: registration, e-mail
    verification codes, password change and password reset.

    One `token` field per user holds whichever secret was issued last: the
    six-digit verification code (`createUser`, `resendVerificationCode`) or
    the reset secret (`sendResetLink`). Hashing, code and secret generation
    and e-mail delivery are not part of the model: the hash, the fresh code
    or secret, and the delivery error (if any) are parameters. */
module Users {
  import opened Wrappers
  import opened Roles
  import opened Store
  import opened Slugs

  /** The registration form's fields that `createUser` reads. */
  datatype UserProps = UserProps(
    email: string,
    password: string,
    firstName: string,
    lastName: string,
    name: string,
    phone: string,
    image: string,
    organizationId: Option<nat>,
    country: string)

  /** The `{ message, email }` payload of a resent code. */
  datatype Notice = Notice(message: string, email: string)

  /** `{ ok, data, error }` from `deleteUser`. */
  datatype Deletion = Deletion(ok: bool, data: Option<Row<User>>, error: Option<string>)

  /** What `updateUserById` returns: the 403 reply, or the updated user itself. */
  datatype Verification = Denied(reply: Reply<Row<User>>) | Verified(user: Row<User>)

  const GenericFailure := "Something went wrong, Please try again"

  // ---------------------------------------------------------------------
  // Find-or-create of a role, shared with `createOrganization`

  /** The roles after a find-or-create, the advanced counter and the id found or made. */
  datatype RoleStep = RoleStep(roles: seq<Row<Role>>, nextId: nat, roleId: nat)

  /** `role.findFirst({ where: { roleName } })`, then `role.create` when it found nothing. */
  function FindOrCreateRole(roles: seq<Row<Role>>, nextId: nat, spec: RoleSpec): (r: RoleStep)
    ensures roles <= r.roles && |r.roles| <= |roles| + 1
    ensures nextId <= r.nextId
    ensures exists i :: 0 <= i < |r.roles| && r.roles[i].id == r.roleId && r.roles[i].fields.roleName == spec.roleName
    ensures RoleByName(roles, spec.roleName).Some? ==>
      r == RoleStep(roles, nextId, roles[RoleByName(roles, spec.roleName).value].id)
    ensures RoleByName(roles, spec.roleName).None? ==>
      r.roles == roles + [Row(nextId, RoleOf(spec))] && r.roleId == nextId && r.nextId == nextId + 1
  {
    match RoleByName(roles, spec.roleName)
    case Some(i) => RoleStep(roles, nextId, roles[i].id)
    case None =>
      var roles' := roles + [Row(nextId, RoleOf(spec))];
      assert roles'[|roles|].fields.roleName == spec.roleName;
      RoleStep(roles', nextId + 1, nextId)
  }

  /** The number of roles carrying a role name. */
  function CountNamed(roles: seq<Row<Role>>, roleName: string): nat
  {
    if roles == [] then 0
    else (if roles[0].fields.roleName == roleName then 1 else 0) + CountNamed(roles[1..], roleName)
  }

  lemma {:induction false} CountNamedAppend(roles: seq<Row<Role>>, row: Row<Role>, roleName: string)
    ensures CountNamed(roles + [row], roleName) == CountNamed(roles, roleName) + (if row.fields.roleName == roleName then 1 else 0)
  {
    if roles != [] {
      assert (roles + [row])[1..] == roles[1..] + [row];
      CountNamedAppend(roles[1..], row, roleName);
    } else {
      assert [row][1..] == [];
    }
  }

  lemma {:induction false} CountNamedZero(roles: seq<Row<Role>>, roleName: string)
    requires RoleByName(roles, roleName).None?
    ensures CountNamed(roles, roleName) == 0
  {
    if roles != [] {
      CountNamedZero(roles[1..], roleName);
    }
  }

  /** Find-or-create never duplicates a role: afterwards exactly one role has
      the name if none had it before, otherwise the count is unchanged. */
  lemma FindOrCreateRoleNoDuplicate(roles: seq<Row<Role>>, nextId: nat, spec: RoleSpec)
    ensures var after := FindOrCreateRole(roles, nextId, spec).roles;
      CountNamed(after, spec.roleName) == if CountNamed(roles, spec.roleName) == 0 then 1 else CountNamed(roles, spec.roleName)
  {
    match RoleByName(roles, spec.roleName)
    case Some(i) =>
      if CountNamed(roles, spec.roleName) == 0 {
        CountPositive(roles, spec.roleName, i);
      }
    case None =>
      CountNamedZero(roles, spec.roleName);
      CountNamedAppend(roles, Row(nextId, RoleOf(spec)), spec.roleName);
  }

  lemma {:induction false} CountPositive(roles: seq<Row<Role>>, roleName: string, i: nat)
    requires i < |roles| && roles[i].fields.roleName == roleName
    ensures CountNamed(roles, roleName) > 0
  {
    if i > 0 {
      CountPositive(roles[1..], roleName, i - 1);
    }
  }

  /** A second find-or-create with the same role finds the first one's role
      and changes nothing. */
  lemma FindOrCreateRoleIdempotent(roles: seq<Row<Role>>, nextId: nat, spec: RoleSpec)
    ensures var s := FindOrCreateRole(roles, nextId, spec);
      FindOrCreateRole(s.roles, s.nextId, spec) == RoleStep(s.roles, s.nextId, s.roleId)
  {
    var s := FindOrCreateRole(roles, nextId, spec);
    if RoleByName(roles, spec.roleName).None? {
      assert RoleByName(s.roles, spec.roleName) == Some(|roles|);
    } else {
      assert s.roles == roles;
    }
  }

  /** Find-or-create keeps the role table valid. */
  lemma FindOrCreateRoleKeepsTable(roles: seq<Row<Role>>, nextId: nat, spec: RoleSpec)
    requires TableOk(roles, nextId)
    ensures var s := FindOrCreateRole(roles, nextId, spec); TableOk(s.roles, s.nextId)
  {
    if RoleByName(roles, spec.roleName).None? {
      AppendKeepsTable(roles, nextId, RoleOf(spec));
    }
  }

  // ---------------------------------------------------------------------
  // createUser

  /** The organization `createUser` makes for an account that names none. */
  function PersonalOrganization(data: UserProps): Organization
  {
    Organization(
      data.name + "'s Organization",
      EmailSlug(data.email),
      Some(if data.country == "" then "Not Specified" else data.country),
      None, None,
      Some("Not Specified"))
  }

  /** The account `createUser` writes: hashed password, fresh code, not yet
      verified, connected to one role and one organization. */
  function NewAccount(data: UserProps, hashedPassword: string, otp: string, roleId: nat, organizationId: nat): User
  {
    User(data.email, Some(hashedPassword), data.firstName, data.lastName, data.name,
         data.phone, data.image, Some(otp), false, [roleId], Some(organizationId))
  }

  /** Both uniqueness checks of `createUser` pass. */
  predicate Admitted(users: seq<Row<User>>, data: UserProps)
  {
    !EmailIn(users, data.email) && !PhoneIn(users, data.phone)
  }

  /** Appending a user whose email and phone are new keeps the user table valid. */
  lemma AppendUserKeepsUsers(users: seq<Row<User>>, nextId: nat, u: User)
    requires UsersOk(users, nextId)
    requires !EmailIn(users, u.email) && !PhoneIn(users, u.phone)
    ensures UsersOk(users + [Row(nextId, u)], nextId + 1)
  {
    var s := users + [Row(nextId, u)];
    forall i | 0 <= i < |users| ensures s[i] == users[i] && users[i].fields.email != u.email && users[i].fields.phone != u.phone {
    }
  }

  /** Appending an organization with an unused slug keeps the organization table valid. */
  lemma AppendOrganizationKeepsTable(orgs: seq<Row<Organization>>, nextId: nat, o: Organization)
    requires OrganizationsOk(orgs, nextId) && !SlugIn(orgs, o.slug)
    ensures OrganizationsOk(orgs + [Row(nextId, o)], nextId + 1)
  {
    var s := orgs + [Row(nextId, o)];
    forall i | 0 <= i < |orgs| ensures s[i] == orgs[i] && orgs[i].fields.slug != o.slug {
    }
  }

  /** `createUser(data)`: the email check comes first, then the phone check;
      neither writes anything. */
  method CreateUser(db: Db, data: UserProps, hashedPassword: string, otp: string, mailError: Option<string>)
    returns (r: Reply<Row<User>>)
    requires db.Valid()
    modifies db`users, db`roles, db`organizations, db`nextId
    ensures db.Valid()
    ensures EmailIn(old(db.users), data.email) ==>
      r == Reply(409, None, Some("This email " + data.email + " is already in use"), None) && unchanged(db)
    ensures !EmailIn(old(db.users), data.email) && PhoneIn(old(db.users), data.phone) ==>
      r == Reply(409, None, Some("This Phone number " + data.phone + " is already in use"), None) && unchanged(db)
    ensures r.status == 409 <==> !Admitted(old(db.users), data)
    ensures Admitted(old(db.users), data) ==> Registered(db, data, hashedPassword, otp, mailError, r)
  {
    var byEmail := UserByEmail(db.users, data.email);
    var byPhone := UserByPhone(db.users, data.phone);
    if byEmail.Some? {
      return Reply(409, None, Some("This email " + data.email + " is already in use"), None);
    }
    if byPhone.Some? {
      return Reply(409, None, Some("This Phone number " + data.phone + " is already in use"), None);
    }
    r := Register(db, data, hashedPassword, otp, mailError);
  }

  /** The outcome of the transaction of `createUser`, once both uniqueness
      checks passed. A normal return commits what was written so far; a thrown
      error (the derived organization slug already taken) rolls everything
      back and answers 500.
      - The "user" role is found or created first, and that write is kept even on a 404.
      - An organization id that names no organization: 404 and no account.
      - Otherwise the account is written, whether or not the e-mail goes out. */
  twostate predicate Registered(db: Db, data: UserProps, hashedPassword: string, otp: string, mailError: Option<string>, new r: Reply<Row<User>>)
    reads db
  {
    var step := FindOrCreateRole(old(db.roles), old(db.nextId), DefaultUserRole);
    var missingOrg := data.organizationId.Some? && IndexOfId(old(db.organizations), data.organizationId.value).None?;
    var slugTaken := data.organizationId.None? && SlugIn(old(db.organizations), EmailSlug(data.email));
    var orgId := if data.organizationId.Some? then data.organizationId.value else step.nextId;
    var userId := if data.organizationId.Some? then step.nextId else step.nextId + 1;
    if missingOrg then
      && r == Reply(404, None, Some("Organization not found"), None)
      && db.users == old(db.users) && db.organizations == old(db.organizations)
      && db.roles == step.roles && db.nextId == step.nextId
    else if slugTaken then
      && r == Reply(500, None, Some(GenericFailure), None)
      && db.users == old(db.users) && db.organizations == old(db.organizations)
      && db.roles == old(db.roles) && db.nextId == old(db.nextId)
    else
      && db.roles == step.roles
      && db.organizations == (if data.organizationId.Some? then old(db.organizations)
                              else old(db.organizations) + [Row(step.nextId, PersonalOrganization(data))])
      && |db.users| == |old(db.users)| + 1
      && db.users[..|old(db.users)|] == old(db.users)
      && db.users[|old(db.users)|] == Row(userId, NewAccount(data, hashedPassword, otp, step.roleId, orgId))
      && db.nextId == userId + 1
      && r == (if mailError.None? then Reply(200, None, None, Some(db.users[|old(db.users)|]))
               else Reply(500, None, mailError, None))
  }

  /** The transaction of `createUser`: it works on its own copy of the tables until it commits. */
  method Register(db: Db, data: UserProps, hashedPassword: string, otp: string, mailError: Option<string>)
    returns (r: Reply<Row<User>>)
    requires db.Valid() && Admitted(db.users, data)
    modifies db`users, db`roles, db`organizations, db`nextId
    ensures db.Valid()
    ensures Registered(db, data, hashedPassword, otp, mailError, r)
  {
    var step := FindOrCreateRole(db.roles, db.nextId, DefaultUserRole);
    FindOrCreateRoleKeepsTable(db.roles, db.nextId, DefaultUserRole);
    var roles, nextId := step.roles, step.nextId;
    var organizations := db.organizations;
    var orgId: nat;
    if data.organizationId.Some? {
      if IndexOfId(organizations, data.organizationId.value).None? {
        db.roles, db.nextId := roles, nextId;
        return Reply(404, None, Some("Organization not found"), None);
      }
      orgId := data.organizationId.value;
    } else {
      var org := PersonalOrganization(data);
      if OrganizationBySlug(organizations, org.slug).Some? {
        return Reply(500, None, Some(GenericFailure), None);
      }
      AppendOrganizationKeepsTable(organizations, nextId, org);
      orgId := nextId;
      organizations := organizations + [Row(nextId, org)];
      nextId := nextId + 1;
    }
    var account := NewAccount(data, hashedPassword, otp, step.roleId, orgId);
    AppendUserKeepsUsers(db.users, nextId, account);
    var row := Row(nextId, account);
    db.Commit(db.users + [row], roles, organizations, nextId + 1);
    if mailError.Some? {
      return Reply(500, None, mailError, None);
    }
    return Reply(200, None, None, Some(row));
  }

  // ---------------------------------------------------------------------
  // Codes, password change and reset

  /** The user with a changed secret. */
  function WithToken(u: User, token: Option<string>): (r: User)
    ensures r.token == token && r.password == u.password && r.isVerfied == u.isVerfied
    ensures r.email == u.email && r.phone == u.phone
    ensures r.(token := u.token) == u
  {
    u.(token := token)
  }

  /** `resendVerificationCode(email)`: a new code for an unverified user. The
      code is stored before the e-mail is attempted, so a delivery failure
      still replaces it. */
  method ResendVerificationCode(db: Db, email: string, otp: string, mailError: Option<string>)
    returns (r: Reply<Notice>)
    requires db.Valid()
    modifies db`users
    ensures db.Valid()
    ensures !EmailIn(old(db.users), email) ==>
      r == Reply(404, None, Some("User not found with this email address"), None) && db.users == old(db.users)
    ensures EmailIn(old(db.users), email) ==>
      var k := UserByEmail(old(db.users), email).value;
      var u := old(db.users)[k];
      && (u.fields.isVerfied ==>
            r == Reply(400, None, Some("User is already verified"), None) && db.users == old(db.users))
      && (!u.fields.isVerfied ==>
            && db.users == ReplaceId(old(db.users), u.id, WithToken(u.fields, Some(otp)))
            && r == (if mailError.None? then Reply(200, None, None, Some(Notice("Verification code resent successfully", email)))
                     else Reply(500, None, Some("Failed to send verification email"), None)))
  {
    var found := UserByEmail(db.users, email);
    if found.None? {
      return Reply(404, None, Some("User not found with this email address"), None);
    }
    var u := db.users[found.value];
    if u.fields.isVerfied {
      return Reply(400, None, Some("User is already verified"), None);
    }
    ReplaceUserKeepsUsers(db.users, db.nextId, found.value, WithToken(u.fields, Some(otp)));
    db.users := ReplaceId(db.users, u.id, WithToken(u.fields, Some(otp)));
    if mailError.Some? {
      return Reply(500, None, Some("Failed to send verification email"), None);
    }
    return Reply(200, None, None, Some(Notice("Verification code resent successfully", email)));
  }

  /** `sendResetLink(email)`: stores a reset secret in `token`, replacing any
      pending verification code. A delivery failure answers 404 with the
      mailer's message, after the secret is stored. */
  method SendResetLink(db: Db, email: string, secret: string, mailError: Option<string>)
    returns (r: Reply<()>)
    requires db.Valid()
    modifies db`users
    ensures db.Valid()
    ensures !EmailIn(old(db.users), email) ==>
      r == Reply(404, None, Some("We cannot associate this email with any user"), None) && db.users == old(db.users)
    ensures EmailIn(old(db.users), email) ==>
      var u := old(db.users)[UserByEmail(old(db.users), email).value];
      && db.users == ReplaceId(old(db.users), u.id, WithToken(u.fields, Some(secret)))
      && r == (if mailError.None? then Reply(200, None, None, None) else Reply(404, None, mailError, None))
  {
    var found := UserByEmail(db.users, email);
    if found.None? {
      return Reply(404, None, Some("We cannot associate this email with any user"), None);
    }
    var u := db.users[found.value];
    ReplaceUserKeepsUsers(db.users, db.nextId, found.value, WithToken(u.fields, Some(secret)));
    db.users := ReplaceId(db.users, u.id, WithToken(u.fields, Some(secret)));
    if mailError.Some? {
      return Reply(404, None, mailError, None);
    }
    return Reply(200, None, None, None);
  }

  /** The old password is accepted only when the user exists, has a non-empty
      stored hash, and `compare` matches it against that hash. */
  predicate OldPasswordMatches(users: seq<Row<User>>, id: nat, oldPassword: string, compare: (string, string) -> bool)
    ensures OldPasswordMatches(users, id, oldPassword, compare) ==>
      exists k :: 0 <= k < |users| && users[k].id == id && users[k].fields.password.Some?
                  && users[k].fields.password.value != "" && compare(oldPassword, users[k].fields.password.value)
  {
    match IndexOfId(users, id)
    case None => false
    case Some(k) =>
      users[k].fields.password.Some? && users[k].fields.password.value != ""
      && compare(oldPassword, users[k].fields.password.value)
  }

  /** `updateUserPassword(id, { oldPassword, newPassword })`. */
  method UpdateUserPassword(db: Db, id: nat, oldPassword: string, newHash: string, compare: (string, string) -> bool)
    returns (r: Reply<()>)
    requires db.Valid()
    modifies db`users
    ensures db.Valid()
    ensures !OldPasswordMatches(old(db.users), id, oldPassword, compare) ==>
      r == Reply(403, None, Some("Old Password Incorrect"), None) && db.users == old(db.users)
    ensures OldPasswordMatches(old(db.users), id, oldPassword, compare) ==>
      var u := old(db.users)[IndexOfId(old(db.users), id).value];
      r == Reply(200, None, None, None)
      && db.users == ReplaceId(old(db.users), id, u.fields.(password := Some(newHash)))
  {
    var found := IndexOfId(db.users, id);
    var passwordMatch := false;
    if found.Some? && db.users[found.value].fields.password.Some? && db.users[found.value].fields.password.value != "" {
      passwordMatch := compare(oldPassword, db.users[found.value].fields.password.value);
    }
    if !passwordMatch {
      return Reply(403, None, Some("Old Password Incorrect"), None);
    }
    var u := db.users[found.value];
    ReplaceUserKeepsUsers(db.users, db.nextId, found.value, u.fields.(password := Some(newHash)));
    db.users := ReplaceId(db.users, id, u.fields.(password := Some(newHash)));
    return Reply(200, None, None, None);
  }

  /** `user.findUnique({ where: { email, token } })`: the user with that email
      whose stored secret is exactly `token`. */
  function ResetMatch(users: seq<Row<User>>, email: string, token: string): (r: Option<nat>)
    ensures r.Some? ==> r.value < |users| && users[r.value].fields.email == email && users[r.value].fields.token == Some(token)
    ensures r.None? <==> forall i :: 0 <= i < |users| ==> !(users[i].fields.email == email && users[i].fields.token == Some(token))
  {
    if users == [] then None
    else if users[0].fields.email == email && users[0].fields.token == Some(token) then Some(0)
    else
      match ResetMatch(users[1..], email, token)
      case None =>
        assert forall i :: 1 <= i < |users| ==> users[i] == users[1..][i - 1];
        None
      case Some(k) => Some(k + 1)
  }

  /** The user after a reset: new hash, secret cleared. */
  function AfterReset(u: User, newHash: string): (r: User)
    ensures r.password == Some(newHash) && r.token.None?
    ensures r.email == u.email && r.phone == u.phone && r.isVerfied == u.isVerfied
    ensures r.(password := u.password, token := u.token) == u
  {
    u.(password := Some(newHash), token := None)
  }

  /** `resetUserPassword(email, token, newPassword)`. */
  method ResetUserPassword(db: Db, email: string, token: string, newHash: string)
    returns (r: Reply<()>)
    requires db.Valid()
    modifies db`users
    ensures db.Valid()
    ensures ResetMatch(old(db.users), email, token).None? ==>
      r == Reply(404, None, Some("Please use a valid reset link"), None) && db.users == old(db.users)
    ensures ResetMatch(old(db.users), email, token).Some? ==>
      var u := old(db.users)[ResetMatch(old(db.users), email, token).value];
      r == Reply(200, None, None, None)
      && db.users == ReplaceId(old(db.users), u.id, AfterReset(u.fields, newHash))
  {
    var found := ResetMatch(db.users, email, token);
    if found.None? {
      return Reply(404, None, Some("Please use a valid reset link"), None);
    }
    var u := db.users[found.value];
    ReplaceUserKeepsUsers(db.users, db.nextId, found.value, AfterReset(u.fields, newHash));
    db.users := ReplaceId(db.users, u.id, AfterReset(u.fields, newHash));
    return Reply(200, None, None, None);
  }

  /** A reset secret works once: after a successful reset no user matches the
      same email and secret any more. */
  lemma ResetLinkSingleUse(users: seq<Row<User>>, nextId: nat, email: string, token: string, newHash: string)
    requires UsersOk(users, nextId) && ResetMatch(users, email, token).Some?
    ensures var u := users[ResetMatch(users, email, token).value];
      ResetMatch(ReplaceId(users, u.id, AfterReset(u.fields, newHash)), email, token).None?
  {
    var k := ResetMatch(users, email, token).value;
    var after := ReplaceId(users, users[k].id, AfterReset(users[k].fields, newHash));
    forall i | 0 <= i < |users| ensures !(after[i].fields.email == email && after[i].fields.token == Some(token)) {
      if i != k {
        assert users[i].fields.email != users[k].fields.email;
      }
    }
  }

  /** Issuing a reset secret invalidates a pending verification code: the
      code no longer matches the stored token. */
  lemma ResetSecretReplacesCode(users: seq<Row<User>>, nextId: nat, k: nat, secret: string, otp: string)
    requires UsersOk(users, nextId) && k < |users| && secret != otp
    ensures !CodeMatches(ReplaceId(users, users[k].id, WithToken(users[k].fields, Some(secret))), users[k].id, otp)
  {
    var after := ReplaceId(users, users[k].id, WithToken(users[k].fields, Some(secret)));
    assert after[k].fields.token == Some(secret);
    assert IndexOfId(after, users[k].id) == Some(k) by {
      var j := IndexOfId(after, users[k].id);
      assert j.Some? ==> after[j.value].id == users[k].id;
    }
  }

  // ---------------------------------------------------------------------
  // Verification

  /** `user?.token !== otp` fails: the user exists and its stored secret is exactly `otp`. */
  predicate CodeMatches(users: seq<Row<User>>, id: nat, otp: string)
    ensures CodeMatches(users, id, otp) ==>
      exists k :: 0 <= k < |users| && users[k].id == id && users[k].fields.token == Some(otp)
  {
    match IndexOfId(users, id)
    case None => false
    case Some(k) => users[k].fields.token == Some(otp)
  }

  /** `updateUserById(userId, otp)`: marks the user verified when the code
      matches. The stored code is left in place. */
  method UpdateUserById(db: Db, id: nat, otp: string) returns (r: Verification)
    requires db.Valid()
    modifies db`users
    ensures db.Valid()
    ensures !CodeMatches(old(db.users), id, otp) ==>
      r == Denied(Reply(403, None, Some("Invalid Token"), None)) && db.users == old(db.users)
    ensures CodeMatches(old(db.users), id, otp) ==>
      var u := old(db.users)[IndexOfId(old(db.users), id).value];
      && db.users == ReplaceId(old(db.users), id, u.fields.(isVerfied := true))
      && r == Verified(Row(id, u.fields.(isVerfied := true)))
  {
    var found := IndexOfId(db.users, id);
    if found.None? || db.users[found.value].fields.token != Some(otp) {
      return Denied(Reply(403, None, Some("Invalid Token"), None));
    }
    var u := db.users[found.value];
    var updated := u.fields.(isVerfied := true);
    ReplaceUserKeepsUsers(db.users, db.nextId, found.value, updated);
    db.users := ReplaceId(db.users, id, updated);
    return Verified(Row(id, updated));
  }

  /** Verification does not consume the code: the same code still matches afterwards. */
  lemma VerificationKeepsCode(users: seq<Row<User>>, nextId: nat, id: nat, otp: string)
    requires UsersOk(users, nextId) && CodeMatches(users, id, otp)
    ensures var u := users[IndexOfId(users, id).value];
      CodeMatches(ReplaceId(users, id, u.fields.(isVerfied := true)), id, otp)
  {
    var k := IndexOfId(users, id).value;
    var after := ReplaceId(users, id, users[k].fields.(isVerfied := true));
    assert IndexOfId(after, id) == Some(k) by {
      var j := IndexOfId(after, id);
      assert j.Some? ==> after[j.value].id == id;
    }
  }

  // ---------------------------------------------------------------------
  // Lookups and deletion

  /** `getUserById(id)`. */
  function GetUserById(users: seq<Row<User>>, id: nat): (r: Option<Row<User>>)
    ensures r.Some? ==> r.value in users && r.value.id == id
    ensures r.None? <==> forall i :: 0 <= i < |users| ==> users[i].id != id
  {
    match IndexOfId(users, id)
    case None => None
    case Some(k) => Some(users[k])
  }

  /** `getUsersByOrganization(organizationId)`: the organization's users, newest first. */
  function UsersByOrganization(users: seq<Row<User>>, organizationId: nat): (r: seq<Row<User>>)
    ensures forall i :: 0 <= i < |r| ==> r[i] in users && r[i].fields.organizationId == Some(organizationId)
    ensures forall i :: 0 <= i < |users| && users[i].fields.organizationId == Some(organizationId) ==> users[i] in r
  {
    if users == [] then []
    else
      var last := users[|users| - 1];
      var older := UsersByOrganization(users[..|users| - 1], organizationId);
      assert forall i :: 0 <= i < |users| - 1 ==> users[i] == users[..|users| - 1][i];
      (if last.fields.organizationId == Some(organizationId) then [last] else []) + older
  }

  /** A newly registered member of the organization is listed first. */
  lemma NewestMemberFirst(users: seq<Row<User>>, u: Row<User>, organizationId: nat)
    requires u.fields.organizationId == Some(organizationId)
    ensures UsersByOrganization(users + [u], organizationId) == [u] + UsersByOrganization(users, organizationId)
  {
    assert (users + [u])[..|users|] == users;
  }

  /** Cutting one row out keeps the user table valid. */
  lemma CutKeepsUsers(users: seq<Row<User>>, nextId: nat, k: nat)
    requires UsersOk(users, nextId) && k < |users|
    ensures UsersOk(users[..k] + users[k + 1..], nextId)
  {
    var rest := users[..k] + users[k + 1..];
    forall i | 0 <= i < |rest| ensures rest[i] == users[if i < k then i else i + 1] {
    }
  }

  /** `deleteUser(id)`. */
  method DeleteUser(db: Db, id: nat) returns (r: Deletion)
    requires db.Valid()
    modifies db`users
    ensures db.Valid()
    ensures IndexOfId(old(db.users), id).None? ==>
      r == Deletion(false, None, Some("Failed to delete user")) && db.users == old(db.users)
    ensures IndexOfId(old(db.users), id).Some? ==>
      var k := IndexOfId(old(db.users), id).value;
      && r == Deletion(true, Some(old(db.users)[k]), None)
      && db.users == old(db.users)[..k] + old(db.users)[k + 1..]
  {
    var found := IndexOfId(db.users, id);
    if found.None? {
      return Deletion(false, None, Some("Failed to delete user"));
    }
    var k := found.value;
    var deleted := db.users[k];
    var rest := db.users[..k] + db.users[k + 1..];
    CutKeepsUsers(db.users, db.nextId, k);
    db.users := rest;
    return Deletion(true, Some(deleted), None);
  }
}
