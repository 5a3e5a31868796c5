/** The NextAuth configuration of `config/auth.ts`: the claims a session
    carries, the credentials check, and the `signIn` and `jwt` callbacks.

    A session's permissions are the permissions of all the user's roles,
    concatenated and then deduplicated, keeping each at its first occurrence.
    bcrypt's `compare` is a parameter. */
module Auth {
  import opened Wrappers
  import opened Seqs
  import opened Store
  import opened Slugs

  // ---------------------------------------------------------------------
  // Roles and permissions of a user

  /** The role rows a user's role links point at, in link order (links to
      deleted roles are dropped, as the relation would). */
  function ResolveRoles(roles: seq<Row<Role>>, ids: seq<nat>): (r: seq<Row<Role>>)
    ensures forall i :: 0 <= i < |r| ==> r[i] in roles && r[i].id in ids
    ensures forall j :: 0 <= j < |ids| && IndexOfId(roles, ids[j]).Some? ==> roles[IndexOfId(roles, ids[j]).value] in r
  {
    if ids == [] then []
    else
      var rest := ResolveRoles(roles, ids[1..]);
      assert forall j :: 1 <= j < |ids| ==> ids[j] == ids[1..][j - 1];
      match IndexOfId(roles, ids[0])
      case None => rest
      case Some(k) => [roles[k]] + rest
  }

  /** `roles.flatMap((role) => role.permissions)`. */
  function FlatPermissions(roles: seq<Row<Role>>): (r: seq<string>)
    ensures forall p :: p in r <==> exists i :: 0 <= i < |roles| && p in roles[i].fields.permissions
  {
    if roles == [] then []
    else
      var rest := FlatPermissions(roles[1..]);
      assert forall i :: 1 <= i < |roles| ==> roles[i] == roles[1..][i - 1];
      roles[0].fields.permissions + rest
  }

  /** `[...new Set(roles.flatMap((role) => role.permissions))]`. */
  function UniquePermissions(roles: seq<Row<Role>>): (r: seq<string>)
    ensures NoDuplicates(r)
    ensures forall p :: p in r <==> exists i :: 0 <= i < |roles| && p in roles[i].fields.permissions
  {
    var flat := FlatPermissions(roles);
    var r := Dedup(flat);
    assert forall p :: p in r <==> p in flat by {
      forall p ensures p in r <==> p in flat {
        if p in r {
          var i :| 0 <= i < |r| && r[i] == p;
        }
        if p in flat {
          var i :| 0 <= i < |flat| && flat[i] == p;
        }
      }
    }
    r
  }

  /** The claim list keeps each permission where it first occurs in the role order. */
  lemma UniquePermissionsOrder(roles: seq<Row<Role>>)
    ensures var flat, r := FlatPermissions(roles), UniquePermissions(roles);
      forall i, j :: 0 <= i < j < |r| ==> IndexOf(flat, r[i]) < IndexOf(flat, r[j])
  {
    DedupFirstOccurrenceOrder(FlatPermissions(roles));
  }

  /** A user with one role gets exactly that role's permissions when they are already distinct. */
  lemma {:induction false} SingleRoleClaims(role: Row<Role>)
    requires NoDuplicates(role.fields.permissions)
    ensures UniquePermissions([role]) == role.fields.permissions
  {
    assert FlatPermissions([role]) == role.fields.permissions by {
      assert [role][1..] == [];
    }
    DedupDistinct(role.fields.permissions);
  }

  /** Deduplicating a duplicate-free list returns it unchanged. */
  lemma {:induction false} DedupDistinct(xs: seq<string>)
    requires NoDuplicates(xs)
    ensures Dedup(xs) == xs
  {
    if xs != [] {
      var init := xs[..|xs| - 1];
      assert NoDuplicates(init) by {
        forall i, j | 0 <= i < j < |init| ensures init[i] != init[j] {
          assert init[i] == xs[i] && init[j] == xs[j];
        }
      }
      DedupDistinct(init);
      assert xs[|xs| - 1] !in init by {
        forall i | 0 <= i < |init| ensures init[i] != xs[|xs| - 1] {
          assert init[i] == xs[i];
        }
      }
      assert xs == init + [xs[|xs| - 1]];
    }
  }

  // ---------------------------------------------------------------------
  // Session users

  /** The user object a session is built from. */
  datatype SessionUser = SessionUser(
    id: nat,
    name: string,
    email: string,
    image: string,
    firstName: string,
    lastName: string,
    phone: string,
    roles: seq<Row<Role>>,
    permissions: seq<string>,
    organizationId: Option<nat>,
    organizationName: Option<string>)

  /** `user.Organization?.name`: the name of the organization the user points at, if it exists. */
  function OrganizationName(orgs: seq<Row<Organization>>, organizationId: Option<nat>): (r: Option<string>)
    ensures r.Some? ==> organizationId.Some? && exists i :: 0 <= i < |orgs| && orgs[i].id == organizationId.value && orgs[i].fields.name == r.value
    ensures organizationId.None? ==> r.None?
  {
    match organizationId
    case None => None
    case Some(id) =>
      match IndexOfId(orgs, id)
      case None => None
      case Some(k) => Some(orgs[k].fields.name)
  }

  /** The session view of a stored user: its roles, their deduplicated permissions and its organization. */
  function SessionOf(u: Row<User>, roles: seq<Row<Role>>, orgs: seq<Row<Organization>>): (s: SessionUser)
    ensures s.id == u.id && s.email == u.fields.email && s.organizationId == u.fields.organizationId
    ensures s.roles == ResolveRoles(roles, u.fields.roleIds)
    ensures s.permissions == UniquePermissions(s.roles)
  {
    var rs := ResolveRoles(roles, u.fields.roleIds);
    SessionUser(u.id, u.fields.name, u.fields.email, u.fields.image, u.fields.firstName, u.fields.lastName,
                u.fields.phone, rs, UniquePermissions(rs), u.fields.organizationId,
                OrganizationName(orgs, u.fields.organizationId))
  }

  /** `getUserWithRoles(userId)`: `null` exactly when no user has the id. */
  function GetUserWithRoles(users: seq<Row<User>>, roles: seq<Row<Role>>, orgs: seq<Row<Organization>>, id: nat): (r: Option<SessionUser>)
    ensures r.None? <==> forall i :: 0 <= i < |users| ==> users[i].id != id
    ensures r.Some? ==> r.value.id == id && NoDuplicates(r.value.permissions)
  {
    match IndexOfId(users, id)
    case None => None
    case Some(k) => Some(SessionOf(users[k], roles, orgs))
  }

  // ---------------------------------------------------------------------
  // The credentials provider

  /** The submitted form; a missing field is `None`. */
  datatype Credentials = Credentials(email: Option<string>, password: Option<string>)

  /** What `authorize` yields: the error object it throws, or the session user. */
  datatype AuthResult = Rejected(error: string, status: nat) | Authorized(user: SessionUser)

  predicate Present(s: Option<string>)
  {
    s.Some? && s.value != ""
  }

  /** The reason the body of `authorize` throws, checked in its order: missing
      input, unknown email, wrong password (or none stored), unverified user. */
  function FailureReason(users: seq<Row<User>>, c: Credentials, compare: (string, string) -> bool): (r: Option<string>)
    ensures r == Some("No Inputs Found") <==> !Present(c.email) || !Present(c.password)
    ensures r == Some("No user found") <==> Present(c.email) && Present(c.password) && !EmailIn(users, c.email.value)
    ensures r.None? ==> Present(c.email) && Present(c.password) && EmailIn(users, c.email.value)
    ensures Present(c.email) && Present(c.password) && EmailIn(users, c.email.value) ==>
      var u := users[UserByEmail(users, c.email.value).value].fields;
      && (r == Some("Password Incorrect") <==> !(Present(u.password) && compare(c.password.value, u.password.value)))
      && (r == Some("User is not verified") <==>
            Present(u.password) && compare(c.password.value, u.password.value) && !u.isVerfied)
  {
    if !Present(c.email) || !Present(c.password) then Some("No Inputs Found")
    else
      match UserByEmail(users, c.email.value)
      case None => Some("No user found")
      case Some(k) =>
        var u := users[k].fields;
        var passwordMatch := Present(u.password) && compare(c.password.value, u.password.value);
        if !passwordMatch then Some("Password Incorrect")
        else if !u.isVerfied then Some("User is not verified")
        else None
  }

  /** Every check of `authorize` passes for the user stored under the email. */
  predicate CanSignIn(users: seq<Row<User>>, c: Credentials, compare: (string, string) -> bool)
    ensures CanSignIn(users, c, compare) ==>
      && c.email.Some?
      && exists k :: 0 <= k < |users| && users[k].fields.email == c.email.value && users[k].fields.isVerfied
  {
    && Present(c.email) && Present(c.password)
    && EmailIn(users, c.email.value)
    && var u := users[UserByEmail(users, c.email.value).value].fields;
       Present(u.password) && compare(c.password.value, u.password.value) && u.isVerfied
  }

  /** `authorize(credentials)`: every failure is rethrown as the same generic 401. */
  function Authorize(users: seq<Row<User>>, roles: seq<Row<Role>>, orgs: seq<Row<Organization>>,
                     c: Credentials, compare: (string, string) -> bool): (r: AuthResult)
    ensures r.Rejected? ==> r == Rejected("Something went wrong", 401)
    ensures r.Authorized? <==> CanSignIn(users, c, compare)
    ensures r.Authorized? ==>
      var u := users[UserByEmail(users, c.email.value).value];
      r.user == SessionOf(u, roles, orgs) && r.user.email == c.email.value
  {
    match FailureReason(users, c, compare)
    case Some(_) => Rejected("Something went wrong", 401)
    case None => Authorized(SessionOf(users[UserByEmail(users, c.email.value).value], roles, orgs))
  }

  /** An account that is not verified yet cannot sign in with its password:
      in particular every account right after registration. */
  lemma UnverifiedRejected(users: seq<Row<User>>, nextId: nat, roles: seq<Row<Role>>, orgs: seq<Row<Organization>>,
                           k: nat, password: string, compare: (string, string) -> bool)
    requires UsersOk(users, nextId) && k < |users| && !users[k].fields.isVerfied
    ensures Authorize(users, roles, orgs, Credentials(Some(users[k].fields.email), Some(password)), compare)
      == Rejected("Something went wrong", 401)
  {
    var email := users[k].fields.email;
    if email != "" && password != "" {
      var j := UserByEmail(users, email).value;
      assert j == k;
    }
  }

  // ---------------------------------------------------------------------
  // The default organization of an OAuth user

  /** The organizations after `getOrCreateDefaultOrganization`, the advanced counter and the organization returned. */
  datatype OrgStep = OrgStep(orgs: seq<Row<Organization>>, nextId: nat, org: Row<Organization>)

  const DefaultSlug := "default-organization"

  /** The organization the user with this email already belongs to, if that organization exists. */
  function ExistingOrganization(users: seq<Row<User>>, orgs: seq<Row<Organization>>, email: string): Option<Row<Organization>>
  {
    match UserByEmail(users, email)
    case None => None
    case Some(k) =>
      match users[k].fields.organizationId
      case None => None
      case Some(id) =>
        match IndexOfId(orgs, id)
        case None => None
        case Some(j) => Some(orgs[j])
  }

  /** `getOrCreateDefaultOrganization(email)`: the user's organization if any;
      otherwise a new "<local part>'s Organization" under the email slug; when
      that slug is taken the create throws and the fallback returns the
      organization with slug "default-organization", creating it if needed. */
  function DefaultOrganization(users: seq<Row<User>>, orgs: seq<Row<Organization>>, nextId: nat, email: string): (r: OrgStep)
    ensures orgs <= r.orgs && |r.orgs| <= |orgs| + 1 && nextId <= r.nextId
    ensures r.org in r.orgs
    ensures ExistingOrganization(users, orgs, email).Some? ==>
      r.orgs == orgs && r.org == ExistingOrganization(users, orgs, email).value
    ensures ExistingOrganization(users, orgs, email).None? && !SlugIn(orgs, EmailSlug(email)) ==>
      r.org == Row(nextId, Organization(LocalPart(email) + "'s Organization", EmailSlug(email), Some("Not Specified"), None, None, None))
    ensures ExistingOrganization(users, orgs, email).None? && SlugIn(orgs, EmailSlug(email)) ==>
      r.org.fields.slug == DefaultSlug
  {
    match ExistingOrganization(users, orgs, email)
    case Some(o) =>
      assert o in orgs;
      OrgStep(orgs, nextId, o)
    case None =>
      var slug := EmailSlug(email);
      if OrganizationBySlug(orgs, slug).None? then
        var o := Row(nextId, Organization(LocalPart(email) + "'s Organization", slug, Some("Not Specified"), None, None, None));
        OrgStep(orgs + [o], nextId + 1, o)
      else
        match OrganizationBySlug(orgs, DefaultSlug)
        case Some(j) => OrgStep(orgs, nextId, orgs[j])
        case None =>
          var o := Row(nextId, Organization("Default Organization", DefaultSlug, None, None, None, None));
          OrgStep(orgs + [o], nextId + 1, o)
  }

  /** The helper keeps the organization table valid: whatever it creates has a free slug. */
  lemma DefaultOrganizationKeepsTable(users: seq<Row<User>>, orgs: seq<Row<Organization>>, nextId: nat, email: string)
    requires OrganizationsOk(orgs, nextId)
    ensures var s := DefaultOrganization(users, orgs, nextId, email); OrganizationsOk(s.orgs, s.nextId)
  {
    var s := DefaultOrganization(users, orgs, nextId, email);
    if |s.orgs| == |orgs| + 1 {
      var o := s.orgs[|orgs|];
      assert s.orgs == orgs + [o];
      assert !SlugIn(orgs, o.fields.slug);
      forall i | 0 <= i < |orgs| ensures s.orgs[i] == orgs[i] && orgs[i].fields.slug != o.fields.slug {
      }
    }
  }

  /** The helper is not idempotent: for a user without an organization a
      second call cannot reuse the first call's slug, so it falls back to the
      shared "default-organization". */
  lemma SecondCallFallsBack(users: seq<Row<User>>, orgs: seq<Row<Organization>>, nextId: nat, email: string)
    requires NeedsOrganization(users, email)
    requires !SlugIn(orgs, EmailSlug(email))
    ensures var first := DefaultOrganization(users, orgs, nextId, email);
      var second := DefaultOrganization(users, first.orgs, first.nextId, email);
      first.org.fields.slug == EmailSlug(email) && second.org.fields.slug == DefaultSlug
  {
    var first := DefaultOrganization(users, orgs, nextId, email);
    assert first.orgs[|orgs|] == first.org;
    assert SlugIn(first.orgs, EmailSlug(email));
  }

  // ---------------------------------------------------------------------
  // The signIn callback

  /** What the callback does: answer `true`, or throw because the user to update does not exist. */
  datatype SignInOutcome = Allowed | Threw

  predicate IsOAuth(provider: Option<string>)
  {
    provider == Some("google") || provider == Some("github")
  }

  /** `!existingUser?.roles?.length`: no user, or a user without any existing role. */
  predicate NeedsRole(users: seq<Row<User>>, roles: seq<Row<Role>>, email: string)
  {
    match UserByEmail(users, email)
    case None => true
    case Some(k) => ResolveRoles(roles, users[k].fields.roleIds) == []
  }

  /** `!existingUser?.organizationId`: no user, or a user without an organization id. */
  predicate NeedsOrganization(users: seq<Row<User>>, email: string)
  {
    match UserByEmail(users, email)
    case None => true
    case Some(k) => users[k].fields.organizationId.None?
  }

  /** The role the callback connects: the first "user" role, when the user needs a role and one exists. */
  function RoleToConnect(users: seq<Row<User>>, roles: seq<Row<Role>>, email: string): (r: Option<nat>)
    ensures r.Some? ==> NeedsRole(users, roles, email)
    ensures r.Some? ==> exists i :: 0 <= i < |roles| && roles[i].id == r.value && roles[i].fields.roleName == "user"
    ensures r.None? ==> !NeedsRole(users, roles, email) || forall i :: 0 <= i < |roles| ==> roles[i].fields.roleName != "user"
  {
    if !NeedsRole(users, roles, email) then None
    else
      match RoleByName(roles, "user")
      case None => None
      case Some(i) => Some(roles[i].id)
  }

  /** The user record with the collected `updateData` applied. */
  function Connected(u: User, roleId: Option<nat>, organizationId: Option<nat>): (r: User)
    ensures roleId.Some? ==> roleId.value in r.roleIds
    ensures forall x :: x in u.roleIds ==> x in r.roleIds
    ensures r.organizationId == if organizationId.Some? then organizationId else u.organizationId
    ensures r.email == u.email && r.phone == u.phone && r.password == u.password
    ensures forall x :: x in r.roleIds <==> x in u.roleIds || (roleId.Some? && x == roleId.value)
    ensures r.(roleIds := u.roleIds, organizationId := u.organizationId) == u
  {
    u.(roleIds := if roleId.Some? then Connect(u.roleIds, roleId.value) else u.roleIds,
       organizationId := if organizationId.Some? then organizationId else u.organizationId)
  }

  /** The `signIn` callback. For a Google or GitHub sign-in it collects a
      connection to the "user" role (when the user has no role and that role
      exists) and to a default organization (when the user has none), and
      writes them in one update if it collected any. The organization is
      looked up or created before the update, so it stays even when the update
      throws for a user that does not exist. Other providers pass untouched. */
  method SignIn(db: Db, email: string, provider: Option<string>) returns (r: SignInOutcome)
    requires db.Valid()
    modifies db`users, db`organizations, db`nextId
    ensures db.Valid()
    ensures !IsOAuth(provider) ==> r == Allowed && unchanged(db)
    ensures IsOAuth(provider) ==>
      var roleId := RoleToConnect(old(db.users), old(db.roles), email);
      var needsOrg := NeedsOrganization(old(db.users), email);
      var step := DefaultOrganization(old(db.users), old(db.organizations), old(db.nextId), email);
      && (needsOrg ==> db.organizations == step.orgs && db.nextId == step.nextId)
      && (!needsOrg ==> db.organizations == old(db.organizations) && db.nextId == old(db.nextId))
      && (r == Threw <==> !EmailIn(old(db.users), email) && (roleId.Some? || needsOrg))
      && ((roleId.None? && !needsOrg) || r == Threw ==> db.users == old(db.users))
      && (EmailIn(old(db.users), email) && (roleId.Some? || needsOrg) ==>
            var u := old(db.users)[UserByEmail(old(db.users), email).value];
            db.users == ReplaceId(old(db.users), u.id, Connected(u.fields, roleId, if needsOrg then Some(step.org.id) else None)))
  {
    if !IsOAuth(provider) {
      return Allowed;
    }
    r := ConnectDefaults(db, email);
  }

  /** The OAuth branch of `signIn`. */
  method ConnectDefaults(db: Db, email: string) returns (r: SignInOutcome)
    requires db.Valid()
    modifies db`users, db`organizations, db`nextId
    ensures db.Valid()
    ensures
      var roleId := RoleToConnect(old(db.users), old(db.roles), email);
      var needsOrg := NeedsOrganization(old(db.users), email);
      var step := DefaultOrganization(old(db.users), old(db.organizations), old(db.nextId), email);
      && (needsOrg ==> db.organizations == step.orgs && db.nextId == step.nextId)
      && (!needsOrg ==> db.organizations == old(db.organizations) && db.nextId == old(db.nextId))
      && (r == Threw <==> !EmailIn(old(db.users), email) && (roleId.Some? || needsOrg))
      && ((roleId.None? && !needsOrg) || r == Threw ==> db.users == old(db.users))
      && (EmailIn(old(db.users), email) && (roleId.Some? || needsOrg) ==>
            var u := old(db.users)[UserByEmail(old(db.users), email).value];
            db.users == ReplaceId(old(db.users), u.id, Connected(u.fields, roleId, if needsOrg then Some(step.org.id) else None)))
  {
    var existing := UserByEmail(db.users, email);
    // the update is collected field by field
    var roleUpdate := RoleToConnect(db.users, db.roles, email);
    var orgUpdate: Option<nat> := None;
    if NeedsOrganization(db.users, email) {
      var step := DefaultOrganization(db.users, db.organizations, db.nextId, email);
      DefaultOrganizationKeepsTable(db.users, db.organizations, db.nextId, email);
      db.organizations, db.nextId := step.orgs, step.nextId;
      orgUpdate := Some(step.org.id);
    }
    if roleUpdate.None? && orgUpdate.None? {
      return Allowed;
    }
    if existing.None? {
      return Threw;
    }
    var u := db.users[existing.value];
    var updated := Connected(u.fields, roleUpdate, orgUpdate);
    ReplaceUserKeepsUsers(db.users, db.nextId, existing.value, updated);
    db.users := ReplaceId(db.users, u.id, updated);
    return Allowed;
  }

  // ---------------------------------------------------------------------
  // The jwt callback

  /** The JWT the session is read from; the callback assigns its fields in place. */
  class Token {
    var id: nat
    var name: string
    var email: string
    var picture: string
    var firstName: string
    var lastName: string
    var phone: string
    var roles: seq<Row<Role>>
    var permissions: seq<string>
    var organizationId: Option<nat>
    var organizationName: Option<string>

    constructor (id: nat)
      ensures this.id == id && roles == [] && permissions == []
      ensures organizationId.None? && organizationName.None?
    {
      this.id := id;
      name, email, picture, firstName, lastName, phone := "", "", "", "", "", "";
      roles, permissions := [], [];
      organizationId, organizationName := None, None;
    }

    /** The claims the token carries, as a session user. */
    function Claims(): (s: SessionUser)
      reads this
      ensures s.id == id && s.roles == roles && s.permissions == permissions
      ensures s.organizationId == organizationId && s.organizationName == organizationName
    {
      SessionUser(id, name, email, picture, firstName, lastName, phone, roles, permissions, organizationId, organizationName)
    }

    /** `jwt({ token, user })`: on sign-in every claim is copied from the user;
        later the roles, permissions and organization are refreshed from the
        store, and left alone when the user is gone. */
    method Jwt(user: Option<SessionUser>, userTable: seq<Row<User>>, roleTable: seq<Row<Role>>, orgs: seq<Row<Organization>>)
      modifies this
      ensures user.Some? ==> Claims() == user.value
      ensures user.None? ==>
        match GetUserWithRoles(userTable, roleTable, orgs, old(id))
        case None => Claims() == old(Claims())
        case Some(d) =>
          Claims() == old(Claims()).(roles := d.roles, permissions := d.permissions,
                                     organizationId := d.organizationId, organizationName := d.organizationName)
    {
      if user.Some? {
        var u := user.value;
        id := u.id;
        name := u.name;
        email := u.email;
        picture := u.image;
        firstName := u.firstName;
        lastName := u.lastName;
        phone := u.phone;
        roles := u.roles;
        permissions := u.permissions;
        organizationId := u.organizationId;
        organizationName := u.organizationName;
      } else {
        var userData := GetUserWithRoles(userTable, roleTable, orgs, id);
        if userData.Some? {
          roles := userData.value.roles;
          permissions := userData.value.permissions;
          organizationId := userData.value.organizationId;
          organizationName := userData.value.organizationName;
        }
      }
    }
  }

  /** After a refresh the token's permissions are exactly the deduplicated
      permissions of the user's current roles. */
  lemma RefreshedClaims(users: seq<Row<User>>, roles: seq<Row<Role>>, orgs: seq<Row<Organization>>, k: nat)
    requires k < |users| && IdsDistinct(users)
    ensures var d := GetUserWithRoles(users, roles, orgs, users[k].id);
      d.Some? && d.value.permissions == UniquePermissions(ResolveRoles(roles, users[k].fields.roleIds))
  {
    var j := IndexOfId(users, users[k].id).value;
    assert j == k;
  }
}
