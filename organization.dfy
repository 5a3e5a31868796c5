/** `createOrganization` of `actions/organization.ts`.

    The slug comes from a slug generator that is not part of this model, so
    it is a parameter. With a user id the organization is created inside a
    transaction that also finds or creates the "admin" role and moves the
    user into the new organization with that role; when the user does not
    exist the update throws, the transaction rolls back and the action
    answers 500. */
module Organizations {
  import opened Wrappers
  import opened Roles
  import opened Store
  import Users

  /** The organization form's fields. */
  datatype OrganizationProps = OrganizationProps(name: string, slug: string, country: string, currency: string, timezone: string)

  const GenericFailure := "Something went wrong, Please try again"

  /** `{ ...data, slug }`: the form's fields with the generated slug in place of the form's own. */
  function NewOrganization(data: OrganizationProps, slug: string): (o: Organization)
    ensures o.slug == slug && o.name == data.name
    ensures o.country == Some(data.country) && o.currency == Some(data.currency) && o.timezone == Some(data.timezone)
    ensures o.industry.None?
  {
    Organization(data.name, slug, Some(data.country), Some(data.currency), Some(data.timezone), None)
  }

  /** The registering user after the transaction: in the new organization, with the admin role connected. */
  function AsAdmin(u: User, organizationId: nat, adminRoleId: nat): (r: User)
    ensures r.organizationId == Some(organizationId)
    ensures adminRoleId in r.roleIds && forall x :: x in u.roleIds ==> x in r.roleIds
    ensures r.email == u.email && r.phone == u.phone && r.password == u.password && r.token == u.token
    ensures forall x :: x in r.roleIds <==> x in u.roleIds || x == adminRoleId
    ensures r.(organizationId := u.organizationId, roleIds := u.roleIds) == u
  {
    u.(organizationId := Some(organizationId), roleIds := Connect(u.roleIds, adminRoleId))
  }

  /** `createOrganization(data, userId)`. */
  method CreateOrganization(db: Db, data: OrganizationProps, slug: string, userId: Option<nat>)
    returns (r: Reply<Row<Organization>>)
    requires db.Valid()
    modifies db`users, db`roles, db`organizations, db`nextId
    ensures db.Valid()
    ensures SlugIn(old(db.organizations), slug) ==>
      r == Reply(409, None, Some("Organization with name " + data.name + " already exists"), None) && unchanged(db)
    ensures !SlugIn(old(db.organizations), slug) && userId.None? ==>
      var row := Row(old(db.nextId), NewOrganization(data, slug));
      && db.organizations == old(db.organizations) + [row]
      && db.users == old(db.users) && db.roles == old(db.roles)
      && db.nextId == old(db.nextId) + 1
      && r == Reply(200, None, None, Some(row))
    ensures (&& !SlugIn(old(db.organizations), slug)
             && userId.Some?
             && IndexOfId(old(db.users), userId.value).None?) ==>
      r == Reply(500, None, Some(GenericFailure), None) && unchanged(db)
    ensures (&& !SlugIn(old(db.organizations), slug)
             && userId.Some?
             && IndexOfId(old(db.users), userId.value).Some?) ==>
      var row := Row(old(db.nextId), NewOrganization(data, slug));
      var step := Users.FindOrCreateRole(old(db.roles), old(db.nextId) + 1, AdminRole);
      var u := old(db.users)[IndexOfId(old(db.users), userId.value).value];
      && db.organizations == old(db.organizations) + [row]
      && db.roles == step.roles
      && db.users == ReplaceId(old(db.users), userId.value, AsAdmin(u.fields, row.id, step.roleId))
      && db.nextId == step.nextId
      && r == Reply(200, None, None, Some(row))
  {
    var existing := OrganizationBySlug(db.organizations, slug);
    if existing.Some? {
      return Reply(409, None, Some("Organization with name " + data.name + " already exists"), None);
    }
    var row := Row(db.nextId, NewOrganization(data, slug));
    if userId.None? {
      Users.AppendOrganizationKeepsTable(db.organizations, db.nextId, row.fields);
      db.organizations, db.nextId := db.organizations + [row], db.nextId + 1;
      return Reply(200, None, None, Some(row));
    }
    r := CreateAsAdmin(db, row, userId.value, AdminRole);
  }

  /** The transaction of `createOrganization` for a registering user: the
      organization, the "admin" role (found or created) and the user's update
      become visible together, and not at all when the user does not exist. */
  method CreateAsAdmin(db: Db, row: Row<Organization>, userId: nat, adminRole: RoleSpec) returns (r: Reply<Row<Organization>>)
    requires db.Valid() && row.id == db.nextId && !SlugIn(db.organizations, row.fields.slug)
    modifies db`users, db`roles, db`organizations, db`nextId
    ensures db.Valid()
    ensures IndexOfId(old(db.users), userId).None? ==>
      r == Reply(500, None, Some(GenericFailure), None) && unchanged(db)
    ensures IndexOfId(old(db.users), userId).Some? ==>
      var step := Users.FindOrCreateRole(old(db.roles), old(db.nextId) + 1, adminRole);
      var u := old(db.users)[IndexOfId(old(db.users), userId).value];
      && db.organizations == old(db.organizations) + [row]
      && db.roles == step.roles
      && db.users == ReplaceId(old(db.users), userId, AsAdmin(u.fields, row.id, step.roleId))
      && db.nextId == step.nextId
      && r == Reply(200, None, None, Some(row))
  {
    var found := IndexOfId(db.users, userId);
    if found.None? {
      return Reply(500, None, Some(GenericFailure), None);
    }
    var step := Users.FindOrCreateRole(db.roles, db.nextId + 1, adminRole);
    var u := db.users[found.value];
    var updated := AsAdmin(u.fields, row.id, step.roleId);
    AdminCommitKeepsTables(db, row, found.value, userId, adminRole);
    db.Commit(ReplaceId(db.users, userId, updated), step.roles, db.organizations + [row], step.nextId);
    return Reply(200, None, None, Some(row));
  }

  /** The tables the transaction commits satisfy the schema's constraints
      under the counter the role step leaves behind. */
  lemma AdminCommitKeepsTables(db: Db, row: Row<Organization>, k: nat, userId: nat, adminRole: RoleSpec)
    requires db.Valid() && row.id == db.nextId && !SlugIn(db.organizations, row.fields.slug)
    requires k < |db.users| && db.users[k].id == userId
    ensures var step := Users.FindOrCreateRole(db.roles, db.nextId + 1, adminRole);
      TablesOk(ReplaceId(db.users, userId, AsAdmin(db.users[k].fields, row.id, step.roleId)), step.roles,
               db.organizations + [row], db.units, db.brands, db.taxRates, db.categories, step.nextId)
  {
    var step := Users.FindOrCreateRole(db.roles, db.nextId + 1, adminRole);
    var updated := AsAdmin(db.users[k].fields, row.id, step.roleId);
    ReplaceUserKeepsUsers(db.users, db.nextId, k, updated);
    RaiseBound(ReplaceId(db.users, userId, updated), db.nextId, step.nextId);
    Users.AppendOrganizationKeepsTable(db.organizations, db.nextId, row.fields);
    RaiseBound(db.organizations + [row], db.nextId + 1, step.nextId);
    RaiseBound(db.roles, db.nextId, db.nextId + 1);
    Users.FindOrCreateRoleKeepsTable(db.roles, db.nextId + 1, adminRole);
    RaiseBound(db.units, db.nextId, step.nextId);
    RaiseBound(db.brands, db.nextId, step.nextId);
    RaiseBound(db.taxRates, db.nextId, step.nextId);
    RaiseBound(db.categories, db.nextId, step.nextId);
  }

  /** When no role is named "admin" yet, the transaction adds exactly the
      admin role, with its fourteen permissions. */
  lemma CreatedAdminRole(roles: seq<Row<Role>>, nextId: nat)
    requires RoleByName(roles, "admin").None?
    ensures var step := Users.FindOrCreateRole(roles, nextId, AdminRole);
      && step.roles == roles + [Row(step.roleId, RoleOf(AdminRole))]
      && |step.roles[|roles|].fields.permissions| == 14
  {
  }
}
