/** The two role records the actions seed the store with when they are missing. */
module Roles {

  /** The fields of a role that an action writes when it creates one. */
  datatype RoleSpec = RoleSpec(displayName: string, roleName: string, description: string, permissions: seq<string>)

  /** `DEFAULT_USER_ROLE`, connected to every account `createUser` makes. */
  const DefaultUserRole: RoleSpec := RoleSpec(
    "User", "user", "Default user role with basic permissions",
    ["dashboard.read", "profile.read", "profile.update", "orders.read"])

  /** The "admin" role `createOrganization` creates for the registering user. */
  const AdminRole: RoleSpec := RoleSpec(
    "Admin", "admin", "Administrator with full permissions",
    ["dashboard.read", "profile.read", "profile.update",
     "users.read", "users.create", "users.update", "users.delete",
     "organizations.read", "organizations.update", "organizations.delete",
     "orders.read", "orders.create", "orders.update", "orders.delete"])
}
