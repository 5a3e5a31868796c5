/** The database the server actions talk to, as in-memory tables.

    Every table is a sequence of rows in insertion order; a row is a record
    with the id the database gave it. Ids come from one counter, so a new
    row's id is never in use. The uniqueness constraints of the schema
    (user email and phone, organization slug) are part of `Db.Valid`. */
module Store {
  import opened Wrappers
  import opened Roles
  import Seqs

  /** A stored record and its id. */
  datatype Row<T> = Row(id: nat, fields: T)

  datatype User = User(
    email: string,
    password: Option<string>,
    firstName: string,
    lastName: string,
    name: string,
    phone: string,
    image: string,
    token: Option<string>,
    isVerfied: bool,
    roleIds: seq<nat>,
    organizationId: Option<nat>)

  datatype Role = Role(displayName: string, roleName: string, description: string, permissions: seq<string>)

  datatype Organization = Organization(
    name: string,
    slug: string,
    country: Option<string>,
    currency: Option<string>,
    timezone: Option<string>,
    industry: Option<string>)

  datatype Unit = Unit(title: string, symbol: string, organizationId: nat)

  datatype Brand = Brand(name: string, slug: string, organizationId: Option<nat>)

  datatype TaxRate = TaxRate(name: string, rate: real, organizationId: nat)

  datatype Category = Category(
    title: string,
    slug: string,
    description: Option<string>,
    organizationId: Option<nat>,
    imageUrl: Option<string>)

  /** The `{status, message, error, data}` objects the actions return. */
  datatype Reply<T> = Reply(status: nat, message: Option<string>, error: Option<string>, data: Option<T>)

  /** The role record written from one of the seed role descriptions. */
  function RoleOf(spec: RoleSpec): (r: Role)
    ensures r.roleName == spec.roleName && r.permissions == spec.permissions
    ensures r.displayName == spec.displayName && r.description == spec.description
  {
    Role(spec.displayName, spec.roleName, spec.description, spec.permissions)
  }

  // ---------------------------------------------------------------------
  // Tables of rows

  predicate IdsDistinct<T>(s: seq<Row<T>>)
  {
    forall i, j :: 0 <= i < j < |s| ==> s[i].id != s[j].id
  }

  predicate IdsBelow<T>(s: seq<Row<T>>, bound: nat)
  {
    forall i :: 0 <= i < |s| ==> s[i].id < bound
  }

  /** The table invariant: distinct ids, all issued before `nextId`. */
  predicate TableOk<T>(s: seq<Row<T>>, nextId: nat)
  {
    IdsDistinct(s) && IdsBelow(s, nextId)
  }

  /** `findUnique({ where: { id } })`: the position of the row with that id. */
  function IndexOfId<T>(s: seq<Row<T>>, id: nat): (r: Option<nat>)
    ensures r.Some? ==> r.value < |s| && s[r.value].id == id
    ensures r.None? <==> forall i :: 0 <= i < |s| ==> s[i].id != id
  {
    if s == [] then None
    else if s[0].id == id then Some(0)
    else
      match IndexOfId(s[1..], id)
      case None => None
      case Some(k) => Some(k + 1)
  }

  /** `delete({ where: { id } })` on the rows: every row with that id goes, the rest stay in order. */
  function RemoveId<T>(s: seq<Row<T>>, id: nat): (r: seq<Row<T>>)
    ensures |r| <= |s|
    ensures forall i :: 0 <= i < |r| ==> r[i].id != id && r[i] in s
    ensures forall i :: 0 <= i < |s| && s[i].id != id ==> s[i] in r
  {
    if s == [] then []
    else (if s[0].id == id then [] else [s[0]]) + RemoveId(s[1..], id)
  }

  /** `update({ where: { id }, data })` on the rows: the row with that id gets the new fields. */
  function ReplaceId<T>(s: seq<Row<T>>, id: nat, fields: T): (r: seq<Row<T>>)
    ensures |r| == |s|
    ensures forall i :: 0 <= i < |s| ==> r[i] == (if s[i].id == id then Row(id, fields) else s[i])
  {
    seq(|s|, i requires 0 <= i < |s| => if s[i].id == id then Row(id, fields) else s[i])
  }

  /** Removing an id that is absent changes nothing. */
  lemma {:induction false} RemoveAbsentId<T>(s: seq<Row<T>>, id: nat)
    requires IndexOfId(s, id).None?
    ensures RemoveId(s, id) == s
  {
    if s != [] {
      assert IndexOfId(s[1..], id).None?;
      RemoveAbsentId(s[1..], id);
    }
  }

  /** Distinct ids stay distinct in the tail. */
  lemma DistinctTail<T>(s: seq<Row<T>>)
    requires IdsDistinct(s) && s != []
    ensures IdsDistinct(s[1..])
  {
    forall i, j | 0 <= i < j < |s[1..]| ensures s[1..][i].id != s[1..][j].id {
      assert s[1..][i] == s[i + 1] && s[1..][j] == s[j + 1];
    }
  }

  /** Cutting row `k` out of `s` is keeping the head and cutting row `k - 1` out of the tail. */
  lemma CutInTail<T>(s: seq<Row<T>>, k: nat)
    requires 0 < k < |s|
    ensures [s[0]] + (s[1..][..k - 1] + s[1..][k..]) == s[..k] + s[k + 1..]
  {
    assert s[1..][..k - 1] == s[1..k];
    assert s[1..][k..] == s[k + 1..];
    assert s[..k] == [s[0]] + s[1..k];
  }

  /** With distinct ids, deleting a present id removes exactly that row: the
      result is the table with the row cut out. */
  lemma {:induction false} RemovePresentId<T>(s: seq<Row<T>>, id: nat)
    requires IdsDistinct(s) && IndexOfId(s, id).Some?
    ensures var k := IndexOfId(s, id).value; RemoveId(s, id) == s[..k] + s[k + 1..]
    ensures |RemoveId(s, id)| == |s| - 1
  {
    var k := IndexOfId(s, id).value;
    if k == 0 {
      assert IndexOfId(s[1..], id).None? by {
        forall i | 0 <= i < |s[1..]| ensures s[1..][i].id != id {
          assert s[1..][i] == s[i + 1];
        }
      }
      RemoveAbsentId(s[1..], id);
    } else {
      var t := s[1..];
      DistinctTail(s);
      assert IndexOfId(t, id) == Some(k - 1);
      RemovePresentId(t, id);
      assert RemoveId(s, id) == [s[0]] + RemoveId(t, id);
      CutInTail(s, k);
    }
  }

  /** Deleting keeps the table invariant. */
  lemma {:induction false} RemoveKeepsTable<T>(s: seq<Row<T>>, id: nat, nextId: nat)
    requires TableOk(s, nextId)
    ensures TableOk(RemoveId(s, id), nextId)
  {
    if s != [] {
      assert TableOk(s[1..], nextId) by {
        forall i, j | 0 <= i < j < |s[1..]| ensures s[1..][i].id != s[1..][j].id {
          assert s[1..][i] == s[i + 1] && s[1..][j] == s[j + 1];
        }
      }
      RemoveKeepsTable(s[1..], id, nextId);
      var tail := RemoveId(s[1..], id);
      if s[0].id != id {
        forall x | x in tail ensures x.id != s[0].id {
          var j :| 1 <= j < |s| && s[j] == x;
        }
        assert RemoveId(s, id) == [s[0]] + tail;
      }
    }
  }

  /** Updating fields keeps ids, so it keeps the table invariant. */
  lemma ReplaceKeepsTable<T>(s: seq<Row<T>>, id: nat, fields: T, nextId: nat)
    requires TableOk(s, nextId)
    ensures TableOk(ReplaceId(s, id, fields), nextId)
  {
  }

  /** Appending a row with a fresh id keeps the table invariant for the advanced counter. */
  lemma AppendKeepsTable<T>(s: seq<Row<T>>, nextId: nat, fields: T)
    requires TableOk(s, nextId)
    ensures TableOk(s + [Row(nextId, fields)], nextId + 1)
  {
  }

  /** A table stays valid when the counter moves on. */
  lemma RaiseBound<T>(s: seq<Row<T>>, nextId: nat, later: nat)
    requires TableOk(s, nextId) && nextId <= later
    ensures TableOk(s, later)
  {
  }

  /** With distinct ids, an update by the id of row `k` changes row `k` and no other. */
  lemma ReplaceOnlyThatRow<T>(s: seq<Row<T>>, k: nat, fields: T)
    requires IdsDistinct(s) && k < |s|
    ensures var r := ReplaceId(s, s[k].id, fields);
      r[k] == Row(s[k].id, fields) && forall i :: 0 <= i < |s| && i != k ==> r[i] == s[i]
  {
  }

  /** Cutting one row out of a table keeps the table invariant. */
  lemma CutKeepsTable<T>(s: seq<Row<T>>, nextId: nat, k: nat)
    requires TableOk(s, nextId) && k < |s|
    ensures TableOk(s[..k] + s[k + 1..], nextId)
  {
    var rest := s[..k] + s[k + 1..];
    forall i | 0 <= i < |rest| ensures rest[i] == s[if i < k then i else i + 1] {
    }
  }

  /** Prisma's `connect: { id }` on a to-many relation: adds the id unless it is already linked. */
  function Connect(ids: seq<nat>, id: nat): (r: seq<nat>)
    ensures id in r
    ensures forall x :: x in r <==> x in ids || x == id
    ensures ids <= r && |r| <= |ids| + 1
  {
    if id in ids then ids else ids + [id]
  }

  /** Connecting an already linked id changes nothing, so connecting twice is connecting once. */
  lemma ConnectIdempotent(ids: seq<nat>, id: nat)
    ensures Connect(Connect(ids, id), id) == Connect(ids, id)
  {
  }

  /** Connecting never introduces a duplicate link. */
  lemma ConnectKeepsDistinct(ids: seq<nat>, id: nat)
    requires forall i, j :: 0 <= i < j < |ids| ==> ids[i] != ids[j]
    ensures var r := Connect(ids, id); forall i, j :: 0 <= i < j < |r| ==> r[i] != r[j]
  {
  }

  // ---------------------------------------------------------------------
  // Lookups by the keys the actions query

  predicate EmailIn(users: seq<Row<User>>, email: string)
  {
    exists i :: 0 <= i < |users| && users[i].fields.email == email
  }

  predicate PhoneIn(users: seq<Row<User>>, phone: string)
  {
    exists i :: 0 <= i < |users| && users[i].fields.phone == phone
  }

  predicate SlugIn(orgs: seq<Row<Organization>>, slug: string)
  {
    exists i :: 0 <= i < |orgs| && orgs[i].fields.slug == slug
  }

  /** `user.findUnique({ where: { email } })`. */
  function UserByEmail(users: seq<Row<User>>, email: string): (r: Option<nat>)
    ensures r.Some? ==> r.value < |users| && users[r.value].fields.email == email
    ensures r.None? <==> !EmailIn(users, email)
  {
    Seqs.FirstIndex(users, (u: Row<User>) => u.fields.email == email)
  }

  /** `user.findUnique({ where: { phone } })`. */
  function UserByPhone(users: seq<Row<User>>, phone: string): (r: Option<nat>)
    ensures r.Some? ==> r.value < |users| && users[r.value].fields.phone == phone
    ensures r.None? <==> !PhoneIn(users, phone)
  {
    Seqs.FirstIndex(users, (u: Row<User>) => u.fields.phone == phone)
  }

  /** `role.findFirst({ where: { roleName } })`: the first role with that name. */
  function RoleByName(roles: seq<Row<Role>>, roleName: string): (r: Option<nat>)
    ensures r.Some? ==> r.value < |roles| && roles[r.value].fields.roleName == roleName
    ensures r.Some? ==> forall i :: 0 <= i < r.value ==> roles[i].fields.roleName != roleName
    ensures r.None? <==> forall i :: 0 <= i < |roles| ==> roles[i].fields.roleName != roleName
  {
    Seqs.FirstIndex(roles, (x: Row<Role>) => x.fields.roleName == roleName)
  }

  /** `organization.findUnique({ where: { slug } })`. */
  function OrganizationBySlug(orgs: seq<Row<Organization>>, slug: string): (r: Option<nat>)
    ensures r.Some? ==> r.value < |orgs| && orgs[r.value].fields.slug == slug
    ensures r.None? <==> !SlugIn(orgs, slug)
  {
    Seqs.FirstIndex(orgs, (o: Row<Organization>) => o.fields.slug == slug)
  }

  predicate EmailsDistinct(users: seq<Row<User>>)
  {
    forall i, j :: 0 <= i < j < |users| ==> users[i].fields.email != users[j].fields.email
  }

  predicate PhonesDistinct(users: seq<Row<User>>)
  {
    forall i, j :: 0 <= i < j < |users| ==> users[i].fields.phone != users[j].fields.phone
  }

  predicate SlugsDistinct(orgs: seq<Row<Organization>>)
  {
    forall i, j :: 0 <= i < j < |orgs| ==> orgs[i].fields.slug != orgs[j].fields.slug
  }

  /** A table of users with unique emails, phones and ids. */
  predicate UsersOk(users: seq<Row<User>>, nextId: nat)
  {
    TableOk(users, nextId) && EmailsDistinct(users) && PhonesDistinct(users)
  }

  predicate OrganizationsOk(orgs: seq<Row<Organization>>, nextId: nat)
  {
    TableOk(orgs, nextId) && SlugsDistinct(orgs)
  }

  /** Replacing one user's fields without touching email or phone keeps the user table valid. */
  lemma ReplaceUserKeepsUsers(users: seq<Row<User>>, nextId: nat, k: nat, u: User)
    requires UsersOk(users, nextId) && k < |users|
    requires u.email == users[k].fields.email && u.phone == users[k].fields.phone
    ensures UsersOk(ReplaceId(users, users[k].id, u), nextId)
  {
    var s := ReplaceId(users, users[k].id, u);
    forall i | 0 <= i < |users| ensures s[i].fields.email == users[i].fields.email && s[i].fields.phone == users[i].fields.phone {
    }
  }

  /** The schema's constraints: unique ids in every table, all issued before
      the counter, unique user email and phone, unique organization slug. */
  predicate TablesOk(users: seq<Row<User>>, roles: seq<Row<Role>>, organizations: seq<Row<Organization>>,
                     units: seq<Row<Unit>>, brands: seq<Row<Brand>>, taxRates: seq<Row<TaxRate>>,
                     categories: seq<Row<Category>>, nextId: nat)
  {
    && UsersOk(users, nextId)
    && TableOk(roles, nextId)
    && OrganizationsOk(organizations, nextId)
    && TableOk(units, nextId)
    && TableOk(brands, nextId)
    && TableOk(taxRates, nextId)
    && TableOk(categories, nextId)
  }

  /** The Prisma client: one object holding every table the actions use. */
  class Db {
    var users: seq<Row<User>>
    var roles: seq<Row<Role>>
    var organizations: seq<Row<Organization>>
    var units: seq<Row<Unit>>
    var brands: seq<Row<Brand>>
    var taxRates: seq<Row<TaxRate>>
    var categories: seq<Row<Category>>
    var nextId: nat

    /** The schema's constraints hold of the current tables. */
    ghost predicate Valid()
      reads this
    {
      TablesOk(users, roles, organizations, units, brands, taxRates, categories, nextId)
    }

    /** The commit of a transaction over the users, roles and organizations:
        the new tables replace the old ones at once. */
    method Commit(users': seq<Row<User>>, roles': seq<Row<Role>>, organizations': seq<Row<Organization>>, nextId': nat)
      requires TablesOk(users', roles', organizations', units, brands, taxRates, categories, nextId')
      modifies this`users, this`roles, this`organizations, this`nextId
      ensures Valid()
      ensures users == users' && roles == roles' && organizations == organizations' && nextId == nextId'
    {
      users, roles, organizations, nextId := users', roles', organizations', nextId';
    }

    /** An empty database. */
    constructor ()
      ensures Valid()
      ensures users == [] && roles == [] && organizations == []
      ensures units == [] && brands == [] && taxRates == [] && categories == []
    {
      users, roles, organizations := [], [], [];
      units, brands, taxRates, categories := [], [], [], [];
      nextId := 0;
    }
  }
}
