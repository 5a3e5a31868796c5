# Inventory app: permissions, accounts and entity tables in Dafny

This project models the rule-bearing core of a Next.js inventory application
and proves properties of that model. It covers five areas:

- **The permission vocabulary and the permission gate.**
  - The `<module>.<action>` table, `adminPermissions` and `userPermissions`.
  - The sidebar tree.
  - The dashboard's `filterSidebarLinks` and the navbar's `filteredLinks`/`mobileLinks`.
  - The deduplicated permission claims that sign-in and the JWT callback put into a session.
- **The account state machine of `actions/users.ts` over an in-memory store.**
  - Registration with its two 409 conflicts.
  - The find-or-create of the default "user" role.
  - E-mail verification codes, password change, and password reset.
  - The one `token` field that every issued secret shares.
- **Create-if-absent entity tables.**
  - Organizations, keyed by slug, with the admin-role transaction.
  - Units, keyed by title.
  - Brands, keyed by name.
  - Tax rates, keyed by name within an organization.
  - Categories, keyed by slug.
- **The NextAuth callbacks of `config/auth.ts`.**
  - `authorize`, with its ordered checks and single generic failure.
  - The default organization of an OAuth user.
  - The `signIn` update.
  - The `jwt` token refresh.
- **Pure helpers.**
  - `generateSKU`, `getNormalDate`, `maskEmail` and the one-time-code schema.
  - The invitation search.
  - The `ItemsListing` helpers.
  - The query-key hierarchy and invalidations of `hooks/useItemQueries.ts`.

## Structure

- One module per source file.
  - A pure source file becomes datatypes, functions and lemmas.
  - The store actions become methods on a `Store.Db` object whose fields are the tables (`seq<Row<T>>`) and one id counter.
  - Each method states its whole new state with `old(...)` and keeps the schema's uniqueness invariant `Db.Valid()`.
- `Store.Db` is shared by every table action.
- The `jwt` callback assigns the fields of a `Token` object in place.
- The navbar's `mobileLinks` is the `push`-driven loop of the source, proved against a fold.
- Foreign helpers are parameters of the operations that call them.
  - bcrypt `compare`, the hashed password, the generated code or reset secret, `generateSlug`'s slug.
  - The mail-delivery error (`None` when the mail went out).
  - `Math.random`'s number.
  - Date parsing and formatting, and currency formatting.
- Ids are natural numbers issued by one counter.
- A database transaction is modelled on local copies of the tables that are committed at the end.
  - A thrown error therefore leaves the store as it was.

## Model

| member | source | states |
|---|---|---|
| Permissions.MapEntries | config/permissions.ts:16-40 | the table has one entry per module name, in order, each built from that name |
| Permissions.Capitalize | config/permissions.ts:32 | the display name has the length of the module name |
| Permissions.TableLayout | config/permissions.ts:16-40 | flattening the table gives four strings per name, name by name, `<name>.<action>` at position 4i+j |
| Permissions.TableStrings | config/permissions.ts:128-130 | a string is in the flattened table iff it is one of the four strings of a listed name |
| Permissions.TablePairs | config/permissions.ts:128-130 | a string is in the flattened table iff it is `<name>.<action>` for a listed name and one of the four actions |
| Permissions.PermissionStringInjective | config/permissions.ts:35-38 | for dot-free names, `<name>.<action>` determines both the name and the action |
| Permissions.TableDistinct | config/permissions.ts:16-40 | distinct lower-case names give a flattened table with no duplicate |
| Permissions.CapitalizeRoundTrip | config/permissions.ts:32 | lower-casing the display name gives the name back; only the first letter is upper-cased |
| Permissions.TableDisplays | config/permissions.ts:32 | every entry's display name is its name with only the first letter upper-cased |
| Permissions.TableLookup | config/permissions.ts:138-143 | the module lookup succeeds iff the name is listed, and then finds that name's entry |
| Permissions.NamesDistinct | config/permissions.ts:16-40 | the fourteen module names are distinct |
| Permissions.AllPermissionsLayout | config/permissions.ts:128-130 | `getAllPermissions()` has 56 strings, `<name>.<action>` for each module and action in order |
| Permissions.ValidPermissionIff | config/permissions.ts:133-135 | `isValidPermission(p)` holds iff p is `<module>.<action>` for a listed module and one of the four actions |
| Permissions.AllPermissionsDistinct | config/permissions.ts:128-130 | `getAllPermissions()` has no duplicates |
| Permissions.DisplayNames | config/permissions.ts:32 | every exported entry's display is its name with the first letter upper-cased and nothing else changed |
| Permissions.GetModulePermissionsSpec | config/permissions.ts:138-143 | `getModulePermissions(m)` is defined iff m is a listed module, and then gives m's four strings |
| Permissions.AdminLayout | config/permissions.ts:42-113 | `adminPermissions` is the fourteen modules' groups of four in the listed arrangement |
| Permissions.AdminArranged | config/permissions.ts:42-113 | `adminPermissions` is the table rearranged, with `"settings.access"` ahead of the settings group |
| Permissions.ValidPair | config/permissions.ts:133-135 | every listed module with every listed action is a valid permission |
| Permissions.InvalidPair | config/permissions.ts:133-135 | an unlisted module or an unlisted action never gives a valid permission |
| Permissions.AdminMembership | config/permissions.ts:42-113 | p is in `adminPermissions` iff p is valid or p is `"settings.access"` |
| Permissions.SettingsAccessInvalid | config/permissions.ts:78 | `"settings.access"` is not a valid permission |
| Permissions.UserEntry1 | config/permissions.ts:117 | `"profile.read"`, the second user permission, is not valid |
| Permissions.UserEntry2 | config/permissions.ts:118 | `"profile.update"`, the third user permission, is not valid |
| Permissions.UserPermissionsValidity | config/permissions.ts:115-125 | of the nine user permissions, exactly the two profile ones are invalid |
| Sidebar.SidebarShape | config/sidebar.ts:46-329 | eight links; Dashboard is the only plain link; every other link is a dropdown with a non-empty menu |
| Sidebar.InventoryMenuValid | config/sidebar.ts:54-112 | every Inventory menu permission is valid |
| Sidebar.PurchasesMenuValid | config/sidebar.ts:114-152 | every Purchases menu permission is valid |
| Sidebar.SalesMenuValid | config/sidebar.ts:154-192 | every Sales menu permission is valid |
| Sidebar.ReportsMenuValid | config/sidebar.ts:193-236 | every Reports menu permission is valid |
| Sidebar.IntegrationsMenuValid | config/sidebar.ts:237-260 | every Integrations menu permission is valid |
| Sidebar.BlogsMenuValid | config/sidebar.ts:261-279 | every Blogs menu permission is valid |
| Sidebar.SettingsMenuValid | config/sidebar.ts:280-328 | every Settings menu permission is valid |
| Sidebar.SidebarPermissionsValid | config/sidebar.ts:46-329 | every permission in the tree, on a link or a menu entry, is valid |
| Dashboard.HasPermission | components/dashboard/DefaultUserDashboard.tsx:61-63 | true iff the permission list is present and contains the permission; absent permissions always deny |
| Dashboard.WithFilteredMenu | components/dashboard/DefaultUserDashboard.tsx:69-74 | the map step keeps title, permission, dropdown flag, href and icon |
| Dashboard.FilterSidebarLinks | components/dashboard/DefaultUserDashboard.tsx:66-79 | no more links than given; every survivor's permission passes and it is displayable (a dropdown keeps a non-empty menu) |
| Dashboard.FilterSidebarLinksOnePass | components/dashboard/DefaultUserDashboard.tsx:66-79 | the filter/map/filter pipeline equals a one-pass definition that drops or trims each link |
| Dashboard.WithFilteredMenuIdempotent | components/dashboard/DefaultUserDashboard.tsx:69-74 | trimming a menu twice trims nothing more and does not change whether the link survives |
| Dashboard.FilterSidebarLinksSound | components/dashboard/DefaultUserDashboard.tsx:66-79 | every surviving link passes its permission, is displayable and keeps only permitted entries, and comes from an input link |
| Dashboard.FilterSidebarLinksKeeps | components/dashboard/DefaultUserDashboard.tsx:66-79 | an input link survives (trimmed) iff it passes its permission and, as a dropdown, keeps a non-empty menu |
| Dashboard.FilterSidebarLinksOrder | components/dashboard/DefaultUserDashboard.tsx:66-79 | the surviving titles are a subsequence of the input titles |
| Dashboard.FilterSidebarLinksIdempotent | components/dashboard/DefaultUserDashboard.tsx:66-79 | filtering twice gives the result of filtering once |
| Dashboard.FilterSidebarLinksAllPermitted | components/dashboard/DefaultUserDashboard.tsx:66-79 | when every permission passes and every link is displayable, the tree comes back unchanged |
| Dashboard.FilterSidebarLinksOnlyFirst | components/dashboard/DefaultUserDashboard.tsx:66-79 | when only the first plain link's permission passes, only that link is shown |
| Dashboard.Greeting | components/dashboard/DefaultUserDashboard.tsx:84-91 | "Good morning" iff 5–11, "Good afternoon" iff 12–17, "Good evening" iff any other hour |
| Dashboard.DefaultUserSeesOnlyDashboard | actions/users.ts:16-25 | with the default "user" role's permissions the filtered tree is the Dashboard link alone |
| Dashboard.ValidGateSeesWholeSidebar | config/sidebar.ts:46-329 | a gate that passes every valid permission shows the whole tree unchanged |
| Dashboard.AdminSeesWholeSidebar | config/permissions.ts:42-113 | with `adminPermissions` all eight links survive with their full menus |
| Dashboard.OrganizationAdminSeesOnlyDashboard | actions/organization.ts:50-65 | the "admin" role that `createOrganization` creates sees only the Dashboard link |
| Navbar.NavbarShows | components/dashboard/Navbar.tsx:30-42 | a shown link's permission passes; a plain link is shown iff its permission passes |
| Navbar.FilteredLinks | components/dashboard/Navbar.tsx:30-42 | no more links than given, each from the input with a passing permission |
| Navbar.FilteredLinksKeeps | components/dashboard/Navbar.tsx:30-42 | a link is kept iff its permission passes and, as a dropdown with a menu, some menu entry passes |
| Navbar.HrefOrHash | components/dashboard/Navbar.tsx:50 | `href \|\| "#"`: a present non-empty href is kept, otherwise "#" |
| Navbar.PushMenuItems | components/dashboard/Navbar.tsx:58-69 | the `forEach` loop appends exactly the menu's entries as the fold defines them |
| Navbar.MobileLinks | components/dashboard/Navbar.tsx:45-72 | the `reduce`/`push` loop yields the fold over the kept links |
| Navbar.MenuEntriesAreFilteredItems | components/dashboard/Navbar.tsx:58-69 | a dropdown contributes one entry per permitted item, in menu order, carrying the parent's icon |
| Navbar.FlattenCount | components/dashboard/Navbar.tsx:45-72 | the number of mobile entries is one per plain link plus the permitted items of each dropdown |
| Navbar.MobileLinksPermitted | components/dashboard/Navbar.tsx:45-72 | every mobile entry's permission passes the gate |
| Navbar.PlainLinkEntry | components/dashboard/Navbar.tsx:47-55 | a plain link contributes exactly one entry, with its title, permission, icon and `href \|\| "#"` |
| Navbar.NavbarShowsIffKept | components/dashboard/Navbar.tsx:30-42 | on links whose dropdowns carry menus, the navbar's test and the dashboard's survival test agree |
| Navbar.NavbarMatchesDashboard | components/dashboard/Navbar.tsx:30-42 | trimming the navbar's kept links gives exactly the dashboard's filtered tree |
| Navbar.NavbarMatchesDashboardOnSidebar | config/sidebar.ts:46-329 | on `sidebarLinks` the navbar and the dashboard show the same links for every user |
| Store.Db.Commit | actions/organization.ts:30-93 | a transaction's new users, roles, organizations and counter replace the old ones at once, and the schema's constraints hold after |
| Store.IndexOfId | actions/users.ts:306-322 | the id lookup finds a row with that id, and finds none iff no row has it |
| Store.RemovePresentId | actions/users.ts:285-304 | with distinct ids, a delete by a present id removes exactly that row |
| Store.ReplaceOnlyThatRow | actions/unit.ts:43-61 | with distinct ids, an update by id changes that row and no other |
| Store.Connect | actions/organization.ts:71-81 | `connect` adds the id to the role links unless it is already there, and drops none |
| Store.ConnectIdempotent | actions/organization.ts:71-81 | connecting an id twice is connecting it once |
| Store.UserByEmail | actions/users.ts:45-47 | the email lookup finds a user with that email, and finds none iff no user has it |
| Store.UserByPhone | actions/users.ts:49-51 | the phone lookup finds a user with that phone, and finds none iff no user has it |
| Store.RoleByName | actions/users.ts:70-72 | `findFirst` finds the first role with that name, and finds none iff no role has it |
| Store.OrganizationBySlug | actions/organization.ts:15-17 | the slug lookup finds an organization with that slug, and finds none iff no organization has it |
| Slugs.LocalPart | config/auth.ts:39 | `split("@")[0]` is a prefix without '@', followed by '@' when shorter than the address |
| Slugs.Slugify | config/auth.ts:40 | each character is lower-cased or replaced by '-' outside `[a-z0-9-]`; the length is unchanged |
| Slugs.EmailSlugShape | config/auth.ts:39-40 | the slug is the local part's length plus four, uses only `[a-z0-9-]` and ends in "-org" |
| Slugs.EmailSlugPrefix | config/auth.ts:39-40 | the slug starts with the sanitized local part |
| Slugs.LocalPartDomainFree | config/auth.ts:39 | the local part of `local@domain` is `local`, whatever the domain |
| Slugs.SlugifyIdempotent | config/auth.ts:40 | sanitizing a slug again changes nothing |
| Users.FindOrCreateRole | actions/users.ts:70-79 | a found role is returned with nothing written (same table, same counter, the first match's id); otherwise exactly one role of that name is appended under the counter's id, which is returned, and the counter advances by one |
| Users.FindOrCreateRoleNoDuplicate | actions/users.ts:70-79 | after find-or-create, exactly one role carries the name when at most one did before |
| Users.FindOrCreateRoleIdempotent | actions/users.ts:70-79 | a second find-or-create finds the first one's role and changes nothing |
| Users.FindOrCreateRoleKeepsTable | actions/users.ts:70-79 | find-or-create keeps the role table's ids distinct and below the counter |
| Users.AppendUserKeepsUsers | actions/users.ts:119-144 | a user with a new email and a new phone keeps the user table valid |
| Users.AppendOrganizationKeepsTable | actions/users.ts:96-110 | an organization with an unused slug keeps the organization table valid |
| Users.CreateUser | actions/users.ts:28-181 | a taken email answers 409 first, then a taken phone answers 409, both with no change; 409 iff a conflict; otherwise the registration outcome |
| Users.Register | actions/users.ts:70-171 | 404 and no account for an unknown organization, keeping the created "user" role; 500 and no change for a taken personal slug; otherwise one personal organization when none was named, one account with the hash, code, role and organization, answering 200 or the mail's 500 |
| Users.WithToken | actions/users.ts:211-215 | the secret becomes the new one and every other field of the user stays as it was |
| Users.ResendVerificationCode | actions/users.ts:184-250 | 404 for an unknown email, 400 for a verified user, both with no change; otherwise the code replaces `token`, even when the mail fails (500) |
| Users.SendResetLink | actions/users.ts:324-377 | 404 for an unknown email with no change; otherwise the secret replaces `token` and a mail failure answers 404 with the mailer's error |
| Users.OldPasswordMatches | actions/users.ts:386-391 | a match needs a user with that id holding a non-empty hash that the comparison accepts |
| Users.UpdateUserPassword | actions/users.ts:379-411 | 403 with no change unless the user exists with a non-empty hash that matches; otherwise only that user's hash is replaced |
| Users.ResetMatch | actions/users.ts:418-430 | finds a user with that email whose token is exactly the secret, and finds none iff there is no such user |
| Users.AfterReset | actions/users.ts:433-447 | the new hash is stored and the token cleared; every other field of the user stays as it was |
| Users.ResetUserPassword | actions/users.ts:413-456 | 404 with no change unless email and token match; otherwise only that user gets the new hash and a cleared token |
| Users.ResetLinkSingleUse | actions/users.ts:433-447 | after a reset, the same email and secret match no user |
| Users.ResetSecretReplacesCode | actions/users.ts:338-346 | issuing a reset secret makes a different pending verification code stop matching |
| Users.CodeMatches | actions/users.ts:488 | a match needs a user with that id whose stored token is the code |
| Users.UpdateUserById | actions/users.ts:480-515 | 403 with no change unless the stored token equals the code; otherwise only `isVerfied` is set |
| Users.VerificationKeepsCode | actions/users.ts:502-510 | after verification the same code still matches: the token is not cleared |
| Users.GetUserById | actions/users.ts:306-322 | returns a stored user with that id, and null iff there is none |
| Users.UsersByOrganization | actions/users.ts:459-477 | returns exactly the organization's users |
| Users.NewestMemberFirst | actions/users.ts:459-477 | a newly added member is listed first (`createdAt: "desc"`) |
| Users.DeleteUser | actions/users.ts:285-304 | an unknown id fails with no change; otherwise exactly that row is removed and returned |
| Organizations.NewOrganization | actions/organization.ts:94-109 | `{ ...data, slug }`: the generated slug, and the form's name, country, currency and timezone; no industry |
| Organizations.AsAdmin | actions/organization.ts:71-81 | the user moves to the new organization; its role links become the old ones plus the admin role and nothing else; every other field stays |
| Organizations.CreateOrganization | actions/organization.ts:8-119 | 409 and no change for a taken slug; without a user, exactly one organization is added; with an unknown user, 500 and no change; otherwise organization, admin role (find-or-create) and user update together |
| Organizations.CreateAsAdmin | actions/organization.ts:28-93 | for an existing user, the organization, the "admin" role (found or created) and the user's move and role link are committed together, past every issued id; for an unknown user, 500 and nothing written |
| Organizations.AdminCommitKeepsTables | actions/organization.ts:30-81 | the tables that transaction commits keep ids, emails, phones and slugs unique |
| Organizations.CreatedAdminRole | actions/organization.ts:40-68 | with no "admin" role, exactly the admin role with its fourteen permissions is added |
| Units.UnitByTitle | actions/unit.ts:11-15 | finds a unit with that title, and finds none iff no unit of any organization has it |
| Units.CreateUnit | actions/unit.ts:7-40 | 400 and no change for a taken title; otherwise exactly one unit is appended and returned; titles stay distinct |
| Units.UpdateUnit | actions/unit.ts:43-61 | null and no change for an unknown id; otherwise only that unit's fields are replaced |
| Units.DeleteUnit | actions/unit.ts:79-96 | null and no change for an unknown id; otherwise exactly that unit is removed |
| Units.UnitsByOrganization | actions/unit.ts:64-76 | exactly the organization's units, in table order |
| Units.CreatedUnitListed | actions/unit.ts:24-32 | a created unit appears last in its organization's list and leaves other lists alone |
| Brands.BrandByName | actions/brands.ts:10-14 | finds a brand with that name in any organization, and finds none iff there is none |
| Brands.CreateBrand | actions/brands.ts:6-33 | 400 and no change when the name is taken anywhere; otherwise exactly one brand is appended and returned |
| Brands.DeleteBrand | actions/brands.ts:56-72 | null and no change for an unknown id; otherwise exactly that brand is removed |
| Brands.Lookup | actions/brands.ts:43-48 | a property read finds the last member with the key, as `JSON.parse` keeps it, and nothing iff no member has it |
| Brands.LookupSkipsTail | actions/brands.ts:43-48 | members after the last one with the key do not change the read |
| Brands.UnwrapBrands | actions/brands.ts:35-53 | the result is always truthy; a failure or a falsy body gives `[]`; a flat array comes back as is |
| Brands.PaginatedEnvelopeUnwrapped | actions/brands.ts:43-48 | `{ data: brands, pagination }` unwraps to the brand list |
| Brands.FalsyDataKeepsEnvelope | actions/brands.ts:43-48 | an envelope whose only `data` is falsy comes back whole |
| Brands.LastDataWins | actions/brands.ts:43-48 | of repeated `data` keys the last decides: `{"data": null, "data": [...]}` unwraps to the list |
| Taxes.TaxByName | actions/taxes.ts:10-15 | finds a tax with that name in that organization, and finds none iff there is none |
| Taxes.CreateTax | actions/taxes.ts:7-40 | 400 and no change iff the organization already has the name; otherwise exactly one tax is appended; names stay distinct per organization |
| Taxes.DeleteTax | actions/taxes.ts:58-77 | 500 and no change for an unknown id; otherwise exactly that tax is removed |
| Taxes.TaxesByOrganization | actions/taxes.ts:43-55 | exactly the organization's taxes, in table order |
| Taxes.SameNameOtherOrganization | actions/taxes.ts:10-22 | adding a tax to one organization leaves the name check of every other organization as it was |
| Taxes.ListedNamesDistinct | actions/taxes.ts:43-55 | an organization's listed taxes have distinct names |
| Categories.CategoryBySlug | actions/categories.ts:11-16 | finds a category with that slug, and finds none iff there is none |
| Categories.CreateCategory | actions/categories.ts:9-38 | 400 "Category already exists" and no change for a taken slug; otherwise exactly one category is appended |
| Categories.UpdateCategory | actions/categories.ts:75-93 | null and no change for an unknown id; otherwise only that category's fields are replaced |
| Categories.DeleteCategory | actions/categories.ts:56-73 | null and no change for an unknown id; otherwise exactly that category is removed |
| Auth.ResolveRoles | config/auth.ts:14-16 | the included roles are exactly the stored roles the user's links point at |
| Auth.FlatPermissions | config/auth.ts:23 | a permission is in the flattened list iff some role holds it |
| Auth.UniquePermissions | config/auth.ts:23-26 | the claim list has no duplicates and holds exactly the permissions of some role |
| Auth.UniquePermissionsOrder | config/auth.ts:26 | the claim list keeps each permission at its first occurrence, in role order |
| Auth.SingleRoleClaims | config/auth.ts:187-192 | a single role with distinct permissions yields exactly its list |
| Auth.OrganizationName | config/auth.ts:32 | the name comes from the organization the user points at; no organization id gives none |
| Auth.SessionOf | config/auth.ts:28-33 | the session carries the user's id, email, organization, resolved roles and their deduplicated permissions |
| Auth.GetUserWithRoles | config/auth.ts:11-34 | null iff no user has the id; otherwise the claims have no duplicates |
| Auth.FailureReason | config/auth.ts:153-184 | the checks in order: "No Inputs Found" iff an input is missing; then "No user found" iff no user has the email; then, for the stored user, "Password Incorrect" iff there is no stored hash or the comparison rejects it, and "User is not verified" iff the password matches but the account is not verified |
| Auth.CanSignIn | config/auth.ts:153-184 | signing in needs a stored, verified user with the given email |
| Auth.Authorize | config/auth.ts:151-210 | succeeds iff every check passes, with the session of the stored user; every failure is the same `{"Something went wrong", 401}` |
| Auth.UnverifiedRejected | config/auth.ts:182-184 | an unverified account is rejected whatever the password |
| Auth.DefaultOrganization | config/auth.ts:37-79 | returns the existing organization unchanged; otherwise creates `<local>'s Organization` under the email slug, or falls back to "default-organization" when that slug is taken |
| Auth.DefaultOrganizationKeepsTable | config/auth.ts:37-79 | whatever is created has an unused slug, so the organization table stays valid |
| Auth.SecondCallFallsBack | config/auth.ts:54-77 | for a user without an organization, a second call falls back to "default-organization" |
| Auth.RoleToConnect | config/auth.ts:234-245 | a role is connected only when the user has no roles and a "user" role exists, and it is that role |
| Auth.Connected | config/auth.ts:255-260 | the role links become the old ones plus the collected role and nothing else; the organization is set when one was collected; every other field stays |
| Auth.SignIn | config/auth.ts:214-264 | other providers pass with no change; for Google and GitHub the role and organization are collected and written in one update, or the update throws for a missing user, keeping any organization created |
| Auth.ConnectDefaults | config/auth.ts:216-262 | the OAuth branch: the organization step, then one user update iff something was collected |
| Auth.Token.constructor | config/auth.ts:265-278 | a fresh token with the user id and no claims |
| Auth.Token.Claims | config/auth.ts:265-290 | the token's claims as a session user |
| Auth.Token.Jwt | config/auth.ts:265-290 | on sign-in every claim is copied from the user; later roles, permissions and organization are refreshed, or left alone when the user is gone |
| Auth.RefreshedClaims | config/auth.ts:281-287 | after a refresh the permissions are the deduplicated permissions of the user's current roles |
| Sku.Letters | lib/generateSKU.ts:16-17 | only ASCII letters remain, and never more characters than the input |
| Sku.LetterPrefix | lib/generateSKU.ts:16-19 | the first n letters (fewer if there are fewer), upper-cased, a prefix of the upper-cased letters |
| Sku.NamePrefix | lib/generateSKU.ts:16-19 | at most three characters |
| Sku.OptionalPrefix | lib/generateSKU.ts:22-35 | an absent value gives ""; otherwise the first two letters upper-cased; never more than two |
| Sku.Head | lib/generateSKU.ts:41-53 | brand and category prefixes followed by '-' when either is present, else nothing |
| Sku.Tail | lib/generateSKU.ts:38-53 | the name prefix followed by the four digits of the number |
| Sku.AssembleParts | lib/generateSKU.ts:41-53 | the SKU is the prefixes, a dash iff a brand or category prefix exists, the name prefix, then the four digits |
| Sku.Assemble | lib/generateSKU.ts:41-53 | the head, then the name prefix, then the four digits of the number at the very end |
| Sku.GenerateSku | lib/generateSKU.ts:10-54 | 4 to 12 characters ending in the random number's four digits |
| Sku.SkuShape | lib/generateSKU.ts:10-54 | 4 to 12 characters of `[A-Z0-9-]`, with a '-' iff the brand or category gives a prefix |
| Sku.SkuLeadsWithBrand | lib/generateSKU.ts:41-53 | the SKU starts with the brand prefix, then the category prefix, then '-' |
| Sku.SkuEndsWithNumber | lib/generateSKU.ts:38-53 | the last four characters are the random number's digits |
| Sku.AssembledNumberRoundTrip | lib/generateSKU.ts:38-53 | the last four characters read back as the random number |
| Sku.OnlyLettersCount | lib/generateSKU.ts:16-35 | stripping non-letters from the inputs first gives the same SKU |
| NormalDate.SuffixIsEnglish | lib/getNormalDate.tsx:35-42 | for every day 1..31 the suffix is the English ordinal's |
| NormalDate.TeensTakeTh | lib/getNormalDate.tsx:35-42 | 11, 12 and 13 take "th" although they end in 1, 2 and 3 |
| NormalDate.FindDay | lib/getNormalDate.tsx:44 | the `\b(\d{1,2})\b` search returns the leftmost match, and none iff there is none |
| NormalDate.InsertAfterDay | lib/getNormalDate.tsx:44 | the suffix is inserted right after the first match; without a match the text is unchanged |
| NormalDate.InsertAfterDayRemovable | lib/getNormalDate.tsx:44 | removing the inserted suffix gives the rendered text back |
| NormalDate.GetNormalDate | lib/getNormalDate.tsx:2-45 | "N/A" for a missing or empty input, "Invalid date" for an invalid date, else, for a Date and for a string that parses, the rendering with the day's suffix after the day |
| NormalDate.Render | lib/getNormalDate.tsx:19-44 | an invalid date gives "Invalid date"; a valid one keeps its text plus at most the two-letter suffix |
| NormalDate.DayIsFirstMatch | lib/getNormalDate.tsx:23-44 | in a rendering such as "Mon, Jan 1, 2024" the match is the day |
| NormalDate.DaySuffixLandsOnDay | lib/getNormalDate.tsx:34-44 | the suffix lands on the day, not the year |
| VerifyToken.MaskLocal | components/Forms/VerifyTokenForm.tsx:88-91 | the masked name always contains a '*' |
| VerifyToken.MaskLongName | components/Forms/VerifyTokenForm.tsx:88-91 | for three or more characters: same length, first and last kept, stars between |
| VerifyToken.MaskShortName | components/Forms/VerifyTokenForm.tsx:88-91 | up to two characters still get exactly one star |
| VerifyToken.DomainPreserved | components/Forms/VerifyTokenForm.tsx:86-93 | for `local@domain` with one '@', the domain comes through unchanged and only the local part is masked |
| VerifyToken.NoDomain | components/Forms/VerifyTokenForm.tsx:86-93 | an address without '@' masks the whole text and prints "@undefined" |
| VerifyToken.OtpError | components/Forms/VerifyTokenForm.tsx:37-41 | a code is refused iff shorter than six characters, with the schema's message |
| Invitations.Shown | components/dashboard/Tables/InvitationsTable.tsx:38-40 | an invitation is shown iff it is listed and its lower-cased email contains the lower-cased query; every copy of a matching invitation is kept, and no copy of another |
| Invitations.ShownKeepsOrder | components/dashboard/Tables/InvitationsTable.tsx:38-40 | the shown list is a subsequence of the input |
| Invitations.EmptyQueryShowsAll | components/dashboard/Tables/InvitationsTable.tsx:38-40 | an empty query shows every invitation |
| Invitations.LongerQueryNarrows | components/dashboard/Tables/InvitationsTable.tsx:38-40 | a query containing another shows a subset of what the other shows |
| Invitations.StatusLabel | components/dashboard/Tables/InvitationsTable.tsx:80-88 | "Success" iff the invitation was accepted, "Pending" iff it was not |
| Invitations.TableBody | components/dashboard/Tables/InvitationsTable.tsx:57-102 | the spinner iff loading; then a message iff nothing is shown: "No invitations found matching your search" iff the query is non-empty, "No invitations found" iff it is empty; otherwise one row per shown invitation, in order, with its email, "Success" when accepted and "Pending" otherwise, and its formatted creation date |
| ItemsListing.Truncated | components/dashboard/items/ItemsListing.tsx:339-344 | the text itself when it fits; otherwise `length` characters and "..." |
| ItemsListing.TruncatedBounds | components/dashboard/items/ItemsListing.tsx:339-344 | at most three characters longer than the limit, and starting with the matching prefix of the text |
| ItemsListing.TruncatedIdempotent | components/dashboard/items/ItemsListing.tsx:339-344 | truncating the result again at the same length changes nothing |
| ItemsListing.LineValue | components/dashboard/items/ItemsListing.tsx:332-335 | a missing price or quantity gives 0 |
| ItemsListing.TotalValueAppend | components/dashboard/items/ItemsListing.tsx:330-337 | the total of two lists in a row is the sum of their totals |
| ItemsListing.MissingValuesAddNothing | components/dashboard/items/ItemsListing.tsx:330-337 | an item without price or quantity adds nothing |
| ItemsListing.TotalValueNonNegative | components/dashboard/items/ItemsListing.tsx:330-337 | non-negative prices and quantities give a non-negative total |
| ItemsListing.Noun | components/dashboard/items/ItemsListing.tsx:404-408 | "item" iff the count is one |
| ItemsListing.SubtitleCount | components/dashboard/items/ItemsListing.tsx:404-408 | the subtitle starts with the count's digits, which read back as the count |
| ItemsListing.ListingSubtitle | components/dashboard/items/ItemsListing.tsx:416-420 | no subtitle iff the list is empty; otherwise the count and the formatted total |
| ItemsListing.FormatDate | components/dashboard/items/ItemsListing.tsx:160-177 | "N/A" for a missing or empty value, "Invalid date" for an invalid date, else, for a Date and for a string that parses, the formatted date |
| ItemQueries.KeyHierarchy | hooks/useItemQueries.ts:12-22 | `all` is a prefix of every key; `lists()` of every list key; `details()` of every detail key |
| ItemQueries.ListsAndDetailsApart | hooks/useItemQueries.ts:14-21 | list and detail keys differ at index 1, so neither is a prefix of the other |
| ItemQueries.PrefixTransitive | hooks/useItemQueries.ts:12-22 | invalidating a key reaches everything below the keys it reaches |
| ItemQueries.CreateInvalidations | hooks/useItemQueries.ts:83-89 | a query goes stale after a create iff its key lies under `lists()` |
| ItemQueries.DeleteInvalidations | hooks/useItemQueries.ts:124-133 | a query goes stale iff it lies under `lists()`, or under `detail(id)` when an id was given |
| ItemQueries.UpdateInvalidations | hooks/useItemQueries.ts:169-183 | a query goes stale iff it lies under `detail(id)` or under `lists()` |
| ItemQueries.UpdateSparesOtherDetails | hooks/useItemQueries.ts:169-183 | an update never marks another item's detail stale |
| ItemQueries.DeleteWithoutIdSparesDetails | hooks/useItemQueries.ts:124-133 | a delete hook without an id leaves every detail query fresh |
| ItemQueries.PayloadOrganization | hooks/useItemQueries.ts:153-156 | the hook's organization when truthy, else the payload's own |

## Behaviour worth knowing

These are properties of the code as written, stated and proved above.

- The "admin" role that `createOrganization` creates lists `profile.*` and `organizations.*` permissions that no module defines, and its holder sees only the Dashboard link (`Dashboard.OrganizationAdminSeesOnlyDashboard`).
- `createUser` keeps the account when the verification mail fails, yet answers 500.
  - Its 404 for an unknown organization keeps the "user" role it created just before (`Users.Register`).
- `sendResetLink` answers 404 when the mail fails, after storing the secret.
- Verification does not clear the code (`Users.VerificationKeepsCode`).
  - Resend and reset share the `token` field, so a reset secret voids a pending code (`Users.ResetSecretReplacesCode`).
- Every `authorize` failure is rethrown as the same generic 401, so the specific reasons never reach the caller.
- `getOrCreateDefaultOrganization` is not idempotent for a user without an organization (`Auth.SecondCallFallsBack`).
  - `signIn` keeps an organization it created even when the user update throws.
- `getBrandsByOrganizationId` returns the whole envelope when its only `data` is falsy (`Brands.FalsyDataKeepsEnvelope`).
- In `updateUserById` the check `String(user?.token) !== String(otp)` comes after `user?.token !== otp` has passed, so it never fires.
- `useCreateItem`'s `listsItems(org)` invalidation is already covered by `lists()`.
  - A delete hook made without an id leaves detail caches fresh.
- `maskEmail` prints "undefined" as the domain of an address without '@'.

## Left out

- Sidebar.SidebarShape: the property that every menu `href` starts with "/dashboard" is not proved; the model states only the shape of the tree and the validity of its permissions.
- HTTP and axios: `getCategoriesByOrganizationId`, the item actions and the brands request itself are not modelled. `Brands.UnwrapBrands` takes the response as a value.
- Mail delivery (Resend) and `revalidatePath` are outside the model. A delivery failure is a parameter that only changes the status returned.
- bcrypt `hash` and `compare`, `generateOTP`, `generateToken`, `generateSlug` and `Math.random` are parameters.
- `Intl.DateTimeFormat`, date-fns `format`, `new Date(string)` and `formatCurrency` are parameters. A parsed date is its day of the month and its rendered text.
- Number-to-string formatting and `parseFloat`'s NaN are not modelled: prices are reals, and a missing or unparsable price is `None`.
- Concurrency: the races between an existence check and the insert that follows are not modelled, because each action is one atomic step.
- Database exceptions are not modelled. This covers the try/catch 500 answers for unexpected database errors, such as "Failed to update password" and "Failed to reset password". Only the throws the model can name are modelled: a taken slug, a missing user on update, a missing tax on delete.
- Ids are natural numbers from a counter, where the source uses cuid strings. An empty-string organization id therefore cannot be written.
- Lower-casing and upper-casing are ASCII only, with no Unicode case mapping.
- JavaScript string lengths, `charAt`, `slice`, `z.string().min(6)` and the regular expressions count UTF-16 code units, where the model counts characters. `maskEmail`, `truncatedText`, the code-length check and the slug and SKU filters therefore agree with the source only on text whose characters each take one code unit.
- Caller-supplied ids in the brand and category payloads are ignored: stored rows always get a fresh id.
- The OAuth `profile()` callbacks are not modelled. They look up the "user" role and call `getOrCreateDefaultOrganization`, which may create an organization; that write is not modelled on this path. The `session` callback only copies token fields and is not modelled either.
- `getAllUsers`, `getAllMembers` and `getAllOrganizations` are plain unfiltered reads, so they are not modelled.
- Foreign-key checks are not modelled: a unit, brand, tax or category may name an organization that does not exist.
- The branch of `getNormalDate` for an input that is neither a string nor a Date (lines 15-16) is not representable, because the input type has no such value.
- Sku.AssembleParts: the name-slice fact (the name prefix sits just before the digits) is proved only for the parts, not restated for `generateSKU` as a whole.
- NormalDate.OrdinalSuffix has no contract of its own. `NormalDate.SuffixIsEnglish` and `NormalDate.TeensTakeTh` state its meaning.
- VerifyToken.MaskEmail has no contract of its own. `VerifyToken.DomainPreserved` and `VerifyToken.NoDomain` state its meaning.
