/** The `<module>.<action>` permission vocabulary (config/permissions.ts). */
module Permissions {
  import opened Wrappers
  import opened Strings
  import opened Seqs

  /** The module names, in the order the vocabulary lists them. */
  const ModuleNames: seq<string> := [
    "dashboard", "users", "roles", "sales", "customers", "orders", "reports",
    "settings", "categories", "products", "blogs", "taxes", "brands", "units"
  ]

  /** The four actions of every module, in the order `Object.values` yields them. */
  const ActionNames: seq<string> := ["create", "read", "update", "delete"]

  datatype PermissionSet = PermissionSet(create: string, read: string, update: string, delete: string)

  datatype ModulePermissions = ModulePermissions(display: string, name: string, permissions: PermissionSet)

  function PermissionString(name: string, action: string): string
  {
    name + "." + action
  }

  /** `name.charAt(0).toUpperCase() + name.slice(1)`. */
  function Capitalize(name: string): (r: string)
    ensures |r| == |name|
  {
    if name == [] then [] else [UpperChar(name[0])] + name[1..]
  }

  /** The entry the `.map` callback builds for one module name. */
  function ModuleEntry(name: string): ModulePermissions
  {
    ModulePermissions(
      Capitalize(name),
      name,
      PermissionSet(
        PermissionString(name, "create"),
        PermissionString(name, "read"),
        PermissionString(name, "update"),
        PermissionString(name, "delete")))
  }

  /** The exported `permissions` table. */
  const Modules: seq<ModulePermissions> := MapEntries(ModuleNames)

  /** `names.map((name) => ({ display, name, permissions }))`. */
  function MapEntries(names: seq<string>): (ms: seq<ModulePermissions>)
    ensures |ms| == |names|
    ensures forall i :: 0 <= i < |names| ==> ms[i] == ModuleEntry(names[i])
  {
    if names == [] then [] else [ModuleEntry(names[0])] + MapEntries(names[1..])
  }

  /** `Object.values(module.permissions)`. */
  function Values(p: PermissionSet): seq<string>
  {
    [p.create, p.read, p.update, p.delete]
  }

  /** The four strings the table holds for one module name, in `Object.values` order. */
  function ModuleStrings(name: string): (r: seq<string>)
    ensures |r| == 4
    ensures forall j :: 0 <= j < 4 ==> r[j] == PermissionString(name, ActionNames[j])
  {
    [PermissionString(name, "create"), PermissionString(name, "read"),
     PermissionString(name, "update"), PermissionString(name, "delete")]
  }

  /** `ms.flatMap((module) => Object.values(module.permissions))`. */
  function FlatValues(ms: seq<ModulePermissions>): seq<string>
  {
    if ms == [] then [] else Values(ms[0].permissions) + FlatValues(ms[1..])
  }

  /** `getAllPermissions()`. */
  function AllPermissions(): seq<string>
  {
    FlatValues(Modules)
  }

  /** `isValidPermission(permission)`: `getAllPermissions().includes(permission)`. */
  predicate IsValidPermission(permission: string)
  {
    permission in AllPermissions()
  }

  /** `ms.find((m) => m.name === moduleName)?.permissions`. */
  function FindModule(ms: seq<ModulePermissions>, moduleName: string): Option<PermissionSet>
  {
    match FirstIndex(ms, (m: ModulePermissions) => m.name == moduleName)
    case None => None
    case Some(i) => Some(ms[i].permissions)
  }

  /** `getModulePermissions(moduleName)`. */
  function GetModulePermissions(moduleName: string): Option<PermissionSet>
  {
    FindModule(Modules, moduleName)
  }

  /**
   * `adminPermissions`: every module's four strings plus `"settings.access"`, written
   * group by group as the source lays them out (settings first gets the extra entry).
   */
  const AdminPermissions: seq<string> :=
    ["dashboard.create", "dashboard.read", "dashboard.update", "dashboard.delete"] +
    ["users.create", "users.read", "users.update", "users.delete"] +
    ["roles.create", "roles.read", "roles.update", "roles.delete"] +
    ["sales.create", "sales.read", "sales.update", "sales.delete"] +
    ["customers.create", "customers.read", "customers.update", "customers.delete"] +
    ["orders.create", "orders.read", "orders.update", "orders.delete"] +
    ["reports.create", "reports.read", "reports.update", "reports.delete"] +
    ["settings.access", "settings.create", "settings.read", "settings.update", "settings.delete"] +
    ["taxes.create", "taxes.read", "taxes.update", "taxes.delete"] +
    ["brands.create", "brands.read", "brands.update", "brands.delete"] +
    ["units.create", "units.read", "units.update", "units.delete"] +
    ["categories.create", "categories.read", "categories.update", "categories.delete"] +
    ["products.create", "products.read", "products.update", "products.delete"] +
    ["blogs.create", "blogs.read", "blogs.update", "blogs.delete"]

  const UserPermissions: seq<string> := [
    "dashboard.read", "profile.read", "profile.update", "products.read", "orders.read",
    "orders.create", "taxes.read", "categories.read", "customers.read"
  ]

  // ---------------------------------------------------------------------------
  // Facts about the table built from any list of names

  lemma EntryStrings(name: string)
    ensures Values(ModuleEntry(name).permissions) == ModuleStrings(name)
  {
  }

  /** A non-empty word of lower-case ASCII letters, as every module name is. */
  predicate IsLowerWord(s: string)
  {
    s != [] && forall k :: 0 <= k < |s| ==> IsLowerAscii(s[k])
  }

  lemma LowerWordHasNoDot(s: string)
    requires IsLowerWord(s)
    ensures '.' !in s
  {
  }

  lemma {:induction false} FlatValuesAt(ms: seq<ModulePermissions>, i: nat, j: nat)
    requires i < |ms| && j < 4
    ensures |FlatValues(ms)| == 4 * |ms|
    ensures FlatValues(ms)[4 * i + j] == Values(ms[i].permissions)[j]
  {
    if i > 0 {
      FlatValuesAt(ms[1..], i - 1, j);
    } else if |ms| > 1 {
      FlatValuesAt(ms[1..], 0, j);
    }
  }

  /** Four strings per name, laid out name by name. */
  lemma TableLayout(names: seq<string>)
    ensures |FlatValues(MapEntries(names))| == 4 * |names|
    ensures forall i, j :: 0 <= i < |names| && 0 <= j < 4 ==>
      FlatValues(MapEntries(names))[4 * i + j] == PermissionString(names[i], ActionNames[j])
  {
    var ms := MapEntries(names);
    if names != [] {
      FlatValuesAt(ms, 0, 0);
    }
    forall i, j | 0 <= i < |names| && 0 <= j < 4
      ensures FlatValues(ms)[4 * i + j] == PermissionString(names[i], ActionNames[j])
    {
      FlatValuesAt(ms, i, j);
      assert Values(ms[i].permissions) == ModuleStrings(names[i]);
    }
  }

  /** The flattened table holds exactly the strings of its names. */
  lemma {:induction false} TableStrings(names: seq<string>, p: string)
    ensures p in FlatValues(MapEntries(names)) <==> exists name :: name in names && p in ModuleStrings(name)
  {
    if names != [] {
      TableStrings(names[1..], p);
      var ms := MapEntries(names);
      assert ms[1..] == MapEntries(names[1..]);
      assert FlatValues(ms) == ModuleStrings(names[0]) + FlatValues(MapEntries(names[1..]));
      assert forall name :: name in names <==> name == names[0] || name in names[1..];
    }
  }

  lemma TablePairOf(names: seq<string>, p: string)
    requires p in FlatValues(MapEntries(names))
    ensures exists name, action :: name in names && action in ActionNames && p == PermissionString(name, action)
  {
    TableStrings(names, p);
    var name :| name in names && p in ModuleStrings(name);
    var j :| 0 <= j < 4 && ModuleStrings(name)[j] == p;
    assert ActionNames[j] in ActionNames;
  }

  lemma PairInTable(names: seq<string>, name: string, action: string)
    requires name in names && action in ActionNames
    ensures PermissionString(name, action) in FlatValues(MapEntries(names))
  {
    var j :| 0 <= j < 4 && ActionNames[j] == action;
    assert ModuleStrings(name)[j] == PermissionString(name, action);
    TableStrings(names, PermissionString(name, action));
  }

  /** The flattened table holds exactly the strings `<name>.<action>` of its names and the four actions. */
  lemma TablePairs(names: seq<string>, p: string)
    ensures p in FlatValues(MapEntries(names)) <==>
      exists name, action :: name in names && action in ActionNames && p == PermissionString(name, action)
  {
    if p in FlatValues(MapEntries(names)) {
      TablePairOf(names, p);
    }
    if exists name, action :: name in names && action in ActionNames && p == PermissionString(name, action) {
      var name, action :| name in names && action in ActionNames && p == PermissionString(name, action);
      PairInTable(names, name, action);
    }
  }

  /** The same, by position in the list of names. */
  lemma TableStringsAt(names: seq<string>, p: string)
    ensures p in FlatValues(MapEntries(names)) <==> exists i :: 0 <= i < |names| && p in ModuleStrings(names[i])
  {
    TableStrings(names, p);
    if p in FlatValues(MapEntries(names)) {
      var name :| name in names && p in ModuleStrings(name);
      var i :| 0 <= i < |names| && names[i] == name;
      assert p in ModuleStrings(names[i]);
    }
  }

  /** With dot-free names, `<name>.<action>` determines both name and action. */
  lemma PermissionStringInjective(n1: string, a1: string, n2: string, a2: string)
    requires '.' !in n1 && '.' !in n2
    ensures PermissionString(n1, a1) == PermissionString(n2, a2) <==> n1 == n2 && a1 == a2
  {
    var s1, s2 := PermissionString(n1, a1), PermissionString(n2, a2);
    if s1 == s2 {
      assert s1[|n1|] == '.' && s2[|n2|] == '.';
      assert forall k :: 0 <= k < |n1| ==> s1[k] == n1[k];
      assert forall k :: 0 <= k < |n2| ==> s2[k] == n2[k];
      assert |n1| == |n2|;
      assert n1 == s1[..|n1|] && n2 == s2[..|n2|];
      assert a1 == s1[|n1| + 1..] && a2 == s2[|n2| + 1..];
    }
  }

  /** Distinct dot-free names give a table with no string twice. */
  lemma {:induction false} TableDistinct(names: seq<string>)
    requires NoDuplicates(names)
    requires forall i :: 0 <= i < |names| ==> IsLowerWord(names[i])
    ensures NoDuplicates(FlatValues(MapEntries(names)))
  {
    if names != [] {
      forall i | 0 <= i < |names| ensures '.' !in names[i] {
        LowerWordHasNoDot(names[i]);
      }
      var ms := MapEntries(names);
      assert ms[1..] == MapEntries(names[1..]);
      var head, rest := ModuleStrings(names[0]), FlatValues(MapEntries(names[1..]));
      assert FlatValues(ms) == head + rest;
      TableDistinct(names[1..]);
      forall j1, j2 | 0 <= j1 < j2 < 4 ensures head[j1] != head[j2] {
        PermissionStringInjective(names[0], ActionNames[j1], names[0], ActionNames[j2]);
      }
      forall p | p in head ensures p !in rest {
        TableStrings(names[1..], p);
        if p in rest {
          var name :| name in names[1..] && p in ModuleStrings(name);
          var j1 :| 0 <= j1 < 4 && head[j1] == p;
          var j2 :| 0 <= j2 < 4 && ModuleStrings(name)[j2] == p;
          PermissionStringInjective(names[0], ActionNames[j1], name, ActionNames[j2]);
          assert false;
        }
      }
      DistinctConcat(head, rest);
    }
  }

  /** Lower-casing the capitalised form of a lower-case word gives the word back. */
  lemma CapitalizeRoundTrip(name: string)
    requires IsLowerWord(name)
    ensures Lower(Capitalize(name)) == name
    ensures IsUpperAscii(Capitalize(name)[0]) && Capitalize(name)[1..] == name[1..]
  {
    LowerUpperChar(name[0]);
    var c := Capitalize(name);
    forall k | 0 <= k < |name| ensures Lower(c)[k] == name[k] {
      if k > 0 {
        assert c[k] == name[k];
      }
    }
  }

  /** For lower-case names, each entry's display name lower-cases back to its name. */
  lemma TableDisplays(names: seq<string>)
    requires forall i :: 0 <= i < |names| ==> IsLowerWord(names[i])
    ensures forall i :: 0 <= i < |names| ==>
      && MapEntries(names)[i].name == names[i]
      && Lower(MapEntries(names)[i].display) == names[i]
      && |MapEntries(names)[i].display| == |names[i]| > 0
      && IsUpperAscii(MapEntries(names)[i].display[0])
      && MapEntries(names)[i].display[1..] == names[i][1..]
  {
    forall i | 0 <= i < |names|
      ensures Lower(MapEntries(names)[i].display) == names[i]
      ensures IsUpperAscii(MapEntries(names)[i].display[0]) && MapEntries(names)[i].display[1..] == names[i][1..]
    {
      CapitalizeRoundTrip(names[i]);
    }
  }

  /** The entry found for a name is the one the table built for it. */
  lemma TableLookup(names: seq<string>, m: string)
    ensures FindModule(MapEntries(names), m).Some? <==> m in names
    ensures FindModule(MapEntries(names), m).Some? ==> FindModule(MapEntries(names), m).value == ModuleEntry(m).permissions
  {
    var ms := MapEntries(names);
    var found := FirstIndex(ms, (e: ModulePermissions) => e.name == m);
    if found.Some? {
      assert names[found.value] == m;
    }
  }

  // `adminPermissions` lists the strings of the fourteen modules n[0..13] in this arrangement:
  // the first seven, then an extra string, then n[7], then n[11..13], then n[8..10].

  lemma ArrangementHasModule(n: seq<string>, extra: string, p: string, i: nat)
    requires |n| == 14 && i < 14
    requires p in ModuleStrings(n[i])
    ensures p in
      ModuleStrings(n[0]) + ModuleStrings(n[1]) + ModuleStrings(n[2]) + ModuleStrings(n[3]) +
      ModuleStrings(n[4]) + ModuleStrings(n[5]) + ModuleStrings(n[6]) + ([extra] + ModuleStrings(n[7])) +
      ModuleStrings(n[11]) + ModuleStrings(n[12]) + ModuleStrings(n[13]) +
      ModuleStrings(n[8]) + ModuleStrings(n[9]) + ModuleStrings(n[10])
  {
  }

  /** Rearranging the modules loses no string of the table ... */
  lemma TableInArrangement(n: seq<string>, extra: string, p: string)
    requires |n| == 14
    requires p in FlatValues(MapEntries(n))
    ensures p in
      ModuleStrings(n[0]) + ModuleStrings(n[1]) + ModuleStrings(n[2]) + ModuleStrings(n[3]) +
      ModuleStrings(n[4]) + ModuleStrings(n[5]) + ModuleStrings(n[6]) + ([extra] + ModuleStrings(n[7])) +
      ModuleStrings(n[11]) + ModuleStrings(n[12]) + ModuleStrings(n[13]) +
      ModuleStrings(n[8]) + ModuleStrings(n[9]) + ModuleStrings(n[10])
  {
    TableStringsAt(n, p);
    var i :| 0 <= i < |n| && p in ModuleStrings(n[i]);
    ArrangementHasModule(n, extra, p, i);
  }

  /** ... and adds none besides `extra`. */
  lemma ArrangementInTable(n: seq<string>, extra: string, p: string)
    requires |n| == 14
    requires p in
      ModuleStrings(n[0]) + ModuleStrings(n[1]) + ModuleStrings(n[2]) + ModuleStrings(n[3]) +
      ModuleStrings(n[4]) + ModuleStrings(n[5]) + ModuleStrings(n[6]) + ([extra] + ModuleStrings(n[7])) +
      ModuleStrings(n[11]) + ModuleStrings(n[12]) + ModuleStrings(n[13]) +
      ModuleStrings(n[8]) + ModuleStrings(n[9]) + ModuleStrings(n[10])
    requires p != extra
    ensures p in FlatValues(MapEntries(n))
  {
    TableStringsAt(n, p);
  }

  /** The arrangement holds exactly the table's strings and `extra`. */
  lemma ArrangementMembership(n: seq<string>, extra: string, p: string)
    requires |n| == 14
    ensures p in
      ModuleStrings(n[0]) + ModuleStrings(n[1]) + ModuleStrings(n[2]) + ModuleStrings(n[3]) +
      ModuleStrings(n[4]) + ModuleStrings(n[5]) + ModuleStrings(n[6]) + ([extra] + ModuleStrings(n[7])) +
      ModuleStrings(n[11]) + ModuleStrings(n[12]) + ModuleStrings(n[13]) +
      ModuleStrings(n[8]) + ModuleStrings(n[9]) + ModuleStrings(n[10])
      <==> p in FlatValues(MapEntries(n)) || p == extra
  {
    if p in FlatValues(MapEntries(n)) {
      TableInArrangement(n, extra, p);
    }
    if p != extra && p in
        ModuleStrings(n[0]) + ModuleStrings(n[1]) + ModuleStrings(n[2]) + ModuleStrings(n[3]) +
        ModuleStrings(n[4]) + ModuleStrings(n[5]) + ModuleStrings(n[6]) + ([extra] + ModuleStrings(n[7])) +
        ModuleStrings(n[11]) + ModuleStrings(n[12]) + ModuleStrings(n[13]) +
        ModuleStrings(n[8]) + ModuleStrings(n[9]) + ModuleStrings(n[10]) {
      ArrangementInTable(n, extra, p);
    }
  }

  // ---------------------------------------------------------------------------
  // Facts about the configured vocabulary

  /** The module names are distinct. */
  lemma NamesDistinct()
    ensures NoDuplicates(ModuleNames)
  {
  }

  /** Every module name is a lower-case word, so none contains a dot. */
  lemma NamesLowerCase()
    ensures forall i :: 0 <= i < |ModuleNames| ==> IsLowerWord(ModuleNames[i])
    ensures forall name :: name in ModuleNames ==> '.' !in name
  {
    forall i | 0 <= i < |ModuleNames| ensures '.' !in ModuleNames[i] {
      LowerWordHasNoDot(ModuleNames[i]);
    }
  }

  /** `getAllPermissions()` is 56 strings, `<name>.<action>` for each module in order. */
  lemma AllPermissionsLayout()
    ensures |AllPermissions()| == 4 * |ModuleNames| == 56
    ensures forall i, j :: 0 <= i < |ModuleNames| && 0 <= j < 4 ==>
      AllPermissions()[4 * i + j] == PermissionString(ModuleNames[i], ActionNames[j])
  {
    TableLayout(ModuleNames);
  }

  /** `isValidPermission(p)` holds exactly for the strings `<module>.<action>`. */
  lemma ValidPermissionIff(p: string)
    ensures IsValidPermission(p) <==>
      exists name, action :: name in ModuleNames && action in ActionNames && p == PermissionString(name, action)
  {
    TablePairs(ModuleNames, p);
  }

  /** `getAllPermissions()` lists no string twice. */
  lemma AllPermissionsDistinct()
    ensures NoDuplicates(AllPermissions())
  {
    NamesDistinct();
    NamesLowerCase();
    TableDistinct(ModuleNames);
  }

  /** Every entry's `display` is its name with the first letter upper-cased and nothing else changed. */
  lemma DisplayNames()
    ensures |Modules| == |ModuleNames|
    ensures forall i :: 0 <= i < |ModuleNames| ==>
      && Modules[i].name == ModuleNames[i]
      && Lower(Modules[i].display) == ModuleNames[i]
      && |Modules[i].display| == |ModuleNames[i]| > 0
      && IsUpperAscii(Modules[i].display[0])
      && Modules[i].display[1..] == ModuleNames[i][1..]
  {
    NamesLowerCase();
    TableDisplays(ModuleNames);
  }

  /** `getModulePermissions(m)` gives the four strings of `m` for a listed module, and undefined otherwise. */
  lemma GetModulePermissionsSpec(m: string)
    ensures GetModulePermissions(m).Some? <==> m in ModuleNames
    ensures GetModulePermissions(m).Some? ==> Values(GetModulePermissions(m).value) == ModuleStrings(m)
  {
    TableLookup(ModuleNames, m);
  }

  /** A literal group of four strings that spells out the strings of `name`. */
  lemma SpelledOut(group: seq<string>, name: string)
    requires |group| == 4
    requires group[0] == PermissionString(name, "create") && group[1] == PermissionString(name, "read")
    requires group[2] == PermissionString(name, "update") && group[3] == PermissionString(name, "delete")
    ensures group == ModuleStrings(name)
  {
  }

  /**
   * The groups of `adminPermissions` spell out the strings of their modules; the check is
   * split in four so that each part stays small.
   */
  lemma AdminGroupsSpelledA()
    ensures ["dashboard.create", "dashboard.read", "dashboard.update", "dashboard.delete"] == ModuleStrings("dashboard")
    ensures ["users.create", "users.read", "users.update", "users.delete"] == ModuleStrings("users")
    ensures ["roles.create", "roles.read", "roles.update", "roles.delete"] == ModuleStrings("roles")
    ensures ["sales.create", "sales.read", "sales.update", "sales.delete"] == ModuleStrings("sales")
  {
    SpelledOut(["dashboard.create", "dashboard.read", "dashboard.update", "dashboard.delete"], "dashboard");
    SpelledOut(["users.create", "users.read", "users.update", "users.delete"], "users");
    SpelledOut(["roles.create", "roles.read", "roles.update", "roles.delete"], "roles");
    SpelledOut(["sales.create", "sales.read", "sales.update", "sales.delete"], "sales");
  }

  lemma AdminGroupsSpelledB()
    ensures ["customers.create", "customers.read", "customers.update", "customers.delete"] == ModuleStrings("customers")
    ensures ["orders.create", "orders.read", "orders.update", "orders.delete"] == ModuleStrings("orders")
    ensures ["reports.create", "reports.read", "reports.update", "reports.delete"] == ModuleStrings("reports")
    ensures ["settings.create", "settings.read", "settings.update", "settings.delete"] == ModuleStrings("settings")
  {
    SpelledOut(["customers.create", "customers.read", "customers.update", "customers.delete"], "customers");
    SpelledOut(["orders.create", "orders.read", "orders.update", "orders.delete"], "orders");
    SpelledOut(["reports.create", "reports.read", "reports.update", "reports.delete"], "reports");
    SpelledOut(["settings.create", "settings.read", "settings.update", "settings.delete"], "settings");
  }

  lemma AdminGroupsSpelledC()
    ensures ["taxes.create", "taxes.read", "taxes.update", "taxes.delete"] == ModuleStrings("taxes")
    ensures ["brands.create", "brands.read", "brands.update", "brands.delete"] == ModuleStrings("brands")
    ensures ["units.create", "units.read", "units.update", "units.delete"] == ModuleStrings("units")
  {
    SpelledOut(["taxes.create", "taxes.read", "taxes.update", "taxes.delete"], "taxes");
    SpelledOut(["brands.create", "brands.read", "brands.update", "brands.delete"], "brands");
    SpelledOut(["units.create", "units.read", "units.update", "units.delete"], "units");
  }

  lemma AdminGroupsSpelledD()
    ensures ["categories.create", "categories.read", "categories.update", "categories.delete"] == ModuleStrings("categories")
    ensures ["products.create", "products.read", "products.update", "products.delete"] == ModuleStrings("products")
    ensures ["blogs.create", "blogs.read", "blogs.update", "blogs.delete"] == ModuleStrings("blogs")
  {
    SpelledOut(["categories.create", "categories.read", "categories.update", "categories.delete"], "categories");
    SpelledOut(["products.create", "products.read", "products.update", "products.delete"], "products");
    SpelledOut(["blogs.create", "blogs.read", "blogs.update", "blogs.delete"], "blogs");
  }

  /**
   * `adminPermissions` holds the strings of every module, dashboard to reports in table
   * order, then `"settings.access"`, then settings, taxes, brands, units, categories,
   * products and blogs.
   */
  lemma AdminLayout()
    ensures AdminPermissions ==
      ModuleStrings("dashboard") + ModuleStrings("users") + ModuleStrings("roles") + ModuleStrings("sales") +
      ModuleStrings("customers") + ModuleStrings("orders") + ModuleStrings("reports") +
      (["settings.access"] + ModuleStrings("settings")) +
      ModuleStrings("taxes") + ModuleStrings("brands") + ModuleStrings("units") +
      ModuleStrings("categories") + ModuleStrings("products") + ModuleStrings("blogs")
  {
    AdminGroupsSpelledA();
    AdminGroupsSpelledB();
    AdminGroupsSpelledC();
    AdminGroupsSpelledD();
    assert ["settings.access", "settings.create", "settings.read", "settings.update", "settings.delete"] ==
      ["settings.access"] + ["settings.create", "settings.read", "settings.update", "settings.delete"];
  }

  /** The module names by position. */
  lemma NamesListed()
    ensures |ModuleNames| == 14
    ensures ModuleNames[0] == "dashboard" && ModuleNames[1] == "users" && ModuleNames[2] == "roles"
    ensures ModuleNames[3] == "sales" && ModuleNames[4] == "customers" && ModuleNames[5] == "orders"
    ensures ModuleNames[6] == "reports" && ModuleNames[7] == "settings" && ModuleNames[8] == "categories"
    ensures ModuleNames[9] == "products" && ModuleNames[10] == "blogs" && ModuleNames[11] == "taxes"
    ensures ModuleNames[12] == "brands" && ModuleNames[13] == "units"
  {
  }

  /** `adminPermissions` is the table rearranged, with `"settings.access"` ahead of the settings strings. */
  lemma AdminArranged()
    ensures AdminPermissions ==
      ModuleStrings(ModuleNames[0]) + ModuleStrings(ModuleNames[1]) + ModuleStrings(ModuleNames[2]) + ModuleStrings(ModuleNames[3]) +
      ModuleStrings(ModuleNames[4]) + ModuleStrings(ModuleNames[5]) + ModuleStrings(ModuleNames[6]) + (["settings.access"] + ModuleStrings(ModuleNames[7])) +
      ModuleStrings(ModuleNames[11]) + ModuleStrings(ModuleNames[12]) + ModuleStrings(ModuleNames[13]) +
      ModuleStrings(ModuleNames[8]) + ModuleStrings(ModuleNames[9]) + ModuleStrings(ModuleNames[10])
  {
    AdminLayout();
    NamesListed();
  }

  /** Every pair of a listed module and a listed action names a valid permission. */
  lemma ValidPair(name: string, action: string)
    requires name in ModuleNames && action in ActionNames
    ensures IsValidPermission(PermissionString(name, action))
  {
    ValidPermissionIff(PermissionString(name, action));
  }

  /** A dot-free name outside the table, or an action outside the four, never gives a valid permission. */
  lemma InvalidPair(name: string, action: string)
    requires '.' !in name
    requires name !in ModuleNames || action !in ActionNames
    ensures !IsValidPermission(PermissionString(name, action))
  {
    NamesLowerCase();
    var p := PermissionString(name, action);
    ValidPermissionIff(p);
    if IsValidPermission(p) {
      var n, a :| n in ModuleNames && a in ActionNames && p == PermissionString(n, a);
      PermissionStringInjective(name, action, n, a);
      assert false;
    }
  }

  /** Every valid permission is in `adminPermissions`, and the only other entry is `"settings.access"` ... */
  lemma AdminMembership(p: string)
    ensures p in AdminPermissions <==> IsValidPermission(p) || p == "settings.access"
  {
    AdminArranged();
    assert AllPermissions() == FlatValues(MapEntries(ModuleNames));
    ArrangementMembership(ModuleNames, "settings.access", p);
  }

  /** ... which is not a valid permission: there is no `access` action. */
  lemma SettingsAccessInvalid()
    ensures !IsValidPermission("settings.access")
  {
    assert "settings.access" == PermissionString("settings", "access");
    InvalidPair("settings", "access");
  }

  // One lemma per entry of `userPermissions`: each decides whether that entry is valid.
  // Each takes the entry as a parameter, so that no proof has to tell the literal
  // strings apart from each other or from the whole list.

  lemma UserEntry0(p: string)
    requires p == "dashboard.read"
    ensures IsValidPermission(p)
  {
    assert p == PermissionString("dashboard", "read");
    ValidPair("dashboard", "read");
  }

  lemma UserEntry1(p: string)
    requires p == "profile.read"
    ensures !IsValidPermission(p)
  {
    assert p == PermissionString("profile", "read");
    InvalidPair("profile", "read");
  }

  lemma UserEntry2(p: string)
    requires p == "profile.update"
    ensures !IsValidPermission(p)
  {
    assert p == PermissionString("profile", "update");
    InvalidPair("profile", "update");
  }

  lemma UserEntry3(p: string)
    requires p == "products.read"
    ensures IsValidPermission(p)
  {
    assert p == PermissionString("products", "read");
    ValidPair("products", "read");
  }

  lemma UserEntry4(p: string)
    requires p == "orders.read"
    ensures IsValidPermission(p)
  {
    assert p == PermissionString("orders", "read");
    ValidPair("orders", "read");
  }

  lemma UserEntry5(p: string)
    requires p == "orders.create"
    ensures IsValidPermission(p)
  {
    assert p == PermissionString("orders", "create");
    ValidPair("orders", "create");
  }

  lemma UserEntry6(p: string)
    requires p == "taxes.read"
    ensures IsValidPermission(p)
  {
    assert p == PermissionString("taxes", "read");
    ValidPair("taxes", "read");
  }

  lemma UserEntry7(p: string)
    requires p == "categories.read"
    ensures IsValidPermission(p)
  {
    assert p == PermissionString("categories", "read");
    ValidPair("categories", "read");
  }

  lemma UserEntry8(p: string)
    requires p == "customers.read"
    ensures IsValidPermission(p)
  {
    assert p == PermissionString("customers", "read");
    ValidPair("customers", "read");
  }

  /**
   * Of `userPermissions`, exactly the second and third entries, `"profile.read"` and
   * `"profile.update"`, fail `isValidPermission`: there is no profile module.
   */
  lemma UserPermissionsValidity()
    ensures |UserPermissions| == 9
    ensures forall i :: 0 <= i < |UserPermissions| ==> (IsValidPermission(UserPermissions[i]) <==> i != 1 && i != 2)
  {
    forall i | 0 <= i < |UserPermissions|
      ensures IsValidPermission(UserPermissions[i]) <==> i != 1 && i != 2
    {
      var p := UserPermissions[i];
      if i == 0 { UserEntry0(p); } else if i == 1 { UserEntry1(p); } else if i == 2 { UserEntry2(p); }
      else if i == 3 { UserEntry3(p); } else if i == 4 { UserEntry4(p); } else if i == 5 { UserEntry5(p); }
      else if i == 6 { UserEntry6(p); } else if i == 7 { UserEntry7(p); } else { UserEntry8(p); }
    }
  }
}
