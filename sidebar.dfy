/** The navigation tree `sidebarLinks` (config/sidebar.ts) and the facts the filters rely on. */
module Sidebar {
  import opened Wrappers
  import opened Strings
  import opened Permissions

  /** The lucide icons the tree uses; the filters only carry them along. */
  datatype Icon = Home | BaggageClaim | CircleDollarSign | Presentation | BarChart2 | Link | Book | Settings

  /** `MenuItem`: a dropdown entry and the permission that shows it. */
  datatype MenuItem = MenuItem(title: string, href: string, permission: string)

  /** `ISidebarLink`: `href` and `dropdownMenu` are optional fields. */
  datatype SidebarLink = SidebarLink(
    title: string,
    href: Option<string>,
    icon: Icon,
    dropdown: bool,
    permission: string,
    dropdownMenu: Option<seq<MenuItem>>)

  const InventoryMenu: seq<MenuItem> := [
    MenuItem("Items", "/dashboard/inventory/items", "products.read"),
    MenuItem("Categories", "/dashboard/inventory/categories", "categories.read"),
    MenuItem("Brands", "/dashboard/inventory/brands", "products.read"),
    MenuItem("Units", "/dashboard/inventory/units", "products.read"),
    MenuItem("Current Stock", "/dashboard/inventory/current-stock", "products.read"),
    MenuItem("Low Stock Items", "/dashboard/inventory/low-stock-items", "products.read"),
    MenuItem("Serial Numbers", "/dashboard/inventory/serial-numbers", "products.read"),
    MenuItem("Stock Transfers", "/dashboard/inventory/transfers", "products.read"),
    MenuItem("Create Transfer", "/dashboard/inventory/transfers/create", "products.create"),
    MenuItem("Stock Adjustments", "/dashboard/inventory/adjustments", "products.update")
  ]

  const PurchasesMenu: seq<MenuItem> := [
    MenuItem("Purchase Orders", "/dashboard/purchases/orders", "products.read"),
    MenuItem("Create Purchase Order", "/dashboard/purchases/orders/create", "products.create"),
    MenuItem("Goods Receipts", "/dashboard/purchases/purchase/receipts", "products.read"),
    MenuItem("Create Receipt", "/dashboard/purchases/purchase/receipts/create", "products.create"),
    MenuItem("Suppliers", "/dashboard/purchases/suppliers", "products.read"),
    MenuItem("Add Supplier", "/dashboard/purchases/suppliers/add", "products.create")
  ]

  const SalesMenu: seq<MenuItem> := [
    MenuItem("POS Sales", "/dashboard/sales/pos", "sales.read"),
    MenuItem("Sales Orders", "/dashboard/sales/orders", "orders.read"),
    MenuItem("Create Sales Order", "/dashboard/sales/orders/create", "orders.create"),
    MenuItem("Returns", "/dashboard/sales/returns", "sales.read"),
    MenuItem("Create Return", "/dashboard/sales/returns/create", "sales.create"),
    MenuItem("Customers", "/dashboard/sales/customers", "customers.read")
  ]

  const ReportsMenu: seq<MenuItem> := [
    MenuItem("Stock Movement", "/dashboard/reports/inventory/movement", "reports.read"),
    MenuItem("Inventory Valuation", "/dashboard/reports/inventory/valuation", "reports.read"),
    MenuItem("Aging Analysis", "/dashboard/reports/inventory/aging", "reports.read"),
    MenuItem("Purchase Summary", "/dashboard/reports/purchases/summary", "reports.read"),
    MenuItem("Supplier Performance", "/dashboard/reports/purchases/supplier-performance", "reports.read"),
    MenuItem("Sales Summary", "/dashboard/reports/sales/summary", "reports.read"),
    MenuItem("Product Performance", "/dashboard/reports/sales/product-performance", "reports.read")
  ]

  const IntegrationsMenu: seq<MenuItem> := [
    MenuItem("POS Integrations", "/dashboard/integrations/pos", "settings.read"),
    MenuItem("Accounting Integrations", "/dashboard/integrations/accounting", "settings.read"),
    MenuItem("API Settings", "/dashboard/integrations/api", "settings.read")
  ]

  const BlogsMenu: seq<MenuItem> := [
    MenuItem("All Blogs", "/dashboard/blogs", "blogs.read"),
    MenuItem("Add Blog", "/dashboard/blogs/create", "blogs.create")
  ]

  const SettingsMenu: seq<MenuItem> := [
    MenuItem("Locations", "/dashboard/settings/locations", "settings.read"),
    MenuItem("Add Location", "/dashboard/settings/locations/create", "settings.create"),
    MenuItem("Users", "/dashboard/settings/users", "users.read"),
    MenuItem("Roles & Permissions", "/dashboard/settings/roles", "roles.read"),
    MenuItem("Company Settings", "/dashboard/settings/company", "settings.read"),
    MenuItem("Tax Rates", "/dashboard/settings/tax-rates", "settings.read"),
    MenuItem("Profile", "/dashboard/settings/profile", "users.read"),
    MenuItem("Change Password", "/dashboard/settings/change-password", "users.update")
  ]

  /** `sidebarLinks`, in source order. */
  const SidebarLinks: seq<SidebarLink> := [
    SidebarLink("Dashboard", Some("/dashboard"), Home, false, "dashboard.read", None),
    SidebarLink("Inventory", Some("/dashboard/inventory/products"), BaggageClaim, true, "products.read", Some(InventoryMenu)),
    SidebarLink("Purchases", Some("/dashboard/purchases/orders"), CircleDollarSign, true, "products.read", Some(PurchasesMenu)),
    SidebarLink("Sales", Some("/dashboard/sales/orders"), Presentation, true, "sales.read", Some(SalesMenu)),
    SidebarLink("Reports", Some("/dashboard/reports"), BarChart2, true, "reports.read", Some(ReportsMenu)),
    SidebarLink("Integrations", Some("/dashboard/integrations/pos"), Link, true, "settings.read", Some(IntegrationsMenu)),
    SidebarLink("Blogs", Some("/dashboard/blogs"), Book, true, "blogs.read", Some(BlogsMenu)),
    SidebarLink("Settings", Some("/dashboard/settings"), Settings, true, "settings.read", Some(SettingsMenu))
  ]

  // ---------------------------------------------------------------------------
  // Shape of the tree

  /** Dashboard is the one plain link; every other link is a dropdown with a non-empty menu. */
  lemma SidebarShape()
    ensures |SidebarLinks| == 8
    ensures SidebarLinks[0].title == "Dashboard" && SidebarLinks[0].dropdownMenu.None?
    ensures forall i :: 0 <= i < |SidebarLinks| ==> (SidebarLinks[i].dropdown <==> i != 0)
    ensures forall i :: 0 <= i < |SidebarLinks| && SidebarLinks[i].dropdown ==>
      SidebarLinks[i].dropdownMenu.Some? && |SidebarLinks[i].dropdownMenu.value| > 0
  {
  }

  // ---------------------------------------------------------------------------
  // Every permission in the tree is a valid permission.
  // One lemma per permission string the tree uses; each takes the string as a parameter so
  // that its callers never have to compare literal strings with the whole vocabulary.

  lemma BlogsCreateValid(p: string)
    requires p == "blogs.create"
    ensures IsValidPermission(p)
  {
    assert p == PermissionString("blogs", "create");
    ValidPair("blogs", "create");
  }

  lemma BlogsReadValid(p: string)
    requires p == "blogs.read"
    ensures IsValidPermission(p)
  {
    assert p == PermissionString("blogs", "read");
    ValidPair("blogs", "read");
  }

  lemma CategoriesReadValid(p: string)
    requires p == "categories.read"
    ensures IsValidPermission(p)
  {
    assert p == PermissionString("categories", "read");
    ValidPair("categories", "read");
  }

  lemma CustomersReadValid(p: string)
    requires p == "customers.read"
    ensures IsValidPermission(p)
  {
    assert p == PermissionString("customers", "read");
    ValidPair("customers", "read");
  }

  lemma DashboardReadValid(p: string)
    requires p == "dashboard.read"
    ensures IsValidPermission(p)
  {
    assert p == PermissionString("dashboard", "read");
    ValidPair("dashboard", "read");
  }

  lemma OrdersCreateValid(p: string)
    requires p == "orders.create"
    ensures IsValidPermission(p)
  {
    assert p == PermissionString("orders", "create");
    ValidPair("orders", "create");
  }

  lemma OrdersReadValid(p: string)
    requires p == "orders.read"
    ensures IsValidPermission(p)
  {
    assert p == PermissionString("orders", "read");
    ValidPair("orders", "read");
  }

  lemma ProductsCreateValid(p: string)
    requires p == "products.create"
    ensures IsValidPermission(p)
  {
    assert p == PermissionString("products", "create");
    ValidPair("products", "create");
  }

  lemma ProductsReadValid(p: string)
    requires p == "products.read"
    ensures IsValidPermission(p)
  {
    assert p == PermissionString("products", "read");
    ValidPair("products", "read");
  }

  lemma ProductsUpdateValid(p: string)
    requires p == "products.update"
    ensures IsValidPermission(p)
  {
    assert p == PermissionString("products", "update");
    ValidPair("products", "update");
  }

  lemma ReportsReadValid(p: string)
    requires p == "reports.read"
    ensures IsValidPermission(p)
  {
    assert p == PermissionString("reports", "read");
    ValidPair("reports", "read");
  }

  lemma RolesReadValid(p: string)
    requires p == "roles.read"
    ensures IsValidPermission(p)
  {
    assert p == PermissionString("roles", "read");
    ValidPair("roles", "read");
  }

  lemma SalesCreateValid(p: string)
    requires p == "sales.create"
    ensures IsValidPermission(p)
  {
    assert p == PermissionString("sales", "create");
    ValidPair("sales", "create");
  }

  lemma SalesReadValid(p: string)
    requires p == "sales.read"
    ensures IsValidPermission(p)
  {
    assert p == PermissionString("sales", "read");
    ValidPair("sales", "read");
  }

  lemma SettingsCreateValid(p: string)
    requires p == "settings.create"
    ensures IsValidPermission(p)
  {
    assert p == PermissionString("settings", "create");
    ValidPair("settings", "create");
  }

  lemma SettingsReadValid(p: string)
    requires p == "settings.read"
    ensures IsValidPermission(p)
  {
    assert p == PermissionString("settings", "read");
    ValidPair("settings", "read");
  }

  lemma UsersReadValid(p: string)
    requires p == "users.read"
    ensures IsValidPermission(p)
  {
    assert p == PermissionString("users", "read");
    ValidPair("users", "read");
  }

  lemma UsersUpdateValid(p: string)
    requires p == "users.update"
    ensures IsValidPermission(p)
  {
    assert p == PermissionString("users", "update");
    ValidPair("users", "update");
  }

  /** Every entry of `menu` is guarded by a valid permission. */
  predicate MenuValid(menu: seq<MenuItem>)
  {
    forall j :: 0 <= j < |menu| ==> IsValidPermission(menu[j].permission)
  }

  /** The link's own permission and those of its menu, if it has one, are all valid. */
  predicate LinkValid(link: SidebarLink)
  {
    && IsValidPermission(link.permission)
    && (link.dropdownMenu.Some? ==> MenuValid(link.dropdownMenu.value))
  }

  lemma InventoryMenuValid()
    ensures MenuValid(InventoryMenu)
  {
    forall j | 0 <= j < |InventoryMenu|
      ensures IsValidPermission(InventoryMenu[j].permission)
    {
      var p := InventoryMenu[j].permission;
      if j == 0 { ProductsReadValid(p); }
      else if j == 1 { CategoriesReadValid(p); }
      else if j == 2 { ProductsReadValid(p); }
      else if j == 3 { ProductsReadValid(p); }
      else if j == 4 { ProductsReadValid(p); }
      else if j == 5 { ProductsReadValid(p); }
      else if j == 6 { ProductsReadValid(p); }
      else if j == 7 { ProductsReadValid(p); }
      else if j == 8 { ProductsCreateValid(p); }
      else { ProductsUpdateValid(p); }
    }
  }

  lemma PurchasesMenuValid()
    ensures MenuValid(PurchasesMenu)
  {
    forall j | 0 <= j < |PurchasesMenu|
      ensures IsValidPermission(PurchasesMenu[j].permission)
    {
      var p := PurchasesMenu[j].permission;
      if j == 0 { ProductsReadValid(p); }
      else if j == 1 { ProductsCreateValid(p); }
      else if j == 2 { ProductsReadValid(p); }
      else if j == 3 { ProductsCreateValid(p); }
      else if j == 4 { ProductsReadValid(p); }
      else { ProductsCreateValid(p); }
    }
  }

  lemma SalesMenuValid()
    ensures MenuValid(SalesMenu)
  {
    forall j | 0 <= j < |SalesMenu|
      ensures IsValidPermission(SalesMenu[j].permission)
    {
      var p := SalesMenu[j].permission;
      if j == 0 { SalesReadValid(p); }
      else if j == 1 { OrdersReadValid(p); }
      else if j == 2 { OrdersCreateValid(p); }
      else if j == 3 { SalesReadValid(p); }
      else if j == 4 { SalesCreateValid(p); }
      else { CustomersReadValid(p); }
    }
  }

  lemma ReportsMenuValid()
    ensures MenuValid(ReportsMenu)
  {
    forall j | 0 <= j < |ReportsMenu|
      ensures IsValidPermission(ReportsMenu[j].permission)
    {
      var p := ReportsMenu[j].permission;
      if j == 0 { ReportsReadValid(p); }
      else if j == 1 { ReportsReadValid(p); }
      else if j == 2 { ReportsReadValid(p); }
      else if j == 3 { ReportsReadValid(p); }
      else if j == 4 { ReportsReadValid(p); }
      else if j == 5 { ReportsReadValid(p); }
      else { ReportsReadValid(p); }
    }
  }

  lemma IntegrationsMenuValid()
    ensures MenuValid(IntegrationsMenu)
  {
    forall j | 0 <= j < |IntegrationsMenu|
      ensures IsValidPermission(IntegrationsMenu[j].permission)
    {
      var p := IntegrationsMenu[j].permission;
      if j == 0 { SettingsReadValid(p); }
      else if j == 1 { SettingsReadValid(p); }
      else { SettingsReadValid(p); }
    }
  }

  lemma BlogsMenuValid()
    ensures MenuValid(BlogsMenu)
  {
    forall j | 0 <= j < |BlogsMenu|
      ensures IsValidPermission(BlogsMenu[j].permission)
    {
      var p := BlogsMenu[j].permission;
      if j == 0 { BlogsReadValid(p); }
      else { BlogsCreateValid(p); }
    }
  }

  lemma SettingsMenuValid()
    ensures MenuValid(SettingsMenu)
  {
    forall j | 0 <= j < |SettingsMenu|
      ensures IsValidPermission(SettingsMenu[j].permission)
    {
      var p := SettingsMenu[j].permission;
      if j == 0 { SettingsReadValid(p); }
      else if j == 1 { SettingsCreateValid(p); }
      else if j == 2 { UsersReadValid(p); }
      else if j == 3 { RolesReadValid(p); }
      else if j == 4 { SettingsReadValid(p); }
      else if j == 5 { SettingsReadValid(p); }
      else if j == 6 { UsersReadValid(p); }
      else { UsersUpdateValid(p); }
    }
  }

  /** Every permission string in `sidebarLinks`, on a link or on a menu entry, passes `isValidPermission`. */
  lemma SidebarPermissionsValid()
    ensures forall i :: 0 <= i < |SidebarLinks| ==> LinkValid(SidebarLinks[i])
  {
    forall i | 0 <= i < |SidebarLinks|
      ensures LinkValid(SidebarLinks[i])
    {
      var p := SidebarLinks[i].permission;
      if i == 0 { DashboardReadValid(p); }
      else if i == 1 { ProductsReadValid(p); InventoryMenuValid(); }
      else if i == 2 { ProductsReadValid(p); PurchasesMenuValid(); }
      else if i == 3 { SalesReadValid(p); SalesMenuValid(); }
      else if i == 4 { ReportsReadValid(p); ReportsMenuValid(); }
      else if i == 5 { SettingsReadValid(p); IntegrationsMenuValid(); }
      else if i == 6 { BlogsReadValid(p); BlogsMenuValid(); }
      else { SettingsReadValid(p); SettingsMenuValid(); }
    }
  }
}
