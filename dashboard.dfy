/**
 * The permission gate and the sidebar filter of the default dashboard
 * (components/dashboard/DefaultUserDashboard.tsx), and its greeting rule.
 */
module Dashboard {
  import opened Wrappers
  import opened Seqs
  import opened Sidebar
  import opened Roles
  import opened Permissions

  /** `hasPermission(permission)`: `user.permissions?.includes(permission) ?? false`. */
  function HasPermission(permissions: Option<seq<string>>, permission: string): (r: bool)
    ensures r <==> permissions.Some? && permission in permissions.value
    ensures permissions.None? ==> !r
  {
    match permissions
    case None => false
    case Some(ps) => Includes(ps, permission)
  }

  /** The gate of a user holding `permissions`, as the filters below take it. */
  function Gate(permissions: Option<seq<string>>): string -> bool
  {
    (p: string) => HasPermission(permissions, p)
  }

  /** The callback of `dropdownMenu?.filter`. */
  function ItemPermitted(has: string -> bool): MenuItem -> bool
  {
    (item: MenuItem) => has(item.permission)
  }

  /** The callback of the first `links.filter`. */
  function LinkPermitted(has: string -> bool): SidebarLink -> bool
  {
    (link: SidebarLink) => has(link.permission)
  }

  /** `link.dropdownMenu?.filter(...)`: an absent menu stays absent. */
  function FilterMenu(menu: Option<seq<MenuItem>>, has: string -> bool): Option<seq<MenuItem>>
  {
    match menu
    case None => None
    case Some(items) => Some(Filter(items, ItemPermitted(has)))
  }

  /** The `.map` step: `{ ...link, dropdownMenu: <filtered menu> }`. */
  function WithFilteredMenu(link: SidebarLink, has: string -> bool): (r: SidebarLink)
    ensures r.title == link.title && r.permission == link.permission && r.dropdown == link.dropdown
    ensures r.href == link.href && r.icon == link.icon
  {
    link.(dropdownMenu := FilterMenu(link.dropdownMenu, has))
  }

  /** The callback of the last `.filter`: `!link.dropdown || (link.dropdownMenu && link.dropdownMenu.length > 0)`. */
  predicate Displayable(link: SidebarLink)
  {
    !link.dropdown || (link.dropdownMenu.Some? && |link.dropdownMenu.value| > 0)
  }

  function MapLinks(links: seq<SidebarLink>, has: string -> bool): (r: seq<SidebarLink>)
    ensures |r| == |links|
    ensures forall i :: 0 <= i < |links| ==> r[i] == WithFilteredMenu(links[i], has)
  {
    seq(|links|, i requires 0 <= i < |links| => WithFilteredMenu(links[i], has))
  }

  /** `filterSidebarLinks(links)`: filter by the link's permission, trim each menu, drop empty dropdowns. */
  function FilterSidebarLinks(links: seq<SidebarLink>, has: string -> bool): (r: seq<SidebarLink>)
    ensures |r| <= |links|
    ensures forall i :: 0 <= i < |r| ==> has(r[i].permission) && Displayable(r[i])
  {
    Filter(MapLinks(Filter(links, LinkPermitted(has)), has), Displayable)
  }

  // ---------------------------------------------------------------------------
  // A one-pass reference definition of the same filter

  /** Whether one link survives the three steps. */
  predicate Kept(link: SidebarLink, has: string -> bool)
  {
    has(link.permission) && Displayable(WithFilteredMenu(link, has))
  }

  /** Each link, in order, is either dropped or kept with its menu trimmed. */
  function FilterOnePass(links: seq<SidebarLink>, has: string -> bool): seq<SidebarLink>
  {
    if links == [] then []
    else
      (if Kept(links[0], has) then [WithFilteredMenu(links[0], has)] else [])
      + FilterOnePass(links[1..], has)
  }

  lemma {:induction false} MapLinksAppend(a: seq<SidebarLink>, b: seq<SidebarLink>, has: string -> bool)
    ensures MapLinks(a + b, has) == MapLinks(a, has) + MapLinks(b, has)
  {
  }

  /** The three-step pipeline and the one-pass definition agree on every input. */
  lemma {:induction false} FilterSidebarLinksOnePass(links: seq<SidebarLink>, has: string -> bool)
    ensures FilterSidebarLinks(links, has) == FilterOnePass(links, has)
  {
    if links != [] {
      var head, tail := [links[0]], links[1..];
      assert links == head + tail;
      FilterAppend(head, tail, LinkPermitted(has));
      var kept := Filter(head, LinkPermitted(has));
      MapLinksAppend(kept, Filter(tail, LinkPermitted(has)), has);
      FilterAppend(MapLinks(kept, has), MapLinks(Filter(tail, LinkPermitted(has)), has), Displayable);
      FilterSidebarLinksOnePass(tail, has);
      if has(links[0].permission) {
        assert MapLinks(kept, has) == [WithFilteredMenu(links[0], has)];
      } else {
        assert kept == [];
      }
    }
  }

  // ---------------------------------------------------------------------------
  // What the filter guarantees

  /** Trimming a menu twice trims nothing more. */
  lemma WithFilteredMenuIdempotent(link: SidebarLink, has: string -> bool)
    ensures WithFilteredMenu(WithFilteredMenu(link, has), has) == WithFilteredMenu(link, has)
    ensures Kept(WithFilteredMenu(link, has), has) == Kept(link, has)
  {
    if link.dropdownMenu.Some? {
      FilterIdempotent(link.dropdownMenu.value, ItemPermitted(has));
    }
  }

  /** A surviving link passes its permission, is displayable, and keeps only permitted menu entries. */
  predicate Shown(link: SidebarLink, has: string -> bool)
  {
    && has(link.permission)
    && Displayable(link)
    && (link.dropdownMenu.Some? ==>
          forall j :: 0 <= j < |link.dropdownMenu.value| ==> has(link.dropdownMenu.value[j].permission))
  }

  lemma TrimmedShown(link: SidebarLink, has: string -> bool)
    requires Kept(link, has)
    ensures Shown(WithFilteredMenu(link, has), has)
  {
    if link.dropdownMenu.Some? {
      var items := Filter(link.dropdownMenu.value, ItemPermitted(has));
      assert WithFilteredMenu(link, has).dropdownMenu.value == items;
      forall j | 0 <= j < |items| ensures has(items[j].permission) {
        assert ItemPermitted(has)(items[j]);
      }
    }
  }

  lemma {:induction false} OnePassShown(links: seq<SidebarLink>, has: string -> bool)
    ensures forall k :: 0 <= k < |FilterOnePass(links, has)| ==> Shown(FilterOnePass(links, has)[k], has)
  {
    if links != [] {
      OnePassShown(links[1..], has);
      if Kept(links[0], has) {
        TrimmedShown(links[0], has);
      }
    }
  }

  /** The input link that the `k`-th surviving link was made from. */
  lemma {:induction false} OnePassOrigin(links: seq<SidebarLink>, has: string -> bool, k: nat) returns (i: nat)
    requires k < |FilterOnePass(links, has)|
    ensures i < |links| && Kept(links[i], has) && FilterOnePass(links, has)[k] == WithFilteredMenu(links[i], has)
  {
    var r, rest := FilterOnePass(links, has), FilterOnePass(links[1..], has);
    if Kept(links[0], has) && k == 0 {
      i := 0;
    } else {
      var k' := if Kept(links[0], has) then k - 1 else k;
      assert r[k] == rest[k'];
      var j := OnePassOrigin(links[1..], has, k');
      i := j + 1;
    }
  }

  /**
   * Every link `filterSidebarLinks` returns passes its permission, has a non-empty menu if it
   * is a dropdown, and its menu is exactly the permitted entries of some input link's menu,
   * in their original order.
   */
  lemma FilterSidebarLinksSound(links: seq<SidebarLink>, has: string -> bool)
    ensures forall k :: 0 <= k < |FilterSidebarLinks(links, has)| ==> Shown(FilterSidebarLinks(links, has)[k], has)
    ensures forall k :: 0 <= k < |FilterSidebarLinks(links, has)| ==>
      exists i :: 0 <= i < |links| && Kept(links[i], has) && FilterSidebarLinks(links, has)[k] == WithFilteredMenu(links[i], has)
  {
    FilterSidebarLinksOnePass(links, has);
    OnePassShown(links, has);
    var r := FilterSidebarLinks(links, has);
    forall k | 0 <= k < |r|
      ensures exists i :: 0 <= i < |links| && Kept(links[i], has) && r[k] == WithFilteredMenu(links[i], has)
    {
      var i := OnePassOrigin(links, has, k);
    }
    assert forall k :: 0 <= k < |FilterSidebarLinks(links, has)| ==> Shown(FilterSidebarLinks(links, has)[k], has);
  }

  lemma {:induction false} OnePassComplete(links: seq<SidebarLink>, has: string -> bool, i: nat)
    requires i < |links| && Kept(links[i], has)
    ensures WithFilteredMenu(links[i], has) in FilterOnePass(links, has)
  {
    if i > 0 {
      OnePassComplete(links[1..], has, i - 1);
    }
  }

  /**
   * A link survives exactly when it passes its permission and, if it is a dropdown, has a menu
   * with at least one permitted entry. In particular a permitted plain link always survives.
   */
  lemma FilterSidebarLinksKeeps(links: seq<SidebarLink>, has: string -> bool, i: nat)
    requires i < |links|
    ensures WithFilteredMenu(links[i], has) in FilterSidebarLinks(links, has) <==>
      && has(links[i].permission)
      && (links[i].dropdown ==>
            links[i].dropdownMenu.Some? && Any(links[i].dropdownMenu.value, ItemPermitted(has)))
  {
    var link, r := links[i], FilterSidebarLinks(links, has);
    FilterSidebarLinksOnePass(links, has);
    if link.dropdownMenu.Some? {
      var items := link.dropdownMenu.value;
      var f := Filter(items, ItemPermitted(has));
      if Any(items, ItemPermitted(has)) {
        var j :| 0 <= j < |items| && ItemPermitted(has)(items[j]);
        assert items[j] in f;
      }
    }
    if Kept(link, has) {
      OnePassComplete(links, has, i);
    }
    if WithFilteredMenu(link, has) in r {
      FilterSidebarLinksSound(links, has);
      var k :| 0 <= k < |r| && r[k] == WithFilteredMenu(link, has);
      var i' :| 0 <= i' < |links| && Kept(links[i'], has) && r[k] == WithFilteredMenu(links[i'], has);
      WithFilteredMenuIdempotent(link, has);
      WithFilteredMenuIdempotent(links[i'], has);
      assert Kept(link, has);
    }
  }

  function Titles(links: seq<SidebarLink>): (ts: seq<string>)
    ensures |ts| == |links|
    ensures forall k :: 0 <= k < |links| ==> ts[k] == links[k].title
  {
    seq(|links|, k requires 0 <= k < |links| => links[k].title)
  }

  /** The surviving titles appear in the input in the same order. */
  lemma {:induction false} FilterSidebarLinksOrder(links: seq<SidebarLink>, has: string -> bool)
    ensures SubsequenceOf(Titles(FilterSidebarLinks(links, has)), Titles(links))
  {
    FilterSidebarLinksOnePass(links, has);
    OnePassOrder(links, has);
  }

  lemma {:induction false} OnePassOrder(links: seq<SidebarLink>, has: string -> bool)
    ensures SubsequenceOf(Titles(FilterOnePass(links, has)), Titles(links))
  {
    if links != [] {
      OnePassOrder(links[1..], has);
      var r, rest := FilterOnePass(links, has), FilterOnePass(links[1..], has);
      assert Titles(links)[1..] == Titles(links[1..]);
      if Kept(links[0], has) {
        assert Titles(r)[0] == Titles(links)[0];
        assert Titles(r)[1..] == Titles(rest);
      } else {
        assert r == rest;
      }
    }
  }

  lemma {:induction false} OnePassIdempotent(links: seq<SidebarLink>, has: string -> bool)
    ensures FilterOnePass(FilterOnePass(links, has), has) == FilterOnePass(links, has)
  {
    if links != [] {
      var r := FilterOnePass(links, has);
      OnePassIdempotent(links[1..], has);
      WithFilteredMenuIdempotent(links[0], has);
      if Kept(links[0], has) {
        assert r[0] == WithFilteredMenu(links[0], has) && r[1..] == FilterOnePass(links[1..], has);
      } else {
        assert r == FilterOnePass(links[1..], has);
      }
    }
  }

  /** Filtering an already filtered tree with the same permissions changes nothing. */
  lemma FilterSidebarLinksIdempotent(links: seq<SidebarLink>, has: string -> bool)
    ensures FilterSidebarLinks(FilterSidebarLinks(links, has), has) == FilterSidebarLinks(links, has)
  {
    FilterSidebarLinksOnePass(links, has);
    FilterSidebarLinksOnePass(FilterSidebarLinks(links, has), has);
    OnePassIdempotent(links, has);
  }

  /** A user whose gate lets every permission of the tree through sees the whole tree unchanged. */
  lemma {:induction false} FilterSidebarLinksAllPermitted(links: seq<SidebarLink>, has: string -> bool)
    requires forall i :: 0 <= i < |links| ==> has(links[i].permission)
    requires forall i :: 0 <= i < |links| && links[i].dropdownMenu.Some? ==>
      forall j :: 0 <= j < |links[i].dropdownMenu.value| ==> has(links[i].dropdownMenu.value[j].permission)
    requires forall i :: 0 <= i < |links| ==> Displayable(links[i])
    ensures FilterSidebarLinks(links, has) == links
  {
    FilterSidebarLinksOnePass(links, has);
    OnePassAll(links, has);
  }

  lemma {:induction false} OnePassAll(links: seq<SidebarLink>, has: string -> bool)
    requires forall i :: 0 <= i < |links| ==> has(links[i].permission)
    requires forall i :: 0 <= i < |links| && links[i].dropdownMenu.Some? ==>
      forall j :: 0 <= j < |links[i].dropdownMenu.value| ==> has(links[i].dropdownMenu.value[j].permission)
    requires forall i :: 0 <= i < |links| ==> Displayable(links[i])
    ensures FilterOnePass(links, has) == links
  {
    if links != [] {
      OnePassAll(links[1..], has);
      if links[0].dropdownMenu.Some? {
        FilterAll(links[0].dropdownMenu.value, ItemPermitted(has));
      }
      assert WithFilteredMenu(links[0], has) == links[0];
    }
  }

  /** A user who passes only the first link's permission sees at most that link. */
  lemma {:induction false} FilterSidebarLinksOnlyFirst(links: seq<SidebarLink>, has: string -> bool)
    requires |links| > 0 && has(links[0].permission) && !links[0].dropdown
    requires forall i :: 1 <= i < |links| ==> !has(links[i].permission)
    ensures FilterSidebarLinks(links, has) == [WithFilteredMenu(links[0], has)]
  {
    FilterSidebarLinksOnePass(links, has);
    OnePassNone(links[1..], has);
  }

  lemma {:induction false} OnePassNone(links: seq<SidebarLink>, has: string -> bool)
    requires forall i :: 0 <= i < |links| ==> !has(links[i].permission)
    ensures FilterOnePass(links, has) == []
  {
    if links != [] {
      OnePassNone(links[1..], has);
    }
  }

  /** `new Date().getHours()` to the greeting shown above the dashboard. */
  function Greeting(hour: int): (g: string)
    requires 0 <= hour < 24
    ensures g == "Good morning" <==> 5 <= hour < 12
    ensures g == "Good afternoon" <==> 12 <= hour < 18
    ensures g == "Good evening" <==> hour < 5 || 18 <= hour
  {
    if 5 <= hour < 12 then "Good morning"
    else if 12 <= hour < 18 then "Good afternoon"
    else "Good evening"
  }

  // ---------------------------------------------------------------------------
  // The filter applied to the actual tree

  /** A user holding only the default "user" role sees the Dashboard link and nothing else. */
  lemma DefaultUserSeesOnlyDashboard()
    ensures FilterSidebarLinks(SidebarLinks, Gate(Some(DefaultUserRole.permissions))) == [SidebarLinks[0]]
  {
    var has := Gate(Some(DefaultUserRole.permissions));
    SidebarShape();
    forall i | 1 <= i < |SidebarLinks| ensures !has(SidebarLinks[i].permission) {
      var p := SidebarLinks[i].permission;
      if i == 1 || i == 2 { NotDefaultUser(p, "products.read"); }
      else if i == 3 { NotDefaultUser(p, "sales.read"); }
      else if i == 4 { NotDefaultUser(p, "reports.read"); }
      else if i == 6 { NotDefaultUser(p, "blogs.read"); }
      else { NotDefaultUser(p, "settings.read"); }
    }
    assert has(SidebarLinks[0].permission);
    FilterSidebarLinksOnlyFirst(SidebarLinks, has);
  }

  lemma NotDefaultUser(p: string, q: string)
    requires p == q
    requires q in ["products.read", "sales.read", "reports.read", "blogs.read", "settings.read"]
    ensures p !in DefaultUserRole.permissions
  {
  }

  /** A gate that lets every valid permission through shows the whole tree unchanged. */
  lemma ValidGateSeesWholeSidebar(has: string -> bool)
    requires forall p :: IsValidPermission(p) ==> has(p)
    ensures FilterSidebarLinks(SidebarLinks, has) == SidebarLinks
  {
    SidebarShape();
    SidebarPermissionsValid();
    FilterSidebarLinksAllPermitted(SidebarLinks, has);
  }

  /** With `adminPermissions` every link survives, each with its full menu. */
  lemma AdminSeesWholeSidebar()
    ensures FilterSidebarLinks(SidebarLinks, Gate(Some(AdminPermissions))) == SidebarLinks
  {
    var has := Gate(Some(AdminPermissions));
    forall p | IsValidPermission(p) ensures has(p) {
      AdminMembership(p);
    }
    ValidGateSeesWholeSidebar(has);
  }

  /**
   * The "admin" role that `createOrganization` creates holds no products, sales, reports,
   * settings or blogs permission, so its holder also sees only the Dashboard link.
   */
  lemma OrganizationAdminSeesOnlyDashboard()
    ensures FilterSidebarLinks(SidebarLinks, Gate(Some(AdminRole.permissions))) == [SidebarLinks[0]]
  {
    var has := Gate(Some(AdminRole.permissions));
    SidebarShape();
    forall i | 1 <= i < |SidebarLinks| ensures !has(SidebarLinks[i].permission) {
      var p := SidebarLinks[i].permission;
      if i == 1 || i == 2 { NotOrganizationAdmin(p, "products.read"); }
      else if i == 3 { NotOrganizationAdmin(p, "sales.read"); }
      else if i == 4 { NotOrganizationAdmin(p, "reports.read"); }
      else if i == 6 { NotOrganizationAdmin(p, "blogs.read"); }
      else { NotOrganizationAdmin(p, "settings.read"); }
    }
    assert has(SidebarLinks[0].permission);
    FilterSidebarLinksOnlyFirst(SidebarLinks, has);
  }

  lemma NotOrganizationAdmin(p: string, q: string)
    requires p == q
    requires q in ["products.read", "sales.read", "reports.read", "blogs.read", "settings.read"]
    ensures p !in AdminRole.permissions
  {
  }
}
