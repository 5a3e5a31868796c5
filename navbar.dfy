/**
 * The top navigation bar (components/dashboard/Navbar.tsx): which sidebar links it keeps,
 * and how `mobileLinks` flattens them into one list for the mobile menu.
 */
module Navbar {
  import opened Wrappers
  import opened Seqs
  import opened Sidebar
  import opened Dashboard

  /** The callback of the navbar's `sidebarLinks.filter`. */
  predicate NavbarShows(link: SidebarLink, has: string -> bool)
    ensures NavbarShows(link, has) ==> has(link.permission)
    ensures !link.dropdown ==> (NavbarShows(link, has) <==> has(link.permission))
  {
    if !has(link.permission) then false
    else if link.dropdown && link.dropdownMenu.Some? then Any(link.dropdownMenu.value, ItemPermitted(has))
    else true
  }

  function NavbarShowsFn(has: string -> bool): SidebarLink -> bool
  {
    (link: SidebarLink) => NavbarShows(link, has)
  }

  /** `filteredLinks`. */
  function FilteredLinks(links: seq<SidebarLink>, has: string -> bool): (r: seq<SidebarLink>)
    ensures |r| <= |links|
    ensures forall i :: 0 <= i < |r| ==> r[i] in links && has(r[i].permission)
  {
    Filter(links, NavbarShowsFn(has))
  }

  /**
   * A link is kept exactly when its own permission passes and, if it is a dropdown that has a
   * menu, at least one menu entry passes too. A dropdown without a menu is kept on its own
   * permission.
   */
  lemma FilteredLinksKeeps(links: seq<SidebarLink>, has: string -> bool, i: nat)
    requires i < |links|
    ensures links[i] in FilteredLinks(links, has) <==>
      && has(links[i].permission)
      && (links[i].dropdown && links[i].dropdownMenu.Some? ==>
            exists j :: 0 <= j < |links[i].dropdownMenu.value| && has(links[i].dropdownMenu.value[j].permission))
  {
    var r := FilteredLinks(links, has);
    if links[i] in r {
      var k :| 0 <= k < |r| && r[k] == links[i];
      assert NavbarShowsFn(has)(r[k]);
    }
    if links[i].dropdown && links[i].dropdownMenu.Some? {
      var items := links[i].dropdownMenu.value;
      if exists j :: 0 <= j < |items| && has(items[j].permission) {
        var j :| 0 <= j < |items| && has(items[j].permission);
        assert ItemPermitted(has)(items[j]);
      }
    }
  }

  /** One entry of `mobileLinks`. */
  datatype MobileLink = MobileLink(title: string, href: string, icon: Icon, permission: string)

  /** `link.href || "#"`: an absent or empty `href` becomes `"#"`. */
  function HrefOrHash(href: Option<string>): (r: string)
    ensures r != ""
    ensures href.Some? && href.value != "" ==> r == href.value
    ensures href.None? || href.value == "" ==> r == "#"
  {
    match href
    case Some(h) => if h != "" then h else "#"
    case None => "#"
  }

  /** The entry pushed for a permitted menu item: the item's fields and the parent's icon. */
  function ItemEntry(item: MenuItem, icon: Icon): MobileLink
  {
    MobileLink(item.title, item.href, icon, item.permission)
  }

  /** `link.dropdownMenu.forEach(...)`: the entries pushed for one menu, as a left fold. */
  function MenuEntries(items: seq<MenuItem>, icon: Icon, has: string -> bool): seq<MobileLink>
  {
    if items == [] then []
    else
      var last := items[|items| - 1];
      MenuEntries(items[..|items| - 1], icon, has) + (if has(last.permission) then [ItemEntry(last, icon)] else [])
  }

  /** What one step of the `reduce` appends for `link`. */
  function LinkEntries(link: SidebarLink, has: string -> bool): seq<MobileLink>
  {
    if !link.dropdown then [MobileLink(link.title, HrefOrHash(link.href), link.icon, link.permission)]
    else
      match link.dropdownMenu
      case None => []
      case Some(items) => MenuEntries(items, link.icon, has)
  }

  /** `links.reduce(...)` starting from `[]`. */
  function Flatten(links: seq<SidebarLink>, has: string -> bool): seq<MobileLink>
  {
    if links == [] then []
    else Flatten(links[..|links| - 1], has) + LinkEntries(links[|links| - 1], has)
  }

  lemma FlattenStep(links: seq<SidebarLink>, i: nat, has: string -> bool)
    requires i < |links|
    ensures Flatten(links[..i + 1], has) == Flatten(links[..i], has) + LinkEntries(links[i], has)
  {
    assert links[..i + 1][..i] == links[..i];
  }

  lemma MenuEntriesStep(items: seq<MenuItem>, j: nat, icon: Icon, has: string -> bool)
    requires j < |items|
    ensures MenuEntries(items[..j + 1], icon, has)
      == MenuEntries(items[..j], icon, has) + (if has(items[j].permission) then [ItemEntry(items[j], icon)] else [])
  {
    assert items[..j + 1][..j] == items[..j];
  }

  /** `link.dropdownMenu.forEach(...)`: pushes the permitted items of one menu onto `acc`. */
  method PushMenuItems(acc: seq<MobileLink>, items: seq<MenuItem>, icon: Icon, has: string -> bool)
    returns (out: seq<MobileLink>)
    ensures out == acc + MenuEntries(items, icon, has)
  {
    out := acc;
    var j := 0;
    while j < |items|
      invariant 0 <= j <= |items|
      invariant out == acc + MenuEntries(items[..j], icon, has)
    {
      MenuEntriesStep(items, j, icon, has);
      if has(items[j].permission) {
        out := out + [ItemEntry(items[j], icon)];
      }
      j := j + 1;
    }
    assert items[..j] == items;
  }

  /** `mobileLinks`: the accumulator grown by `push`, link by link and item by item. */
  method MobileLinks(links: seq<SidebarLink>, has: string -> bool) returns (acc: seq<MobileLink>)
    ensures acc == Flatten(FilteredLinks(links, has), has)
  {
    var filtered := FilteredLinks(links, has);
    acc := [];
    var i := 0;
    while i < |filtered|
      invariant 0 <= i <= |filtered|
      invariant acc == Flatten(filtered[..i], has)
    {
      var link := filtered[i];
      FlattenStep(filtered, i, has);
      if !link.dropdown {
        acc := acc + [MobileLink(link.title, HrefOrHash(link.href), link.icon, link.permission)];
      } else if link.dropdownMenu.Some? {
        acc := PushMenuItems(acc, link.dropdownMenu.value, link.icon, has);
      }
      i := i + 1;
    }
    assert filtered[..i] == filtered;
  }

  // ---------------------------------------------------------------------------
  // What the flattened list holds

  /** A menu contributes its permitted items, in menu order, each carrying the parent's icon. */
  lemma {:induction false} MenuEntriesAreFilteredItems(items: seq<MenuItem>, icon: Icon, has: string -> bool)
    ensures |MenuEntries(items, icon, has)| == |Filter(items, ItemPermitted(has))|
    ensures forall k :: 0 <= k < |MenuEntries(items, icon, has)| ==>
      MenuEntries(items, icon, has)[k] == ItemEntry(Filter(items, ItemPermitted(has))[k], icon)
  {
    if items != [] {
      var init, last := items[..|items| - 1], items[|items| - 1];
      assert items == init + [last];
      MenuEntriesAreFilteredItems(init, icon, has);
      FilterAppend(init, [last], ItemPermitted(has));
      assert Filter([last], ItemPermitted(has)) == if has(last.permission) then [last] else [];
    }
  }

  /** The number of entries each link contributes, counted without building them. */
  function EntryCount(link: SidebarLink, has: string -> bool): nat
  {
    if !link.dropdown then 1
    else if link.dropdownMenu.Some? then |Filter(link.dropdownMenu.value, ItemPermitted(has))|
    else 0
  }

  function TotalCount(links: seq<SidebarLink>, has: string -> bool): nat
  {
    if links == [] then 0 else EntryCount(links[0], has) + TotalCount(links[1..], has)
  }

  lemma {:induction false} TotalCountAppend(links: seq<SidebarLink>, link: SidebarLink, has: string -> bool)
    ensures TotalCount(links + [link], has) == TotalCount(links, has) + EntryCount(link, has)
  {
    if links != [] {
      assert (links + [link])[1..] == links[1..] + [link];
      TotalCountAppend(links[1..], link, has);
    }
  }

  /**
   * The mobile list has one entry per plain link plus one per permitted item of each
   * dropdown menu.
   */
  lemma {:induction false} FlattenCount(links: seq<SidebarLink>, has: string -> bool)
    ensures |Flatten(links, has)| == TotalCount(links, has)
  {
    if links != [] {
      var init, last := links[..|links| - 1], links[|links| - 1];
      assert links == init + [last];
      FlattenCount(init, has);
      TotalCountAppend(init, last, has);
      if last.dropdown && last.dropdownMenu.Some? {
        MenuEntriesAreFilteredItems(last.dropdownMenu.value, last.icon, has);
      }
    }
  }

  /** Every entry a link contributes carries the link's icon and a permission that passes, given that the link's own does. */
  lemma LinkEntriesPermitted(link: SidebarLink, has: string -> bool)
    requires has(link.permission)
    ensures forall e :: e in LinkEntries(link, has) ==> has(e.permission) && e.icon == link.icon
  {
    if link.dropdown && link.dropdownMenu.Some? {
      var items := link.dropdownMenu.value;
      var f := Filter(items, ItemPermitted(has));
      MenuEntriesAreFilteredItems(items, link.icon, has);
      forall e | e in LinkEntries(link, has) ensures has(e.permission) && e.icon == link.icon {
        var k :| 0 <= k < |MenuEntries(items, link.icon, has)| && MenuEntries(items, link.icon, has)[k] == e;
        assert ItemPermitted(has)(f[k]);
      }
    }
  }

  lemma {:induction false} FlattenPermitted(links: seq<SidebarLink>, has: string -> bool)
    requires forall i :: 0 <= i < |links| ==> has(links[i].permission)
    ensures forall e :: e in Flatten(links, has) ==> has(e.permission)
  {
    if links != [] {
      var init, last := links[..|links| - 1], links[|links| - 1];
      FlattenPermitted(init, has);
      LinkEntriesPermitted(last, has);
    }
  }

  /** Every entry of `mobileLinks` is guarded by a permission the user holds. */
  lemma MobileLinksPermitted(links: seq<SidebarLink>, has: string -> bool)
    ensures forall e :: e in Flatten(FilteredLinks(links, has), has) ==> has(e.permission)
  {
    var f := FilteredLinks(links, has);
    forall i | 0 <= i < |f| ensures has(f[i].permission) {
      assert NavbarShowsFn(has)(f[i]);
    }
    FlattenPermitted(f, has);
  }

  /** A plain link contributes exactly one entry, whose `href` falls back to `"#"`. */
  lemma {:induction false} PlainLinkEntry(links: seq<SidebarLink>, has: string -> bool)
    requires links != [] && !links[|links| - 1].dropdown
    ensures var last := links[|links| - 1];
      && |Flatten(links, has)| == |Flatten(links[..|links| - 1], has)| + 1
      && Flatten(links, has)[|Flatten(links, has)| - 1]
         == MobileLink(last.title, if last.href.Some? && last.href.value != "" then last.href.value else "#", last.icon, last.permission)
  {
  }

  // ---------------------------------------------------------------------------
  // The navbar and the dashboard agree on the sidebar tree

  lemma NavbarShowsIffKept(link: SidebarLink, has: string -> bool)
    requires link.dropdown ==> link.dropdownMenu.Some?
    ensures NavbarShows(link, has) <==> Kept(link, has)
  {
    if link.dropdownMenu.Some? {
      var items := link.dropdownMenu.value;
      var f := Filter(items, ItemPermitted(has));
      if Any(items, ItemPermitted(has)) {
        var j :| 0 <= j < |items| && ItemPermitted(has)(items[j]);
        assert items[j] in f;
      }
      if |f| > 0 {
        assert f[0] in items && ItemPermitted(has)(f[0]);
      }
    }
  }

  /** Every dropdown link carries a menu. */
  predicate MenusPresent(links: seq<SidebarLink>)
  {
    forall i :: 0 <= i < |links| && links[i].dropdown ==> links[i].dropdownMenu.Some?
  }

  lemma {:induction false} NavbarMatchesOnePass(links: seq<SidebarLink>, has: string -> bool)
    requires MenusPresent(links)
    ensures MapLinks(FilteredLinks(links, has), has) == FilterOnePass(links, has)
  {
    if links != [] {
      var head, tail := links[0], links[1..];
      assert MenusPresent(tail) by {
        forall i | 0 <= i < |tail| && tail[i].dropdown ensures tail[i].dropdownMenu.Some? {
          assert tail[i] == links[i + 1];
        }
      }
      var rest := FilteredLinks(tail, has);
      NavbarMatchesOnePass(tail, has);
      NavbarShowsIffKept(head, has);
      if NavbarShows(head, has) {
        assert FilteredLinks(links, has) == [head] + rest;
        MapLinksAppend([head], rest, has);
        assert MapLinks([head], has) == [WithFilteredMenu(head, has)];
      } else {
        assert FilteredLinks(links, has) == rest;
      }
    }
  }

  /**
   * When every dropdown has a menu, as in `sidebarLinks`, the navbar keeps exactly the links
   * `filterSidebarLinks` keeps, in the same order.
   */
  lemma NavbarMatchesDashboard(links: seq<SidebarLink>, has: string -> bool)
    requires MenusPresent(links)
    ensures MapLinks(FilteredLinks(links, has), has) == FilterSidebarLinks(links, has)
  {
    NavbarMatchesOnePass(links, has);
    FilterSidebarLinksOnePass(links, has);
  }

  /** On `sidebarLinks` the navbar and the dashboard show the same links, for every user. */
  lemma NavbarMatchesDashboardOnSidebar(has: string -> bool)
    ensures MapLinks(FilteredLinks(SidebarLinks, has), has) == FilterSidebarLinks(SidebarLinks, has)
  {
    SidebarShape();
    NavbarMatchesDashboard(SidebarLinks, has);
  }
}
