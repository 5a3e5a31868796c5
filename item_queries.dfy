/** The query-key hierarchy of `hooks/useItemQueries.ts` and the keys each
    mutation hook invalidates.

    A key is an array; invalidating a key marks stale every cached query
    whose key starts with it (prefix matching). The network calls behind the
    queries and the toasts are not part of this model. */
module ItemQueries {
  import opened Wrappers

  /** One element of a key: a plain string, or one of the filter objects. */
  datatype Part =
    | Str(s: string)
    | Org(organizationId: string)
    | Filters(filters: string)
    | Search(dateFilter: string, searchQuery: string)

  type Key = seq<Part>

  /** `p` is a prefix of `k`: invalidating `p` reaches the query with key `k`. */
  predicate IsKeyPrefix(p: Key, k: Key)
  {
    |p| <= |k| && k[..|p|] == p
  }

  function All(): Key { [Str("items")] }

  function Lists(): Key { All() + [Str("list")] }

  function ListsItems(organizationId: string): Key { Lists() + [Org(organizationId)] }

  function List(filters: string): Key { Lists() + [Filters(filters)] }

  function FilteredList(dateFilter: string, searchQuery: string): Key { Lists() + [Search(dateFilter, searchQuery)] }

  function Details(): Key { All() + [Str("detail")] }

  function Detail(id: string): Key { Details() + [Str(id)] }

  /** Every key the hooks build. */
  datatype KeyName =
    | AllKey | ListsKey | ListsItemsKey(organizationId: string) | ListKey(filters: string)
    | FilteredListKey(dateFilter: string, searchQuery: string) | DetailsKey | DetailKey(id: string)

  function KeyOf(n: KeyName): Key
  {
    match n
    case AllKey => All()
    case ListsKey => Lists()
    case ListsItemsKey(o) => ListsItems(o)
    case ListKey(f) => List(f)
    case FilteredListKey(d, q) => FilteredList(d, q)
    case DetailsKey => Details()
    case DetailKey(id) => Detail(id)
  }

  /** A key of the list family. */
  predicate IsListKey(n: KeyName)
  {
    n.ListsKey? || n.ListsItemsKey? || n.ListKey? || n.FilteredListKey?
  }

  /** A key of the detail family. */
  predicate IsDetailKey(n: KeyName)
  {
    n.DetailsKey? || n.DetailKey?
  }

  /** `all` starts every key; `lists()` starts every list key and `details()`
      every detail key. */
  lemma KeyHierarchy(n: KeyName)
    ensures IsKeyPrefix(All(), KeyOf(n))
    ensures IsListKey(n) ==> IsKeyPrefix(Lists(), KeyOf(n))
    ensures IsDetailKey(n) ==> IsKeyPrefix(Details(), KeyOf(n))
  {
  }

  /** List keys and detail keys differ at position 1, so neither family's
      keys are a prefix of the other's. */
  lemma ListsAndDetailsApart(l: KeyName, d: KeyName)
    requires IsListKey(l) && IsDetailKey(d)
    ensures KeyOf(l)[1] != KeyOf(d)[1]
    ensures !IsKeyPrefix(KeyOf(l), KeyOf(d)) && !IsKeyPrefix(KeyOf(d), KeyOf(l))
  {
    assert KeyOf(l)[1] == Str("list") && KeyOf(d)[1] == Str("detail");
  }

  /** A cached query is stale once some invalidated key is a prefix of its key. */
  predicate Stale(invalidated: seq<Key>, key: Key)
  {
    exists i :: 0 <= i < |invalidated| && IsKeyPrefix(invalidated[i], key)
  }

  lemma PrefixTransitive(a: Key, b: Key, c: Key)
    requires IsKeyPrefix(a, b) && IsKeyPrefix(b, c)
    ensures IsKeyPrefix(a, c)
  {
    assert c[..|a|] == c[..|b|][..|a|];
  }

  /** `if (value)`: present and not the empty string. */
  predicate Truthy(value: Option<string>)
  {
    value.Some? && value.value != ""
  }

  /** The keys `useCreateItem(organizationId)` invalidates after a create. */
  function CreateInvalidations(organizationId: string): (r: seq<Key>)
    ensures forall key :: Stale(r, key) <==> IsKeyPrefix(Lists(), key)
  {
    var r := [ListsItems(organizationId), Lists()];
    forall key | Stale(r, key) ensures IsKeyPrefix(Lists(), key) {
      if IsKeyPrefix(r[0], key) { PrefixTransitive(Lists(), r[0], key); }
    }
    forall key | IsKeyPrefix(Lists(), key) ensures Stale(r, key) {
      assert IsKeyPrefix(r[1], key);
    }
    r
  }

  /** The keys `useItemDelete(id)` invalidates: the item's detail only when
      the hook was given an id, and the lists always. */
  function DeleteInvalidations(id: Option<string>): (r: seq<Key>)
    ensures forall key :: Stale(r, key) <==>
      IsKeyPrefix(Lists(), key) || (Truthy(id) && IsKeyPrefix(Detail(id.value), key))
  {
    var r := (if Truthy(id) then [Detail(id.value)] else []) + [Lists()];
    forall key | IsKeyPrefix(Lists(), key) || (Truthy(id) && IsKeyPrefix(Detail(id.value), key))
      ensures Stale(r, key)
    {
      if IsKeyPrefix(Lists(), key) { assert IsKeyPrefix(r[|r| - 1], key); }
      else { assert IsKeyPrefix(r[0], key); }
    }
    r
  }

  /** The keys `useItemUpdate(id, organizationId)` invalidates: the item's
      detail, the organization's list when one is given, and the lists. */
  function UpdateInvalidations(id: string, organizationId: Option<string>): (r: seq<Key>)
    ensures forall key :: Stale(r, key) <==> IsKeyPrefix(Detail(id), key) || IsKeyPrefix(Lists(), key)
  {
    var r := [Detail(id)] + (if Truthy(organizationId) then [ListsItems(organizationId.value)] else []) + [Lists()];
    forall key | Stale(r, key) ensures IsKeyPrefix(Detail(id), key) || IsKeyPrefix(Lists(), key) {
      var i :| 0 <= i < |r| && IsKeyPrefix(r[i], key);
      if 0 < i < |r| - 1 { PrefixTransitive(Lists(), r[i], key); }
    }
    forall key | IsKeyPrefix(Detail(id), key) || IsKeyPrefix(Lists(), key) ensures Stale(r, key) {
      if IsKeyPrefix(Lists(), key) { assert IsKeyPrefix(r[|r| - 1], key); }
      else { assert IsKeyPrefix(r[0], key); }
    }
    r
  }

  /** An update never marks another item's detail stale. */
  lemma UpdateSparesOtherDetails(id: string, other: string, organizationId: Option<string>)
    requires id != other
    ensures !Stale(UpdateInvalidations(id, organizationId), Detail(other))
  {
    assert Detail(other)[2] == Str(other);
    assert !IsKeyPrefix(Lists(), Detail(other)) by {
      ListsAndDetailsApart(ListsKey, DetailKey(other));
    }
  }

  /** A delete from a hook created without an id leaves every detail query fresh. */
  lemma DeleteWithoutIdSparesDetails(id: Option<string>, other: string)
    requires !Truthy(id)
    ensures !Stale(DeleteInvalidations(id), Detail(other))
  {
    ListsAndDetailsApart(ListsKey, DetailKey(other));
  }

  /** `organizationId || data.organizationId`: the update payload carries the
      hook's organization when it has a non-empty one, else the payload's own. */
  function PayloadOrganization(hookOrganization: Option<string>, dataOrganization: Option<string>): (r: Option<string>)
    ensures Truthy(hookOrganization) ==> r == hookOrganization
    ensures !Truthy(hookOrganization) ==> r == dataOrganization
  {
    if Truthy(hookOrganization) then hookOrganization else dataOrganization
  }
}
