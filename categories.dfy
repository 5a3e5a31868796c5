/** The category actions of `actions/categories.ts`: create with a global slug
    check, update and delete by id. */
module Categories {
  import opened Wrappers
  import opened Seqs
  import opened Store

  predicate SlugIn(categories: seq<Row<Category>>, slug: string)
  {
    exists i :: 0 <= i < |categories| && categories[i].fields.slug == slug
  }

  /** `category.findFirst({ where: { slug } })`. */
  function CategoryBySlug(categories: seq<Row<Category>>, slug: string): (r: Option<nat>)
    ensures r.Some? ==> r.value < |categories| && categories[r.value].fields.slug == slug
    ensures r.None? <==> !SlugIn(categories, slug)
  {
    FirstIndex(categories, (c: Row<Category>) => c.fields.slug == slug)
  }

  /** `createCategory(data)`: a taken slug answers 400 with an empty error string. */
  method CreateCategory(db: Db, data: Category) returns (r: Reply<Row<Category>>)
    requires db.Valid()
    modifies db`categories, db`nextId
    ensures db.Valid()
    ensures SlugIn(old(db.categories), data.slug) ==>
      r == Reply(400, Some("Category already exists"), Some(""), None) && unchanged(db)
    ensures !SlugIn(old(db.categories), data.slug) ==>
      var row := Row(old(db.nextId), data);
      && db.categories == old(db.categories) + [row] && db.nextId == old(db.nextId) + 1
      && r == Reply(200, Some("Category created successfully"), None, Some(row))
  {
    if CategoryBySlug(db.categories, data.slug).Some? {
      return Reply(400, Some("Category already exists"), Some(""), None);
    }
    var row := Row(db.nextId, data);
    AppendKeepsTable(db.categories, db.nextId, data);
    db.categories, db.nextId := db.categories + [row], db.nextId + 1;
    return Reply(200, Some("Category created successfully"), None, Some(row));
  }

  /** `updateCategory(id, data)`: `null` when no category has the id. The
      update does not re-check the slug. */
  method UpdateCategory(db: Db, id: nat, data: Category) returns (r: Option<Reply<Row<Category>>>)
    requires db.Valid()
    modifies db`categories
    ensures db.Valid()
    ensures IndexOfId(old(db.categories), id).None? ==> r.None? && db.categories == old(db.categories)
    ensures IndexOfId(old(db.categories), id).Some? ==>
      && db.categories == ReplaceId(old(db.categories), id, data)
      && r == Some(Reply(200, Some("Category updated successfully"), None, Some(Row(id, data))))
  {
    if IndexOfId(db.categories, id).None? {
      return None;
    }
    ReplaceKeepsTable(db.categories, id, data, db.nextId);
    db.categories := ReplaceId(db.categories, id, data);
    return Some(Reply(200, Some("Category updated successfully"), None, Some(Row(id, data))));
  }

  /** `deleteCategory(id)`: `null` when no category has the id. */
  method DeleteCategory(db: Db, id: nat) returns (r: Option<Reply<Row<Category>>>)
    requires db.Valid()
    modifies db`categories
    ensures db.Valid()
    ensures IndexOfId(old(db.categories), id).None? ==> r.None? && db.categories == old(db.categories)
    ensures IndexOfId(old(db.categories), id).Some? ==>
      var k := IndexOfId(old(db.categories), id).value;
      && db.categories == old(db.categories)[..k] + old(db.categories)[k + 1..]
      && r == Some(Reply(200, Some("Category deleted successfully"), None, Some(old(db.categories)[k])))
  {
    var found := IndexOfId(db.categories, id);
    if found.None? {
      return None;
    }
    var k := found.value;
    var deleted := db.categories[k];
    CutKeepsTable(db.categories, db.nextId, k);
    db.categories := db.categories[..k] + db.categories[k + 1..];
    return Some(Reply(200, Some("Category deleted successfully"), None, Some(deleted)));
  }
}
