/** The unit table actions of `actions/unit.ts`. A unit title may be used
    only once across all organizations: the existence check does not look at
    the organization. */
module Units {
  import opened Wrappers
  import opened Seqs
  import opened Store

  predicate TitleIn(units: seq<Row<Unit>>, title: string)
  {
    exists i :: 0 <= i < |units| && units[i].fields.title == title
  }

  /** No two units share a title. */
  predicate TitlesDistinct(units: seq<Row<Unit>>)
  {
    forall i, j :: 0 <= i < j < |units| ==> units[i].fields.title != units[j].fields.title
  }

  /** `unit.findFirst({ where: { title } })`. */
  function UnitByTitle(units: seq<Row<Unit>>, title: string): (r: Option<nat>)
    ensures r.Some? ==> r.value < |units| && units[r.value].fields.title == title
    ensures r.None? <==> !TitleIn(units, title)
  {
    FirstIndex(units, (u: Row<Unit>) => u.fields.title == title)
  }

  /** `createUnit(data)`. */
  method CreateUnit(db: Db, data: Unit) returns (r: Reply<Row<Unit>>)
    requires db.Valid()
    modifies db`units, db`nextId
    ensures db.Valid()
    ensures TitleIn(old(db.units), data.title) ==>
      r == Reply(400, None, Some("Unit already exists"), None) && unchanged(db)
    ensures !TitleIn(old(db.units), data.title) ==>
      var row := Row(old(db.nextId), data);
      && db.units == old(db.units) + [row] && db.nextId == old(db.nextId) + 1
      && r == Reply(200, Some("Unit created successfully"), None, Some(row))
    ensures TitlesDistinct(old(db.units)) ==> TitlesDistinct(db.units)
  {
    var existing := UnitByTitle(db.units, data.title);
    if existing.Some? {
      return Reply(400, None, Some("Unit already exists"), None);
    }
    var row := Row(db.nextId, data);
    AppendKeepsTable(db.units, db.nextId, data);
    db.units, db.nextId := db.units + [row], db.nextId + 1;
    return Reply(200, Some("Unit created successfully"), None, Some(row));
  }

  /** `updateUnit(id, data)`: `null` when no unit has the id. */
  method UpdateUnit(db: Db, id: nat, data: Unit) returns (r: Option<Reply<Row<Unit>>>)
    requires db.Valid()
    modifies db`units
    ensures db.Valid()
    ensures IndexOfId(old(db.units), id).None? ==> r.None? && db.units == old(db.units)
    ensures IndexOfId(old(db.units), id).Some? ==>
      && db.units == ReplaceId(old(db.units), id, data)
      && r == Some(Reply(200, Some("Unit updated successfully"), None, Some(Row(id, data))))
  {
    if IndexOfId(db.units, id).None? {
      return None;
    }
    ReplaceKeepsTable(db.units, id, data, db.nextId);
    db.units := ReplaceId(db.units, id, data);
    return Some(Reply(200, Some("Unit updated successfully"), None, Some(Row(id, data))));
  }

  /** `deleteUnit(id)`: `null` when no unit has the id. */
  method DeleteUnit(db: Db, id: nat) returns (r: Option<Reply<Row<Unit>>>)
    requires db.Valid()
    modifies db`units
    ensures db.Valid()
    ensures IndexOfId(old(db.units), id).None? ==> r.None? && db.units == old(db.units)
    ensures IndexOfId(old(db.units), id).Some? ==>
      var k := IndexOfId(old(db.units), id).value;
      && db.units == old(db.units)[..k] + old(db.units)[k + 1..]
      && r == Some(Reply(200, Some("Unit deleted successfully"), None, Some(old(db.units)[k])))
  {
    var found := IndexOfId(db.units, id);
    if found.None? {
      return None;
    }
    var k := found.value;
    var deleted := db.units[k];
    CutKeepsTable(db.units, db.nextId, k);
    db.units := db.units[..k] + db.units[k + 1..];
    return Some(Reply(200, Some("Unit deleted successfully"), None, Some(deleted)));
  }

  /** The `where: { organizationId }` test. */
  function InOrganization(organizationId: nat): Row<Unit> -> bool
  {
    (u: Row<Unit>) => u.fields.organizationId == organizationId
  }

  /** `getUnitsByOrganizationId(organizationId)`: the organization's units in table order. */
  function UnitsByOrganization(units: seq<Row<Unit>>, organizationId: nat): (r: seq<Row<Unit>>)
    ensures forall i :: 0 <= i < |r| ==> r[i] in units && r[i].fields.organizationId == organizationId
    ensures forall i :: 0 <= i < |units| && units[i].fields.organizationId == organizationId ==> units[i] in r
    ensures SubsequenceOf(r, units)
  {
    FilterIsSubsequence(units, InOrganization(organizationId));
    Filter(units, InOrganization(organizationId))
  }

  /** A created unit shows up last in its own organization's list and leaves
      every other organization's list as it was. */
  lemma CreatedUnitListed(units: seq<Row<Unit>>, row: Row<Unit>, organizationId: nat)
    ensures UnitsByOrganization(units + [row], organizationId) ==
      UnitsByOrganization(units, organizationId) + (if row.fields.organizationId == organizationId then [row] else [])
  {
    FilterAppend(units, [row], InOrganization(organizationId));
  }
}
