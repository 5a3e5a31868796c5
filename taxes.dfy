/** The tax-rate actions of `actions/taxes.ts`. A tax name may repeat across
    organizations but not within one. */
module Taxes {
  import opened Wrappers
  import opened Seqs
  import opened Store

  /** Some tax of the organization already has the name. */
  predicate TaxIn(taxes: seq<Row<TaxRate>>, name: string, organizationId: nat)
  {
    exists i :: 0 <= i < |taxes| && taxes[i].fields.name == name && taxes[i].fields.organizationId == organizationId
  }

  /** No organization has two taxes with the same name. */
  predicate NamesDistinctPerOrganization(taxes: seq<Row<TaxRate>>)
  {
    forall i, j :: 0 <= i < j < |taxes| && taxes[i].fields.organizationId == taxes[j].fields.organizationId ==>
      taxes[i].fields.name != taxes[j].fields.name
  }

  /** `taxRate.findFirst({ where: { name, organizationId } })`. */
  function TaxByName(taxes: seq<Row<TaxRate>>, name: string, organizationId: nat): (r: Option<nat>)
    ensures r.Some? ==> r.value < |taxes| && taxes[r.value].fields.name == name && taxes[r.value].fields.organizationId == organizationId
    ensures r.None? <==> !TaxIn(taxes, name, organizationId)
  {
    FirstIndex(taxes, (t: Row<TaxRate>) => t.fields.name == name && t.fields.organizationId == organizationId)
  }

  /** `createTax(data)`. */
  method CreateTax(db: Db, data: TaxRate) returns (r: Reply<Row<TaxRate>>)
    requires db.Valid()
    modifies db`taxRates, db`nextId
    ensures db.Valid()
    ensures TaxIn(old(db.taxRates), data.name, data.organizationId) ==>
      r == Reply(400, None, Some("Tax rate already exists"), None) && unchanged(db)
    ensures !TaxIn(old(db.taxRates), data.name, data.organizationId) ==>
      var row := Row(old(db.nextId), data);
      && db.taxRates == old(db.taxRates) + [row] && db.nextId == old(db.nextId) + 1
      && r == Reply(200, Some("Tax rate created successfully"), None, Some(row))
    ensures NamesDistinctPerOrganization(old(db.taxRates)) ==> NamesDistinctPerOrganization(db.taxRates)
  {
    if TaxByName(db.taxRates, data.name, data.organizationId).Some? {
      return Reply(400, None, Some("Tax rate already exists"), None);
    }
    var row := Row(db.nextId, data);
    AppendKeepsTable(db.taxRates, db.nextId, data);
    db.taxRates, db.nextId := db.taxRates + [row], db.nextId + 1;
    return Reply(200, Some("Tax rate created successfully"), None, Some(row));
  }

  /** `deleteTax(id)`: a missing id is reported as a 500. */
  method DeleteTax(db: Db, id: nat) returns (r: Reply<()>)
    requires db.Valid()
    modifies db`taxRates
    ensures db.Valid()
    ensures IndexOfId(old(db.taxRates), id).None? ==>
      r == Reply(500, None, Some("Something went wrong"), None) && db.taxRates == old(db.taxRates)
    ensures IndexOfId(old(db.taxRates), id).Some? ==>
      var k := IndexOfId(old(db.taxRates), id).value;
      && db.taxRates == old(db.taxRates)[..k] + old(db.taxRates)[k + 1..]
      && r == Reply(200, Some("Tax rate deleted successfully"), None, None)
  {
    var found := IndexOfId(db.taxRates, id);
    if found.None? {
      return Reply(500, None, Some("Something went wrong"), None);
    }
    var k := found.value;
    CutKeepsTable(db.taxRates, db.nextId, k);
    db.taxRates := db.taxRates[..k] + db.taxRates[k + 1..];
    return Reply(200, Some("Tax rate deleted successfully"), None, None);
  }

  /** The `where: { organizationId }` test. */
  function InOrganization(organizationId: nat): Row<TaxRate> -> bool
  {
    (t: Row<TaxRate>) => t.fields.organizationId == organizationId
  }

  /** `getTaxesByOrganizationId(organizationId)`: the organization's taxes in table order. */
  function TaxesByOrganization(taxes: seq<Row<TaxRate>>, organizationId: nat): (r: seq<Row<TaxRate>>)
    ensures forall i :: 0 <= i < |r| ==> r[i] in taxes && r[i].fields.organizationId == organizationId
    ensures forall i :: 0 <= i < |taxes| && taxes[i].fields.organizationId == organizationId ==> taxes[i] in r
    ensures SubsequenceOf(r, taxes)
  {
    FilterIsSubsequence(taxes, InOrganization(organizationId));
    Filter(taxes, InOrganization(organizationId))
  }

  /** Creating a tax in one organization never takes its name in another:
      the existence check of `createTax` for organization `b` answers as it
      did before the tax was added to organization `a`. */
  lemma SameNameOtherOrganization(taxes: seq<Row<TaxRate>>, id: nat, name: string, rate: real, a: nat, b: nat)
    requires a != b
    ensures TaxIn(taxes + [Row(id, TaxRate(name, rate, a))], name, b) == TaxIn(taxes, name, b)
  {
    var grown := taxes + [Row(id, TaxRate(name, rate, a))];
    if TaxIn(grown, name, b) {
      var i :| 0 <= i < |grown| && grown[i].fields.name == name && grown[i].fields.organizationId == b;
      assert i < |taxes| && grown[i] == taxes[i];
    }
    if TaxIn(taxes, name, b) {
      var i :| 0 <= i < |taxes| && taxes[i].fields.name == name && taxes[i].fields.organizationId == b;
      assert grown[i] == taxes[i];
    }
  }

  /** Within one organization the listed taxes have distinct names when the
      per-organization rule holds. */
  lemma {:induction false} ListedNamesDistinct(taxes: seq<Row<TaxRate>>, organizationId: nat)
    requires NamesDistinctPerOrganization(taxes)
    ensures var r := TaxesByOrganization(taxes, organizationId);
      forall i, j :: 0 <= i < j < |r| ==> r[i].fields.name != r[j].fields.name
  {
    if taxes != [] {
      var p := InOrganization(organizationId);
      assert NamesDistinctPerOrganization(taxes[1..]) by {
        forall i, j | 0 <= i < j < |taxes[1..]| && taxes[1..][i].fields.organizationId == taxes[1..][j].fields.organizationId
          ensures taxes[1..][i].fields.name != taxes[1..][j].fields.name
        {
          assert taxes[1..][i] == taxes[i + 1] && taxes[1..][j] == taxes[j + 1];
        }
      }
      ListedNamesDistinct(taxes[1..], organizationId);
      var tail := TaxesByOrganization(taxes[1..], organizationId);
      if p(taxes[0]) {
        forall j | 0 <= j < |tail| ensures taxes[0].fields.name != tail[j].fields.name {
          var k :| 0 <= k < |taxes[1..]| && taxes[1..][k] == tail[j];
          assert taxes[k + 1] == tail[j];
        }
        assert TaxesByOrganization(taxes, organizationId) == [taxes[0]] + tail;
      }
    }
  }
}
