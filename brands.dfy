/** The brand actions of `actions/brands.ts`: create and delete on the brand
    table, and the unwrapping of the brand list the API route answers with. */
module Brands {
  import opened Wrappers
  import opened Seqs
  import opened Store

  predicate NameIn(brands: seq<Row<Brand>>, name: string)
  {
    exists i :: 0 <= i < |brands| && brands[i].fields.name == name
  }

  /** `brand.findFirst({ where: { name } })`. */
  function BrandByName(brands: seq<Row<Brand>>, name: string): (r: Option<nat>)
    ensures r.Some? ==> r.value < |brands| && brands[r.value].fields.name == name
    ensures r.None? <==> !NameIn(brands, name)
  {
    FirstIndex(brands, (b: Row<Brand>) => b.fields.name == name)
  }

  /** `createBrand(data)`: the name check spans every organization. */
  method CreateBrand(db: Db, data: Brand) returns (r: Reply<Row<Brand>>)
    requires db.Valid()
    modifies db`brands, db`nextId
    ensures db.Valid()
    ensures NameIn(old(db.brands), data.name) ==>
      r == Reply(400, None, Some("Brand already exists"), None) && unchanged(db)
    ensures !NameIn(old(db.brands), data.name) ==>
      var row := Row(old(db.nextId), data);
      && db.brands == old(db.brands) + [row] && db.nextId == old(db.nextId) + 1
      && r == Reply(200, Some("Brand created successfully"), None, Some(row))
  {
    if BrandByName(db.brands, data.name).Some? {
      return Reply(400, None, Some("Brand already exists"), None);
    }
    var row := Row(db.nextId, data);
    AppendKeepsTable(db.brands, db.nextId, data);
    db.brands, db.nextId := db.brands + [row], db.nextId + 1;
    return Reply(200, Some("Brand created successfully"), None, Some(row));
  }

  /** `deleteBrand(id)`: `null` when no brand has the id. */
  method DeleteBrand(db: Db, id: nat) returns (r: Option<Reply<Row<Brand>>>)
    requires db.Valid()
    modifies db`brands
    ensures db.Valid()
    ensures IndexOfId(old(db.brands), id).None? ==> r.None? && db.brands == old(db.brands)
    ensures IndexOfId(old(db.brands), id).Some? ==>
      var k := IndexOfId(old(db.brands), id).value;
      && db.brands == old(db.brands)[..k] + old(db.brands)[k + 1..]
      && r == Some(Reply(200, Some("Brand deleted successfully"), None, Some(old(db.brands)[k])))
  {
    var found := IndexOfId(db.brands, id);
    if found.None? {
      return None;
    }
    var k := found.value;
    var deleted := db.brands[k];
    CutKeepsTable(db.brands, db.nextId, k);
    db.brands := db.brands[..k] + db.brands[k + 1..];
    return Some(Reply(200, Some("Brand deleted successfully"), None, Some(deleted)));
  }

  // ---------------------------------------------------------------------
  // Unwrapping the list response

  /** A JSON value as the HTTP client hands it over. */
  datatype Json =
    | JNull
    | JBool(b: bool)
    | JNumber(n: int)
    | JString(s: string)
    | JArray(items: seq<Json>)
    | JObject(members: seq<(string, Json)>)

  /** JavaScript truthiness; an absent property (`undefined`) is `None`. */
  predicate Truthy(v: Option<Json>)
  {
    match v
    case None => false
    case Some(JNull) => false
    case Some(JBool(b)) => b
    case Some(JNumber(n)) => n != 0
    case Some(JString(s)) => s != ""
    case Some(JArray(_)) => true
    case Some(JObject(_)) => true
  }

  /** The value of the last member with that key, if any: `JSON.parse` keeps
      the last of repeated keys. */
  function Lookup(members: seq<(string, Json)>, key: string): (r: Option<Json>)
    ensures r.Some? ==> exists i :: 0 <= i < |members| && members[i] == (key, r.value)
                          && forall j :: i < j < |members| ==> members[j].0 != key
    ensures r.None? <==> forall i :: 0 <= i < |members| ==> members[i].0 != key
  {
    if members == [] then None
    else if members[|members| - 1].0 == key then Some(members[|members| - 1].1)
    else
      var front := members[..|members| - 1];
      var r := Lookup(front, key);
      assert forall i :: 0 <= i < |front| ==> members[i] == front[i];
      r
  }

  /** Members after the last one with the key do not change the lookup. */
  lemma {:induction false} LookupSkipsTail(front: seq<(string, Json)>, back: seq<(string, Json)>, key: string)
    requires forall i :: 0 <= i < |back| ==> back[i].0 != key
    ensures Lookup(front + back, key) == Lookup(front, key)
    decreases |back|
  {
    if back == [] {
      assert front + back == front;
    } else {
      var shorter := back[..|back| - 1];
      var whole := front + back;
      assert whole[|whole| - 1] == back[|back| - 1];
      assert whole[..|whole| - 1] == front + shorter;
      assert Lookup(whole, key) == Lookup(whole[..|whole| - 1], key);
      LookupSkipsTail(front, shorter, key);
    }
  }

  /** Property access `v.key`: absent on anything but an object. */
  function Member(v: Json, key: string): Option<Json>
  {
    if v.JObject? then Lookup(v.members, key) else None
  }

  /** The outcome of `api.get(...)`: a thrown error, or the response's `data`. */
  datatype Fetch = Failed | Received(body: Option<Json>)

  /** `getBrandsByOrganizationId`: `data.data` when the body is a truthy envelope
      whose `data` is truthy, otherwise the body itself when truthy, otherwise `[]`;
      a failed request also gives `[]`. */
  function UnwrapBrands(response: Fetch): (r: Json)
    ensures Truthy(Some(r))
    ensures response.Failed? || !Truthy(response.body) ==> r == JArray([])
    ensures response.Received? && response.body.Some? && response.body.value.JArray? ==> r == response.body.value
  {
    match response
    case Failed => JArray([])
    case Received(body) =>
      if Truthy(body) && Truthy(Member(body.value, "data")) then Member(body.value, "data").value
      else if Truthy(body) then body.value
      else JArray([])
  }

  /** The paginated route answers `{ data: brands, pagination }`; the list comes out unwrapped. */
  lemma PaginatedEnvelopeUnwrapped(brands: seq<Json>, pagination: Json)
    ensures UnwrapBrands(Received(Some(JObject([("data", JArray(brands)), ("pagination", pagination)])))) == JArray(brands)
  {
    LookupSkipsTail([("data", JArray(brands))], [("pagination", pagination)], "data");
    assert [("data", JArray(brands))] + [("pagination", pagination)] == [("data", JArray(brands)), ("pagination", pagination)];
  }

  /** An envelope whose only `data` is falsy comes back whole: the caller then
      gets an object, not a list. */
  lemma FalsyDataKeepsEnvelope(rest: seq<(string, Json)>)
    requires forall i :: 0 <= i < |rest| ==> rest[i].0 != "data"
    ensures var body := JObject([("data", JNull)] + rest);
      UnwrapBrands(Received(Some(body))) == body
  {
    var body := JObject([("data", JNull)] + rest);
    LookupSkipsTail([("data", JNull)], rest, "data");
  }

  /** Of repeated `data` keys the last one decides: a falsy first `data`
      followed by a list still unwraps to that list. */
  lemma LastDataWins(brands: seq<Json>)
    ensures UnwrapBrands(Received(Some(JObject([("data", JNull), ("data", JArray(brands))])))) == JArray(brands)
  {
  }
}
