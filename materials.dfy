/**
 * The materials endpoint: the listing with its category filter and case-insensitive search,
 * and the create handler's validation, unique-SKU rejection and defaults.
 */
module Materials {
  import opened Wrappers
  import opened Seqs
  import opened Text
  import opened Records
  import opened Js

  /** The fields of a create request; money (`unitCost`) in cents. */
  datatype Request = Request(
    name: Option<string>,
    sku: Option<string>,
    category: Option<string>,
    quantity: Input,
    unit: Option<string>,
    minStock: Input,
    unitCost: Input,
    supplier: Option<string>,
    supplierContact: Option<string>)

  const RequiredMessage := "Name, SKU, and supplier are required"
  const DuplicateMessage := "SKU already exists"
  const CreatedMessage := "Material created successfully"

  predicate HasRequired(req: Request) {
    Present(req.name) && Present(req.sku) && Present(req.supplier)
  }

  /** `findUnique({ where: { sku } })` finds a row: the SKU is compared exactly. */
  predicate SkuTaken(rows: seq<Material>, sku: string) {
    exists i :: 0 <= i < |rows| && rows[i].sku == sku
  }

  /** No two stored materials share a SKU (the column is unique). */
  ghost predicate DistinctSkus(rows: seq<Material>) {
    forall i, j :: 0 <= i < j < |rows| ==> rows[i].sku != rows[j].sku
  }

  /** The row a request passing both checks stores; `id` is the key the store assigns. */
  function Row(req: Request, id: string): (m: Material)
    requires HasRequired(req)
    ensures m.id == id && m.name == req.name.value && m.sku == req.sku.value && m.supplier == req.supplier.value
    ensures m.category == (if Present(req.category) then req.category.value else "electronics")
    ensures m.unit == (if Present(req.unit) then req.unit.value else "units")
    ensures m.supplierContact == (if Present(req.supplierContact) then req.supplierContact.value else "")
    ensures m.quantity == CoerceInt(req.quantity) && m.minStock == CoerceInt(req.minStock)
    ensures m.unitCost == CoerceCents(req.unitCost)
  {
    Material(id, req.name.value, req.sku.value, Or(req.category, "electronics"), CoerceInt(req.quantity),
             Or(req.unit, "units"), CoerceInt(req.minStock), CoerceCents(req.unitCost), req.supplier.value,
             Or(req.supplierContact, ""))
  }

  /** The reply to a create request: missing fields first, then a taken SKU, then the stored row. */
  function Reply(rows: seq<Material>, req: Request, id: string): (o: Outcome<Material>)
    ensures o.Created? <==> HasRequired(req) && !SkuTaken(rows, req.sku.value)
    ensures !HasRequired(req) ==> o == Rejected(400, RequiredMessage)
    ensures HasRequired(req) && SkuTaken(rows, req.sku.value) ==> o == Rejected(400, DuplicateMessage)
    ensures o.Created? ==> o == Created(CreatedMessage, Row(req, id))
  {
    if !HasRequired(req) then Rejected(400, RequiredMessage)
    else if SkuTaken(rows, req.sku.value) then Rejected(400, DuplicateMessage)
    else Created(CreatedMessage, Row(req, id))
  }

  /** The same SKU sent again after a successful create is refused as a duplicate. */
  lemma SecondCreateRejected(rows: seq<Material>, req: Request, id: string, req': Request, id': string)
    requires HasRequired(req) && HasRequired(req') && req'.sku == req.sku
    ensures Reply(rows + [Row(req, id)], req', id') == Rejected(400, DuplicateMessage)
  {
    var rows' := rows + [Row(req, id)];
    assert rows'[|rows|].sku == req'.sku.value;
  }

  /** Numeric text with no leading digits is stored as 0. */
  lemma UnparsableNumbersBecomeZero(req: Request, id: string)
    requires HasRequired(req)
    requires req.quantity == Str("n/a") && req.unitCost == Str("n/a")
    ensures Row(req, id).quantity == 0 && Row(req, id).unitCost == 0
  {
    ParseIntNoDigits("n/a");
    ParseFloatNoDigits("n/a");
  }

  class Store {
    /** The stored materials, oldest first. */
    var rows: seq<Material>

    ghost predicate Valid()
      reads this
    {
      DistinctSkus(rows)
    }

    constructor ()
      ensures rows == [] && Valid()
    {
      rows := [];
    }

    /** `POST /api/materials`: a rejected request leaves the store as it was, SKUs stay unique. */
    method Create(req: Request, id: string) returns (o: Outcome<Material>)
      requires Valid()
      modifies this
      ensures Valid()
      ensures o == Reply(old(rows), req, id)
      ensures o.Rejected? ==> rows == old(rows)
      ensures o.Created? ==> rows == old(rows) + [o.record]
    {
      o := Reply(rows, req, id);
      if o.Created? {
        assert forall i :: 0 <= i < |rows| ==> rows[i].sku != o.record.sku;
        rows := rows + [o.record];
      }
    }
  }

  // ----- the listing -----

  /** The category condition: none when the parameter is missing, empty or "all". */
  predicate InCategory(m: Material, category: Option<string>) {
    (Present(category) && category.value != "all") ==> m.category == category.value
  }

  /** The search condition: the search text, ignoring case, inside the name, the SKU or the supplier. */
  predicate MatchesSearch(m: Material, search: Option<string>) {
    Present(search) ==>
      var q := ToLower(search.value);
      Contains(ToLower(m.name), q) || Contains(ToLower(m.sku), q) || Contains(ToLower(m.supplier), q)
  }

  /** `GET /api/materials?category=…&search=…`: the materials meeting both conditions, most recent first. */
  function Listing(rows: seq<Material>, category: Option<string>, search: Option<string>): (r: seq<Material>)
    ensures |r| <= |rows|
    ensures forall m :: m in r <==> m in rows && InCategory(m, category) && MatchesSearch(m, search)
  {
    Reverse(Filter((m: Material) => InCategory(m, category) && MatchesSearch(m, search), rows))
  }

  /** The search ignores case: a search and its lowercase form find the same materials. */
  lemma SearchIgnoresCase(m: Material, s: string)
    ensures MatchesSearch(m, Some(s)) <==> MatchesSearch(m, Some(ToLower(s)))
  {
    ToLowerIdempotent(s);
  }
}
