/**
 * The production-cost endpoint: the create handler's validation, its `parseFloat(x) || 0`
 * reading of the three components and the total it stores beside them.
 */
module Costs {
  import opened Wrappers
  import opened Seqs
  import opened Records
  import opened Js

  /** The fields of a create request; the components are amounts of money. */
  datatype Request = Request(
    vehicleId: Option<string>,
    vehicleModel: Option<string>,
    materialCost: Input,
    laborCost: Input,
    overheadCost: Input)

  const RequiredMessage := "Vehicle ID is required"
  const CreatedMessage := "Production cost recorded successfully"

  /**
   * The row a request with a vehicle stores, `now` being its calculation time: each component
   * read in cents, an unreadable one as 0, and a total that is their sum.
   */
  function Row(req: Request, id: string, now: string): (c: Cost)
    requires Present(req.vehicleId)
    ensures c.id == id && c.vehicleId == req.vehicleId.value && c.calculatedAt == now
    ensures c.vehicleModel == (if Present(req.vehicleModel) then req.vehicleModel.value else "EV-Compact")
    ensures c.materialCost == CoerceCents(req.materialCost)
    ensures c.laborCost == CoerceCents(req.laborCost)
    ensures c.overheadCost == CoerceCents(req.overheadCost)
    ensures WellFormedCost(c)
  {
    var m, l, o := CoerceCents(req.materialCost), CoerceCents(req.laborCost), CoerceCents(req.overheadCost);
    Cost(id, req.vehicleId.value, Or(req.vehicleModel, "EV-Compact"), m, l, o, m + l + o, now)
  }

  /** The reply: a 400 without a vehicle, otherwise success with the stored row. */
  function Reply(req: Request, id: string, now: string): (o: Outcome<Cost>)
    ensures o.Created? <==> Present(req.vehicleId)
    ensures o.Rejected? ==> o == Rejected(400, RequiredMessage)
    ensures o.Created? ==> o.message == CreatedMessage && o.record == Row(req, id, now)
  {
    if !Present(req.vehicleId) then Rejected(400, RequiredMessage)
    else Created(CreatedMessage, Row(req, id, now))
  }

  /** An unreadable component is recorded as 0 and the total is the sum of the other two. */
  lemma UnreadableComponentIsZero(req: Request, id: string, now: string)
    requires Present(req.vehicleId) && req.laborCost == Str("TBD")
    ensures Row(req, id, now).laborCost == 0
    ensures Row(req, id, now).totalCost == CoerceCents(req.materialCost) + CoerceCents(req.overheadCost)
  {
    ParseFloatNoDigits("TBD");
  }

  /** The amounts a request sends as their decimal text are recorded exactly, and the total is their sum. */
  lemma DecimalTextRecorded(req: Request, id: string, now: string, m: int, l: int, o: int)
    requires Present(req.vehicleId)
    requires req.materialCost == Str(CentsToString(m)) && req.laborCost == Str(CentsToString(l))
    requires req.overheadCost == Str(CentsToString(o))
    ensures Row(req, id, now).totalCost == m + l + o
  {
    ParseFloatOfString(m);
    ParseFloatOfString(l);
    ParseFloatOfString(o);
  }

  class Store {
    /** The stored costs, oldest first. */
    var rows: seq<Cost>

    /** Every stored total is the sum of its components: the precondition of `Dashboard.CostBreakdownAddsUp`. */
    ghost predicate Valid()
      reads this
    {
      forall c :: c in rows ==> WellFormedCost(c)
    }

    constructor ()
      ensures rows == [] && Valid()
    {
      rows := [];
    }

    /** `POST /api/costs`: a rejected request leaves the store as it was. */
    method Create(req: Request, id: string, now: string) returns (o: Outcome<Cost>)
      requires Valid()
      modifies this
      ensures Valid()
      ensures o == Reply(req, id, now)
      ensures o.Rejected? ==> rows == old(rows)
      ensures o.Created? ==> rows == old(rows) + [o.record]
    {
      o := Reply(req, id, now);
      if o.Created? {
        rows := rows + [o.record];
      }
    }
  }
}
