/**
 * The quality-inspection endpoint: the listing with its result filter, and the create handler's
 * validation and its derivation of `defectDescription` and `approved` from the result sent.
 */
module Inspections {
  import opened Wrappers
  import opened Seqs
  import opened Records
  import opened Js

  /** The fields of a create request. */
  datatype Request = Request(
    vehicleId: Option<string>,
    vehicleModel: Option<string>,
    inspectionType: Option<string>,
    result: Option<string>,
    defectDescription: Option<string>,
    inspector: Option<string>)

  const RequiredMessage := "Vehicle ID and inspector are required"
  const DefectMessage := "Defect description is required for failed inspections"
  const ApprovedMessage := "Inspection passed - Auto approved"
  const ReviewMessage := "Inspection recorded - Requires review"

  predicate HasRequired(req: Request) {
    Present(req.vehicleId) && Present(req.inspector)
  }

  /** `result === 'fail'`: the text sent, before any default. */
  predicate IsFail(req: Request) {
    req.result == Some("fail")
  }

  /** `result === 'pass'`: the text sent, before any default. */
  predicate IsPass(req: Request) {
    req.result == Some("pass")
  }

  /** The two checks: the vehicle and the inspector, then a description for a failure. */
  predicate Accepts(req: Request) {
    HasRequired(req) && !(IsFail(req) && !Present(req.defectDescription))
  }

  /**
   * The row an accepted request stores, `now` being the time the store stamps it with. Only a
   * failure keeps a defect description; only a result sent as exactly "pass" is approved.
   */
  function Row(req: Request, id: string, now: string): (r: Inspection)
    requires Accepts(req)
    ensures r.id == id && r.vehicleId == req.vehicleId.value && r.inspector == req.inspector.value && r.inspectionDate == now
    ensures r.vehicleModel == (if Present(req.vehicleModel) then req.vehicleModel.value else "EV-Compact")
    ensures r.inspectionType == (if Present(req.inspectionType) then req.inspectionType.value else "visual")
    ensures r.result == (if Present(req.result) then req.result.value else "pass")
    ensures r.defectDescription.Some? <==> IsFail(req)
    ensures r.defectDescription.Some? ==> r.defectDescription == req.defectDescription && r.defectDescription.value != ""
    ensures r.approved <==> IsPass(req)
  {
    Inspection(id, req.vehicleId.value, Or(req.vehicleModel, "EV-Compact"), Or(req.inspectionType, "visual"),
               Or(req.result, "pass"), if IsFail(req) then req.defectDescription else None,
               req.inspector.value, now, IsPass(req))
  }

  /** The reply: the first failing check's 400, or the stored row with the message its result calls for. */
  function Reply(req: Request, id: string, now: string): (o: Outcome<Inspection>)
    ensures o.Created? <==> Accepts(req)
    ensures !HasRequired(req) ==> o == Rejected(400, RequiredMessage)
    ensures HasRequired(req) && IsFail(req) && !Present(req.defectDescription) ==> o == Rejected(400, DefectMessage)
    ensures o.Created? ==> o.record == Row(req, id, now)
    ensures o.Created? ==> (o.message == ApprovedMessage <==> IsPass(req)) && (o.message == ReviewMessage <==> !IsPass(req))
  {
    if !HasRequired(req) then Rejected(400, RequiredMessage)
    else if IsFail(req) && !Present(req.defectDescription) then Rejected(400, DefectMessage)
    else Created(if IsPass(req) then ApprovedMessage else ReviewMessage, Row(req, id, now))
  }

  /** A request without a result is stored as a pass, yet is not approved and waits for review. */
  lemma OmittedResultNeedsReview(req: Request, id: string, now: string)
    requires HasRequired(req) && req.result == None
    ensures Reply(req, id, now).Created?
    ensures Reply(req, id, now).record.result == "pass" && !Reply(req, id, now).record.approved
    ensures Reply(req, id, now).message == ReviewMessage
  {
  }

  /** A stored row whose derived fields agree with its result. */
  predicate Consistent(r: Inspection) {
    (r.approved ==> r.result == "pass") && (r.defectDescription.Some? ==> r.result == "fail")
  }

  /** Every row a create stores is consistent. */
  lemma RowConsistent(req: Request, id: string, now: string)
    requires Accepts(req)
    ensures Consistent(Row(req, id, now))
  {
  }

  class Store {
    /** The stored inspections, oldest first. */
    var rows: seq<Inspection>

    ghost predicate Valid()
      reads this
    {
      forall i :: 0 <= i < |rows| ==> Consistent(rows[i])
    }

    constructor ()
      ensures rows == [] && Valid()
    {
      rows := [];
    }

    /** `POST /api/inspections`: a rejected request leaves the store as it was. */
    method Create(req: Request, id: string, now: string) returns (o: Outcome<Inspection>)
      requires Valid()
      modifies this
      ensures Valid()
      ensures o == Reply(req, id, now)
      ensures o.Rejected? ==> rows == old(rows)
      ensures o.Created? ==> rows == old(rows) + [o.record]
    {
      o := Reply(req, id, now);
      if o.Created? {
        RowConsistent(req, id, now);
        rows := rows + [o.record];
      }
    }
  }

  // ----- the listing -----

  /** The result condition: none when the parameter is missing, empty or "all". */
  predicate ResultMatches(r: Inspection, result: Option<string>) {
    (Present(result) && result.value != "all") ==> r.result == result.value
  }

  /** `GET /api/inspections?result=…`: the kept inspections, the latest first. */
  function Listing(rows: seq<Inspection>, result: Option<string>): (r: seq<Inspection>)
    ensures |r| <= |rows|
    ensures forall x :: x in r <==> x in rows && ResultMatches(x, result)
    ensures Present(result) && result.value != "all" ==> forall i :: 0 <= i < |r| ==> r[i].result == result.value
  {
    var r := Reverse(Filter((x: Inspection) => ResultMatches(x, result), rows));
    assert forall i :: 0 <= i < |r| ==> r[i] in r;
    r
  }

  /** With no result, or with "all", every inspection is listed, the latest first. */
  lemma ListingUnfiltered(rows: seq<Inspection>, result: Option<string>)
    requires result == None || result == Some("") || result == Some("all")
    ensures Listing(rows, result) == Reverse(rows)
  {
    FilterAll((x: Inspection) => ResultMatches(x, result), rows);
  }
}
