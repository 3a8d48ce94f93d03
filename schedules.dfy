/**
 * The production-schedule endpoint: the listing with its status filter and its parse of each
 * stored machine list, and the create handler's validation, defaults and JSON encoding.
 */
module Schedules {
  import opened Wrappers
  import opened Seqs
  import opened Records
  import opened Text
  import opened Js
  import Json

  /** The fields of a create request; a field the body leaves out (or sends as `null`) is `None` or `Absent`. */
  datatype Request = Request(
    vehicleModel: Option<string>,
    scheduleType: Option<string>,
    targetQuantity: Input,
    completedQuantity: Input,
    startDate: Option<string>,
    endDate: Option<string>,
    assignedMachines: Option<seq<string>>,
    assignedLabor: Input,
    status: Option<string>)

  const RequiredMessage := "Vehicle model, start date, and target quantity are required"
  const CreatedMessage := "Schedule created successfully"
  const FailedMessage := "Failed to create schedule"

  /** The required-field check: a model, a start date and a truthy target. */
  predicate Accepts(req: Request) {
    Present(req.vehicleModel) && Present(req.startDate) && Truthy(req.targetQuantity)
  }

  /**
   * The row an accepted request stores, `id` being the key the store assigns. The machine list
   * is stored as its JSON text, and that text parses back to the list sent (an empty one when
   * none was).
   */
  function Row(req: Request, id: string): (s: Schedule<string>)
    requires Accepts(req)
    ensures s.id == id && s.vehicleModel == req.vehicleModel.value && s.startDate == req.startDate.value
    ensures s.scheduleType == (if Present(req.scheduleType) then req.scheduleType.value else "daily")
    ensures s.status == (if Present(req.status) then req.status.value else "pending")
    ensures s.endDate.Some? <==> Present(req.endDate)
    ensures s.endDate.Some? ==> s.endDate.value == req.endDate.value
    ensures s.targetQuantity == CoerceInt(req.targetQuantity)
    ensures s.completedQuantity == CoerceInt(req.completedQuantity)
    ensures s.assignedLabor == CoerceInt(req.assignedLabor)
    ensures Json.Decode(s.assignedMachines) == Some(req.assignedMachines.GetOr([]))
  {
    Json.DecodeEncode(req.assignedMachines.GetOr([]));
    Schedule(
      id,
      req.vehicleModel.value,
      Or(req.scheduleType, "daily"),
      CoerceInt(req.targetQuantity),
      CoerceInt(req.completedQuantity),
      req.startDate.value,
      if Present(req.endDate) then Some(req.endDate.value) else None,
      Json.Encode(req.assignedMachines.GetOr([])),
      CoerceInt(req.assignedLabor),
      Or(req.status, "pending"))
  }

  /** `{ ...schedule, assignedMachines: JSON.parse(schedule.assignedMachines) }`; `None` where the parse throws. */
  function Parsed(s: Schedule<string>): (v: Option<Schedule<seq<string>>>)
    ensures v.Some? <==> Json.Decode(s.assignedMachines).Some?
    ensures v.Some? ==> v.value.assignedMachines == Json.Decode(s.assignedMachines).value
    ensures v.Some? ==> v.value.id == s.id && v.value.status == s.status && v.value.vehicleModel == s.vehicleModel
    ensures v.Some? ==> v.value.scheduleType == s.scheduleType && v.value.startDate == s.startDate && v.value.endDate == s.endDate
    ensures v.Some? ==> v.value.targetQuantity == s.targetQuantity && v.value.completedQuantity == s.completedQuantity
    ensures v.Some? ==> v.value.assignedLabor == s.assignedLabor
  {
    match Json.Decode(s.assignedMachines)
    case None => None
    case Some(ms) =>
      Some(Schedule(s.id, s.vehicleModel, s.scheduleType, s.targetQuantity, s.completedQuantity,
                    s.startDate, s.endDate, ms, s.assignedLabor, s.status))
  }

  /** Every stored machine list is JSON text that parses. */
  ghost predicate AllParse(rows: seq<Schedule<string>>) {
    forall i :: 0 <= i < |rows| ==> Json.Decode(rows[i].assignedMachines).Some?
  }

  /** The listing's `map`: `None` (a 500 reply) as soon as one row does not parse. */
  function ParseAll(rows: seq<Schedule<string>>): (r: Option<seq<Schedule<seq<string>>>>)
    ensures r.Some? <==> AllParse(rows)
    ensures r.Some? ==> |r.value| == |rows| && forall i :: 0 <= i < |rows| ==> Parsed(rows[i]) == Some(r.value[i])
  {
    if rows == [] then Some([])
    else
      var v, vs := Parsed(rows[0]), ParseAll(rows[1..]);
      assert forall j :: 0 <= j < |rows| - 1 ==> rows[1..][j] == rows[j + 1];
      if v.None? || vs.None? then None else Some([v.value] + vs.value)
  }

  // ----- the listing -----

  /** The `where` the listing builds: a status filter unless the parameter is missing, empty or "all". */
  predicate StatusMatches(s: Schedule<string>, status: Option<string>) {
    (Present(status) && status.value != "all") ==> s.status == status.value
  }

  /** What a status filter keeps, newest first. */
  function Selected(rows: seq<Schedule<string>>, status: Option<string>): (r: seq<Schedule<string>>)
    ensures forall s :: s in r <==> s in rows && StatusMatches(s, status)
  {
    Reverse(Filter((s: Schedule<string>) => StatusMatches(s, status), rows))
  }

  /** `GET /api/schedules?status=…`: the kept rows, newest first, with parsed machine lists. */
  function Listing(rows: seq<Schedule<string>>, status: Option<string>): (r: Option<seq<Schedule<seq<string>>>>)
    ensures AllParse(rows) ==> r.Some?
    ensures r.Some? ==> forall i :: 0 <= i < |r.value| ==> exists s :: s in rows && StatusMatches(s, status) && Parsed(s) == Some(r.value[i])
    ensures r.Some? && Present(status) && status.value != "all" ==> forall i :: 0 <= i < |r.value| ==> r.value[i].status == status.value
    ensures r.Some? ==> |r.value| == |Selected(rows, status)|
    ensures r.Some? ==> forall i :: 0 <= i < |r.value| ==> Parsed(Selected(rows, status)[i]) == Some(r.value[i])
  {
    var kept := Selected(rows, status);
    assert AllParse(rows) ==> AllParse(kept) by {
      if AllParse(rows) {
        forall i | 0 <= i < |kept|
          ensures Json.Decode(kept[i].assignedMachines).Some?
        {
          assert kept[i] in rows;
        }
      }
    }
    var r := ParseAll(kept);
    assert r.Some? ==> forall i :: 0 <= i < |r.value| ==> kept[i] in rows && StatusMatches(kept[i], status);
    r
  }

  /** With no status, or with "all", every stored schedule is listed, the newest first. */
  lemma ListingUnfiltered(rows: seq<Schedule<string>>, status: Option<string>)
    requires AllParse(rows)
    requires status == None || status == Some("") || status == Some("all")
    ensures Listing(rows, status).Some? && |Listing(rows, status).value| == |rows|
    ensures forall i :: 0 <= i < |rows| ==> Some(Listing(rows, status).value[i]) == Parsed(rows[|rows| - 1 - i])
    ensures forall s :: s in rows ==> Parsed(s).value in Listing(rows, status).value
  {
    FilterAll((s: Schedule<string>) => StatusMatches(s, status), rows);
    var sel := Selected(rows, status);
    assert sel == Reverse(rows);
    var l := Listing(rows, status).value;
    forall i | 0 <= i < |rows|
      ensures Some(l[i]) == Parsed(rows[|rows| - 1 - i])
    {
      assert sel[i] == rows[|rows| - 1 - i];
    }
    forall s | s in rows
      ensures Parsed(s).value in l
    {
      var k :| 0 <= k < |rows| && rows[k] == s;
      assert Some(l[|rows| - 1 - k]) == Parsed(rows[k]);
    }
  }

  // ----- the create handler -----

  /**
   * The reply to a create request: a 400 exactly when the required-field check fails,
   * otherwise the stored row shown with its machine list parsed back to the list sent.
   */
  function Reply(req: Request, id: string): (o: Outcome<Schedule<seq<string>>>)
    ensures o.Rejected? <==> !Accepts(req)
    ensures o.Rejected? ==> o == Rejected(400, RequiredMessage)
    ensures o.Created? ==> o.message == CreatedMessage && Some(o.record) == Parsed(Row(req, id))
    ensures o.Created? ==> o.record.assignedMachines == req.assignedMachines.GetOr([])
  {
    if !Accepts(req) then Rejected(400, RequiredMessage)
    else
      match Parsed(Row(req, id))
      case Some(v) => Created(CreatedMessage, v)
      case None => Rejected(500, FailedMessage)
  }

  /** A target of the number 0 is refused, while the text "0" passes the check and is stored as 0. */
  lemma ZeroTarget(req: Request, id: string)
    requires Present(req.vehicleModel) && Present(req.startDate)
    ensures Reply(req.(targetQuantity := Num(0)), id) == Rejected(400, RequiredMessage)
    ensures Reply(req.(targetQuantity := Str("0")), id).Created?
    ensures Reply(req.(targetQuantity := Str("0")), id).record.targetQuantity == 0
  {
    var zero := req.(targetQuantity := Str("0"));
    assert CoerceInt(Str("0")) == 0 by {
      ParseIntOfString(0);
      assert IntToString(0) == "0";
    }
    assert Accepts(zero);
    var row := Row(zero, id);
    assert Parsed(row).value.targetQuantity == row.targetQuantity == 0;
  }

  /** The stored schedules, oldest first. */
  class Store {
    var rows: seq<Schedule<string>>

    /** Every stored machine list parses, so the listing never fails on one. */
    ghost predicate Valid()
      reads this
    {
      AllParse(rows)
    }

    constructor ()
      ensures rows == [] && Valid()
    {
      rows := [];
    }

    /** `POST /api/schedules`: a rejected request leaves the store as it was; an accepted one appends its row. */
    method Create(req: Request, id: string) returns (o: Outcome<Schedule<seq<string>>>)
      requires Valid()
      modifies this
      ensures Valid()
      ensures o == Reply(req, id)
      ensures !Accepts(req) ==> rows == old(rows)
      ensures Accepts(req) ==> rows == old(rows) + [Row(req, id)]
    {
      if !Accepts(req) {
        return Rejected(400, RequiredMessage);
      }
      var row := Row(req, id);
      rows := rows + [row];
      o := Reply(req, id);
    }
  }

  /** A schedule just created heads the listing of every filter it passes. */
  lemma CreatedHeadsListing(rows: seq<Schedule<string>>, req: Request, id: string, status: Option<string>)
    requires AllParse(rows) && Accepts(req)
    requires StatusMatches(Row(req, id), status)
    ensures var l := Listing(rows + [Row(req, id)], status);
      l.Some? && |l.value| >= 1 && l.value[0] == Reply(req, id).record
  {
    var row := Row(req, id);
    AppendKeepsParse(rows, row);
    SelectedHead(rows, row, status);
    ListingHead(rows + [row], status);
  }

  /** Appending a row whose machine text parses keeps every stored machine text parsing. */
  lemma AppendKeepsParse(rows: seq<Schedule<string>>, row: Schedule<string>)
    requires AllParse(rows) && Json.Decode(row.assignedMachines).Some?
    ensures AllParse(rows + [row])
  {
    assert forall i :: 0 <= i < |rows| ==> (rows + [row])[i] == rows[i];
  }

  /** A row appended last, and passing the filter, is the first row selected. */
  lemma SelectedHead(rows: seq<Schedule<string>>, row: Schedule<string>, status: Option<string>)
    requires StatusMatches(row, status)
    ensures var kept := Selected(rows + [row], status); |kept| >= 1 && kept[0] == row
  {
    var p := (s: Schedule<string>) => StatusMatches(s, status);
    FilterSnoc(p, rows, row);
    ReverseSnoc(Filter(p, rows), row);
  }

  /** The first listed schedule is the first selected row, parsed. */
  lemma ListingHead(rows: seq<Schedule<string>>, status: Option<string>)
    requires AllParse(rows) && |Selected(rows, status)| >= 1
    ensures var l := Listing(rows, status);
      l.Some? && |l.value| >= 1 && Parsed(Selected(rows, status)[0]) == Some(l.value[0])
  {
    assert Listing(rows, status) == ParseAll(Selected(rows, status));
  }
}
