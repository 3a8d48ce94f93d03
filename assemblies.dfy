/**
 * The battery and powertrain assembly endpoint: the create handler's validation, its rejection
 * of a vehicle that already has an assembly, its defaults and its completion date rule.
 */
module Assemblies {
  import opened Wrappers
  import opened Records
  import opened Js

  /** The fields of a create request. */
  datatype Request = Request(
    vehicleId: Option<string>,
    vehicleModel: Option<string>,
    batteryType: Option<string>,
    motorSpec: Option<string>,
    controllerModel: Option<string>,
    status: Option<string>,
    assembledBy: Option<string>)

  const RequiredMessage := "Vehicle ID and model are required"
  const DuplicateMessage := "Vehicle ID already exists"
  const CreatedMessage := "Assembly created successfully"

  predicate HasRequired(req: Request) {
    Present(req.vehicleId) && Present(req.vehicleModel)
  }

  /** `findUnique({ where: { vehicleId } })` finds a row. */
  predicate VehicleTaken(rows: seq<Assembly>, vehicleId: string) {
    exists i :: 0 <= i < |rows| && rows[i].vehicleId == vehicleId
  }

  /** A row that has a completion date exactly when it is completed. */
  predicate CompletionAgrees(a: Assembly) {
    a.completionDate.Some? <==> a.status == "completed"
  }

  /**
   * The row a request passing both checks stores, `now` being the time of the request: the
   * defaults for what the request leaves out, and a completion date exactly when the stored
   * status is "completed".
   */
  function Row(req: Request, id: string, now: string): (a: Assembly)
    requires HasRequired(req)
    ensures a.id == id && a.vehicleId == req.vehicleId.value && a.vehicleModel == req.vehicleModel.value
    ensures a.batteryType == (if Present(req.batteryType) then req.batteryType.value else "Li-ion 40kWh")
    ensures a.motorSpec == (if Present(req.motorSpec) then req.motorSpec.value else "100kW")
    ensures a.controllerModel == (if Present(req.controllerModel) then req.controllerModel.value else "BorgWarner MCU-100")
    ensures a.status == (if Present(req.status) then req.status.value else "in_assembly")
    ensures a.assembledBy == (if Present(req.assembledBy) then req.assembledBy.value else "Tech Team A")
    ensures CompletionAgrees(a)
    ensures a.completionDate.Some? ==> a.completionDate.value == now
  {
    Assembly(id, req.vehicleId.value, req.vehicleModel.value, Or(req.batteryType, "Li-ion 40kWh"),
             Or(req.motorSpec, "100kW"), Or(req.controllerModel, "BorgWarner MCU-100"),
             Or(req.status, "in_assembly"), if req.status == Some("completed") then Some(now) else None,
             Or(req.assembledBy, "Tech Team A"))
  }

  /** The reply: missing fields first, then a vehicle that already has an assembly, then the stored row. */
  function Reply(rows: seq<Assembly>, req: Request, id: string, now: string): (o: Outcome<Assembly>)
    ensures o.Created? <==> HasRequired(req) && !VehicleTaken(rows, req.vehicleId.value)
    ensures !HasRequired(req) ==> o == Rejected(400, RequiredMessage)
    ensures HasRequired(req) && VehicleTaken(rows, req.vehicleId.value) ==> o == Rejected(400, DuplicateMessage)
    ensures o.Created? ==> o == Created(CreatedMessage, Row(req, id, now))
  {
    if !HasRequired(req) then Rejected(400, RequiredMessage)
    else if VehicleTaken(rows, req.vehicleId.value) then Rejected(400, DuplicateMessage)
    else Created(CreatedMessage, Row(req, id, now))
  }

  class Store {
    /** The stored assemblies, oldest first. */
    var rows: seq<Assembly>

    /** One assembly per vehicle, and completion dates exactly on completed ones. */
    ghost predicate Valid()
      reads this
    {
      && (forall i, j :: 0 <= i < j < |rows| ==> rows[i].vehicleId != rows[j].vehicleId)
      && (forall i :: 0 <= i < |rows| ==> CompletionAgrees(rows[i]))
    }

    constructor ()
      ensures rows == [] && Valid()
    {
      rows := [];
    }

    /** `POST /api/assemblies`: a rejected request, a repeated vehicle among them, leaves the store as it was. */
    method Create(req: Request, id: string, now: string) returns (o: Outcome<Assembly>)
      requires Valid()
      modifies this
      ensures Valid()
      ensures o == Reply(old(rows), req, id, now)
      ensures o.Rejected? ==> rows == old(rows)
      ensures o.Created? ==> rows == old(rows) + [o.record]
    {
      o := Reply(rows, req, id, now);
      if o.Created? {
        assert forall i :: 0 <= i < |rows| ==> rows[i].vehicleId != o.record.vehicleId;
        rows := rows + [o.record];
      }
    }
  }

  /** Once a vehicle has an assembly, every further create for it is refused whatever else it sends. */
  lemma SecondAssemblyRejected(rows: seq<Assembly>, a: Assembly, req: Request, id: string, now: string)
    requires a in rows && HasRequired(req) && req.vehicleId == Some(a.vehicleId)
    ensures Reply(rows, req, id, now) == Rejected(400, DuplicateMessage)
  {
    var i :| 0 <= i < |rows| && rows[i] == a;
  }
}
