/**
 * The records the application stores (the rows of its database tables) and the reply of a
 * create request. Money is in cents; rates are in tenths of a percent; the date and time
 * columns the views only display are opaque text, and the two that are ordered on
 * (an activity's creation time and a metric's date) are integer timestamps.
 */
module Records {
  import opened Wrappers

  /**
   * A production schedule. `M` is the form of `assignedMachines`: the stored row holds the
   * JSON text (`string`), the listing sent to the screens holds the parsed list (`seq<string>`).
   */
  datatype Schedule<M> = Schedule(
    id: string,
    vehicleModel: string,
    scheduleType: string,
    targetQuantity: int,
    completedQuantity: int,
    startDate: string,
    endDate: Option<string>,
    assignedMachines: M,
    assignedLabor: int,
    status: string)

  /** A stocked material; `unitCost` in cents. */
  datatype Material = Material(
    id: string,
    name: string,
    sku: string,
    category: string,
    quantity: int,
    unit: string,
    minStock: int,
    unitCost: int,
    supplier: string,
    supplierContact: string)

  /** A battery and powertrain assembly of one vehicle. */
  datatype Assembly = Assembly(
    id: string,
    vehicleId: string,
    vehicleModel: string,
    batteryType: string,
    motorSpec: string,
    controllerModel: string,
    status: string,
    completionDate: Option<string>,
    assembledBy: string)

  /** A quality inspection of one vehicle. */
  datatype Inspection = Inspection(
    id: string,
    vehicleId: string,
    vehicleModel: string,
    inspectionType: string,
    result: string,
    defectDescription: Option<string>,
    inspector: string,
    inspectionDate: string,
    approved: bool)

  /** The production cost of one vehicle, every amount in cents. */
  datatype Cost = Cost(
    id: string,
    vehicleId: string,
    vehicleModel: string,
    materialCost: int,
    laborCost: int,
    overheadCost: int,
    totalCost: int,
    calculatedAt: string)

  /** A day's performance figures; the rates are in tenths of a percent. */
  datatype Metric = Metric(
    id: string,
    date: int,
    efficiency: int,
    productivity: int,
    qualityRate: int,
    vehiclesProduced: int,
    defectCount: int)

  /** An entry of the activity feed. */
  datatype Activity = Activity(id: string, action: string, details: string, kind: string, createdAt: int)

  /** A stored account; `password` holds the password hash. */
  datatype User = User(id: string, name: string, email: string, password: string, role: string, status: string)

  /** An account as every response shows it: without the password hash. */
  datatype PublicUser = PublicUser(id: string, name: string, email: string, role: string, status: string)

  /** The reply of a create request: the record and a message, or an HTTP status and a message. */
  datatype Outcome<R> = Created(message: string, record: R) | Rejected(status: int, message: string)

  /** The destructuring `({ password, ...user }) => user`. */
  function Strip(u: User): PublicUser {
    PublicUser(u.id, u.name, u.email, u.role, u.status)
  }

  /** The low-stock test every screen uses: strictly below the minimum. */
  predicate IsLowStock(m: Material) {
    m.quantity < m.minStock
  }

  /** A cost whose total is the sum of its three components, as every create stores it. */
  predicate WellFormedCost(c: Cost) {
    c.totalCost == c.materialCost + c.laborCost + c.overheadCost
  }
}
