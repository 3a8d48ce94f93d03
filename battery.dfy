/**
 * The battery and powertrain screen: the status counts above the table, the status badge, and
 * the assembly form with its defaults and its copy of an assembly being edited.
 */
module BatteryPowertrain {
  import opened Wrappers
  import opened Seqs
  import opened Records
  import Assemblies

  predicate InAssembly(a: Assembly) { a.status == "in_assembly" }

  predicate InTesting(a: Assembly) { a.status == "testing" }

  predicate IsCompleted(a: Assembly) { a.status == "completed" }

  /** The four counts above the table. */
  datatype AssemblyStats = AssemblyStats(total: nat, inAssembly: nat, testing: nat, completed: nat)

  /** `stats`: every assembly, and those in each of the three statuses. */
  function Stats(xs: seq<Assembly>): (r: AssemblyStats)
    ensures r.total == |xs|
    ensures r.inAssembly <= r.total && r.testing <= r.total && r.completed <= r.total
    ensures r.inAssembly + r.testing + r.completed <= r.total
    ensures r.inAssembly == |Filter(InAssembly, xs)| && r.testing == |Filter(InTesting, xs)|
    ensures r.completed == |Filter(IsCompleted, xs)|
  {
    CountIsFilterLength(InAssembly, xs);
    CountIsFilterLength(InTesting, xs);
    CountIsFilterLength(IsCompleted, xs);
    CountDisjoint(InAssembly, InTesting, xs);
    CountConcatDisjoint3(xs);
    AssemblyStats(|xs|, Count(InAssembly, xs), Count(InTesting, xs), Count(IsCompleted, xs))
  }

  /** Three counts of pairwise exclusive statuses never exceed the number of assemblies. */
  lemma {:induction false} CountConcatDisjoint3(xs: seq<Assembly>)
    ensures Count(InAssembly, xs) + Count(InTesting, xs) + Count(IsCompleted, xs) <= |xs|
  {
    if xs != [] {
      CountConcatDisjoint3(xs[1..]);
    }
  }

  /** When every assembly is in one of the three statuses, the three counts make up the total. */
  lemma StatsCoverTotal(xs: seq<Assembly>)
    requires forall a :: a in xs ==> InAssembly(a) || InTesting(a) || IsCompleted(a)
    ensures var s := Stats(xs); s.inAssembly + s.testing + s.completed == s.total
  {
    CountPartition3(InAssembly, InTesting, IsCompleted, xs);
  }

  /** The style of a status badge: background and text colour classes. */
  datatype Style = Style(bg: string, text: string)

  const AssemblyStyle := Style("bg-blue-100", "text-blue-700")
  const TestingStyle := Style("bg-yellow-100", "text-yellow-700")
  const CompletedStyle := Style("bg-green-100", "text-green-700")

  /** `styles[status] || styles.in_assembly`: an unknown status is styled as one in assembly. */
  function BadgeStyle(status: string): (s: Style)
    ensures s == TestingStyle <==> status == "testing"
    ensures s == CompletedStyle <==> status == "completed"
    ensures s == AssemblyStyle <==> status != "testing" && status != "completed"
  {
    if status == "testing" then TestingStyle
    else if status == "completed" then CompletedStyle
    else AssemblyStyle
  }

  /** `labels[status]`: absent (nothing is shown) for a status outside the table. */
  function BadgeLabel(status: string): (l: Option<string>)
    ensures l.Some? <==> status == "in_assembly" || status == "testing" || status == "completed"
  {
    if status == "in_assembly" then Some("In Assembly")
    else if status == "testing" then Some("Testing")
    else if status == "completed" then Some("Completed")
    else None
  }

  // ----- the form -----

  class AssemblyForm {
    var vehicleId: string
    var vehicleModel: string
    var batteryType: string
    var motorSpec: string
    var controllerModel: string
    var status: string
    var assembledBy: string
    var editing: Option<Assembly>

    /** Every field except the vehicle id holds the value `resetForm` gives it. */
    predicate HasDefaults()
      reads this
    {
      && vehicleModel == "EV-Compact" && batteryType == "Li-ion 40kWh"
      && motorSpec == "100kW" && controllerModel == "BorgWarner MCU-100" && status == "in_assembly"
      && assembledBy == "Tech Team A"
    }

    /** The values of `resetForm` and of the initial state. */
    predicate IsBlank()
      reads this
    {
      vehicleId == "" && HasDefaults() && editing == None
    }

    constructor ()
      ensures IsBlank()
    {
      vehicleId, vehicleModel, batteryType := "", "EV-Compact", "Li-ion 40kWh";
      motorSpec, controllerModel := "100kW", "BorgWarner MCU-100";
      status, assembledBy, editing := "in_assembly", "Tech Team A", None;
    }

    /** `resetForm`. */
    method Reset()
      modifies this
      ensures IsBlank()
    {
      vehicleId, vehicleModel, batteryType := "", "EV-Compact", "Li-ion 40kWh";
      motorSpec, controllerModel := "100kW", "BorgWarner MCU-100";
      status, assembledBy, editing := "in_assembly", "Tech Team A", None;
    }

    /** `openEditModal`: the seven fields of the assembly, copied as they are. */
    method OpenEdit(a: Assembly)
      modifies this
      ensures editing == Some(a)
      ensures vehicleId == a.vehicleId && vehicleModel == a.vehicleModel && batteryType == a.batteryType
      ensures motorSpec == a.motorSpec && controllerModel == a.controllerModel
      ensures status == a.status && assembledBy == a.assembledBy
    {
      editing := Some(a);
      vehicleId, vehicleModel, batteryType := a.vehicleId, a.vehicleModel, a.batteryType;
      motorSpec, controllerModel := a.motorSpec, a.controllerModel;
      status, assembledBy := a.status, a.assembledBy;
    }

    /** Typing the vehicle id; nothing else changes. */
    method EnterVehicleId(v: string)
      modifies this
      ensures vehicleId == v && vehicleModel == old(vehicleModel) && batteryType == old(batteryType)
      ensures motorSpec == old(motorSpec) && controllerModel == old(controllerModel)
      ensures status == old(status) && assembledBy == old(assembledBy) && editing == old(editing)
    {
      vehicleId := v;
    }

    /** The body `JSON.stringify(formData)` sends: every field, as text. */
    function Body(): (req: Assemblies.Request)
      reads this
      ensures req.vehicleId == Some(vehicleId) && req.status == Some(status)
    {
      Assemblies.Request(Some(vehicleId), Some(vehicleModel), Some(batteryType), Some(motorSpec),
                         Some(controllerModel), Some(status), Some(assembledBy))
    }
  }

  /**
   * The form's defaults are the server's: a reset form in which only a vehicle id was typed
   * stores the row a request with only that vehicle and the default model stores.
   */
  lemma FormDefaultsAreServerDefaults(f: AssemblyForm, id: string, now: string)
    requires f.HasDefaults() && f.vehicleId != ""
    ensures Assemblies.HasRequired(f.Body())
    ensures Assemblies.Row(f.Body(), id, now)
         == Assemblies.Row(Assemblies.Request(Some(f.vehicleId), Some("EV-Compact"), None, None, None, None, None), id, now)
  {
  }

  /** A blank form is refused by the server: it has no vehicle id. */
  lemma BlankFormRejected(f: AssemblyForm, rows: seq<Assembly>, id: string, now: string)
    requires f.IsBlank()
    ensures Assemblies.Reply(rows, f.Body(), id, now) == Rejected(400, Assemblies.RequiredMessage)
  {
  }
}
