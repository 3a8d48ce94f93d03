/**
 * The cost and performance screen: the cost form with its running total and its check before
 * sending, the four cost figures, the performance trend, the latest metric and the table of
 * recent cost records. Amounts are in cents.
 */
module CostPerformance {
  import opened Wrappers
  import opened Seqs
  import opened Numeric
  import opened Records
  import opened Js
  import Dashboard
  import Costs

  const RequiredToast := "Please fill required fields"

  /** The three amount fields of the form. */
  datatype Component = MaterialPart | LaborPart | OverheadPart

  class CostForm {
    var vehicleId: string
    var vehicleModel: string
    var materialCost: int
    var laborCost: int
    var overheadCost: int

    /** The values of the initial state and of the reset after a recorded cost. */
    predicate IsBlank()
      reads this
    {
      vehicleId == "" && vehicleModel == "EV-Compact" && materialCost == 0 && laborCost == 0 && overheadCost == 0
    }

    constructor ()
      ensures IsBlank()
    {
      vehicleId, vehicleModel := "", "EV-Compact";
      materialCost, laborCost, overheadCost := 0, 0, 0;
    }

    /** The reset after a cost is recorded. */
    method Reset()
      modifies this
      ensures IsBlank()
    {
      vehicleId, vehicleModel := "", "EV-Compact";
      materialCost, laborCost, overheadCost := 0, 0, 0;
    }

    /** Typing in an amount field: `parseFloat(value) || 0` is stored in that field; the others keep their values. */
    method Enter(part: Component, text: string) returns (v: int)
      modifies this
      ensures v == CoerceCents(Str(text))
      ensures materialCost == (if part == MaterialPart then v else old(materialCost))
      ensures laborCost == (if part == LaborPart then v else old(laborCost))
      ensures overheadCost == (if part == OverheadPart then v else old(overheadCost))
      ensures vehicleId == old(vehicleId) && vehicleModel == old(vehicleModel)
    {
      v := CoerceCents(Str(text));
      Store(part, v);
    }

    /** The state update of an amount field. */
    method Store(part: Component, v: int)
      modifies this
      ensures materialCost == (if part == MaterialPart then v else old(materialCost))
      ensures laborCost == (if part == LaborPart then v else old(laborCost))
      ensures overheadCost == (if part == OverheadPart then v else old(overheadCost))
      ensures vehicleId == old(vehicleId) && vehicleModel == old(vehicleModel)
    {
      if part == MaterialPart {
        materialCost := v;
      } else if part == LaborPart {
        laborCost := v;
      } else {
        overheadCost := v;
      }
    }

    /** `totalCost`, shown under the amounts. */
    function Total(): (t: int)
      reads this
      ensures vehicleId != "" ==> forall id, now :: Costs.Row(Body(), id, now).totalCost == t
    {
      materialCost + laborCost + overheadCost
    }

    /** The body `JSON.stringify(formData)` sends: the texts as strings, the amounts as numbers. */
    function Body(): (req: Costs.Request)
      reads this
      ensures req.vehicleId == Some(vehicleId) && req.vehicleModel == Some(vehicleModel)
      ensures req.materialCost == Num(materialCost) && req.laborCost == Num(laborCost)
      ensures req.overheadCost == Num(overheadCost)
    {
      Costs.Request(Some(vehicleId), Some(vehicleModel), Num(materialCost), Num(laborCost), Num(overheadCost))
    }

    /** `handleSubmit`'s check: nothing is sent without a vehicle or with a zero total. */
    function Check(): (toast: Option<string>)
      reads this
      ensures toast.Some? ==> toast.value == RequiredToast
      ensures toast.None? <==> vehicleId != "" && Total() != 0
    {
      if vehicleId == "" || Total() == 0 then Some(RequiredToast) else None
    }
  }

  /** The total the form shows is the total the server stores for what it sends. */
  lemma FormTotalIsStoredTotal(f: CostForm, id: string, now: string)
    requires f.vehicleId != ""
    ensures Costs.Row(f.Body(), id, now).totalCost == f.Total()
    ensures Costs.Reply(f.Body(), id, now).Created?
  {
  }

  /**
   * The form is stricter than the server: what it sends is always accepted, but a form with a
   * vehicle and a zero total is held back although the server would record it.
   */
  lemma FormStricterThanServer(f: CostForm, id: string, now: string)
    ensures f.Check().None? ==> Costs.Reply(f.Body(), id, now).Created?
    ensures f.vehicleId != "" && f.Total() == 0 ==> f.Check().Some? && Costs.Reply(f.Body(), id, now).Created?
  {
  }

  // ----- the cost figures -----

  /** The four cost figures. */
  datatype CostStats = CostStats(avgCost: int, totalMaterial: int, totalLabor: int, totalOverhead: int)

  /** `stats`: all zero without records; otherwise the average total (to the cent) and the per-component sums. */
  function Stats(cs: seq<Cost>): (r: CostStats)
    ensures cs == [] ==> r == CostStats(0, 0, 0, 0)
    ensures cs != [] ==> var n := |cs|; var t := Sum(Dashboard.TotalCostOf, cs);
      2 * n * r.avgCost <= 2 * t + n < 2 * n * r.avgCost + 2 * n
  {
    if cs == [] then CostStats(0, 0, 0, 0)
    else
      CostStats(RoundDiv(Sum(Dashboard.TotalCostOf, cs), |cs|), Sum(Dashboard.MaterialCostOf, cs),
                Sum(Dashboard.LaborCostOf, cs), Sum(Dashboard.OverheadCostOf, cs))
  }

  /**
   * The screen's figures are the dashboard's: the same average cost per vehicle and the same
   * breakdown, which adds up to the total production cost when every record is well formed.
   */
  lemma StatsAgreeWithDashboard(cs: seq<Cost>)
    ensures Stats(cs).avgCost == Dashboard.AvgCostPerVehicle(cs)
    ensures var b := Dashboard.CostBreakdown(cs); var s := Stats(cs);
      s.totalMaterial == b.material && s.totalLabor == b.labor && s.totalOverhead == b.overhead
    ensures (forall c :: c in cs ==> WellFormedCost(c)) ==>
      var s := Stats(cs); s.totalMaterial + s.totalLabor + s.totalOverhead == Dashboard.TotalProductionCost(cs)
  {
    if forall c :: c in cs ==> WellFormedCost(c) {
      Dashboard.CostBreakdownAddsUp(cs);
    }
  }

  // ----- the performance panels and the table -----

  /** A point of the performance trend; `date` is the day label the locale gives the metric's date. */
  datatype TrendRow = TrendRow(date: string, efficiency: int, productivity: int, qualityRate: int)

  /** `performanceTrend`: the seven latest metrics, in the order they were read, with their rates. */
  function PerformanceTrend(ms: seq<Metric>, dayLabel: int -> string): (r: seq<TrendRow>)
    ensures |r| == Min(7, |ms|)
    ensures forall i :: 0 <= i < |r| ==> var m := ms[|ms| - |r| + i];
      r[i] == TrendRow(dayLabel(m.date), m.efficiency, m.productivity, m.qualityRate)
  {
    var last := TakeLast(ms, 7);
    assert forall i :: 0 <= i < |last| ==> last[i] == ms[|ms| - |last| + i];
    Map((m: Metric) => Point(m, dayLabel), last)
  }

  /** The point a metric gives. */
  function Point(m: Metric, dayLabel: int -> string): TrendRow {
    TrendRow(dayLabel(m.date), m.efficiency, m.productivity, m.qualityRate)
  }

  /** `latestMetric`: the last metric read, absent when there are none. */
  function LatestMetric(ms: seq<Metric>): (r: Option<Metric>)
    ensures r.None? <==> ms == []
    ensures r.Some? ==> r.value == ms[|ms| - 1]
  {
    if ms == [] then None else Some(ms[|ms| - 1])
  }

  /** The latest metric is the last point of the trend. */
  lemma LatestEndsTrend(ms: seq<Metric>, dayLabel: int -> string)
    requires ms != []
    ensures var t := PerformanceTrend(ms, dayLabel); var m := LatestMetric(ms).value;
      t[|t| - 1] == TrendRow(dayLabel(m.date), m.efficiency, m.productivity, m.qualityRate)
  {
  }

  /** The table: the first ten cost records as read, or all of them when there are fewer. */
  function RecentCosts(cs: seq<Cost>): (r: seq<Cost>)
    ensures |r| == Min(10, |cs|) && r == cs[..|r|]
  {
    Take(cs, 10)
  }
}
