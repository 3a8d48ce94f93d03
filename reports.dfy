/**
 * The reports screen: the CSV export of each report kind, the statistics on each report card,
 * and the quick summary. Dates are shown through `date`, the browser's `toLocaleDateString`.
 */
module Reports {
  import opened Wrappers
  import opened Seqs
  import opened Text
  import opened Numeric
  import opened Records
  import opened Csv
  import Js
  import Dashboard
  import ProductionPlanning

  /** The four record lists the screen holds. */
  datatype Tables<M> = Tables(
    schedules: seq<Schedule<M>>,
    materials: seq<Material>,
    inspections: seq<Inspection>,
    costs: seq<Cost>)

  predicate IsKind(kind: string) {
    kind == "production" || kind == "inventory" || kind == "quality" || kind == "cost"
  }

  // ----- the CSV export -----

  /** The header row of each kind; an unknown kind has none. */
  function Header(kind: string): (h: seq<string>)
    ensures IsKind(kind) <==> h != []
    ensures kind == "cost" ==> |h| == 8
    ensures IsKind(kind) && kind != "cost" ==> |h| == 9
  {
    if kind == "production" then ["ID", "Model", "Type", "Target", "Completed", "Progress %", "Status", "Start Date", "End Date"]
    else if kind == "inventory" then ["SKU", "Name", "Category", "Quantity", "Unit", "Min Stock", "Status", "Unit Cost", "Supplier"]
    else if kind == "quality" then ["ID", "Vehicle ID", "Model", "Type", "Result", "Inspector", "Date", "Approved", "Defect"]
    else if kind == "cost" then ["ID", "Vehicle ID", "Model", "Material", "Labor", "Overhead", "Total", "Date"]
    else []
  }

  /** `String(n)` of a percentage. */
  function PercentText(p: ProductionPlanning.Percent): string {
    match p
    case Finite(v) => IntToString(v)
    case Infinite(positive) => if positive then "Infinity" else "-Infinity"
  }

  /** A production row. */
  function ScheduleRow<M>(s: Schedule<M>, date: string -> string): (r: seq<string>)
    ensures |r| == |Header("production")|
    ensures r[0] == s.id[..Min(8, |s.id|)]
    ensures r[5] == PercentText(ProductionPlanning.ProgressPercentage(s.completedQuantity, s.targetQuantity))
    ensures r[8] == "" <== s.endDate.None? || s.endDate == Some("")
  {
    [Take(s.id, 8), s.vehicleModel, s.scheduleType, IntToString(s.targetQuantity), IntToString(s.completedQuantity),
     PercentText(ProductionPlanning.ProgressPercentage(s.completedQuantity, s.targetQuantity)), s.status, date(s.startDate),
     if s.endDate.Some? && s.endDate.value != "" then date(s.endDate.value) else ""]
  }

  /** An inventory row; its Status column uses the low-stock test of every other screen. */
  function MaterialRow(m: Material): (r: seq<string>)
    ensures |r| == |Header("inventory")|
    ensures r[6] == "Low Stock" <==> IsLowStock(m)
    ensures r[6] == "In Stock" <==> !IsLowStock(m)
  {
    [m.sku, m.name, m.category, IntToString(m.quantity), m.unit, IntToString(m.minStock),
     if m.quantity < m.minStock then "Low Stock" else "In Stock", Js.CentsToString(m.unitCost), m.supplier]
  }

  /** A quality row. */
  function InspectionRow(i: Inspection, date: string -> string): (r: seq<string>)
    ensures |r| == |Header("quality")|
    ensures r[0] == i.id[..Min(8, |i.id|)]
    ensures r[7] == "Yes" <==> i.approved
    ensures r[7] == "No" <==> !i.approved
    ensures r[8] == "" <==> i.defectDescription.None? || i.defectDescription == Some("")
  {
    [Take(i.id, 8), i.vehicleId, i.vehicleModel, i.inspectionType, i.result, i.inspector, date(i.inspectionDate),
     if i.approved then "Yes" else "No", i.defectDescription.GetOr("")]
  }

  /** A cost row. */
  function CostRow(c: Cost, date: string -> string): (r: seq<string>)
    ensures |r| == |Header("cost")|
    ensures r[0] == c.id[..Min(8, |c.id|)] && r[1] == c.vehicleId && r[2] == c.vehicleModel
    ensures r[3] == Js.CentsToString(c.materialCost) && r[4] == Js.CentsToString(c.laborCost)
    ensures r[5] == Js.CentsToString(c.overheadCost) && r[6] == Js.CentsToString(c.totalCost)
    ensures r[7] == date(c.calculatedAt)
  {
    [Take(c.id, 8), c.vehicleId, c.vehicleModel, Js.CentsToString(c.materialCost), Js.CentsToString(c.laborCost),
     Js.CentsToString(c.overheadCost), Js.CentsToString(c.totalCost), date(c.calculatedAt)]
  }

  /** The number of records a report of `kind` lists. */
  function RecordCount<M>(kind: string, t: Tables<M>): (n: nat)
    ensures !IsKind(kind) ==> n == 0
    ensures kind == "production" ==> n == |t.schedules|
    ensures kind == "inventory" ==> n == |t.materials|
    ensures kind == "quality" ==> n == |t.inspections|
    ensures kind == "cost" ==> n == |t.costs|
  {
    if kind == "production" then |t.schedules|
    else if kind == "inventory" then |t.materials|
    else if kind == "quality" then |t.inspections|
    else if kind == "cost" then |t.costs|
    else 0
  }

  /** The data rows of a report: one per record, each as wide as its header. */
  function Rows<M>(kind: string, t: Tables<M>, date: string -> string): (rows: seq<seq<string>>)
    ensures |rows| == RecordCount(kind, t)
    ensures forall k :: 0 <= k < |rows| ==> |rows[k]| == |Header(kind)|
  {
    if kind == "production" then Map(s => ScheduleRow(s, date), t.schedules)
    else if kind == "inventory" then Map(MaterialRow, t.materials)
    else if kind == "quality" then Map(i => InspectionRow(i, date), t.inspections)
    else if kind == "cost" then Map(c => CostRow(c, date), t.costs)
    else []
  }

  /** The lines of the export: the header joined unquoted, then every row quoted. */
  function Lines<M>(kind: string, t: Tables<M>, date: string -> string): (ls: seq<string>)
    ensures |ls| == 1 + RecordCount(kind, t)
  {
    [Join(Header(kind), ',')] + Map(QuotedLine, Rows(kind, t, date))
  }

  /** The exported text: the lines joined on line feeds. */
  function Export<M>(kind: string, t: Tables<M>, date: string -> string): (csv: string)
    ensures RecordCount(kind, t) == 0 ==> csv == Join(Header(kind), ',')
  {
    Join(Lines(kind, t, date), '\n')
  }

  /** The `filename` the switch sets: `<kind>_report` for the four kinds, and `''` for another. */
  function BaseName(kind: string): (b: string)
    ensures IsKind(kind) ==> b == kind + "_report"
    ensures !IsKind(kind) ==> b == ""
  {
    if kind == "production" then "production_report"
    else if kind == "inventory" then "inventory_report"
    else if kind == "quality" then "quality_report"
    else if kind == "cost" then "cost_report"
    else ""
  }

  /** The download name: `<kind>_report_<the date part of the ISO time>.csv`. */
  function FileName(kind: string, isoNow: string): (name: string)
    ensures var day := isoNow[..IndexOf(isoNow, 'T')];
      IsKind(kind) ==> name == kind + "_report" + "_" + day + ".csv"
    ensures var day := isoNow[..IndexOf(isoNow, 'T')];
      !IsKind(kind) ==> name == "_" + day + ".csv"
  {
    BaseName(kind) + "_" + Before(isoNow, 'T') + ".csv"
  }

  // ----- properties of the export -----

  /** Production, inventory and quality reports have nine columns, cost reports eight; header cells need no quoting. */
  lemma HeaderShape(kind: string)
    requires IsKind(kind)
    ensures |Header(kind)| == if kind == "cost" then 8 else 9
    ensures forall i :: 0 <= i < |Header(kind)| ==> IsPlain(Header(kind)[i])
  {
    var h := Header(kind);
    if kind == "production" {
      ProductionHeaderPlain(h);
    } else if kind == "inventory" {
      InventoryHeaderPlain(h);
    } else if kind == "quality" {
      QualityHeaderPlain(h);
    } else {
      CostHeaderPlain(h);
    }
  }

  lemma ProductionHeaderPlain(h: seq<string>)
    requires h == Header("production")
    ensures |h| == 9 && forall i :: 0 <= i < |h| ==> IsPlain(h[i])
  {
  }

  lemma InventoryHeaderPlain(h: seq<string>)
    requires h == Header("inventory")
    ensures |h| == 9 && forall i :: 0 <= i < |h| ==> IsPlain(h[i])
  {
  }

  lemma QualityHeaderPlain(h: seq<string>)
    requires h == Header("quality")
    ensures |h| == 9 && forall i :: 0 <= i < |h| ==> IsPlain(h[i])
  {
  }

  lemma CostHeaderPlain(h: seq<string>)
    requires h == Header("cost")
    ensures |h| == 8 && forall i :: 0 <= i < |h| ==> IsPlain(h[i])
  {
  }

  /**
   * Reading the export as RFC 4180 text gives back the header and every row when no cell holds a
   * quote: every data cell is quoted, every header cell is not.
   */
  lemma ExportReadsBack<M>(kind: string, t: Tables<M>, date: string -> string)
    requires IsKind(kind)
    requires var rows := Rows(kind, t, date);
      forall k, i :: 0 <= k < |rows| && 0 <= i < |rows[k]| ==> '"' !in rows[k][i]
    ensures Read(Export(kind, t, date)) == Some([Header(kind)] + Rows(kind, t, date))
  {
    HeaderShape(kind);
    ReadTable(Header(kind), Rows(kind, t, date));
  }

  /** A text joined from parts none of which holds `c` does not hold `c`, when `c` is not the separator. */
  lemma {:induction false} JoinAvoids(parts: seq<string>, sep: char, c: char)
    requires c != sep
    requires forall i :: 0 <= i < |parts| ==> c !in parts[i]
    ensures c !in Join(parts, sep)
  {
    if |parts| > 1 {
      JoinAvoids(parts[1..], sep, c);
      assert Join(parts, sep) == parts[0] + [sep] + Join(parts[1..], sep);
    }
  }

  /** A data row of cells free of line feeds is free of line feeds. */
  lemma QuotedLineAvoidsNewline(cells: seq<string>)
    requires forall i :: 0 <= i < |cells| ==> '\n' !in cells[i]
    ensures '\n' !in QuotedLine(cells)
  {
    var qs := Map(Quote, cells);
    assert forall i :: 0 <= i < |qs| ==> qs[i] == "\"" + cells[i] + "\"";
    JoinAvoids(qs, ',', '\n');
  }

  /** With no line feed in any cell, splitting a table's text on line feeds gives its lines. */
  lemma SplitTable(header: seq<string>, rows: seq<seq<string>>)
    requires forall i :: 0 <= i < |header| ==> '\n' !in header[i]
    requires forall k, i :: 0 <= k < |rows| && 0 <= i < |rows[k]| ==> '\n' !in rows[k][i]
    ensures var ls := [Join(header, ',')] + Map(QuotedLine, rows); Split(Join(ls, '\n'), '\n') == ls
  {
    var ls := [Join(header, ',')] + Map(QuotedLine, rows);
    JoinAvoids(header, ',', '\n');
    forall k | 0 <= k < |rows|
      ensures '\n' !in QuotedLine(rows[k])
    {
      QuotedLineAvoidsNewline(rows[k]);
    }
    assert forall j :: 1 <= j < |ls| ==> ls[j] == QuotedLine(rows[j - 1]);
    SplitJoin(ls, '\n');
  }

  /** With no line feed in any cell, the export has one line for the header and one per record. */
  lemma ExportLineCount<M>(kind: string, t: Tables<M>, date: string -> string)
    requires IsKind(kind)
    requires var rows := Rows(kind, t, date);
      forall k, i :: 0 <= k < |rows| && 0 <= i < |rows[k]| ==> '\n' !in rows[k][i]
    ensures Split(Export(kind, t, date), '\n') == Lines(kind, t, date)
    ensures |Split(Export(kind, t, date), '\n')| == 1 + RecordCount(kind, t)
  {
    HeaderShape(kind);
    SplitTable(Header(kind), Rows(kind, t, date));
  }

  // ----- the report cards -----

  /** The figures on each report card; an unknown kind has only a zero total. */
  datatype ReportStats =
    | ProductionStats(total: int, completed: int, inProgress: int)
    | InventoryStats(total: int, lowStock: int, totalValue: int)
    | QualityStats(total: int, passed: int, failed: int)
    | CostStats(total: int, totalCost: int, avgCost: int)
    | NoStats(total: int)

  predicate IsCompleted<M>(s: Schedule<M>) { s.status == "completed" }

  predicate IsPassed(i: Inspection) { i.result == "pass" }

  /** The stock value of a material in cents. */
  function StockValue(m: Material): int { m.quantity * m.unitCost }

  /**
   * `getReportStats`: each count is the length of a `filter` of the kind's list, the stock value
   * the sum of quantity times unit cost, and the cost figures those of the dashboard.
   */
  function GetReportStats<M(!new)>(kind: string, t: Tables<M>): (r: ReportStats)
    ensures !IsKind(kind) ==> r == NoStats(0)
    ensures IsKind(kind) ==> r.total == RecordCount(kind, t)
    ensures kind == "production" ==> r.ProductionStats? && r.completed + r.inProgress <= r.total
    ensures kind == "production" ==> r.completed == |Filter(IsCompleted, t.schedules)|
    ensures kind == "production" ==> r.inProgress == |Filter(Dashboard.IsInProgress, t.schedules)|
    ensures kind == "inventory" ==> r.InventoryStats? && r.lowStock == |Filter(IsLowStock, t.materials)|
    ensures kind == "inventory" ==> r.totalValue == Sum(StockValue, t.materials)
    ensures kind == "quality" ==> r.QualityStats? && r.passed + r.failed <= r.total
    ensures kind == "quality" ==> r.passed == |Filter(IsPassed, t.inspections)|
    ensures kind == "quality" ==> r.failed == |Filter(Dashboard.IsFailed, t.inspections)|
    ensures kind == "cost" ==> r.CostStats? && r.totalCost == Dashboard.TotalProductionCost(t.costs)
    ensures kind == "cost" ==> r.avgCost == Dashboard.AvgCostPerVehicle(t.costs)
  {
    if kind == "production" then
      CountDisjoint(IsCompleted, Dashboard.IsInProgress, t.schedules);
      CountIsFilterLength(IsCompleted, t.schedules);
      CountIsFilterLength(Dashboard.IsInProgress, t.schedules);
      ProductionStats(|t.schedules|, Count(IsCompleted, t.schedules), Count(Dashboard.IsInProgress, t.schedules))
    else if kind == "inventory" then
      CountSame((m: Material) => m.quantity < m.minStock, IsLowStock, t.materials);
      CountIsFilterLength(IsLowStock, t.materials);
      InventoryStats(|t.materials|, Count((m: Material) => m.quantity < m.minStock, t.materials), Sum(StockValue, t.materials))
    else if kind == "quality" then
      CountDisjoint(IsPassed, Dashboard.IsFailed, t.inspections);
      CountIsFilterLength(IsPassed, t.inspections);
      CountIsFilterLength(Dashboard.IsFailed, t.inspections);
      QualityStats(|t.inspections|, Count(IsPassed, t.inspections), Count(Dashboard.IsFailed, t.inspections))
    else if kind == "cost" then
      var total := Sum(Dashboard.TotalCostOf, t.costs);
      CostStats(|t.costs|, total, if |t.costs| > 0 then RoundDiv(total, |t.costs|) else 0)
    else NoStats(0)
  }

  /** With non-negative stock and unit costs, the stock value is never negative. */
  lemma InventoryValueNonNegative<M(!new)>(t: Tables<M>)
    requires forall m :: m in t.materials ==> m.quantity >= 0 && m.unitCost >= 0
    ensures GetReportStats("inventory", t).totalValue >= 0
  {
    forall i | 0 <= i < |t.materials|
      ensures StockValue(t.materials[i]) >= 0
    {
      assert t.materials[i] in t.materials;
      MulNonNegative(t.materials[i].quantity, t.materials[i].unitCost);
    }
    SumNonNegative(StockValue, t.materials);
  }

  lemma MulNonNegative(a: int, b: int)
    requires a >= 0 && b >= 0
    ensures a * b >= 0
  {
  }

  /** The report cards agree with the dashboard: the same low-stock count, cost total and average. */
  lemma ReportStatsAgreeWithDashboard<M(!new)>(t: Tables<M>)
    ensures GetReportStats("inventory", t).lowStock == Dashboard.LowStockAlerts(t.materials)
    ensures GetReportStats("production", t).inProgress == Dashboard.ActiveProductionLines(t.schedules)
    ensures GetReportStats("cost", t).totalCost == Dashboard.TotalProductionCost(t.costs)
    ensures GetReportStats("cost", t).avgCost == Dashboard.AvgCostPerVehicle(t.costs)
  {
  }

  /** When every inspection passed or failed, the two counts make up the total. */
  lemma QualityCountsCover<M(!new)>(t: Tables<M>)
    requires forall i :: i in t.inspections ==> i.result == "pass" || i.result == "fail"
    ensures var r := GetReportStats("quality", t); r.passed + r.failed == r.total
  {
    CountPartition2(IsPassed, Dashboard.IsFailed, t.inspections);
  }

  // ----- the quick summary -----

  /**
   * The quick summary: vehicles targeted and completed, the pass rate as the text shown before
   * the `%`, and the stock value in cents.
   */
  datatype QuickSummary = QuickSummary(inProduction: int, completed: int, qualityRate: string, inventoryValue: int)

  /**
   * The four figures of the quick summary: the summed targets, the summed completed quantities,
   * the pass rate to one decimal ("0" without inspections), and the inventory card's value.
   */
  function Summarize<M(!new)>(t: Tables<M>): (q: QuickSummary)
    ensures q.inProduction == Sum(Dashboard.Target, t.schedules)
    ensures q.completed == Dashboard.TotalVehiclesProduced(t.schedules)
    ensures (forall s :: s in t.schedules ==> s.completedQuantity <= s.targetQuantity) ==> q.completed <= q.inProduction
    ensures t.inspections == [] ==> q.qualityRate == "0"
    ensures t.inspections != [] ==>
      q.qualityRate == TenthsText(RateTenths(|Filter(IsPassed, t.inspections)|, |t.inspections|))
    ensures q.inventoryValue == GetReportStats("inventory", t).totalValue
  {
    CompletedWithinTarget(t.schedules);
    CountIsFilterLength(IsPassed, t.inspections);
    var passed := Count(IsPassed, t.inspections);
    assert 0 <= passed <= |t.inspections|;
    QuickSummary(
      Sum(Dashboard.Target, t.schedules),
      Sum(Dashboard.Completed, t.schedules),
      if |t.inspections| > 0 then TenthsText(RateTenths(passed, |t.inspections|)) else "0",
      Sum(StockValue, t.materials))
  }

  /** No more vehicles are completed than targeted when no schedule is over its target. */
  lemma {:induction false} CompletedWithinTarget<M>(xs: seq<Schedule<M>>)
    ensures (forall s :: s in xs ==> s.completedQuantity <= s.targetQuantity) ==>
      Sum(Dashboard.Completed, xs) <= Sum(Dashboard.Target, xs)
  {
    if xs != [] {
      assert xs[0] in xs;
      assert forall s :: s in xs[1..] ==> s in xs;
      CompletedWithinTarget(xs[1..]);
    }
  }
}
