/**
 * The dashboard charts: the trend points, the colour of each model bar and status slice, and
 * the percentages of the cost pie.
 */
module Charts {
  import opened Seqs
  import opened Text
  import opened Numeric
  import opened Records
  import opened Dashboard

  // ----- production trend -----

  /** A point of the trend line; `date` is the short label `dayLabel` gives the metric's date. */
  datatype TrendPoint = TrendPoint(date: string, produced: int, efficiency: int)

  /** `ProductionTrendChart`'s mapping: one point per metric, in the same order. */
  function TrendPoints(ms: seq<Metric>, dayLabel: int -> string): (r: seq<TrendPoint>)
    ensures |r| == |ms|
    ensures forall i :: 0 <= i < |ms| ==> r[i].produced == ms[i].vehiclesProduced && r[i].efficiency == ms[i].efficiency
    ensures forall i :: 0 <= i < |ms| ==> r[i].date == dayLabel(ms[i].date)
  {
    Map((m: Metric) => TrendPoint(dayLabel(m.date), m.vehiclesProduced, m.efficiency), ms)
  }

  // ----- coloured slices -----

  /** A bar or pie slice with its fill colour. */
  datatype Filled = Filled(name: string, value: int, fill: string)

  const ModelColors: seq<string> := ["#2563EB", "#16A34A", "#D97706", "#DC2626"]

  /** `VehicleModelChart`: the bars in order, the palette repeating every four bars. */
  function ModelBars(data: seq<Slice>): (r: seq<Filled>)
    ensures |r| == |data|
    ensures forall i :: 0 <= i < |data| ==> r[i] == Filled(data[i].name, data[i].value, ModelColors[i % |ModelColors|])
  {
    seq(|data|, i requires 0 <= i < |data| => Filled(data[i].name, data[i].value, ModelColors[i % |ModelColors|]))
  }

  /** Neighbouring bars never share a colour, and bars four apart always do. */
  lemma ModelBarColours(data: seq<Slice>, i: int)
    requires 0 <= i && i + 1 < |data|
    ensures ModelBars(data)[i].fill != ModelBars(data)[i + 1].fill
    ensures i + 4 < |data| ==> ModelBars(data)[i].fill == ModelBars(data)[i + 4].fill
  {
    var r := ModelBars(data);
    assert (i + 4) % 4 == i % 4;
    assert (i + 1) % 4 == if i % 4 == 3 then 0 else i % 4 + 1;
  }

  /** `ProductionStatusChart`'s colour table, with grey for any other label. */
  function StatusColor(name: string): (c: string)
    ensures name == "Completed" ==> c == "#16A34A"
    ensures name == "In Progress" ==> c == "#2563EB"
    ensures name == "Pending" ==> c == "#D97706"
    ensures name != "Completed" && name != "In Progress" && name != "Pending" ==> c == "#6B7280"
  {
    if name == "Completed" then "#16A34A"
    else if name == "In Progress" then "#2563EB"
    else if name == "Pending" then "#D97706"
    else "#6B7280"
  }

  function StatusSlices(data: seq<Slice>): (r: seq<Filled>)
    ensures |r| == |data|
    ensures forall i :: 0 <= i < |data| ==> r[i] == Filled(data[i].name, data[i].value, StatusColor(data[i].name))
  {
    Map((d: Slice) => Filled(d.name, d.value, StatusColor(d.name)), data)
  }

  /** On the dashboard's status groups, the three stored statuses get their own colours. */
  lemma StatusChartColours(xs: seq<Schedule<string>>, i: int)
    requires 0 <= i < |StatusCounts(xs)|
    ensures var raw := StatusCounts(xs)[i].name; var fill := StatusSlices(StatusDistribution(xs))[i].fill;
      && (raw == "pending" ==> fill == "#D97706")
      && (raw == "in_progress" ==> fill == "#2563EB")
      && (raw == "completed" ==> fill == "#16A34A")
  {
    HumanizePending();
    HumanizeInProgress();
    HumanizeCompleted();
  }

  // ----- cost breakdown -----

  function BreakdownTotal(b: Breakdown): int { b.material + b.labor + b.overhead }

  /** A component's share of the total as `Math.round(part / total * 100)`, 0 unless the total is positive. */
  function Share(part: int, total: int): (r: int)
    ensures total <= 0 ==> r == 0
    ensures total > 0 ==> 2 * total * r <= 200 * part + total < 2 * total * r + 2 * total
  {
    if total > 0 then RoundDiv(100 * part, total) else 0
  }

  /** `CostBreakdownChart`'s three slices. */
  function CostSlices(b: Breakdown): (r: seq<Filled>)
    ensures |r| == 3
    ensures r[0].name == "Material" && r[1].name == "Labor" && r[2].name == "Overhead"
    ensures BreakdownTotal(b) <= 0 ==> r[0].value == 0 && r[1].value == 0 && r[2].value == 0
  {
    var total := BreakdownTotal(b);
    [Filled("Material", Share(b.material, total), "#2563EB"),
     Filled("Labor", Share(b.labor, total), "#16A34A"),
     Filled("Overhead", Share(b.overhead, total), "#D97706")]
  }

  /** The pie is drawn only for a positive total. */
  predicate ShowsCostPie(b: Breakdown) {
    BreakdownTotal(b) > 0
  }

  /** With non-negative components every share is a percentage. */
  lemma CostSharesWithin(b: Breakdown)
    requires b.material >= 0 && b.labor >= 0 && b.overhead >= 0
    ensures forall k :: 0 <= k < 3 ==> 0 <= CostSlices(b)[k].value <= 100
  {
    var t := BreakdownTotal(b);
    if t > 0 {
      RoundDivWithin(100 * b.material, t, 0, 100);
      RoundDivWithin(100 * b.labor, t, 0, 100);
      RoundDivWithin(100 * b.overhead, t, 0, 100);
    }
  }

  /** The three rounded shares of a positive total add up to 99, 100 or 101. */
  lemma CostSharesNearlyWhole(b: Breakdown)
    requires ShowsCostPie(b)
    ensures var r := CostSlices(b); 99 <= r[0].value + r[1].value + r[2].value <= 101
  {
    var t := BreakdownTotal(b);
    var r := CostSlices(b);
    var m, l, o := r[0].value, r[1].value, r[2].value;
    var s := m + l + o;
    assert 2 * t * s == 2 * t * m + 2 * t * l + 2 * t * o;
    assert 200 * b.material + 200 * b.labor + 200 * b.overhead == 200 * t;
    assert 2 * t * s <= 203 * t < 2 * t * 102;
    MulLtCancel(2 * t, s, 102);
    assert 2 * t * 98 < 197 * t < 2 * t * s;
    MulLtCancel(2 * t, 98, s);
  }
}
