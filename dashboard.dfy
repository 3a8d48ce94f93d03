/**
 * The dashboard summary: every figure of the dashboard endpoint as a reduction over the
 * record lists read from the store, and the agreements between them.
 */
module Dashboard {
  import opened Wrappers
  import opened Seqs
  import opened Text
  import opened Numeric
  import opened Records

  // ----- the fields the reductions read -----

  function Completed<M>(s: Schedule<M>): int { s.completedQuantity }

  function Target<M>(s: Schedule<M>): int { s.targetQuantity }

  function VehicleModel<M>(s: Schedule<M>): string { s.vehicleModel }

  function Status<M>(s: Schedule<M>): string { s.status }

  predicate IsPending<M>(s: Schedule<M>) { s.status == "pending" }

  predicate IsInProgress<M>(s: Schedule<M>) { s.status == "in_progress" }

  predicate IsFailed(i: Inspection) { i.result == "fail" }

  function TotalCostOf(c: Cost): int { c.totalCost }

  function MaterialCostOf(c: Cost): int { c.materialCost }

  function LaborCostOf(c: Cost): int { c.laborCost }

  function OverheadCostOf(c: Cost): int { c.overheadCost }

  // ----- the summary figures -----

  /** `totalVehiclesProduced`: the completed quantities of all schedules. */
  function TotalVehiclesProduced<M>(xs: seq<Schedule<M>>): (t: int)
    ensures NoneNegative(Completed, xs) ==> t >= 0
  {
    SumNonNegative(Completed, xs);
    Sum(Completed, xs)
  }

  /** `pendingOrders`: the schedules whose status is `pending`. */
  function PendingOrders<M(!new)>(xs: seq<Schedule<M>>): (n: nat)
    ensures n == |Filter(IsPending, xs)|
  {
    CountIsFilterLength(IsPending, xs);
    Count(IsPending, xs)
  }

  /** `activeProductionLines`: the schedules whose status is `in_progress`. */
  function ActiveProductionLines<M(!new)>(xs: seq<Schedule<M>>): (n: nat)
    ensures n == |Filter(IsInProgress, xs)|
  {
    CountIsFilterLength(IsInProgress, xs);
    Count(IsInProgress, xs)
  }

  /** `lowStockAlerts`: the materials below their minimum stock. */
  function LowStockAlerts(ms: seq<Material>): (n: nat)
    ensures n == |Filter(IsLowStock, ms)|
    ensures forall m :: m in Filter(IsLowStock, ms) <==> m in ms && m.quantity < m.minStock
  {
    CountIsFilterLength(IsLowStock, ms);
    Count(IsLowStock, ms)
  }

  /**
   * `defectRate` in tenths of a percent: 0 without inspections, otherwise the share of failed
   * inspections, `toFixed(1)` rounding a half up.
   */
  function DefectRate(ins: seq<Inspection>): (r: int)
    ensures ins == [] ==> r == 0
    ensures 0 <= r <= 1000
    ensures ins != [] ==> var n := |ins|; var k := Count(IsFailed, ins);
      2 * n * r <= 2 * 1000 * k + n < 2 * n * r + 2 * n
  {
    RateTenths(Count(IsFailed, ins), |ins|)
  }

  /** `totalProductionCost`: the stored totals of all cost records. */
  function TotalProductionCost(cs: seq<Cost>): (t: int)
    ensures NoneNegative(TotalCostOf, cs) ==> t >= 0
  {
    SumNonNegative(TotalCostOf, cs);
    Sum(TotalCostOf, cs)
  }

  /** `avgCostPerVehicle` to the nearest cent: 0 without cost records. */
  function AvgCostPerVehicle(cs: seq<Cost>): (r: int)
    ensures cs == [] ==> r == 0
    ensures cs != [] ==> var n := |cs|; var t := TotalProductionCost(cs);
      2 * n * r <= 2 * t + n < 2 * n * r + 2 * n
  {
    if cs == [] then 0 else RoundDiv(TotalProductionCost(cs), |cs|)
  }

  // ----- ordered reads -----

  predicate NewestFirst(acts: seq<Activity>) {
    forall i, j :: 0 <= i < j < |acts| ==> acts[i].createdAt >= acts[j].createdAt
  }

  predicate OldestFirst(ms: seq<Metric>) {
    forall i, j :: 0 <= i < j < |ms| ==> ms[i].date <= ms[j].date
  }

  /** `activities`: the ten newest entries of the feed, newest first. */
  function RecentActivities(acts: seq<Activity>): (r: seq<Activity>)
    requires NewestFirst(acts)
    ensures |r| == Min(10, |acts|) && r == acts[..|r|]
    ensures NewestFirst(r)
    ensures forall a, b :: a in r && b in acts[|r|..] ==> b.createdAt <= a.createdAt
  {
    var r := Take(acts, 10);
    assert forall a :: a in r ==> exists i :: 0 <= i < |r| && a == acts[i];
    assert forall b :: b in acts[|r|..] ==> exists j :: |r| <= j < |acts| && b == acts[j];
    r
  }

  /** `productionTrend`: the seven oldest metrics, oldest first. */
  function ProductionTrend(ms: seq<Metric>): (r: seq<Metric>)
    requires OldestFirst(ms)
    ensures |r| == Min(7, |ms|) && r == ms[..|r|]
    ensures OldestFirst(r)
    ensures forall a, b :: a in r && b in ms[|r|..] ==> a.date <= b.date
  {
    var r := Take(ms, 7);
    assert forall a :: a in r ==> exists i :: 0 <= i < |r| && a == ms[i];
    assert forall b :: b in ms[|r|..] ==> exists j :: |r| <= j < |ms| && b == ms[j];
    r
  }

  // ----- group-bys -----

  /** A named value of a chart: a group's name and its sum or count. */
  datatype Slice = Slice(name: string, value: int)

  function Values(r: seq<Slice>): seq<int> {
    seq(|r|, i requires 0 <= i < |r| => r[i].value)
  }

  function Names(r: seq<Slice>): (ns: seq<string>)
    ensures |ns| == |r| && forall i :: 0 <= i < |r| ==> ns[i] == r[i].name
  {
    seq(|r|, i requires 0 <= i < |r| => r[i].name)
  }

  /** One slice per key, in the order the keys are given, holding the sum of `val` over its group. */
  function Slices<T>(key: T -> string, val: T -> int, xs: seq<T>, keys: seq<string>): (r: seq<Slice>)
    ensures Names(r) == keys
    ensures forall i :: 0 <= i < |r| ==> r[i].value == KeySum(key, val, xs, r[i].name)
  {
    if keys == [] then [] else [Slice(keys[0], KeySum(key, val, xs, keys[0]))] + Slices(key, val, xs, keys[1..])
  }

  /**
   * A Prisma `groupBy` with a `_sum` of `val`: one slice per key occurring in `xs`, each key once,
   * holding the sum over the elements with that key.
   */
  function Groups<T(!new)>(key: T -> string, val: T -> int, xs: seq<T>): (r: seq<Slice>)
    ensures NoDup(Names(r))
    ensures forall x :: x in xs ==> key(x) in Names(r)
    ensures forall k :: k in Names(r) ==> exists x :: x in xs && key(x) == k
    ensures forall i :: 0 <= i < |r| ==> r[i].value == KeySum(key, val, xs, r[i].name)
  {
    Slices(key, val, xs, DistinctKeys(key, xs))
  }

  /**
   * `modelDistribution`: one entry per vehicle model, holding the completed quantity of that
   * model's schedules (`_sum.completedQuantity || 0`).
   */
  function ModelDistribution(xs: seq<Schedule<string>>): (r: seq<Slice>)
    ensures NoDup(Names(r))
    ensures forall s :: s in xs ==> s.vehicleModel in Names(r)
    ensures forall k :: k in Names(r) ==> exists s :: s in xs && s.vehicleModel == k
    ensures forall i :: 0 <= i < |r| ==> r[i].value == KeySum(VehicleModel, Completed, xs, r[i].name)
  {
    Groups(VehicleModel, Completed, xs)
  }

  /** The status groups before their names are rendered: one per raw status, with its count. */
  function StatusCounts(xs: seq<Schedule<string>>): (r: seq<Slice>)
    ensures NoDup(Names(r))
    ensures forall s :: s in xs ==> s.status in Names(r)
    ensures forall k :: k in Names(r) ==> exists s :: s in xs && s.status == k
    ensures forall i :: 0 <= i < |r| ==> r[i].value == KeySum(Status, One, xs, r[i].name)
  {
    Groups(Status, One, xs)
  }

  /** `statusDistribution`: the status groups with their names rendered by `Humanize`. */
  function StatusDistribution(xs: seq<Schedule<string>>): (r: seq<Slice>)
    ensures |r| == |StatusCounts(xs)|
    ensures forall i :: 0 <= i < |r| ==> r[i] == Slice(Humanize(StatusCounts(xs)[i].name), StatusCounts(xs)[i].value)
  {
    var g := StatusCounts(xs);
    seq(|g|, i requires 0 <= i < |g| => Slice(Humanize(g[i].name), g[i].value))
  }

  /** `costBreakdown`: the sums of the three cost components (`|| 0` on an empty store). */
  datatype Breakdown = Breakdown(material: int, labor: int, overhead: int)

  function CostBreakdown(cs: seq<Cost>): (b: Breakdown)
    ensures cs == [] ==> b == Breakdown(0, 0, 0)
  {
    Breakdown(Sum(MaterialCostOf, cs), Sum(LaborCostOf, cs), Sum(OverheadCostOf, cs))
  }

  /** The `summary` object of the dashboard response. */
  datatype Summary = Summary(
    totalVehiclesProduced: int,
    pendingOrders: int,
    lowStockAlerts: int,
    defectRate: int,
    totalProductionCost: int,
    avgCostPerVehicle: int,
    activeProductionLines: int)

  /** The whole dashboard response. */
  datatype Board = Board(
    summary: Summary,
    activities: seq<Activity>,
    productionTrend: seq<Metric>,
    modelDistribution: seq<Slice>,
    statusDistribution: seq<Slice>,
    costBreakdown: Breakdown)

  /** The dashboard endpoint over the store's contents, the activity feed newest first and the metrics oldest first. */
  function BuildBoard(
    schedules: seq<Schedule<string>>, materials: seq<Material>, inspections: seq<Inspection>,
    costs: seq<Cost>, acts: seq<Activity>, metrics: seq<Metric>): (d: Board)
    requires NewestFirst(acts) && OldestFirst(metrics)
    ensures |d.activities| <= 10 && |d.productionTrend| <= 7
    ensures 0 <= d.summary.defectRate <= 1000
  {
    Board(
      Summary(
        TotalVehiclesProduced(schedules),
        PendingOrders(schedules),
        LowStockAlerts(materials),
        DefectRate(inspections),
        TotalProductionCost(costs),
        AvgCostPerVehicle(costs),
        ActiveProductionLines(schedules)),
      RecentActivities(acts),
      ProductionTrend(metrics),
      ModelDistribution(schedules),
      StatusDistribution(schedules),
      CostBreakdown(costs))
  }

  // ----- properties -----

  /** The vehicles-produced total does not depend on the order the schedules are read in. */
  lemma TotalVehiclesProducedOrderFree<M>(xs: seq<Schedule<M>>, ys: seq<Schedule<M>>)
    requires multiset(xs) == multiset(ys)
    ensures TotalVehiclesProduced(xs) == TotalVehiclesProduced(ys)
  {
    SumPermutation(Completed, xs, ys);
  }

  /** Three failed inspections out of eight give a defect rate of 37.5%. */
  lemma DefectRateThreeOfEight(ins: seq<Inspection>)
    requires |ins| == 8 && Count(IsFailed, ins) == 3
    ensures DefectRate(ins) == 375
  {
    RoundDivUnique(3000, 8, 375);
  }

  /** When the count divides the total, the average is exact. */
  lemma AvgCostExact(cs: seq<Cost>, avg: int)
    requires cs != [] && TotalProductionCost(cs) == avg * |cs|
    ensures AvgCostPerVehicle(cs) == avg
  {
    RoundDivExact(avg, |cs|);
  }

  /** The average cost always lies between the smallest and the largest total. */
  lemma AvgCostBetween(cs: seq<Cost>, lo: int, hi: int)
    requires cs != []
    requires forall c :: c in cs ==> lo <= c.totalCost <= hi
    ensures lo <= AvgCostPerVehicle(cs) <= hi
  {
    SumBounds(cs, lo, hi);
    RoundDivWithin(TotalProductionCost(cs), |cs|, lo, hi);
  }

  lemma {:induction false} SumBounds(cs: seq<Cost>, lo: int, hi: int)
    requires forall c :: c in cs ==> lo <= c.totalCost <= hi
    ensures |cs| * lo <= TotalProductionCost(cs) <= |cs| * hi
  {
    if cs != [] {
      assert forall c :: c in cs[1..] ==> c in cs;
      SumBounds(cs[1..], lo, hi);
      assert cs[0] in cs;
      assert TotalProductionCost(cs) == cs[0].totalCost + TotalProductionCost(cs[1..]);
      MulSucc(|cs[1..]|, lo);
      MulSucc(|cs[1..]|, hi);
    }
  }

  /** The model entries add up to the vehicles-produced total. */
  lemma ModelDistributionSumsToTotal(xs: seq<Schedule<string>>)
    ensures Total(Values(ModelDistribution(xs))) == TotalVehiclesProduced(xs)
  {
    var keys := DistinctKeys(VehicleModel, xs);
    var r := ModelDistribution(xs);
    GroupSumsAddUp(VehicleModel, Completed, xs, keys);
    assert Values(r) == seq(|keys|, i requires 0 <= i < |keys| => KeySum(VehicleModel, Completed, xs, keys[i]));
  }

  /** Counting the elements of one group is summing 1 over them. */
  lemma {:induction false} KeySumOneIsCount<T>(key: T -> string, p: T -> bool, xs: seq<T>, k: string)
    requires forall x :: x in xs ==> (p(x) <==> key(x) == k)
    ensures KeySum(key, One, xs, k) == Count(p, xs)
  {
    if xs != [] {
      KeySumOneIsCount(key, p, xs[1..], k);
    }
  }

  /** The status counts add up to the number of schedules. */
  lemma StatusDistributionSumsToCount(xs: seq<Schedule<string>>)
    ensures Total(Values(StatusDistribution(xs))) == |xs|
  {
    var keys := DistinctKeys(Status, xs);
    GroupSumsAddUp(Status, One, xs, keys);
    SumOfOnes(xs);
    assert Values(StatusDistribution(xs)) == seq(|keys|, i requires 0 <= i < |keys| => KeySum(Status, One, xs, keys[i]));
  }

  /** The `pending` group is shown as "Pending" with the pending-orders count. */
  lemma PendingGroupAgrees(xs: seq<Schedule<string>>, i: int)
    requires 0 <= i < |StatusCounts(xs)| && StatusCounts(xs)[i].name == "pending"
    ensures StatusDistribution(xs)[i] == Slice("Pending", PendingOrders(xs))
  {
    HumanizePending();
    KeySumOneIsCount(Status, IsPending, xs, "pending");
  }

  /** The `in_progress` group is shown as "In Progress" with the active-lines count. */
  lemma InProgressGroupAgrees(xs: seq<Schedule<string>>, i: int)
    requires 0 <= i < |StatusCounts(xs)| && StatusCounts(xs)[i].name == "in_progress"
    ensures StatusDistribution(xs)[i] == Slice("In Progress", ActiveProductionLines(xs))
  {
    HumanizeInProgress();
    KeySumOneIsCount(Status, IsInProgress, xs, "in_progress");
  }

  /** A `pending` group is shown exactly when some schedule is pending. */
  lemma PendingGroupPresent(xs: seq<Schedule<string>>)
    ensures PendingOrders(xs) > 0 <==> "pending" in Names(StatusCounts(xs))
  {
    CountPositive(IsPending, xs);
  }

  /** An `in_progress` group is shown exactly when some schedule is in progress. */
  lemma InProgressGroupPresent(xs: seq<Schedule<string>>)
    ensures ActiveProductionLines(xs) > 0 <==> "in_progress" in Names(StatusCounts(xs))
  {
    CountPositive(IsInProgress, xs);
  }

  /** A count is positive exactly when some element satisfies the predicate. */
  lemma {:induction false} CountPositive<T>(p: T -> bool, xs: seq<T>)
    ensures Count(p, xs) > 0 <==> exists x :: x in xs && p(x)
  {
    if xs != [] {
      CountPositive(p, xs[1..]);
      assert forall x :: x in xs <==> x == xs[0] || x in xs[1..];
    }
  }

  /** Summing three components over a sequence is summing each and adding. */
  lemma {:induction false} CostComponentsAddUp(cs: seq<Cost>)
    requires forall c :: c in cs ==> WellFormedCost(c)
    ensures Sum(MaterialCostOf, cs) + Sum(LaborCostOf, cs) + Sum(OverheadCostOf, cs) == TotalProductionCost(cs)
  {
    if cs != [] {
      assert cs[0] in cs;
      CostComponentsAddUp(cs[1..]);
    }
  }

  /** The cost breakdown adds up to the total production cost when every record is well formed. */
  lemma CostBreakdownAddsUp(cs: seq<Cost>)
    requires forall c :: c in cs ==> WellFormedCost(c)
    ensures var b := CostBreakdown(cs); b.material + b.labor + b.overhead == TotalProductionCost(cs)
  {
    CostComponentsAddUp(cs);
  }

  /** The figures of one dashboard response agree with each other. */
  lemma BoardAgrees(
    schedules: seq<Schedule<string>>, materials: seq<Material>, inspections: seq<Inspection>,
    costs: seq<Cost>, acts: seq<Activity>, metrics: seq<Metric>)
    requires NewestFirst(acts) && OldestFirst(metrics)
    requires forall c :: c in costs ==> WellFormedCost(c)
    ensures var d := BuildBoard(schedules, materials, inspections, costs, acts, metrics);
      && Total(Values(d.modelDistribution)) == d.summary.totalVehiclesProduced
      && Total(Values(d.statusDistribution)) == |schedules|
      && d.costBreakdown.material + d.costBreakdown.labor + d.costBreakdown.overhead == d.summary.totalProductionCost
  {
    var d := BuildBoard(schedules, materials, inspections, costs, acts, metrics);
    assert d.modelDistribution == ModelDistribution(schedules);
    assert d.statusDistribution == StatusDistribution(schedules);
    assert d.costBreakdown == CostBreakdown(costs);
    assert d.summary.totalVehiclesProduced == TotalVehiclesProduced(schedules);
    assert d.summary.totalProductionCost == TotalProductionCost(costs);
    ModelDistributionSumsToTotal(schedules);
    StatusDistributionSumsToCount(schedules);
    CostBreakdownAddsUp(costs);
  }
}
