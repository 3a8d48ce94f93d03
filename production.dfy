/**
 * The production-planning screen: a schedule's progress percentage and its colour band, the
 * machine checklist toggle, and the schedule form the screen edits.
 */
module ProductionPlanning {
  import opened Wrappers
  import opened Text
  import opened Numeric
  import opened Records
  import opened Seqs

  /** A JavaScript number as a percentage can come out: an integer, or an infinity after a division by zero. */
  datatype Percent = Finite(value: int) | Infinite(positive: bool)

  /**
   * `Math.round((completed / target) * 100) || 0`: the rounded percentage; both `NaN` (0 / 0) and
   * a rounded zero become 0, a non-zero count over a zero target is an infinity of its sign.
   */
  function ProgressPercentage(completed: int, target: int): (p: Percent)
    ensures target != 0 ==> p.Finite?
    ensures target > 0 ==> 2 * target * p.value <= 200 * completed + target < 2 * target * p.value + 2 * target
    ensures target == 0 ==> (p == Finite(0) <==> completed == 0)
    ensures target == 0 && completed != 0 ==> p == Infinite(completed > 0)
  {
    if target > 0 then Finite(RoundDiv(100 * completed, target))
    else if target < 0 then Finite(RoundDiv(-100 * completed, -target))
    else if completed == 0 then Finite(0)
    else Infinite(completed > 0)
  }

  /** The percentage compared with a bound, as `>=` compares a number. */
  predicate AtLeast(p: Percent, k: int) {
    match p
    case Finite(v) => v >= k
    case Infinite(positive) => positive
  }

  /** `getProgressColor`: green from 100%, blue from 50%, otherwise yellow. */
  function ProgressColor(p: Percent): (c: string)
    ensures c == "bg-green-500" <==> AtLeast(p, 100)
    ensures c == "bg-blue-500" <==> AtLeast(p, 50) && !AtLeast(p, 100)
    ensures c == "bg-yellow-500" <==> !AtLeast(p, 50)
  {
    if AtLeast(p, 100) then "bg-green-500" else if AtLeast(p, 50) then "bg-blue-500" else "bg-yellow-500"
  }

  /** A schedule with no more completed than targeted, and a positive target, is between 0% and 100%. */
  lemma ProgressWithin(completed: int, target: int)
    requires 0 <= completed <= target && target > 0
    ensures ProgressPercentage(completed, target).Finite?
    ensures 0 <= ProgressPercentage(completed, target).value <= 100
  {
    RoundDivWithin(100 * completed, target, 0, 100);
  }

  /** A schedule that met a non-zero target shows 100% and the green band. */
  lemma ProgressComplete(n: int)
    requires n != 0
    ensures ProgressPercentage(n, n) == Finite(100)
    ensures ProgressColor(ProgressPercentage(n, n)) == "bg-green-500"
  {
    if n > 0 {
      RoundDivExact(100, n);
    } else {
      assert -100 * n == 100 * -n;
      RoundDivExact(100, -n);
    }
  }

  /** With a fixed positive target, more completed vehicles never lower the percentage. */
  lemma ProgressMonotone(c: int, c': int, target: int)
    requires target > 0 && c <= c'
    ensures ProgressPercentage(c, target).value <= ProgressPercentage(c', target).value
  {
    RoundDivMonotone(100 * c, 100 * c', target);
  }

  // ----- the machine checklist -----

  /** The list without any occurrence of `m` (`filter(x => x !== m)`). */
  function Remove(ms: seq<string>, m: string): (r: seq<string>)
    ensures m !in r
    ensures forall x :: x != m ==> (x in r <==> x in ms)
    ensures |r| <= |ms|
  {
    if ms == [] then [] else (if ms[0] == m then [] else [ms[0]]) + Remove(ms[1..], m)
  }

  /** `handleMachineToggle`: drop a checked machine, append an unchecked one. */
  function Toggle(ms: seq<string>, m: string): (r: seq<string>)
    ensures m in r <==> m !in ms
    ensures forall x :: x != m ==> (x in r <==> x in ms)
  {
    if m in ms then Remove(ms, m) else ms + [m]
  }

  lemma {:induction false} RemoveAbsent(ms: seq<string>, m: string)
    requires m !in ms
    ensures Remove(ms, m) == ms
  {
    if ms != [] {
      RemoveAbsent(ms[1..], m);
      assert [ms[0]] + ms[1..] == ms;
    }
  }

  lemma {:induction false} RemoveConcat(a: seq<string>, b: seq<string>, m: string)
    ensures Remove(a + b, m) == Remove(a, m) + Remove(b, m)
  {
    if a == [] {
      assert a + b == b;
    } else {
      assert (a + b)[0] == a[0] && (a + b)[1..] == a[1..] + b;
      RemoveConcat(a[1..], b, m);
    }
  }

  lemma {:induction false} RemoveTwice(ms: seq<string>, m: string)
    ensures Remove(Remove(ms, m), m) == Remove(ms, m)
  {
    RemoveAbsent(Remove(ms, m), m);
  }

  /**
   * Toggling keeps the other machines in their relative order: with `m` taken out, the list
   * is the same before and after.
   */
  lemma ToggleKeepsOthersInOrder(ms: seq<string>, m: string)
    ensures Remove(Toggle(ms, m), m) == Remove(ms, m)
  {
    if m in ms {
      RemoveTwice(ms, m);
    } else {
      RemoveConcat(ms, [m], m);
      assert Remove([m], m) == [] by {
        assert [m][1..] == [];
      }
      assert Remove(ms, m) + [] == Remove(ms, m);
    }
  }

  /** Checking and then unchecking an unchecked machine restores the list. */
  lemma ToggleTwiceRestores(ms: seq<string>, m: string)
    requires m !in ms
    ensures Toggle(Toggle(ms, m), m) == ms
  {
    RemoveConcat(ms, [m], m);
    RemoveAbsent(ms, m);
    assert [m][1..] == [];
    assert ms + [] == ms;
  }

  /** Removing keeps a list free of duplicates. */
  lemma {:induction false} RemoveNoDup(ms: seq<string>, m: string)
    requires NoDup(ms)
    ensures NoDup(Remove(ms, m))
  {
    if ms != [] {
      var t := Remove(ms[1..], m);
      RemoveNoDup(ms[1..], m);
      assert forall j :: 0 <= j < |ms| - 1 ==> ms[1..][j] == ms[j + 1] != ms[0];
      assert ms[0] !in t;
      if ms[0] == m {
        assert Remove(ms, m) == t;
      } else {
        var r := [ms[0]] + t;
        assert Remove(ms, m) == r;
        assert forall j :: 1 <= j < |r| ==> r[j] == t[j - 1];
        assert forall i, j :: 0 <= i < j < |r| ==> r[i] != r[j] by {
          forall i, j | 0 <= i < j < |r|
            ensures r[i] != r[j]
          {
            if i == 0 {
              assert r[j] in t;
            }
          }
        }
      }
    }
  }

  /** A list of distinct machines stays distinct after a toggle. */
  lemma ToggleNoDup(ms: seq<string>, m: string)
    requires NoDup(ms)
    ensures NoDup(Toggle(ms, m))
  {
    if m in ms {
      RemoveNoDup(ms, m);
    } else {
      var r := ms + [m];
      assert forall i :: 0 <= i < |ms| ==> r[i] == ms[i] && r[i] != m;
    }
  }

  // ----- the schedule form -----

  /** The form of the schedule modal; `editing` is the schedule being edited, if any. */
  class ScheduleForm {
    var vehicleModel: string
    var scheduleType: string
    var targetQuantity: int
    var completedQuantity: int
    var startDate: string
    var endDate: string
    var assignedMachines: seq<string>
    var assignedLabor: int
    var status: string
    var editing: Option<Schedule<seq<string>>>

    /** The fixed defaults of `resetForm` and of the initial state. */
    predicate IsBlank()
      reads this
    {
      && vehicleModel == "EV-Compact" && scheduleType == "daily"
      && targetQuantity == 0 && completedQuantity == 0
      && startDate == "" && endDate == "" && assignedMachines == []
      && assignedLabor == 0 && status == "pending" && editing == None
    }

    constructor ()
      ensures IsBlank()
    {
      vehicleModel, scheduleType := "EV-Compact", "daily";
      targetQuantity, completedQuantity := 0, 0;
      startDate, endDate := "", "";
      assignedMachines, assignedLabor := [], 0;
      status, editing := "pending", None;
    }

    /** `resetForm`. */
    method Reset()
      modifies this
      ensures IsBlank()
    {
      vehicleModel, scheduleType := "EV-Compact", "daily";
      targetQuantity, completedQuantity := 0, 0;
      startDate, endDate := "", "";
      assignedMachines, assignedLabor := [], 0;
      status, editing := "pending", None;
    }

    /** `openEditModal`: the schedule's fields, its dates cut before the time part, a missing end date as "". */
    method OpenEdit(s: Schedule<seq<string>>)
      modifies this
      ensures editing == Some(s)
      ensures vehicleModel == s.vehicleModel && scheduleType == s.scheduleType && status == s.status
      ensures targetQuantity == s.targetQuantity && completedQuantity == s.completedQuantity
      ensures assignedMachines == s.assignedMachines && assignedLabor == s.assignedLabor
      ensures startDate == s.startDate[..IndexOf(s.startDate, 'T')]
      ensures endDate == if s.endDate.Some? && s.endDate.value != "" then s.endDate.value[..IndexOf(s.endDate.value, 'T')] else ""
    {
      var start := Before(s.startDate, 'T');
      var end := if s.endDate.Some? && s.endDate.value != "" then Before(s.endDate.value, 'T') else "";
      editing, vehicleModel, scheduleType, status, targetQuantity, completedQuantity, startDate, endDate,
        assignedMachines, assignedLabor :=
        Some(s), s.vehicleModel, s.scheduleType, s.status, s.targetQuantity, s.completedQuantity, start, end,
        s.assignedMachines, s.assignedLabor;
    }

    /** `handleMachineToggle`: only the machine list changes. */
    method ToggleMachine(m: string)
      modifies this
      ensures assignedMachines == Toggle(old(assignedMachines), m)
      ensures vehicleModel == old(vehicleModel) && scheduleType == old(scheduleType) && status == old(status)
      ensures targetQuantity == old(targetQuantity) && completedQuantity == old(completedQuantity)
      ensures startDate == old(startDate) && endDate == old(endDate)
      ensures assignedLabor == old(assignedLabor) && editing == old(editing)
    {
      assignedMachines := Toggle(assignedMachines, m);
    }
  }
}
