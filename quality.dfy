/**
 * The quality-control screen: the inspection form with its Pass/Fail choice and the checks made
 * before anything is sent, and the figures above the table.
 */
module QualityControl {
  import opened Wrappers
  import opened Seqs
  import opened Text
  import opened Numeric
  import opened Records
  import Dashboard
  import Reports
  import Inspections

  const RequiredToast := "Please fill required fields"
  const DefectToast := "Defect description required for failed inspections"

  class InspectionForm {
    var vehicleId: string
    var vehicleModel: string
    var inspectionType: string
    var result: string
    var defectDescription: string
    var inspector: string

    /** The values of `resetForm` and of the initial state. */
    predicate IsBlank()
      reads this
    {
      && vehicleId == "" && vehicleModel == "EV-Compact" && inspectionType == "visual"
      && result == "pass" && defectDescription == "" && inspector == ""
    }

    constructor ()
      ensures IsBlank()
    {
      vehicleId, vehicleModel, inspectionType := "", "EV-Compact", "visual";
      result, defectDescription, inspector := "pass", "", "";
    }

    /** `resetForm`. */
    method Reset()
      modifies this
      ensures IsBlank()
    {
      vehicleId, vehicleModel, inspectionType := "", "EV-Compact", "visual";
      result, defectDescription, inspector := "pass", "", "";
    }

    /** Choosing Pass: the result becomes "pass" and any defect description typed is cleared. */
    method ChoosePass()
      modifies this
      ensures result == "pass" && defectDescription == ""
      ensures vehicleId == old(vehicleId) && vehicleModel == old(vehicleModel)
      ensures inspectionType == old(inspectionType) && inspector == old(inspector)
    {
      result, defectDescription := "pass", "";
    }

    /** Choosing Fail: the result becomes "fail" and the description is kept. */
    method ChooseFail()
      modifies this
      ensures result == "fail" && defectDescription == old(defectDescription)
      ensures vehicleId == old(vehicleId) && vehicleModel == old(vehicleModel)
      ensures inspectionType == old(inspectionType) && inspector == old(inspector)
    {
      result := "fail";
    }

    /** The body `JSON.stringify(formData)` sends: every field, as text. */
    function Body(): (req: Inspections.Request)
      reads this
      ensures req.vehicleId == Some(vehicleId) && req.inspector == Some(inspector)
      ensures req.result == Some(result) && req.defectDescription == Some(defectDescription)
    {
      Inspections.Request(Some(vehicleId), Some(vehicleModel), Some(inspectionType), Some(result),
                          Some(defectDescription), Some(inspector))
    }

    /** `handleSubmit`'s checks: the toast shown instead of sending, or `None` when the form is sent. */
    function Check(): (toast: Option<string>)
      reads this
      ensures toast == Some(RequiredToast) <==> vehicleId == "" || inspector == ""
      ensures toast == Some(DefectToast) <==> vehicleId != "" && inspector != "" && result == "fail" && defectDescription == ""
      ensures toast.None? <==> Inspections.Accepts(Body())
    {
      if vehicleId == "" || inspector == "" then Some(RequiredToast)
      else if result == "fail" && defectDescription == "" then Some(DefectToast)
      else None
    }
  }

  /** After choosing Pass no defect check can stop the form, and the server stores no defect. */
  lemma PassNeedsNoDefect(f: InspectionForm, id: string, now: string)
    requires f.result == "pass" && f.defectDescription == "" && f.vehicleId != "" && f.inspector != ""
    ensures f.Check().None?
    ensures Inspections.Row(f.Body(), id, now).defectDescription.None?
    ensures Inspections.Row(f.Body(), id, now).approved
  {
  }

  /** A blank form is never sent. */
  lemma BlankFormHeldBack(f: InspectionForm)
    requires f.IsBlank()
    ensures f.Check() == Some(RequiredToast)
  {
  }

  // ----- the figures above the table -----

  /** The four figures; the pass rate is the text shown before the `%`. */
  datatype QualityStats = QualityStats(total: nat, passed: nat, failed: nat, passRate: string)

  /** `stats`: a pass rate of "0" without inspections, otherwise the share passed to one decimal. */
  function Stats(ins: seq<Inspection>): (r: QualityStats)
    ensures r.total == |ins| && r.passed + r.failed <= r.total
    ensures r.passed == |Filter(Reports.IsPassed, ins)| && r.failed == |Filter(Dashboard.IsFailed, ins)|
    ensures ins == [] ==> r.passRate == "0"
    ensures ins != [] ==> r.passRate == TenthsText(RateTenths(r.passed, r.total))
  {
    CountDisjoint(Reports.IsPassed, Dashboard.IsFailed, ins);
    CountIsFilterLength(Reports.IsPassed, ins);
    CountIsFilterLength(Dashboard.IsFailed, ins);
    var passed := Count(Reports.IsPassed, ins);
    var failed := Count(Dashboard.IsFailed, ins);
    QualityStats(|ins|, passed, failed, if |ins| > 0 then TenthsText(RateTenths(passed, |ins|)) else "0")
  }

  /**
   * The screen's counts are those of the quality report card, and with every inspection passed
   * or failed they make up the total.
   */
  lemma StatsAgreeWithReport<M(!new)>(t: Reports.Tables<M>)
    ensures Stats(t.inspections).passed == Reports.GetReportStats("quality", t).passed
    ensures Stats(t.inspections).failed == Reports.GetReportStats("quality", t).failed
    ensures (forall i :: i in t.inspections ==> i.result == "pass" || i.result == "fail") ==>
      Stats(t.inspections).passed + Stats(t.inspections).failed == |t.inspections|
  {
    if forall i :: i in t.inspections ==> i.result == "pass" || i.result == "fail" {
      Reports.QualityCountsCover(t);
    }
  }

  /** The pass rate above the table is the quick summary's quality rate, "0" included. */
  lemma PassRateIsSummaryRate<M(!new)>(t: Reports.Tables<M>)
    ensures Stats(t.inspections).passRate == Reports.Summarize(t).qualityRate
  {
  }

  /** With inspections, none of them passed, the rate reads "0.0" — not the "0" of an empty list. */
  lemma NoPassShowsZeroPointZero(ins: seq<Inspection>)
    requires ins != [] && forall i :: i in ins ==> i.result != "pass"
    ensures Stats(ins).passRate == "0.0"
  {
    var r := Stats(ins);
    CountNone(Reports.IsPassed, ins);
    CountIsFilterLength(Reports.IsPassed, ins);
    assert r.passed == 0;
    RoundDivExact(0, |ins|);
    assert RateTenths(0, |ins|) == 0;
    assert r.passRate == TenthsText(0);
    assert NatToString(0) == "0" && DigitChar(0) == '0';
    assert TenthsText(0) == "0" + "." + ['0'];
  }

  lemma {:induction false} CountNone<T>(p: T -> bool, xs: seq<T>)
    requires forall x :: x in xs ==> !p(x)
    ensures Count(p, xs) == 0
  {
    if xs != [] {
      assert xs[0] in xs;
      CountNone(p, xs[1..]);
    }
  }
}
