/**
 The alarm evaluator: after a hysteresis check, the limits are tried in the
 fixed priority order HIHI, LOLO, HIGH, LOW, and the first one that is crossed
 and whose severity is above the pending severity becomes the pending alarm.
 The value checked is `val`, the setpoint field.
 */
module PidAlarm {
  import opened AlarmCodes
  import opened PidRecords

  /** One alarm limit as the evaluator sees it: the status it raises, the
      severity configured for it, and whether the value is beyond it. */
  datatype Limit = Limit(status: int, severity: int, crossed: bool)

  /** The limits in priority order. */
  function Limits(r: PidRecord): (ls: seq<Limit>)
    ensures |ls| == 4
  {
    [ Limit(HihiAlarm, r.hhsv, r.val > r.hihi),
      Limit(LoloAlarm, r.llsv, r.val < r.lolo),
      Limit(HighAlarm, r.hsv, r.val > r.high),
      Limit(LowAlarm, r.lsv, r.val < r.low) ]
  }

  /** A limit raises an alarm when it is crossed and its severity is above
      the severity already pending. */
  predicate Fires(l: Limit, pending: int)
  {
    l.crossed && pending < l.severity
  }

  function Abs(x: real): real
  {
    if x < 0.0 then -x else x
  }

  /** The value has not moved far enough from the last alarmed value. */
  predicate WithinHysteresis(r: PidRecord)
  {
    Abs(r.lalm - r.val) < r.hyst
  }

  /** The first firing limit in priority order is the one at index `i`. */
  predicate FirstFiring(r: PidRecord, i: int)
  {
    && 0 <= i < 4
    && Fires(Limits(r)[i], r.nsev)
    && forall j :: 0 <= j < i ==> !Fires(Limits(r)[j], r.nsev)
  }

  function Alarm(r: PidRecord): (a: PidRecord)
    // only the pending alarm and the last alarmed value can change, and severity only rises
    ensures a == r.(lalm := a.lalm, nsta := a.nsta, nsev := a.nsev)
    ensures a.nsev >= r.nsev
    // inside the hysteresis band nothing is evaluated
    ensures WithinHysteresis(r) ==> a == r
    // outside it, the record is left alone exactly when no limit fires
    ensures !WithinHysteresis(r) ==> (a == r <==> forall i :: 0 <= i < 4 ==> !Fires(Limits(r)[i], r.nsev))
    // and otherwise the first firing limit in priority order wins and latches the value
    ensures a != r ==> exists i :: (FirstFiring(r, i)
      && a == r.(lalm := r.val, nsta := Limits(r)[i].status, nsev := Limits(r)[i].severity))
  {
    if WithinHysteresis(r) then r
    else if r.nsev < r.hhsv && r.val > r.hihi then
      assert FirstFiring(r, 0);
      r.(lalm := r.val, nsta := HihiAlarm, nsev := r.hhsv)
    else if r.nsev < r.llsv && r.val < r.lolo then
      assert FirstFiring(r, 1);
      r.(lalm := r.val, nsta := LoloAlarm, nsev := r.llsv)
    else if r.nsev < r.hsv && r.val > r.high then
      assert FirstFiring(r, 2);
      r.(lalm := r.val, nsta := HighAlarm, nsev := r.hsv)
    else if r.nsev < r.lsv && r.val < r.low then
      assert FirstFiring(r, 3);
      r.(lalm := r.val, nsta := LowAlarm, nsev := r.lsv)
    else r
  }

  /** The alarm and warning limits get_graphic_double reports to clients are
      exactly the thresholds the evaluator tests, each with the direction and
      the severity of its alarm: the upper alarm limit is HIHI's, the lower
      alarm limit LOLO's, the upper warning limit HIGH's and the lower warning
      limit LOW's. */
  lemma ReportedLimitsAreThresholds(r: PidRecord)
    ensures var g := GraphicDouble(r);
      Limits(r) == [ Limit(HihiAlarm, r.hhsv, r.val > g.upperAlarm),
                     Limit(LoloAlarm, r.llsv, r.val < g.lowerAlarm),
                     Limit(HighAlarm, r.hsv, r.val > g.upperWarning),
                     Limit(LowAlarm, r.lsv, r.val < g.lowerWarning) ]
  {
  }

  /** The limits clients receive as graphic alarm and warning limits are the
      thresholds the evaluator tests: when nothing is pending and the value is
      outside the hysteresis band, HIHI is raised exactly when the value is
      above the reported upper alarm limit and HIHI has a severity. */
  lemma ReportedUpperAlarmLimitIsHihi(r: PidRecord)
    requires r.nsev == NoAlarm && r.hhsv > NoAlarm
    requires !WithinHysteresis(r)
    ensures Alarm(r).nsta == HihiAlarm && Alarm(r).nsev == r.hhsv <==> r.val > GraphicDouble(r).upperAlarm
  {
    if r.val > GraphicDouble(r).upperAlarm {
      assert FirstFiring(r, 0);
    } else {
      assert !Fires(Limits(r)[0], r.nsev);
    }
  }

  /** With limits 90/80/20/10 and value 95 both HIHI and HIGH are
      crossed, and HIHI wins. */
  lemma HihiOutranksHigh(r: PidRecord)
    requires r.hihi == 90.0 && r.high == 80.0 && r.low == 20.0 && r.lolo == 10.0
    requires r.val == 95.0 && r.lalm == Sentinel && r.hyst == 0.0
    requires r.nsev == NoAlarm && r.hhsv == MajorAlarm && r.hsv == MinorAlarm
    ensures Alarm(r).nsta == HihiAlarm && Alarm(r).nsev == MajorAlarm && Alarm(r).lalm == 95.0
  {
  }
}
