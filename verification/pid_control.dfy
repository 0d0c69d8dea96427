/**
 do_pid: read the controlled value and the setpoint, measure the time since
 the last computation, and either defer or compute the new output.
 */
module PidControl {
  import opened AlarmCodes
  import opened PidRecords
  import opened Ticks
  import opened PidAlgorithm

  /** What one database link read reports: whether the read failed (the
      source's `!dbGetLink(...)` branch) and what the destination holds after
      the call. */
  datatype LinkRead = LinkRead(ok: bool, value: real)

  /** Everything one scan learns from outside the record: the controlled value
      read, the setpoint read, the tick counter and the tick rate. */
  datatype ScanInputs = ScanInputs(cv: LinkRead, sp: LinkRead, now: Tick, ticksPerSecond: PosInt)

  /** The two returns of do_pid: 0 (`Ran`), after which alarms and monitors are
      checked, and 1 (`Deferred`), not enough time has elapsed. */
  datatype PidOutcome = Ran(rec: PidRecord) | Deferred(rec: PidRecord)

  /** The setpoint is read only from a database link in closed-loop mode. */
  predicate ReadsSetpoint(r: PidRecord)
  {
    r.stpl.DbLink? && r.smsl == ClosedLoop
  }

  /** The setpoint after the reads: the setpoint read writes straight into `val`. */
  function SetpointAfter(r: PidRecord, inp: ScanInputs): real
  {
    if ReadsSetpoint(r) then inp.sp.value else r.val
  }

  /** No read failure ends the scan early: either a major alarm is already
      pending, or both reads the scan needs succeed. */
  predicate PassesReads(r: PidRecord, inp: ScanInputs)
  {
    r.nsev >= MajorAlarm || (r.cvl.DbLink? && inp.cv.ok && (!ReadsSetpoint(r) || inp.sp.ok))
  }

  /** Too little time has passed: the counter has not moved, or the elapsed
      time is below the minimum delta time. */
  predicate TooSoon(r: PidRecord, inp: ScanInputs)
  {
    inp.now == r.ct || ElapsedSeconds(r.ct, inp.now, inp.ticksPerSecond) < r.mdt
  }

  function DoPid(r: PidRecord, inp: ScanInputs): (o: PidOutcome)
    // only the setpoint, the controller state and the alarm fields can change,
    // and a pending severity is never lowered
    ensures o.rec == r.(val := o.rec.val, ct := o.rec.ct, dt := o.rec.dt, err := o.rec.err, derr := o.rec.derr,
                        cval := o.rec.cval, out := o.rec.out, stat := o.rec.stat, sevr := o.rec.sevr,
                        nsta := o.rec.nsta, nsev := o.rec.nsev)
    ensures o.rec.val == r.val || o.rec.val == SetpointAfter(r, inp)
    ensures o.rec.nsev >= r.nsev
    // deferral happens exactly when the reads pass and too little time has passed,
    // and then only the setpoint may have changed
    ensures o.Deferred? <==> PassesReads(r, inp) && TooSoon(r, inp)
    ensures o.Deferred? ==> o.rec == r.(val := SetpointAfter(r, inp))
    // a failed controlled-value read raises a major pending alarm and leaves the controller alone
    ensures !PassesReads(r, inp) && !r.cvl.DbLink? ==> o == Ran(r.(nsta := SoftAlarm, nsev := MajorAlarm))
    ensures !PassesReads(r, inp) && r.cvl.DbLink? && !inp.cv.ok
         ==> o == Ran(r.(nsta := ReadAlarm, nsev := MajorAlarm))
    // a failed setpoint read writes the committed alarm fields directly
    ensures !PassesReads(r, inp) && r.cvl.DbLink? && inp.cv.ok
         ==> o == Ran(r.(val := inp.sp.value, stat := ReadAlarm, sevr := MajorAlarm))
    // a computation commits the tick, delta time, error, change in error, controlled value and output
    ensures PassesReads(r, inp) && !TooSoon(r, inp) ==>
      var c := o.rec;
      && o.Ran?
      && c.val == SetpointAfter(r, inp)
      && c.ct == inp.now
      && c.dt == ElapsedSeconds(r.ct, inp.now, inp.ticksPerSecond)
      && c.cval == inp.cv.value
      && c.err == c.val - c.cval
      && c.derr == c.err - r.err
      && c.out == r.kp * (c.derr + c.err * c.dt * r.ki
                          + (if r.dt != 0.0 then r.kd * (c.derr / c.dt - r.derr / r.dt) else 0.0))
      && c == r.(val := c.val, ct := c.ct, dt := c.dt, err := c.err, derr := c.derr, cval := c.cval, out := c.out)
  {
    if !r.cvl.DbLink? && r.nsev < MajorAlarm then
      Ran(r.(nsta := SoftAlarm, nsev := MajorAlarm))
    else if !inp.cv.ok && r.nsev < MajorAlarm then
      Ran(r.(nsta := ReadAlarm, nsev := MajorAlarm))
    else
      var cval := inp.cv.value;
      var r1 := if ReadsSetpoint(r) then r.(val := inp.sp.value) else r;
      if ReadsSetpoint(r) && !inp.sp.ok && r.nsev < MajorAlarm then
        Ran(r1.(stat := ReadAlarm, sevr := MajorAlarm))
      else if r.ct == inp.now then
        Deferred(r1)
      else
        var dt := ElapsedSeconds(r.ct, inp.now, inp.ticksPerSecond);
        if dt < r.mdt then
          Deferred(r1)
        else
          var e := r1.val - cval;
          var out := Increment(r.kp, r.ki, r.kd, e, r.err, r.derr, dt, r.dt);
          Ran(r1.(ct := inp.now, dt := dt, err := e, derr := e - r.err, cval := cval, out := out))
  }
}
