/**
 process: one scan of the PID record. Mark the record active, run do_pid,
 and unless it deferred, evaluate alarms, run the monitor and process the
 forward link; then clear the active flag. The scan always reports success.
 */
module PidProcess {
  import opened AlarmCodes
  import opened PidRecords
  import opened Ticks
  import opened PidControl
  import opened PidAlarm
  import opened PidMonitor
  import opened PidAlgorithm

  /** The result of one scan: the record afterwards, the status returned, and
      the events emitted in order. */
  datatype Scan = Scan(rec: PidRecord, status: int, events: seq<Event>)

  /** The scan is deferred: do_pid found too little time had passed. */
  predicate Defers(r: PidRecord, inp: ScanInputs)
  {
    PassesReads(r, inp) && TooSoon(r, inp)
  }

  /** The controller state a computation commits. */
  predicate SameControllerState(a: PidRecord, b: PidRecord)
  {
    a.ct == b.ct && a.dt == b.dt && a.err == b.err && a.derr == b.derr && a.cval == b.cval && a.out == b.out
  }

  /** The rest of a scan once do_pid has run to completion on the active
      record `c`: alarm, monitor, the forward link, and clearing the active
      flag. */
  function Complete(c: PidRecord, flnk: Link): (s: Scan)
    ensures s.status == 0 && !s.rec.pact
    // the pending alarm evaluated on `c` is committed and reset, with the value it latched
    ensures var a := Alarm(c);
      && s.rec.stat == a.nsta && s.rec.sevr == a.nsev && s.rec.sevr >= c.nsev
      && s.rec.nsta == NoAlarm && s.rec.nsev == NoAlarm
      && s.rec.lalm == a.lalm
    // the monitor's reference values and posts, in its field order, then the forward link
    ensures var m := Monitor(Alarm(c));
      && s.rec.mlst == m.rec.mlst && s.rec.alst == m.rec.alst
      && s.rec.ocva == m.rec.ocva && s.rec.oout == m.rec.oout
      && (ScanForward in s.events <==> flnk.DbLink?)
      && (flnk.DbLink? ==> |s.events| > 0 && s.events[|s.events| - 1] == ScanForward)
      && s.events[..|s.events| - (if flnk.DbLink? then 1 else 0)] == m.events
      && InFieldOrder(s.events)
    // nothing else changes
    ensures s.rec == c.(stat := s.rec.stat, sevr := s.rec.sevr, nsta := s.rec.nsta, nsev := s.rec.nsev,
                        lalm := s.rec.lalm, mlst := s.rec.mlst, alst := s.rec.alst, ocva := s.rec.ocva,
                        oout := s.rec.oout, pact := false)
  {
    var m := Monitor(Alarm(c));
    var forward := if flnk.DbLink? then [ScanForward] else [];
    assert (m.events + forward)[..|m.events|] == m.events;
    Scan(m.rec.(pact := false), 0, m.events + forward)
  }

  function Process(r: PidRecord, inp: ScanInputs): (s: Scan)
    ensures s.status == 0 && !s.rec.pact
    // a deferred scan changes nothing but the setpoint, emits nothing, and skips alarm, monitor and forward link
    ensures Defers(r, inp) ==> s.events == [] && s.rec == r.(val := SetpointAfter(r, inp), pact := false)
    // any other scan commits and resets the pending alarm, and processes the forward link last,
    // exactly when it is a database link
    ensures !Defers(r, inp) ==>
      && s.rec.nsta == NoAlarm && s.rec.nsev == NoAlarm
      && s.rec.sevr >= r.nsev
      && (ScanForward in s.events <==> r.flnk.DbLink?)
      && (r.flnk.DbLink? ==> s.events[|s.events| - 1] == ScanForward)
    // a scan that stops at a failed read leaves the controller state alone
    ensures !PassesReads(r, inp) ==> SameControllerState(s.rec, r)
    // any other scan commits the setpoint and controller state do_pid left, then the alarm
    // evaluated on that record; the posts are the monitor's, in its field order, before the forward link
    ensures !Defers(r, inp) ==>
      var c := DoPid(r.(pact := true), inp).rec;
      var a := Alarm(c);
      && s.rec.val == c.val && SameControllerState(s.rec, c)
      && s.rec.stat == a.nsta && s.rec.sevr == a.nsev
      && s.rec.lalm == a.lalm
      && s.rec.mlst == Monitor(a).rec.mlst && s.rec.alst == Monitor(a).rec.alst
      && s.rec.ocva == Monitor(a).rec.ocva && s.rec.oout == Monitor(a).rec.oout
      && s.events[..|s.events| - (if r.flnk.DbLink? then 1 else 0)] == Monitor(a).events
      && InFieldOrder(s.events)
    // gains, limits, severities, deadbands, links, subscribers and display fields never change
    ensures s.rec == r.(val := s.rec.val, ct := s.rec.ct, dt := s.rec.dt, err := s.rec.err, derr := s.rec.derr,
                        cval := s.rec.cval, out := s.rec.out, stat := s.rec.stat, sevr := s.rec.sevr,
                        nsta := s.rec.nsta, nsev := s.rec.nsev, lalm := s.rec.lalm, mlst := s.rec.mlst,
                        alst := s.rec.alst, ocva := s.rec.ocva, oout := s.rec.oout, pact := false)
    // so a computing scan commits the reading, the sample tick and the new error
    ensures PassesReads(r, inp) && !TooSoon(r, inp) ==>
      && s.rec.val == SetpointAfter(r, inp) && s.rec.cval == inp.cv.value
      && s.rec.ct == inp.now && s.rec.dt == ElapsedSeconds(r.ct, inp.now, inp.ticksPerSecond)
      && s.rec.err == s.rec.val - s.rec.cval && s.rec.derr == s.rec.err - r.err
  {
    var active := r.(pact := true);
    match DoPid(active, inp)
    case Deferred(r1) =>
      Scan(r1.(pact := false), 0, [])
    case Ran(r1) =>
      Complete(r1, r.flnk)
  }

  /** A controlled-value link that is not a database link, or a failed
      controlled-value read, raises a major pending alarm (SOFT or READ) when
      nothing major is pending yet. The controller state stays as it was, but
      alarm evaluation and the monitor still run, so the alarm is committed
      unless a limit with a higher severity outranks it. */
  lemma ControlledValueFailureIsCommitted(r: PidRecord, inp: ScanInputs)
    requires r.nsev < MajorAlarm
    requires !r.cvl.DbLink? || !inp.cv.ok
    ensures var s := Process(r, inp);
      && SameControllerState(s.rec, r)
      && s.rec.sevr >= MajorAlarm
      && (s.rec.sevr == MajorAlarm ==> s.rec.stat == (if r.cvl.DbLink? then ReadAlarm else SoftAlarm))
      && s.rec.nsta == NoAlarm && s.rec.nsev == NoAlarm
  {
    var active := r.(pact := true);
    var r1 := DoPid(active, inp).rec;
    assert r1.nsev == MajorAlarm && r1.nsta == (if r.cvl.DbLink? then ReadAlarm else SoftAlarm);
    var a := Alarm(r1);
    assert a.nsev > MajorAlarm || a == r1;
  }

  /** A failed setpoint read writes READ/MAJOR straight into the committed
      status and severity rather than the pending ones, so the monitor that
      runs afterwards overwrites them: with no limit able to raise an alarm,
      the scan ends with no alarm committed, and subscribers only see an alarm
      change being posted. */
  lemma SetpointFailureIsOverwritten(r: PidRecord, inp: ScanInputs)
    requires ReadsSetpoint(r) && r.cvl.DbLink? && inp.cv.ok && !inp.sp.ok
    requires r.nsta == NoAlarm && r.nsev == NoAlarm
    requires r.hhsv <= NoAlarm && r.llsv <= NoAlarm && r.hsv <= NoAlarm && r.lsv <= NoAlarm
    ensures var s := Process(r, inp);
      && s.rec.stat == NoAlarm && s.rec.sevr == NoAlarm
      && s.rec.val == inp.sp.value
      && SameControllerState(s.rec, r)
      && (r.subscribers > 0 ==> Posts(s.events, Stat) == 1 && DbeAlarm in MaskFor(s.events, Val))
  {
    var active := r.(pact := true);
    var r1 := DoPid(active, inp).rec;
    assert r1 == active.(val := inp.sp.value, stat := ReadAlarm, sevr := MajorAlarm);
    var a := Alarm(r1);
    assert forall i :: 0 <= i < 4 ==> !Fires(Limits(r1)[i], r1.nsev);
    assert a == r1;
    assert AlarmChanged(a);
    var m := Monitor(a);
    var forward := if r.flnk.DbLink? then [ScanForward] else [];
    assert Process(r, inp).events == m.events + forward;
    PostsAppend(m.events, forward, Stat);
    PostsAppend(m.events, forward, Val);
  }

  /** The bound inside which readings are treated as physical: the sentinel is
      ten times larger. */
  const PhysicalBound: real := 100000000000000000000000000000.0

  /** While the monitored and archived references still hold the sentinel
      init_record seeds them with, a scan that is not deferred posts the value
      with both the value and the archive bits to any subscriber, and takes the
      current value as the new references, whatever the reading, as long as
      readings and deadbands are physical. */
  lemma FirstScanMonitorsAndArchives(r: PidRecord, inp: ScanInputs)
    requires r.mlst == Sentinel && r.alst == Sentinel
    requires r.subscribers > 0 && !Defers(r, inp)
    requires -PhysicalBound < r.val < PhysicalBound && -PhysicalBound < inp.sp.value < PhysicalBound
    requires r.mdel < PhysicalBound && r.adel < PhysicalBound
    ensures var s := Process(r, inp);
      && Posts(s.events, Val) == 1
      && DbeValue in MaskFor(s.events, Val) && DbeLog in MaskFor(s.events, Val)
      && s.rec.mlst == s.rec.val && s.rec.alst == s.rec.val
  {
    var c := DoPid(r.(pact := true), inp).rec;
    assert c.mlst == Sentinel && c.alst == Sentinel && c.mdel == r.mdel && c.adel == r.adel;
    assert -PhysicalBound < c.val < PhysicalBound;
    assert Process(r, inp) == Complete(c, r.flnk);
    CompletePostsMovedValue(c, r.flnk);
  }

  /** When the value has left both deadbands, the rest of the scan posts it
      once with the value and log bits and moves both references to it. */
  lemma CompletePostsMovedValue(c: PidRecord, flnk: Link)
    requires c.subscribers > 0 && ValueMoved(c) && ArchiveMoved(c)
    ensures var s := Complete(c, flnk);
      && Posts(s.events, Val) == 1
      && DbeValue in MaskFor(s.events, Val) && DbeLog in MaskFor(s.events, Val)
      && s.rec.mlst == c.val && s.rec.alst == c.val && s.rec.val == c.val
  {
    var a := Alarm(c);
    assert ValueMoved(a) && ArchiveMoved(a);
    var s := Complete(c, flnk);
    var n := |s.events| - (if flnk.DbLink? then 1 else 0);
    assert s.events == s.events[..n] + s.events[n..];
    assert s.events[n..] == if flnk.DbLink? then [ScanForward] else [];
    PostsAppend(s.events[..n], s.events[n..], Val);
  }

  /** The 1e30 seeding of the last alarmed value also keeps the first scan
      out of the hysteresis band, so that scan evaluates the limits: when one
      fires, the first firing limit in priority order is what the scan commits,
      and its value is latched, as long as readings and the hysteresis are
      physical. */
  lemma FirstScanRaisesFirstFiringLimit(r: PidRecord, inp: ScanInputs)
    requires r.lalm == Sentinel && !Defers(r, inp)
    requires -PhysicalBound < r.val < PhysicalBound && -PhysicalBound < inp.sp.value < PhysicalBound
    requires r.hyst < PhysicalBound
    ensures var c := DoPid(r.(pact := true), inp).rec;
      var s := Process(r, inp);
      && !WithinHysteresis(c)
      && forall i | FirstFiring(c, i) ::
           s.rec.stat == Limits(c)[i].status && s.rec.sevr == Limits(c)[i].severity && s.rec.lalm == c.val
  {
    var c := DoPid(r.(pact := true), inp).rec;
    assert c.lalm == Sentinel && -PhysicalBound < c.val < PhysicalBound;
    forall i | FirstFiring(c, i)
      ensures Alarm(c).nsta == Limits(c)[i].status && Alarm(c).nsev == Limits(c)[i].severity
    {
      assert Alarm(c) != c;
    }
  }

  /** A scan, like init_record, never touches what get_precision,
      get_graphic_double and get_control_double report: the precision, the
      operating range and the alarm thresholds. */
  lemma ReportedMetadataIsStable(r: PidRecord, inp: ScanInputs)
    ensures var s := Process(r, inp);
      && Precision(s.rec) == Precision(r)
      && GraphicDouble(s.rec) == GraphicDouble(r)
      && ControlDouble(s.rec) == ControlDouble(r)
    ensures var i := InitRecord(r).0;
      && Precision(i) == Precision(r)
      && GraphicDouble(i) == GraphicDouble(r)
      && ControlDouble(i) == ControlDouble(r)
  {
  }

  /** The output a computing scan commits is the change of the positional
      controller output between the previous sample and this one, once the
      previous delta time is non-zero. The samples are the error before last
      (`err - derr`), the previous error and the new error. */
  lemma ComputedOutputIsPositionalChange(r: PidRecord, inp: ScanInputs)
    requires PassesReads(r, inp) && !TooSoon(r, inp) && r.dt != 0.0
    ensures var s := Process(r, inp);
      var es := [r.err - r.derr, r.err, s.rec.err];
      var dts := [0.0, r.dt, s.rec.dt];
      s.rec.out == Positional(r.kp, r.ki, r.kd, es, dts) - Positional(r.kp, r.ki, r.kd, es[..2], dts[..2])
  {
    var s := Process(r, inp);
    var c := DoPid(r.(pact := true), inp).rec;
    assert Alarm(c).out == c.out && Alarm(c).err == c.err && Alarm(c).dt == c.dt;
    assert s.rec.out == c.out && s.rec.err == c.err && s.rec.dt == c.dt;
    var es := [r.err - r.derr, r.err, c.err];
    var dts := [0.0, r.dt, c.dt];
    assert c.out == Increment(r.kp, r.ki, r.kd, c.err, r.err, r.derr, c.dt, r.dt);
    assert es[1] - es[0] == r.derr;
    assert IncrementAt(r.kp, r.ki, r.kd, es, dts) == c.out;
    IncrementIsFirstDifference(r.kp, r.ki, r.kd, es, dts);
    assert es[..2] == es[..|es| - 1] && dts[..2] == dts[..|dts| - 1];
  }
}
