/**
 The PID record: its fields, the link bindings it reads through, record
 initialisation and the field mappings the record support hands to clients
 (precision, graphic limits, control limits).
 */
module PidRecords {

  /** An `unsigned long` tick count of the 32-bit target. */
  type Tick = n: int | 0 <= n < 0x1_0000_0000

  /** How a link field is configured. `Constant` carries the literal of a
      constant link; `OtherLink` stands for every link kind that is neither
      constant nor a database link (channel access, hardware addresses, ...). */
  datatype Link = Constant(value: real) | DbLink | OtherLink

  /** Setpoint mode select: only in closed loop is the setpoint link read. */
  datatype SetpointMode = Supervisory | ClosedLoop

  /** The fields of a PID record that record support reads or writes.
      Floating-point fields are reals; `short` fields are ints. */
  datatype PidRecord = PidRecord(
    // setpoint, controlled value and output
    val: real, cval: real, out: real,
    // controller state: error, change in error, last tick and last delta time
    err: real, derr: real, ct: Tick, dt: real,
    // gains and minimum delta time
    kp: real, ki: real, kd: real, mdt: real,
    // alarm limits, their severities and the alarm hysteresis
    hihi: real, lolo: real, high: real, low: real,
    hhsv: int, llsv: int, hsv: int, lsv: int, hyst: real,
    // committed and pending alarm status and severity
    stat: int, sevr: int, nsta: int, nsev: int,
    // last alarmed, monitored and archived values, and the deadbands
    lalm: real, mlst: real, alst: real, mdel: real, adel: real,
    // copies of cval and out last posted to subscribers
    ocva: real, oout: real,
    // controlled value link, setpoint link and mode, forward link
    cvl: Link, stpl: Link, smsl: SetpointMode, flnk: Link,
    // number of subscribers waiting for events on this record
    subscribers: nat,
    // processing active
    pact: bool,
    // display precision and operating range
    prec: int, hopr: real, lopr: real)

  /** The value that seeds the last alarmed, archived and monitored values,
      far outside any physical reading (1e30). */
  const Sentinel: real := 1000000000000000000000000000000.0

  /** init_record: seed the comparison references with the sentinel so that the
      first scan alarms, archives and monitors, take the setpoint from a
      constant setpoint link, and report success. */
  function InitRecord(r: PidRecord): (res: (PidRecord, int))
    ensures res.1 == 0
    ensures res.0.lalm == Sentinel && res.0.alst == Sentinel && res.0.mlst == Sentinel
    ensures r.stpl.Constant? ==> res.0.val == r.stpl.value
    ensures !r.stpl.Constant? ==> res.0.val == r.val
    ensures res.0.(lalm := r.lalm, alst := r.alst, mlst := r.mlst, val := r.val) == r
  {
    var seeded := r.(lalm := Sentinel, alst := Sentinel, mlst := Sentinel);
    if r.stpl.Constant? then (seeded.(val := r.stpl.value), 0) else (seeded, 0)
  }

  /** get_precision: the display precision of the value field. */
  function Precision(r: PidRecord): (p: int)
  {
    r.prec
  }

  /** The graphic limits a client receives (dbr_grDouble). */
  datatype GraphicLimits = GraphicLimits(
    upperDisp: real, lowerDisp: real,
    upperAlarm: real, upperWarning: real, lowerWarning: real, lowerAlarm: real)

  /** The control limits a client receives (dbr_ctrlDouble). */
  datatype ControlLimits = ControlLimits(upperCtrl: real, lowerCtrl: real)

  /** get_graphic_double: display limits from the operating range, alarm and
      warning limits from the alarm thresholds. */
  function GraphicDouble(r: PidRecord): (g: GraphicLimits)
  {
    GraphicLimits(r.hopr, r.lopr, r.hihi, r.high, r.low, r.lolo)
  }

  /** get_control_double: control limits are the operating range. */
  function ControlDouble(r: PidRecord): (c: ControlLimits)
    ensures c.upperCtrl == GraphicDouble(r).upperDisp
    ensures c.lowerCtrl == GraphicDouble(r).lowerDisp
  {
    ControlLimits(r.hopr, r.lopr)
  }
}
