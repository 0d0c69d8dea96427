/**
 The alarm severities and alarm status codes of the EPICS alarm header that the
 PID record support uses. Severities are ordered: a larger number is a more
 severe alarm, and the record compares them with `<`.
 */
module AlarmCodes {

  /** Alarm severities (NO_ALARM, MINOR_ALARM, MAJOR_ALARM). */
  const NoAlarm: int := 0
  const MinorAlarm: int := 1
  const MajorAlarm: int := 2

  /** Alarm status codes used by the PID record. */
  const ReadAlarm: int := 1
  const HihiAlarm: int := 3
  const HighAlarm: int := 4
  const LoloAlarm: int := 5
  const LowAlarm: int := 6
  const SoftAlarm: int := 15
}
