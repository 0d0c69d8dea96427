/**
 Elapsed time between two scans, from a 32-bit tick counter that wraps around.
 */
module Ticks {
  import opened PidRecords

  const TickModulus: int := 0x1_0000_0000

  /** A positive number of ticks per second. */
  type PosInt = n: int | n > 0 witness 1

  /** Ticks elapsed from `ctp` to `ct` when the two differ: the plain
      difference when the counter moved forward, otherwise the distance across
      the wrap, `0xffffffff - ctp + ct + 1`. */
  function ElapsedTicks(ctp: Tick, ct: Tick): (n: int)
    requires ctp != ct
    ensures 1 <= n < TickModulus
    ensures n % TickModulus == (ct - ctp) % TickModulus
    ensures (ctp + n) % TickModulus == ct
    ensures ctp < ct ==> n == ct - ctp
  {
    if ctp < ct then ct - ctp else (0xffff_ffff - ctp) + ct + 1
  }

  /** Elapsed seconds: elapsed ticks over ticks per second. */
  function ElapsedSeconds(ctp: Tick, ct: Tick, ticksPerSecond: PosInt): (s: real)
    requires ctp != ct
    ensures s > 0.0
    ensures s * (ticksPerSecond as real) == ElapsedTicks(ctp, ct) as real
  {
    ElapsedTicks(ctp, ct) as real / ticksPerSecond as real
  }

  /** A wrap from 0xFFFFFFF0 to 0x10 spans 15 + 16 + 1 = 32 ticks. */
  lemma WrapExample()
    ensures ElapsedTicks(0xFFFF_FFF0, 0x10) == 32
  {
  }
}
