/** Unsigned 32-bit uptime in milliseconds, as `k_uptime_get_32` returns it. */
module Clock32 {

  const WORD: nat := 0x1_0000_0000
  const HALF: nat := 0x8000_0000

  /** `(uint32_t)(a - b)` */
  function Elapsed(a: nat, b: nat): (ms: nat)
    ensures ms < WORD
  {
    (a - b) % WORD
  }

  /** The uptime `ms` later. */
  function Later(now: nat, ms: nat): (t: nat)
    ensures t < WORD
  {
    (now + ms) % WORD
  }

  /** `(int32_t)(deadline - now) > 0`: the deadline is still ahead. */
  predicate Ahead(deadline: nat, now: nat)
  {
    0 < Elapsed(deadline, now) < HALF
  }

  /** Zero marks "no stamp", so a reading of zero is stored as one. */
  function Stamp(now: nat): (stamp: nat)
    ensures stamp != 0
  {
    if now == 0 then 1 else now
  }
}
