/** Saturating time arithmetic and the window in which a deadline may be met. */
module Deadlines {

  const TIME_INFINITE: int := 0x7fff_ffff_ffff_ffff
  const TIME_INFINITE_PAST: int := -0x8000_0000_0000_0000

  /** zx_time_t and zx_duration_t. */
  type Time = t: int | TIME_INFINITE_PAST <= t <= TIME_INFINITE

  /** The 64-bit two's complement result of an addition or subtraction of two times. */
  function Wrap(x: int): Time
    requires 2 * TIME_INFINITE_PAST <= x <= 2 * TIME_INFINITE + 1
  {
    if x > TIME_INFINITE then x - 0x1_0000_0000_0000_0000
    else if x < TIME_INFINITE_PAST then x + 0x1_0000_0000_0000_0000
    else x
  }

  function Saturate(x: int): Time
    requires 2 * TIME_INFINITE_PAST <= x <= 2 * TIME_INFINITE + 1
  {
    if Wrap(x) == x then x else if Wrap(x) >= 0 then TIME_INFINITE_PAST else TIME_INFINITE
  }

  function AddDuration(t: Time, d: Time): Time { Saturate(t + d) }
  function SubDuration(t: Time, d: Time): Time { Saturate(t - d) }
  function SubTime(t: Time, u: Time): Time { Saturate(t - u) }

  datatype Mode = Center | Late | Early
  datatype Deadline = Deadline(when: Time, amount: Time, mode: Mode)

  function Earliest(d: Deadline): Time {
    if d.mode == Late then d.when else SubDuration(d.when, d.amount)
  }

  function Latest(d: Deadline): Time {
    if d.mode == Early then d.when else AddDuration(d.when, d.amount)
  }

  /** Judging an overflow by the sign of the wrapped result clamps to the nearer end. */
  lemma SaturateClamps(x: int)
    requires 2 * TIME_INFINITE_PAST <= x <= 2 * TIME_INFINITE + 1
    ensures Saturate(x) == if x > TIME_INFINITE then TIME_INFINITE
                           else if x < TIME_INFINITE_PAST then TIME_INFINITE_PAST else x
  {
  }

  /** The window always contains the deadline, lies within the slack of it, has no slack on the side
      that the mode forbids, and falls short of the slack only where time ends. */
  lemma WindowLaw(d: Deadline)
    requires d.amount >= 0
    ensures Earliest(d) <= d.when <= Latest(d)
    ensures d.when - Earliest(d) <= d.amount && Latest(d) - d.when <= d.amount
    ensures d.mode == Late ==> Earliest(d) == d.when
    ensures d.mode == Early ==> Latest(d) == d.when
    ensures d.mode != Late ==> Earliest(d) == d.when - d.amount || Earliest(d) == TIME_INFINITE_PAST
    ensures d.mode != Early ==> Latest(d) == d.when + d.amount || Latest(d) == TIME_INFINITE
  {
    SaturateClamps(d.when - d.amount);
    SaturateClamps(d.when + d.amount);
  }
}
