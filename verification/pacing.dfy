/** Counting the attempts granted to one peer, for both kinds of channel. Times are milliseconds. */
module Pacing {
  type Time = nat

  /** Attempts granted, and the times of the first and last of them. */
  datatype Tally = Tally(grants: nat, first: Time, last: Time)

  const NONE_GRANTED := Tally(0, 0, 0)

  function Count(c: Tally, granted: bool, at: Time): Tally {
    if granted then Tally(c.grants + 1, if c.grants == 0 then at else c.first, at) else c
  }
}
