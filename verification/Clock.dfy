/** The ticker that drives the sweeps on both sides, in milliseconds. */
module Clock {
  /** `session_timeout.min(10 s).max(100 ms)`. */
  function Interval(timeout: nat): (i: nat)
    ensures 100 <= i <= 10_000
    ensures 100 <= timeout <= 10_000 ==> i == timeout
    ensures timeout < 100 ==> i == 100
    ensures timeout > 10_000 ==> i == 10_000
  {
    var capped := if timeout < 10_000 then timeout else 10_000;
    if capped > 100 then capped else 100
  }
}
