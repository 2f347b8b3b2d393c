/** The polling loop that waits for the nodes of a match to become ready. */
module Readiness {

  /** The sleep between two polls, in seconds. */
  const POLL := 0.5

  function Ceil(x: real): int {
    -((-x).Floor)
  }

  /** `ready(i)` is the set of ready nodes seen by poll `i`, `clock(i)` the
      monotonic clock right after it, and `start` the reading at entry.  Other
      coroutines change the registry only while this one sleeps.  An empty
      `missing` is a normal return, a non-empty one the raised error. */
  method AwaitReady(
      expected: set<string>, timeout: real, start: real, ready: nat -> set<string>, clock: nat -> real)
    returns (polls: nat, missing: set<string>)
    requires clock(0) >= start && forall i: nat :: clock(i + 1) >= clock(i) + 0.5
    ensures 1 <= polls <= (if timeout <= 0.0 then 1 else Ceil(timeout / 0.5) + 1)
    ensures missing == expected - ready(polls - 1)
    ensures missing != {} ==> clock(polls - 1) >= start + timeout
    ensures forall i: nat | i < polls - 1 :: !(expected <= ready(i)) && clock(i) < start + timeout
  {
    var deadline := start + timeout;
    polls := 0;
    while true
      invariant clock(polls) >= start + POLL * polls as real
      invariant polls > 0 ==> POLL * (polls - 1) as real < timeout
      invariant forall i: nat | i < polls :: !(expected <= ready(i)) && clock(i) < deadline
      decreases Ceil(timeout / POLL) + 1 - polls
    {
      var seen := ready(polls);
      var now := clock(polls);
      polls := polls + 1;
      if expected <= seen {
        missing := {};
        assert expected - seen == {};
        break;
      }
      if now >= deadline {
        missing := expected - seen;
        break;
      }
      assert POLL * (polls - 1) as real < timeout;
      assert (polls - 1) as real < timeout / POLL;
      assert clock(polls - 1 + 1) >= clock(polls - 1) + POLL;
    }
    if polls > 1 {
      assert (polls - 2) as real < timeout / POLL;
    }
  }
}
