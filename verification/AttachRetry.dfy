/** The retries of the data connections of one session share the time at which the next of them may start. */
module AttachRetry {
  function Later(a: int, b: int): int {
    if a > b then a else b
  }

  /** The start of a retry reserved at time `now`, when the next free start is `next`. */
  function ReadyAt(next: int, now: int, spacing: int): int {
    Later(now + spacing, next)
  }

  /** The starts of retries reserved one after the other, by whatever connection. */
  function Starts(next: int, nows: seq<int>, spacing: int): (r: seq<int>)
    ensures |r| == |nows|
    decreases |nows|
  {
    if |nows| == 0 then []
    else
      var ready := ReadyAt(next, nows[0], spacing);
      [ready] + Starts(ready + spacing, nows[1..], spacing)
  }

  lemma {:induction false} StartsAreLater(next: int, nows: seq<int>, spacing: int, i: nat)
    requires i < |nows| && spacing > 0
    ensures Starts(next, nows, spacing)[i] >= next && Starts(next, nows, spacing)[i] >= nows[i] + spacing
    decreases |nows|
  {
    if i > 0 {
      StartsAreLater(ReadyAt(next, nows[0], spacing) + spacing, nows[1..], spacing, i - 1);
    }
  }

  /** However reservations interleave, no two retries of a session start within the spacing of each other, and none
      before its own spacing is over. */
  lemma {:induction false} RetriesAreSpaced(next: int, nows: seq<int>, spacing: int, i: nat, j: nat)
    requires i < j < |nows| && spacing > 0
    ensures Starts(next, nows, spacing)[j] >= Starts(next, nows, spacing)[i] + spacing
    ensures Starts(next, nows, spacing)[j] >= nows[j] + spacing
    decreases |nows|
  {
    var ready := ReadyAt(next, nows[0], spacing);
    if i == 0 {
      StartsAreLater(ready + spacing, nows[1..], spacing, j - 1);
    } else {
      RetriesAreSpaced(ready + spacing, nows[1..], spacing, i - 1, j - 1);
    }
  }

  class Session {
    var nextAttachRetry: int

    constructor ()
      ensures nextAttachRetry == 0
    {
      nextAttachRetry := 0;
    }

    /** Without a spacing there is nothing to wait for. */
    method WaitForAttachRetry(now: int, spacing: int) returns (readyAt: int)
      modifies this
      ensures spacing <= 0 ==> readyAt == now && nextAttachRetry == old(nextAttachRetry)
      ensures spacing > 0 ==>
          readyAt == ReadyAt(old(nextAttachRetry), now, spacing) && nextAttachRetry == readyAt + spacing
    {
      if spacing <= 0 {
        return now;
      }
      readyAt := now + spacing;
      if nextAttachRetry > readyAt {
        readyAt := nextAttachRetry;
      }
      nextAttachRetry := readyAt + spacing;
    }
  }
}
