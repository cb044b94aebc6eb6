/** The proof progress sink: a fraction that only ever moves forward, whatever order its events come in. */
module Progress {
  import opened Common

  /** One multiplication call reporting `done` of `total` scalars. */
  datatype Event = Event(call: U64, done: int, total: int)

  function PositiveSum(totals: seq<int>): nat {
    if totals == [] then 0
    else PositiveSum(totals[..|totals| - 1]) + (if totals[|totals| - 1] > 0 then totals[|totals| - 1] else 0)
  }

  /** Sum of the recorded amounts. */
  ghost function Recorded(doneByCall: map<U64, nat>): nat
    decreases |doneByCall|
  {
    if doneByCall == map[] then 0
    else
      var call :| call in doneByCall;
      doneByCall[call] + Recorded(doneByCall - {call})
  }

  /** The sum does not depend on the order of summation. */
  lemma {:induction false} RecordedWithout(doneByCall: map<U64, nat>, call: U64)
    requires call in doneByCall
    ensures Recorded(doneByCall) == doneByCall[call] + Recorded(doneByCall - {call})
    decreases |doneByCall|
  {
    var first :| first in doneByCall && Recorded(doneByCall) == doneByCall[first] + Recorded(doneByCall - {first});
    if first != call {
      RecordedWithout(doneByCall - {first}, call);
      RecordedWithout(doneByCall - {call}, first);
      assert doneByCall - {first} - {call} == doneByCall - {call} - {first};
    }
  }

  /** Recording a call replaces what it contributed before. */
  lemma RecordedUpdate(doneByCall: map<U64, nat>, call: U64, done: nat)
    ensures Recorded(doneByCall[call := done]) ==
            Recorded(doneByCall) - (if call in doneByCall then doneByCall[call] else 0) + done
  {
    var after := doneByCall[call := done];
    RecordedWithout(after, call);
    if call in doneByCall {
      RecordedWithout(doneByCall, call);
      assert after - {call} == doneByCall - {call};
    } else {
      assert after - {call} == doneByCall;
    }
  }

  /** Every expected call with work to do is recorded as done to its whole total; other calls may be recorded too. */
  ghost predicate Complete(totals: seq<int>, doneByCall: map<U64, nat>) {
    forall call: U64 | 1 <= call <= |totals| && totals[call - 1] > 0 ::
      call in doneByCall && doneByCall[call] == totals[call - 1]
  }

  /** Then the recorded amounts add up to at least all expected scalars. */
  lemma {:induction false} CompleteCoversTotal(totals: seq<int>, doneByCall: map<U64, nat>)
    requires |totals| < TWO_TO_THE_63 && Complete(totals, doneByCall)
    ensures Recorded(doneByCall) >= PositiveSum(totals)
  {
    if totals != [] {
      var last: U64, front := |totals|, totals[..|totals| - 1];
      if totals[last - 1] > 0 {
        RecordedWithout(doneByCall, last);
        CompleteCoversTotal(front, doneByCall - {last});
      } else {
        CompleteCoversTotal(front, doneByCall);
      }
    }
  }

  /** The stretch of the bar that stands for proving: from 0.30 with nothing done to 0.88 with everything done. */
  function Share(done: nat, total: nat): (fraction: real)
    requires done <= total && total > 0
    ensures 0.30 <= fraction <= 0.88
    ensures done == total ==> fraction == 0.88
    ensures (fraction - 0.30) * total as real == 0.58 * done as real
  {
    var part := done as real / total as real;
    assert part * total as real == done as real;
    assert done == total ==> part == 1.0;
    assert 0.0 <= part <= 1.0;
    0.30 + 0.58 * part
  }

  function Furthest(a: real, b: real): real {
    if b < a then a else b
  }

  class Sink {
    const expectedTotals: seq<int>
    const overallTotal: nat
    var doneByCall: map<U64, nat>
    var lastFraction: real

    constructor (expectedTotals: seq<int>)
      requires |expectedTotals| < TWO_TO_THE_63
      ensures Valid() && this.expectedTotals == expectedTotals && doneByCall == map[] && lastFraction == 0.0
    {
      var overall := 0;
      for i := 0 to |expectedTotals|
        invariant overall == PositiveSum(expectedTotals[..i])
      {
        assert expectedTotals[..i + 1][..i] == expectedTotals[..i];
        if expectedTotals[i] > 0 {
          overall := overall + expectedTotals[i];
        }
      }
      assert expectedTotals[..|expectedTotals|] == expectedTotals;
      this.expectedTotals := expectedTotals;
      overallTotal := if overall <= 0 then 1 else overall;
      doneByCall, lastFraction := map[], 0.0;
    }

    ghost predicate Valid()
      reads this
    {
      && |expectedTotals| < TWO_TO_THE_63
      && overallTotal > 0
      && overallTotal == (if PositiveSum(expectedTotals) == 0 then 1 else PositiveSum(expectedTotals))
      && (lastFraction == 0.0 || 0.30 <= lastFraction <= 0.88)
    }

    /**
     The most a call can have done: what was expected of it, or else what it says itself. A call number that is
     zero, or negative once converted to a signed integer, is looked up as the first call.
     */
    function Limit(event: Event): int {
      var call := if event.call < 1 || event.call >= TWO_TO_THE_63 then 1 else event.call;
      if call <= |expectedTotals| && expectedTotals[call - 1] > 0 then expectedTotals[call - 1] else event.total
    }

    /** The recorded amount: never negative and never above the limit. */
    function Clamped(event: Event): (done: nat)
      requires event.total > 0
      ensures done <= Limit(event)
      ensures 0 <= event.done <= Limit(event) ==> done == event.done
      ensures 1 <= event.call <= |expectedTotals| < TWO_TO_THE_63 && 0 < expectedTotals[event.call - 1] <= event.done ==>
                done == expectedTotals[event.call - 1]
      ensures |expectedTotals| < event.call < TWO_TO_THE_63 ==> done <= event.total
    {
      if event.done < 0 then 0 else if event.done > Limit(event) then Limit(event) else event.done
    }

    /** The loop over the recorded amounts, in whatever order the map yields them. */
    method SumRecorded() returns (overallDone: nat)
      ensures overallDone == Recorded(doneByCall)
    {
      overallDone := 0;
      var rest := doneByCall;
      while rest != map[]
        invariant overallDone + Recorded(rest) == Recorded(doneByCall)
        decreases |rest|
      {
        var call :| call in rest;
        RecordedWithout(rest, call);
        overallDone := overallDone + rest[call];
        rest := rest - {call};
      }
    }

    /**
     Records the event and reports the fraction, which never falls: it is the greater of the last one and the
     share of all expected scalars that the recorded calls add up to. Events without a total are ignored. Once
     every expected call is complete the bar stands at the end of its stretch, whatever else was recorded.
     */
    method Report(event: Event) returns (reported: Option<real>)
      requires Valid()
      modifies this
      ensures Valid()
      ensures event.total <= 0 ==> reported.None? && doneByCall == old(doneByCall) && lastFraction == old(lastFraction)
      ensures event.total > 0 ==>
                && doneByCall == old(doneByCall)[event.call := Clamped(event)]
                && reported == Some(lastFraction)
                && lastFraction >= old(lastFraction)
                && lastFraction == Furthest(old(lastFraction), Share(Min(Recorded(doneByCall), overallTotal), overallTotal))
      ensures event.total > 0 && Complete(expectedTotals, doneByCall) && PositiveSum(expectedTotals) > 0 ==>
                lastFraction == 0.88
    {
      hide Share, Recorded, PositiveSum, Complete;
      if event.total <= 0 {
        return None;
      }
      doneByCall := doneByCall[event.call := Clamped(event)];
      var overallDone := SumRecorded();
      if overallDone > overallTotal {
        overallDone := overallTotal;
      }
      var fraction := Share(overallDone, overallTotal);
      if fraction < lastFraction {
        fraction := lastFraction;
      } else {
        lastFraction := fraction;
      }
      reported := Some(fraction);
      if Complete(expectedTotals, doneByCall) {
        CompleteCoversTotal(expectedTotals, doneByCall);
      }
    }
  }
}
