/**
  `convertToLabelScorePairs`: for every index `i` of the output array, inside a `try`, look up
  `labels[i]` (only for a log line), then append `(labels[i - 1], outputArray[i])`; any
  exception skips the index. Nothing escapes the loop.
*/
module Pairing {
  import opened Outcomes

  /** What one pass of the `try` block contributes for index `i`; `None` when an exception was caught. */
  function TryPair(output: seq<real>, labels: seq<string>, i: nat): Option<(string, real)>
    requires i < |output|
  {
    if i >= |labels| then None        // `labels[i]` is out of range
    else if i == 0 then None          // `labels[i - 1]` is `labels[-1]`
    else Some((labels[i - 1], output[i]))
  }

  /** The list after the loop has run for indices 0 .. n - 1. */
  function Collected(output: seq<real>, labels: seq<string>, n: nat): seq<(string, real)>
    requires n <= |output|
  {
    if n == 0 then []
    else
      Collected(output, labels, n - 1) +
      match TryPair(output, labels, n - 1)
      case Some(pair) => [pair]
      case None => []
  }

  /** `max(0, min(outputs, labels) - 1)`: how many pairs survive. */
  function ShiftedCount(outputs: nat, labels: nat): nat {
    if outputs == 0 || labels == 0 then 0
    else if outputs <= labels then outputs - 1
    else labels - 1
  }

  /**
    Closed form of the loop's result: entry k pairs `labels[k]` with `output[k + 1]`, for every
    k below `min(n, |labels|) - 1`; the score at index 0 is never used.
  */
  lemma {:induction false} CollectedClosedForm(output: seq<real>, labels: seq<string>, n: nat)
    requires n <= |output|
    ensures |Collected(output, labels, n)| == ShiftedCount(n, |labels|)
    ensures forall k :: 0 <= k < |Collected(output, labels, n)| ==>
              k + 1 < |labels| && Collected(output, labels, n)[k] == (labels[k], output[k + 1])
  {
    if n > 0 {
      CollectedClosedForm(output, labels, n - 1);
    }
  }

  /** The loop as written: the appended pair uses `labels[i - 1]` with `outputArray[i]`. */
  method ConvertToLabelScorePairs(outputArray: array<real>, labels: seq<string>) returns (pairs: seq<(string, real)>)
    ensures pairs == Collected(outputArray[..], labels, outputArray.Length)
    ensures |pairs| == ShiftedCount(outputArray.Length, |labels|)
    ensures forall k :: 0 <= k < |pairs| ==> k + 1 < |labels| && pairs[k] == (labels[k], outputArray[k + 1])
  {
    pairs := [];
    for i := 0 to outputArray.Length
      invariant pairs == Collected(outputArray[..], labels, i)
    {
      if i < |labels| {
        // `Pair(labels[i], outputArray[i])` succeeded
        if 1 <= i {
          pairs := pairs + [(labels[i - 1], outputArray[i])];
        }
        // otherwise `labels[i - 1]` threw
      }
      // otherwise `labels[i]` threw
    }
    CollectedClosedForm(outputArray[..], labels, outputArray.Length);
  }

  /** Whenever the first two scores differ, the first label leaves with the second score instead of its own. */
  lemma ShiftedPairsMisalign(output: seq<real>, labels: seq<string>)
    requires 2 <= |output| && 2 <= |labels| && output[0] != output[1]
    ensures |Collected(output, labels, |output|)| >= 1
    ensures Collected(output, labels, |output|)[0] == (labels[0], output[1])
    ensures Collected(output, labels, |output|)[0] != (labels[0], output[0])
  {
    CollectedClosedForm(output, labels, |output|);
  }

  /** A concrete case: two classes, two scores, one pair, and it is the wrong one. */
  lemma ShiftedPairsScenario()
    ensures Collected([0.1, 0.9], ["A", "B"], 2) == [("A", 0.9)]
  {
    CollectedClosedForm([0.1, 0.9], ["A", "B"], 2);
  }

  /** The same loop with the label index corrected to `labels[i]`: every score meets its own label. */
  method ConvertToAlignedPairs(outputArray: array<real>, labels: seq<string>) returns (pairs: seq<(string, real)>)
    ensures |pairs| == if outputArray.Length <= |labels| then outputArray.Length else |labels|
    ensures forall k :: 0 <= k < |pairs| ==> k < |labels| && pairs[k] == (labels[k], outputArray[k])
  {
    pairs := [];
    for i := 0 to outputArray.Length
      invariant |pairs| == if i <= |labels| then i else |labels|
      invariant forall k :: 0 <= k < |pairs| ==> k < |labels| && pairs[k] == (labels[k], outputArray[k])
    {
      if i < |labels| {
        pairs := pairs + [(labels[i], outputArray[i])];
      }
    }
  }
}
