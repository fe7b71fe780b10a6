/**
  `classifyPart3`: encode the 200 x 200 picture, run the Finale model on it, and rank its
  confidences against the Finale label table. The model itself is opaque; it is the parameter
  `infer`, from the declared input shape and buffer to the confidence vector.
*/
module Classify {
  import opened Outcomes
  import opened Pixels
  import opened Encoding
  import opened Ranking
  import opened Labels

  /** Every ranked entry names a class of the table, paired with that class's own score. */
  lemma RankedEntriesComeFromTable(scores: seq<real>, labels: seq<string>)
    requires |scores| <= |labels|
    ensures forall p :: p in MapScoresToLabels(scores, labels).value ==>
              exists i :: 0 <= i < |scores| && p == Prediction(labels[i], scores[i])
  {
    var ranked := MapScoresToLabels(scores, labels).value;
    forall p | p in ranked
      ensures exists i :: 0 <= i < |scores| && p == Prediction(labels[i], scores[i])
    {
      assert p in multiset(ranked);
      assert p in multiset(IndexedPairs(scores, labels));
      var i :| 0 <= i < |scores| && IndexedPairs(scores, labels)[i] == p;
    }
  }

  method ClassifyFinale(intValues: array<Int32>, infer: (seq<nat>, seq<real>) -> seq<real>)
    returns (r: Result<seq<Prediction>, RankError>)
    requires intValues.Length == PixelCount
    ensures var confidences := infer(FinaleShape, Encode(intValues[..]));
            && r == MapScoresToLabels(confidences, FinaleLabels)
            && (r.Failure? <==> |confidences| > 38)
            && (r.Success? ==> |r.value| == |confidences| && NonIncreasing(r.value, ScoreOf))
            && (r.Success? ==> forall p :: p in r.value ==> p.className in FinaleLabels)
  {
    var shape, buf := PrepareFinaleInput(intValues);
    var confidences := infer(shape, buf[..]);
    r := MapScoresToLabels(confidences, FinaleLabels);
    FinaleLabelsDistinct();
    if r.Success? {
      RankedEntriesComeFromTable(confidences, FinaleLabels);
    }
  }
}
