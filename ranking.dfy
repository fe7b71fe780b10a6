/**
  `mapScoresToLabels`: pair every score with the label at the same index (`mapIndexed`), then
  order the pairs by score, largest first, with Kotlin's stable `sortedByDescending`.
*/
module Ranking {
  import opened Outcomes

  /** One entry of the result, the map `{"score": score, "label": label}`. */
  datatype Prediction = Prediction(className: string, score: real)

  /** `labels[index]` on a list that is too short. */
  datatype RankError = IndexOutOfBounds(index: nat)

  /** A prediction together with the index of the score it came from; used to state stability. */
  datatype Entry = Entry(index: nat, prediction: Prediction)

  function ScoreOf(p: Prediction): real { p.score }

  function EntryScore(e: Entry): real { e.prediction.score }

  function EntryIndex(e: Entry): int { e.index }

  /** `s` is ordered by `key`, largest first. */
  ghost predicate NonIncreasing<T>(s: seq<T>, key: T -> real) {
    forall i, j :: 0 <= i < j < |s| ==> key(s[i]) >= key(s[j])
  }

  /** Elements of `s` with equal keys appear in increasing `tag` order. */
  ghost predicate StableBy<T>(s: seq<T>, key: T -> real, tag: T -> int) {
    forall i, j :: 0 <= i < j < |s| && key(s[i]) == key(s[j]) ==> tag(s[i]) < tag(s[j])
  }

  /** `tag` strictly increases along `s`. */
  ghost predicate IncreasingTags<T>(s: seq<T>, tag: T -> int) {
    forall i, j :: 0 <= i < j < |s| ==> tag(s[i]) < tag(s[j])
  }

  /** Inserts `x` before the first element whose key is not larger than its own. */
  function Insert<T>(x: T, s: seq<T>, key: T -> real): seq<T> {
    if s == [] || key(s[0]) <= key(x) then [x] + s else [s[0]] + Insert(x, s[1..], key)
  }

  /**
    A stable sort by descending key. Inserting the first element into the sorted rest, ahead of
    every element with an equal key, keeps equal keys in their original order; any stable sort
    by the same key gives the same result.
  */
  function SortByDescending<T>(xs: seq<T>, key: T -> real): seq<T> {
    if xs == [] then [] else Insert(xs[0], SortByDescending(xs[1..], key), key)
  }

  lemma {:induction false} InsertPermutation<T>(x: T, s: seq<T>, key: T -> real)
    ensures multiset(Insert(x, s, key)) == multiset(s) + multiset{x}
  {
    if s != [] && key(s[0]) > key(x) {
      InsertPermutation(x, s[1..], key);
      assert s == [s[0]] + s[1..];
    }
  }

  /** Sorting only reorders: the result is a permutation of the input. */
  lemma {:induction false} SortPermutation<T>(xs: seq<T>, key: T -> real)
    ensures multiset(SortByDescending(xs, key)) == multiset(xs)
    ensures |SortByDescending(xs, key)| == |xs|
  {
    if xs != [] {
      SortPermutation(xs[1..], key);
      InsertPermutation(xs[0], SortByDescending(xs[1..], key), key);
      assert xs == [xs[0]] + xs[1..];
    }
    assert |multiset(SortByDescending(xs, key))| == |multiset(xs)|;
  }

  lemma {:induction false} InsertNonIncreasing<T>(x: T, s: seq<T>, key: T -> real)
    requires NonIncreasing(s, key)
    ensures NonIncreasing(Insert(x, s, key), key)
  {
    var r := Insert(x, s, key);
    if s != [] && key(s[0]) > key(x) {
      var rest := Insert(x, s[1..], key);
      InsertNonIncreasing(x, s[1..], key);
      InsertPermutation(x, s[1..], key);
      forall j | 1 <= j < |r|
        ensures key(r[0]) >= key(r[j])
      {
        assert r[j] == rest[j - 1];
        assert r[j] in multiset(rest);
        if r[j] != x {
          assert r[j] in multiset(s[1..]);
          var k :| 0 <= k < |s[1..]| && s[1..][k] == r[j];
          assert s[k + 1] == r[j];
        }
      }
    }
  }

  /** The result is ordered by key, largest first. */
  lemma {:induction false} SortNonIncreasing<T>(xs: seq<T>, key: T -> real)
    ensures NonIncreasing(SortByDescending(xs, key), key)
  {
    if xs != [] {
      SortNonIncreasing(xs[1..], key);
      InsertNonIncreasing(xs[0], SortByDescending(xs[1..], key), key);
    }
  }

  lemma {:induction false} InsertStable<T>(x: T, s: seq<T>, key: T -> real, tag: T -> int)
    requires StableBy(s, key, tag)
    requires forall y :: y in s ==> tag(x) < tag(y)
    ensures StableBy(Insert(x, s, key), key, tag)
  {
    var r := Insert(x, s, key);
    if s != [] && key(s[0]) > key(x) {
      var rest := Insert(x, s[1..], key);
      assert forall i, j :: 0 <= i < j < |s[1..]| ==> s[1..][i] == s[i + 1] && s[1..][j] == s[j + 1];
      InsertStable(x, s[1..], key, tag);
      InsertPermutation(x, s[1..], key);
      forall j | 1 <= j < |r| && key(r[0]) == key(r[j])
        ensures tag(r[0]) < tag(r[j])
      {
        assert r[j] == rest[j - 1];
        assert r[j] in multiset(rest);
        if r[j] != x {
          assert r[j] in multiset(s[1..]);
          var k :| 0 <= k < |s[1..]| && s[1..][k] == r[j];
          assert s[k + 1] == r[j];
        }
      }
    }
  }

  /** Stability: when the input's tags increase, equal keys leave the sort with their tags still increasing. */
  lemma {:induction false} SortStable<T>(xs: seq<T>, key: T -> real, tag: T -> int)
    requires IncreasingTags(xs, tag)
    ensures StableBy(SortByDescending(xs, key), key, tag)
  {
    if xs != [] {
      var sorted := SortByDescending(xs[1..], key);
      SortStable(xs[1..], key, tag);
      SortPermutation(xs[1..], key);
      forall y | y in sorted
        ensures tag(xs[0]) < tag(y)
      {
        assert y in multiset(xs[1..]);
        var k :| 0 <= k < |xs[1..]| && xs[1..][k] == y;
        assert xs[k + 1] == y;
      }
      InsertStable(xs[0], sorted, key, tag);
    }
  }

  /** Input already ordered by key, largest first, is left exactly as it is. */
  lemma {:induction false} SortKeepsOrderedInput<T>(xs: seq<T>, key: T -> real)
    requires NonIncreasing(xs, key)
    ensures SortByDescending(xs, key) == xs
  {
    if xs != [] {
      SortKeepsOrderedInput(xs[1..], key);
      assert xs == [xs[0]] + xs[1..];
    }
  }

  /** Sorting twice is sorting once. */
  lemma SortIdempotent<T>(xs: seq<T>, key: T -> real)
    ensures SortByDescending(SortByDescending(xs, key), key) == SortByDescending(xs, key)
  {
    SortNonIncreasing(xs, key);
    SortKeepsOrderedInput(SortByDescending(xs, key), key);
  }

  /** `scores.mapIndexed { index, score -> (labels[index], score) }` once every index is known to be valid. */
  function IndexedPairs(scores: seq<real>, labels: seq<string>): seq<Prediction>
    requires |scores| <= |labels|
  {
    seq(|scores|, i requires 0 <= i < |scores| => Prediction(labels[i], scores[i]))
  }

  /** The same pairs, each tagged with its index. */
  function Tagged(scores: seq<real>, labels: seq<string>): seq<Entry>
    requires |scores| <= |labels|
  {
    seq(|scores|, i requires 0 <= i < |scores| => Entry(i, Prediction(labels[i], scores[i])))
  }

  function Untag(es: seq<Entry>): seq<Prediction> {
    seq(|es|, i requires 0 <= i < |es| => es[i].prediction)
  }

  /**
    `mapScoresToLabels`. `mapIndexed` visits the indices in order, so with too few labels the
    first failing lookup is `labels[|labels|]`.
  */
  function MapScoresToLabels(scores: seq<real>, labels: seq<string>): (r: Result<seq<Prediction>, RankError>)
    ensures r.Failure? <==> |labels| < |scores|
    ensures r.Failure? ==> r.error == IndexOutOfBounds(|labels|)
    ensures r.Success? ==> |r.value| == |scores|
    ensures r.Success? ==> multiset(r.value) == multiset(IndexedPairs(scores, labels))
    ensures r.Success? ==> NonIncreasing(r.value, ScoreOf)
  {
    if |labels| < |scores| then
      Failure(IndexOutOfBounds(|labels|))
    else
      SortPermutation(IndexedPairs(scores, labels), ScoreOf);
      SortNonIncreasing(IndexedPairs(scores, labels), ScoreOf);
      Success(SortByDescending(IndexedPairs(scores, labels), ScoreOf))
  }

  lemma {:induction false} UntagInsert(e: Entry, s: seq<Entry>)
    ensures Untag(Insert(e, s, EntryScore)) == Insert(e.prediction, Untag(s), ScoreOf)
  {
    if s != [] && EntryScore(s[0]) > EntryScore(e) {
      UntagInsert(e, s[1..]);
      assert Untag(s)[1..] == Untag(s[1..]);
    }
  }

  /** Sorting the tagged pairs and dropping the tags is sorting the pairs. */
  lemma {:induction false} UntagSort(es: seq<Entry>)
    ensures Untag(SortByDescending(es, EntryScore)) == SortByDescending(Untag(es), ScoreOf)
  {
    if es != [] {
      UntagSort(es[1..]);
      UntagInsert(es[0], SortByDescending(es[1..], EntryScore));
      assert Untag(es)[1..] == Untag(es[1..]);
    }
  }

  /**
    Equal scores keep their original index order: the result is the index-tagged pairs, sorted,
    with tags dropped; the tagged result holds every (index, label, score) once, and among
    equal scores the indices increase.
  */
  lemma RankIsStable(scores: seq<real>, labels: seq<string>)
    requires |scores| <= |labels|
    ensures var ranked := SortByDescending(Tagged(scores, labels), EntryScore);
            && MapScoresToLabels(scores, labels) == Success(Untag(ranked))
            && multiset(ranked) == multiset(Tagged(scores, labels))
            && NonIncreasing(ranked, EntryScore)
            && StableBy(ranked, EntryScore, EntryIndex)
  {
    var tagged := Tagged(scores, labels);
    UntagSort(tagged);
    assert Untag(tagged) == IndexedPairs(scores, labels);
    SortPermutation(tagged, EntryScore);
    SortNonIncreasing(tagged, EntryScore);
    SortStable(tagged, EntryScore, EntryIndex);
  }

  /** Ranking a list that is already ordered by score, largest first, returns it unchanged. */
  lemma RankKeepsOrderedScores(scores: seq<real>, labels: seq<string>)
    requires |scores| <= |labels|
    requires forall i, j :: 0 <= i < j < |scores| ==> scores[i] >= scores[j]
    ensures MapScoresToLabels(scores, labels) == Success(IndexedPairs(scores, labels))
  {
    SortKeepsOrderedInput(IndexedPairs(scores, labels), ScoreOf);
  }

  /** Labels beyond the last score index are never read. */
  lemma RankIgnoresExtraLabels(scores: seq<real>, labels: seq<string>)
    requires |scores| <= |labels|
    ensures MapScoresToLabels(scores, labels) == MapScoresToLabels(scores, labels[..|scores|])
  {
    assert IndexedPairs(scores, labels) == IndexedPairs(scores, labels[..|scores|]);
  }

  lemma RankScenarioDistinct()
    ensures MapScoresToLabels([0.1, 0.9, 0.3], ["A", "B", "C"])
            == Success([Prediction("B", 0.9), Prediction("C", 0.3), Prediction("A", 0.1)])
  {
    var a, b, c := Prediction("A", 0.1), Prediction("B", 0.9), Prediction("C", 0.3);
    assert IndexedPairs([0.1, 0.9, 0.3], ["A", "B", "C"]) == [a, b, c];
    assert [a, b, c][1..] == [b, c] && [b, c][1..] == [c] && [c][1..] == [];
    assert SortByDescending([c], ScoreOf) == [c];
    assert SortByDescending([b, c], ScoreOf) == Insert(b, [c], ScoreOf) == [b, c];
    assert Insert(a, [c], ScoreOf) == [c, a];
    assert SortByDescending([a, b, c], ScoreOf) == Insert(a, [b, c], ScoreOf) == [b, c, a];
  }

  lemma RankScenarioTie()
    ensures MapScoresToLabels([0.5, 0.5], ["X", "Y"]) == Success([Prediction("X", 0.5), Prediction("Y", 0.5)])
  {
    var x, y := Prediction("X", 0.5), Prediction("Y", 0.5);
    assert IndexedPairs([0.5, 0.5], ["X", "Y"]) == [x, y];
    assert [x, y][1..] == [y] && [y][1..] == [];
    assert SortByDescending([y], ScoreOf) == [y];
    assert SortByDescending([x, y], ScoreOf) == Insert(x, [y], ScoreOf) == [x, y];
  }
}
