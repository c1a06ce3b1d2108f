// The choice of the best candidate by the voice service. Scores are arbitrary reals: the
// speaker model and the rounding of its arithmetic are not part of this model.
module VoiceMatch {

  // Nothing scored above the initial -1.0, or the first index of the highest score.
  datatype Best = Best(index: int, score: real)

  predicate IsFirstMaximum(scores: seq<real>, i: int) {
    && 0 <= i < |scores|
    && (forall k :: 0 <= k < |scores| ==> scores[k] <= scores[i])
    && (forall k :: 0 <= k < i ==> scores[k] < scores[i])
  }

  predicate IsBest(scores: seq<real>, best: Best) {
    if best.index == -1 then best.score == -1.0 && forall k :: 0 <= k < |scores| ==> scores[k] <= -1.0
    else IsFirstMaximum(scores, best.index) && best.score == scores[best.index] && best.score > -1.0
  }

  function BestOf(scores: seq<real>): (best: Best)
    ensures IsBest(scores, best)
  {
    if scores == [] then Best(-1, -1.0)
    else
      var n := |scores| - 1;
      var best := BestOf(scores[..n]);
      if scores[n] > best.score then Best(n, scores[n]) else best
  }

  lemma BestIsUnique(scores: seq<real>, a: Best, b: Best)
    requires IsBest(scores, a) && IsBest(scores, b)
    ensures a == b
  {
  }

  // The loop of the service over its candidates.
  method Verify(scores: seq<real>) returns (best: Best)
    ensures IsBest(scores, best) && best == BestOf(scores)
  {
    var bestScore, bestIdx := -1.0, -1;
    for i := 0 to |scores|
      invariant IsBest(scores[..i], Best(bestIdx, bestScore))
    {
      assert scores[..i + 1] == scores[..i] + [scores[i]];
      if scores[i] > bestScore {
        bestScore := scores[i];
        bestIdx := i;
      }
    }
    assert scores[..|scores|] == scores;
    best := Best(bestIdx, bestScore);
    BestIsUnique(scores, best, BestOf(scores));
  }
}
