/** The verification decision of `verify_signature` (version_1 and version_2
    of `signature_utils.py`, and the same logic written inline in
    `test_verification.py`) and the pair loader `load_pairs` (version_2, and
    the same code in `new_model/signature_utils2.py`).

    The trained model and the image decoding are opaque: `score(probe, ref)`
    stands for decoding the stored reference, preprocessing it and running
    `model.predict` on the two images. */
module SignatureUtils {
  import opened Results
  import opened Scores

  /** The default `threshold=0.5` of `verify_signature`. */
  const DefaultThreshold: real := 0.5

  /** What `verify_signature` returns: `(max_score, max_score > threshold)`. */
  datatype Decision = Decision(maxScore: real, accepted: bool)

  /** `max()` of an empty score list raises ValueError. */
  datatype VerifyError = EmptyGallery

  /** One score per stored reference, in gallery order. */
  function ScoresOf<P, R>(probe: P, gallery: seq<R>, score: (P, R) -> real): seq<real>
  {
    seq(|gallery|, i requires 0 <= i < |gallery| => score(probe, gallery[i]))
  }

  /** The decision of `verify_signature`: the best score over the whole gallery
      compared strictly against the threshold. */
  function Verify<P, R>(probe: P, gallery: seq<R>, score: (P, R) -> real, threshold: real)
    : (r: Result<Decision, VerifyError>)
    ensures r.Err? <==> gallery == []
    ensures r.Ok? ==> exists i :: 0 <= i < |gallery| && r.value.maxScore == score(probe, gallery[i])
    ensures r.Ok? ==> forall i :: 0 <= i < |gallery| ==> score(probe, gallery[i]) <= r.value.maxScore
    ensures r.Ok? ==> (r.value.accepted <==> r.value.maxScore > threshold)
  {
    if gallery == [] then Err(EmptyGallery)
    else
      var scores := ScoresOf(probe, gallery, score);
      assert forall i :: 0 <= i < |gallery| ==> scores[i] == score(probe, gallery[i]);
      var m := Max(scores);
      Ok(Decision(m, m > threshold))
  }

  /** `verify_signature(uploaded_signature, genuine_signatures, model, threshold)`:
      scores the probe against every stored reference, without early exit,
      then takes the maximum. */
  method VerifySignature<P, R>(uploaded: P, genuine: seq<R>, score: (P, R) -> real, threshold: real)
    returns (r: Result<Decision, VerifyError>)
    ensures r == Verify(uploaded, genuine, score, threshold)
  {
    var similarityScores: seq<real> := [];
    for i := 0 to |genuine|
      invariant similarityScores == ScoresOf(uploaded, genuine[..i], score)
    {
      similarityScores := similarityScores + [score(uploaded, genuine[i])];
    }
    assert genuine[..|genuine|] == genuine;
    if similarityScores == [] {
      return Err(EmptyGallery);
    }
    var maxScore := Max(similarityScores);
    return Ok(Decision(maxScore, maxScore > threshold));
  }

  /** A probe is accepted exactly when some stored reference scores strictly
      above the threshold; a best score equal to the threshold is a reject. */
  lemma AcceptedIffSomeScoreAbove<P, R>(probe: P, gallery: seq<R>, score: (P, R) -> real, threshold: real)
    requires gallery != []
    ensures Verify(probe, gallery, score, threshold).value.accepted
        <==> exists i :: 0 <= i < |gallery| && score(probe, gallery[i]) > threshold
  {
    var d := Verify(probe, gallery, score, threshold).value;
    if d.accepted {
      var i :| 0 <= i < |gallery| && d.maxScore == score(probe, gallery[i]);
      assert score(probe, gallery[i]) > threshold;
    }
  }

  /** Reordering the gallery changes neither the score nor the decision. */
  lemma VerifyOrderIndependent<P, R>(probe: P, g1: seq<R>, g2: seq<R>, score: (P, R) -> real, threshold: real)
    requires multiset(g1) == multiset(g2)
    ensures Verify(probe, g1, score, threshold) == Verify(probe, g2, score, threshold)
  {
    assert |g1| == |multiset(g1)| == |multiset(g2)| == |g2|;
    if g1 != [] {
      var s1, s2 := ScoresOf(probe, g1, score), ScoresOf(probe, g2, score);
      forall x | x in s1
        ensures x in s2
      {
        var i :| 0 <= i < |s1| && s1[i] == x;
        assert g1[i] in multiset(g2);
        var j :| 0 <= j < |g2| && g2[j] == g1[i];
        assert s2[j] == x;
      }
      forall x | x in s2
        ensures x in s1
      {
        var j :| 0 <= j < |s2| && s2[j] == x;
        assert g2[j] in multiset(g1);
        var i :| 0 <= i < |g1| && g1[i] == g2[j];
        assert s1[i] == x;
      }
      MaxSameElements(s1, s2);
    }
  }

  /** The caller's `labels` list, which `load_pairs` consumes with `pop(0)`. */
  class LabelList<L> {
    var items: seq<L>

    constructor (labels: seq<L>)
      ensures items == labels
    {
      items := labels;
    }

    /** `labels.pop(0)`; `None` stands for the IndexError of an empty list. */
    method PopFront() returns (r: Option<L>)
      modifies this
      ensures old(items) == [] ==> r == None && items == []
      ensures old(items) != [] ==> r == Some(old(items)[0]) && items == old(items)[1..]
    {
      if items == [] {
        return None;
      }
      r := Some(items[0]);
      items := items[1..];
    }
  }

  /** `(np.array(X1), np.array(X2), np.array(y))`. */
  datatype PairArrays<T, L> = PairArrays(x1: seq<T>, x2: seq<T>, y: seq<L>)

  /** Why `load_pairs` raises: an image that `load_img` cannot open, or
      `pop(0)` on an empty label list. */
  datatype LoadPairsError<P> = ImageUnreadable(path: P) | LabelsExhausted

  /** Both images of the pair can be preprocessed. */
  predicate Loadable<P, T>(pair: (P, P), preprocess: P -> Option<T>)
  {
    preprocess(pair.0).Some? && preprocess(pair.1).Some?
  }

  /** How many pairs `load_pairs` gets through, given `labelCount` labels: it
      stops at the first pair with an image that does not load, or with no
      label left for it. */
  function PairsLoaded<P, T>(pairs: seq<(P, P)>, labelCount: nat, preprocess: P -> Option<T>): (k: nat)
    ensures k <= |pairs| && k <= labelCount
  {
    if pairs == [] || labelCount == 0 || !Loadable(pairs[0], preprocess) then 0
    else 1 + PairsLoaded(pairs[1..], labelCount - 1, preprocess)
  }

  /** `PairsLoaded` is the first stopping point: every pair before it loads
      and has its label, and the pair at it (if any) fails to load or finds
      the labels used up. */
  lemma {:induction false} PairsLoadedIsFirstStop<P, T>(pairs: seq<(P, P)>, labelCount: nat, preprocess: P -> Option<T>)
    ensures forall m :: 0 <= m < PairsLoaded(pairs, labelCount, preprocess) ==> Loadable(pairs[m], preprocess) && m < labelCount
    ensures PairsLoaded(pairs, labelCount, preprocess) < |pairs| ==>
      !Loadable(pairs[PairsLoaded(pairs, labelCount, preprocess)], preprocess) || PairsLoaded(pairs, labelCount, preprocess) == labelCount
  {
    if pairs != [] && labelCount != 0 && Loadable(pairs[0], preprocess) {
      PairsLoadedIsFirstStop(pairs[1..], labelCount - 1, preprocess);
      forall m | 0 < m < PairsLoaded(pairs, labelCount, preprocess)
        ensures Loadable(pairs[m], preprocess) && m < labelCount
      {
        assert pairs[1..][m - 1] == pairs[m];
      }
      var k := PairsLoaded(pairs, labelCount, preprocess);
      if k < |pairs| {
        assert pairs[1..][k - 1] == pairs[k];
      }
    } else {
      assert PairsLoaded(pairs, labelCount, preprocess) == 0;
    }
  }

  /** `load_pairs` gets through every pair exactly when every image loads and
      there are at least as many labels as pairs. */
  lemma LoadsAllIff<P, T>(pairs: seq<(P, P)>, labelCount: nat, preprocess: P -> Option<T>)
    ensures PairsLoaded(pairs, labelCount, preprocess) == |pairs|
      <==> |pairs| <= labelCount && forall k :: 0 <= k < |pairs| ==> Loadable(pairs[k], preprocess)
  {
    PairsLoadedIsFirstStop(pairs, labelCount, preprocess);
  }

  /** The exception raised at the pair where `load_pairs` stops: the first
      image of the pair that does not load, else the empty label list. */
  function StopError<P, T>(pair: (P, P), preprocess: P -> Option<T>): (e: LoadPairsError<P>)
    ensures e.ImageUnreadable? <==> !Loadable(pair, preprocess)
    ensures e.ImageUnreadable? ==> preprocess(e.path).None? && (e.path == pair.0 || e.path == pair.1)
  {
    if preprocess(pair.0).None? then ImageUnreadable(pair.0)
    else if preprocess(pair.1).None? then ImageUnreadable(pair.1)
    else LabelsExhausted
  }

  /** `load_pairs(pairs, labels)`: preprocesses both images of every pair and
      takes each pair's label off the front of the caller's list. When it
      raises, the labels of the pairs already loaded stay removed from the
      caller's list. */
  method LoadPairs<P, T, L>(pairs: seq<(P, P)>, labels: LabelList<L>, preprocess: P -> Option<T>)
    returns (r: Result<PairArrays<T, L>, LoadPairsError<P>>)
    modifies labels
    ensures labels.items == old(labels.items)[PairsLoaded(pairs, |old(labels.items)|, preprocess)..]
    ensures r.Ok? <==> PairsLoaded(pairs, |old(labels.items)|, preprocess) == |pairs|
    ensures r.Ok? ==>
      && |r.value.x1| == |r.value.x2| == |r.value.y| == |pairs|
      && (forall k :: 0 <= k < |pairs| ==>
            preprocess(pairs[k].0) == Some(r.value.x1[k]) && preprocess(pairs[k].1) == Some(r.value.x2[k]))
      && r.value.y == old(labels.items)[..|pairs|]
    ensures r.Err? ==> r.error == StopError(pairs[PairsLoaded(pairs, |old(labels.items)|, preprocess)], preprocess)
  {
    ghost var stop := PairsLoaded(pairs, |labels.items|, preprocess);
    PairsLoadedIsFirstStop(pairs, |labels.items|, preprocess);
    var x1: seq<T>, x2: seq<T>, y: seq<L> := [], [], [];
    for k := 0 to |pairs|
      invariant k <= stop
      invariant |x1| == |x2| == |y| == k
      invariant forall m :: 0 <= m < k ==> preprocess(pairs[m].0) == Some(x1[m]) && preprocess(pairs[m].1) == Some(x2[m])
      invariant y == old(labels.items)[..k]
      invariant labels.items == old(labels.items)[k..]
    {
      var img1 := preprocess(pairs[k].0);
      if img1.None? {
        return Err(ImageUnreadable(pairs[k].0));
      }
      var img2 := preprocess(pairs[k].1);
      if img2.None? {
        return Err(ImageUnreadable(pairs[k].1));
      }
      x1 := x1 + [img1.value];
      x2 := x2 + [img2.value];
      var popped := labels.PopFront();
      if popped.None? {
        return Err(LabelsExhausted);
      }
      y := y + [popped.value];
    }
    return Ok(PairArrays(x1, x2, y));
  }
}
