/** What one like or dislike does to the taste model. */
module TasteLaws {
  import opened Wrappers
  import opened Vectors
  import opened Taste

  /** Renormalising every vector of the model yields normalised vectors. */
  lemma {:induction false} RenormalizedIsNormalized(sqrt: real -> real, taste: TasteVectors)
    requires IsSqrt(sqrt)
    ensures TasteNormalized(Renormalized(sqrt, taste))
  {
    var r := Renormalized(sqrt, taste);
    forall k | 0 <= k < |r.tastePos| ensures IsNormalized(r.tastePos[k]) {
      NormalizeUnitOrZero(sqrt, taste.tastePos[k]);
    }
    if taste.tasteNeg.Some? {
      NormalizeUnitOrZero(sqrt, taste.tasteNeg.value);
    }
  }

  /** A model that is already normalised is read back unchanged, so the
      renormalisation done by the update and the ranking is invisible for it. */
  lemma {:induction false} RenormalizedStable(sqrt: real -> real, taste: TasteVectors)
    requires IsSqrt(sqrt) && TasteNormalized(taste)
    ensures Renormalized(sqrt, taste) == taste
  {
    var r := Renormalized(sqrt, taste);
    forall k | 0 <= k < |taste.tastePos| ensures r.tastePos[k] == taste.tastePos[k] {
      NormalizeIdempotent(sqrt, taste.tastePos[k]);
    }
    if taste.tasteNeg.Some? {
      NormalizeIdempotent(sqrt, taste.tasteNeg.value);
    }
  }

  /** The update keeps the model normalised and of the embedding's
      dimension, whatever the state of its input. */
  lemma {:induction false} UpdatePreservesNormalized(sqrt: real -> real, knobs: UpdateKnobs, embedding: Vec, taste: TasteVectors, action: string)
    requires IsSqrt(sqrt) && HasDim(taste, |embedding|)
    ensures TasteNormalized(UpdateTasteSpec(sqrt, knobs, embedding, taste, action))
    ensures HasDim(UpdateTasteSpec(sqrt, knobs, embedding, taste, action), |embedding|)
  {
    var v := Normalize(sqrt, embedding);
    var t := Renormalized(sqrt, taste);
    var r := UpdateTasteSpec(sqrt, knobs, embedding, taste, action);
    NormalizeUnitOrZero(sqrt, embedding);
    RenormalizedIsNormalized(sqrt, taste);
    if action == "like" {
      if |t.tastePos| > 0 {
        var i := Closest(t.tastePos, v);
        ClosestIsFirstMax(t.tastePos, v);
        NormalizeUnitOrZero(sqrt, Ema(t.tastePos[i], v, knobs.alpha));
        assert r.tastePos == t.tastePos[i := Normalize(sqrt, Ema(t.tastePos[i], v, knobs.alpha))];
      }
    } else {
      if t.tasteNeg.Some? {
        NormalizeUnitOrZero(sqrt, Ema(t.tasteNeg.value, v, knobs.gamma));
      }
      if knobs.beta > 0.0 && |t.tastePos| > 0 {
        var i := Closest(t.tastePos, v);
        ClosestIsFirstMax(t.tastePos, v);
        var p := t.tastePos[i];
        NormalizeUnitOrZero(sqrt, PushAway(p, v, knobs.beta, CosineNorm(p, v)));
        assert r.tastePos == t.tastePos[i := Normalize(sqrt, PushAway(p, v, knobs.beta, CosineNorm(p, v)))];
      }
    }
  }

  /** A like on a model without positive clusters creates the first one, the
      normalised embedding, and carries the negative centroid over. */
  lemma {:induction false} LikeWithoutClusters(sqrt: real -> real, knobs: UpdateKnobs, embedding: Vec, taste: TasteVectors)
    requires HasDim(taste, |embedding|) && |taste.tastePos| == 0
    ensures UpdateTasteSpec(sqrt, knobs, embedding, taste, "like").tastePos == [Normalize(sqrt, embedding)]
    ensures UpdateTasteSpec(sqrt, knobs, embedding, taste, "like").tasteNeg == Renormalized(sqrt, taste).tasteNeg
  {
  }

  /** A like on a model with positive clusters moves only the closest one, by
      one EMA step toward the embedding; every other cluster and the negative
      centroid are read back unchanged. */
  lemma {:induction false} LikeMovesOnlyClosest(sqrt: real -> real, knobs: UpdateKnobs, embedding: Vec, taste: TasteVectors)
    requires HasDim(taste, |embedding|) && |taste.tastePos| > 0
    ensures var v := Normalize(sqrt, embedding);
            var t := Renormalized(sqrt, taste);
            var r := UpdateTasteSpec(sqrt, knobs, embedding, taste, "like");
            var i := Closest(t.tastePos, v);
            FirstMaxIn(t.tastePos, v, |t.tastePos|, i)
            && |r.tastePos| == |taste.tastePos|
            && r.tastePos[i] == Normalize(sqrt, Ema(t.tastePos[i], v, knobs.alpha))
            && (forall k :: 0 <= k < |r.tastePos| && k != i ==> r.tastePos[k] == t.tastePos[k])
            && r.tasteNeg == t.tasteNeg
  {
    var v := Normalize(sqrt, embedding);
    var t := Renormalized(sqrt, taste);
    ClosestIsFirstMax(t.tastePos, v);
  }

  /** A dislike sets the negative centroid to the embedding when there is
      none, and otherwise moves it by one EMA step toward the embedding; the
      number of positive clusters stays the same. */
  lemma {:induction false} DislikeMovesNegative(sqrt: real -> real, knobs: UpdateKnobs, embedding: Vec, taste: TasteVectors, action: string)
    requires HasDim(taste, |embedding|) && action != "like"
    ensures var v := Normalize(sqrt, embedding);
            var t := Renormalized(sqrt, taste);
            var r := UpdateTasteSpec(sqrt, knobs, embedding, taste, action);
            |r.tastePos| == |taste.tastePos|
            && (taste.tasteNeg.None? ==> r.tasteNeg == Some(v))
            && (taste.tasteNeg.Some? ==> r.tasteNeg == Some(Normalize(sqrt, Ema(t.tasteNeg.value, v, knobs.gamma))))
  {
  }

  /** Without a positive push strength, or without clusters, a dislike leaves
      every positive cluster as it was read. */
  lemma {:induction false} DislikeWithoutPush(sqrt: real -> real, knobs: UpdateKnobs, embedding: Vec, taste: TasteVectors, action: string)
    requires HasDim(taste, |embedding|) && action != "like"
    requires knobs.beta <= 0.0 || |taste.tastePos| == 0
    ensures UpdateTasteSpec(sqrt, knobs, embedding, taste, action).tastePos == Renormalized(sqrt, taste).tastePos
  {
  }

  /** With a positive push strength, a dislike changes only the closest
      positive cluster, moving it away from the disliked direction. */
  lemma {:induction false} DislikePushesClosest(sqrt: real -> real, knobs: UpdateKnobs, embedding: Vec, taste: TasteVectors, action: string)
    requires HasDim(taste, |embedding|) && action != "like"
    requires knobs.beta > 0.0 && |taste.tastePos| > 0
    ensures var v := Normalize(sqrt, embedding);
            var t := Renormalized(sqrt, taste);
            var r := UpdateTasteSpec(sqrt, knobs, embedding, taste, action);
            var i := Closest(t.tastePos, v);
            FirstMaxIn(t.tastePos, v, |t.tastePos|, i)
            && r.tastePos[i] == Normalize(sqrt, PushAway(t.tastePos[i], v, knobs.beta, CosineNorm(t.tastePos[i], v)))
            && (forall k :: 0 <= k < |r.tastePos| && k != i ==> r.tastePos[k] == t.tastePos[k])
  {
    var v := Normalize(sqrt, embedding);
    var t := Renormalized(sqrt, taste);
    ClosestIsFirstMax(t.tastePos, v);
  }

  lemma {:induction false} ProductNonNegative(x: real, y: real)
    requires x >= 0.0 && y >= 0.0
    ensures x * y >= 0.0
  {
  }

  lemma {:induction false} EmaIdentity(w: real, d: real)
    ensures (1.0 - w) * d + w * 1.0 == d + w * (1.0 - d)
  {
  }

  /** Before renormalisation, an EMA step of weight w in [0, 1] between unit
      vectors never lowers the cosine with the liked (or disliked)
      embedding. */
  lemma {:induction false} EmaMovesToward(t: Vec, v: Vec, w: real)
    requires |t| == |v| && Dot(t, t) == 1.0 && Dot(v, v) == 1.0
    requires 0.0 <= w <= 1.0
    ensures CosineNorm(Ema(t, v, w), v) >= CosineNorm(t, v)
  {
    DotCombine(1.0 - w, t, w, v, v);
    CosineBounded(t, v);
    var d := Dot(t, v);
    ProductNonNegative(w, 1.0 - d);
    EmaIdentity(w, d);
  }

  lemma {:induction false} PushIdentity(x: real, dtv: real, dvv: real, beta: real, p: real)
    requires x == 1.0 * dtv + -(beta * p) * dvv && dtv == p && dvv == 1.0
    ensures x == (1.0 - beta) * p
  {
  }

  lemma {:induction false} PushStep(x: real, y: real, beta: real, p: real)
    ensures x - beta * p * y == 1.0 * x + -(beta * p) * y
  {
  }

  /** The push-away step is the combination `1 · t + (-β · projMag) · v`. */
  lemma {:induction false} PushAwayIsCombine(t: Vec, v: Vec, beta: real, p: real)
    requires |t| == |v|
    ensures PushAway(t, v, beta, p) == Combine(1.0, t, -(beta * p), v)
  {
    var pushed := PushAway(t, v, beta, p);
    var comb := Combine(1.0, t, -(beta * p), v);
    forall k | 0 <= k < |t| ensures pushed[k] == comb[k] {
      PushStep(t[k], v[k], beta, p);
    }
  }

  /** The dot product of the pushed vector with w, term by term. */
  lemma {:induction false} PushAwayDot(t: Vec, v: Vec, beta: real, p: real, w: Vec)
    requires |t| == |v| == |w|
    ensures Dot(PushAway(t, v, beta, p), w) == 1.0 * Dot(t, w) + -(beta * p) * Dot(v, w)
  {
    PushAwayIsCombine(t, v, beta, p);
    DotLinear(PushAway(t, v, beta, p), 1.0, t, -(beta * p), v, w);
  }

  lemma {:induction false} PushAwayUnitDot(t: Vec, v: Vec, beta: real, p: real)
    requires |t| == |v| && Dot(v, v) == 1.0 && p == Dot(t, v)
    ensures Dot(PushAway(t, v, beta, p), v) == (1.0 - beta) * p
  {
    PushAwayDot(t, v, beta, p, v);
    PushIdentity(Dot(PushAway(t, v, beta, p), v), Dot(t, v), Dot(v, v), beta, p);
  }

  /** Before renormalisation, pushing t away from a unit vector v scales
      their cosine by 1 - β. */
  lemma {:induction false} PushAwayAlignment(t: Vec, v: Vec, beta: real)
    requires |t| == |v| && Dot(v, v) == 1.0
    ensures CosineNorm(PushAway(t, v, beta, CosineNorm(t, v)), v) == (1.0 - beta) * CosineNorm(t, v)
  {
    PushAwayUnitDot(t, v, beta, CosineNorm(t, v));
  }
}
