/** The user's taste model and its update on a single like or dislike
    (`pickClosest`, `bestPositiveSim`, `TeiMath.updateTaste`). */
module Taste {
  import opened Wrappers
  import opened Vectors

  /** Positive clusters (normalised, possibly none) and an optional negative
      centroid (`TasteVectors`). */
  datatype TasteVectors = TasteVectors(tastePos: seq<Vec>, tasteNeg: Option<Vec>)

  /** The step sizes of the update: the like EMA weight α, the dislike EMA
      weight γ and the push-away strength β. */
  datatype UpdateKnobs = UpdateKnobs(alpha: real, gamma: real, beta: real)

  /** The defaults `ALPHA_POS`, `GAMMA_NEG` and `BETA_PUSH_AWAY`. */
  const DefaultUpdateKnobs := UpdateKnobs(0.20, 0.20, 0.10)

  predicate SameDim(vs: seq<Vec>, n: nat) {
    forall k :: 0 <= k < |vs| ==> |vs[k]| == n
  }

  /** Every vector of the taste model has dimension n. */
  predicate HasDim(taste: TasteVectors, n: nat) {
    SameDim(taste.tastePos, n) && (taste.tasteNeg.Some? ==> |taste.tasteNeg.value| == n)
  }

  /** Every vector of the taste model is unit length or all zero, as the
      stored model is meant to be. */
  ghost predicate TasteNormalized(taste: TasteVectors) {
    (forall k :: 0 <= k < |taste.tastePos| ==> IsNormalized(taste.tastePos[k]))
    && (taste.tasteNeg.Some? ==> IsNormalized(taste.tasteNeg.value))
  }

  // ---------- nearest cluster ----------

  /** `i` is the first index among `clusters[..n]` whose cosine with `v` is
      maximal. */
  predicate FirstMaxIn(clusters: seq<Vec>, v: Vec, n: nat, i: int)
    requires SameDim(clusters, |v|) && n <= |clusters|
  {
    0 <= i < n
    && (forall k :: 0 <= k < n ==> CosineNorm(clusters[k], v) <= CosineNorm(clusters[i], v))
    && (forall k :: 0 <= k < i ==> CosineNorm(clusters[k], v) < CosineNorm(clusters[i], v))
  }

  /** The scan of `pickClosest` over `clusters[..n]`: a later index takes over
      only on a strictly larger cosine. */
  function ArgMax(clusters: seq<Vec>, v: Vec, n: nat): (i: nat)
    requires SameDim(clusters, |v|) && 0 < n <= |clusters|
    ensures i < n
    decreases n
  {
    if n == 1 then 0
    else
      var j := ArgMax(clusters, v, n - 1);
      if CosineNorm(clusters[n - 1], v) > CosineNorm(clusters[j], v) then n - 1 else j
  }

  /** The cluster `pickClosest` picks, -1 when there is none. */
  function Closest(clusters: seq<Vec>, v: Vec): (i: int)
    requires SameDim(clusters, |v|)
  {
    if |clusters| == 0 then -1 else ArgMax(clusters, v, |clusters|)
  }

  lemma {:induction false} ArgMaxIsFirstMax(clusters: seq<Vec>, v: Vec, n: nat)
    requires SameDim(clusters, |v|) && 0 < n <= |clusters|
    ensures FirstMaxIn(clusters, v, n, ArgMax(clusters, v, n))
    decreases n
  {
    if n > 1 {
      ArgMaxIsFirstMax(clusters, v, n - 1);
    }
  }

  /** `pickClosest` returns -1 exactly when there are no clusters, and
      otherwise the first index of maximal cosine. */
  lemma {:induction false} ClosestIsFirstMax(clusters: seq<Vec>, v: Vec)
    requires SameDim(clusters, |v|)
    ensures Closest(clusters, v) == -1 <==> |clusters| == 0
    ensures |clusters| > 0 ==> FirstMaxIn(clusters, v, |clusters|, Closest(clusters, v))
  {
    if |clusters| > 0 {
      ArgMaxIsFirstMax(clusters, v, |clusters|);
    }
  }

  /** The first index of maximal cosine is unique, so it determines
      `Closest`. */
  lemma {:induction false} FirstMaxUnique(clusters: seq<Vec>, v: Vec, n: nat, i: int, j: int)
    requires SameDim(clusters, |v|) && n <= |clusters|
    requires FirstMaxIn(clusters, v, n, i) && FirstMaxIn(clusters, v, n, j)
    ensures i == j
  {
    assert CosineNorm(clusters[i], v) == CosineNorm(clusters[j], v);
  }

  /** `pickClosest`. The best score starts at minus infinity, modelled by
      `None`, which the first cosine always beats. */
  method PickClosest(clusters: seq<Vec>, vec: Vec) returns (bestI: int)
    requires SameDim(clusters, |vec|)
    ensures bestI == -1 <==> |clusters| == 0
    ensures |clusters| > 0 ==> FirstMaxIn(clusters, vec, |clusters|, bestI)
    ensures bestI == Closest(clusters, vec)
  {
    if |clusters| == 0 {
      return -1;
    }
    bestI := 0;
    var bestS: Option<real> := None;
    for i := 0 to |clusters|
      invariant i == 0 ==> bestS == None && bestI == 0
      invariant i > 0 ==> bestI == ArgMax(clusters, vec, i)
      invariant i > 0 ==> bestS == Some(CosineNorm(clusters[bestI], vec))
    {
      var s := DotProduct(clusters[i], vec);
      if bestS.None? || s > bestS.value {
        bestS := Some(s);
        bestI := i;
      }
    }
    ArgMaxIsFirstMax(clusters, vec, |clusters|);
  }

  // ---------- best positive similarity ----------

  /** The largest cosine with `v` among `clusters[..n]`. */
  function MaxCosine(clusters: seq<Vec>, v: Vec, n: nat): real
    requires SameDim(clusters, |v|) && 0 < n <= |clusters|
    decreases n
  {
    if n == 1 then CosineNorm(clusters[0], v)
    else
      var best := MaxCosine(clusters, v, n - 1);
      var s := CosineNorm(clusters[n - 1], v);
      if s > best then s else best
  }

  /** What `bestPositiveSim` returns. */
  function BestSim(tastePos: seq<Vec>, cand: Vec, fallback: real): real
    requires SameDim(tastePos, |cand|)
  {
    if |tastePos| == 0 then fallback else MaxCosine(tastePos, cand, |tastePos|)
  }

  /** The running maximum is the cosine of the cluster the scan of
      `pickClosest` keeps. */
  lemma {:induction false} MaxCosineAtArgMax(clusters: seq<Vec>, v: Vec, n: nat)
    requires SameDim(clusters, |v|) && 0 < n <= |clusters|
    ensures MaxCosine(clusters, v, n) == CosineNorm(clusters[ArgMax(clusters, v, n)], v)
    decreases n
  {
    if n > 1 {
      MaxCosineAtArgMax(clusters, v, n - 1);
    }
  }

  /** `bestPositiveSim` and `pickClosest` agree: the best similarity is the
      cosine of the closest cluster, which no cluster exceeds. */
  lemma {:induction false} BestSimIsClosest(tastePos: seq<Vec>, cand: Vec, fallback: real)
    requires SameDim(tastePos, |cand|)
    ensures |tastePos| == 0 ==> BestSim(tastePos, cand, fallback) == fallback
    ensures |tastePos| > 0 ==> BestSim(tastePos, cand, fallback) == CosineNorm(tastePos[Closest(tastePos, cand)], cand)
    ensures forall k :: 0 <= k < |tastePos| ==> CosineNorm(tastePos[k], cand) <= BestSim(tastePos, cand, fallback)
  {
    if |tastePos| > 0 {
      MaxCosineAtArgMax(tastePos, cand, |tastePos|);
      ArgMaxIsFirstMax(tastePos, cand, |tastePos|);
    }
  }

  /** `bestPositiveSim`: the fallback when there are no clusters, otherwise
      the maximal cosine, which one of the clusters attains. */
  method BestPositiveSim(tastePos: seq<Vec>, cand: Vec, fallback: real) returns (best: real)
    requires SameDim(tastePos, |cand|)
    ensures |tastePos| == 0 ==> best == fallback
    ensures |tastePos| > 0 ==> exists k :: 0 <= k < |tastePos| && best == CosineNorm(tastePos[k], cand)
    ensures forall k :: 0 <= k < |tastePos| ==> CosineNorm(tastePos[k], cand) <= best
    ensures best == BestSim(tastePos, cand, fallback)
  {
    if |tastePos| == 0 {
      return fallback;
    }
    var bestS: Option<real> := None;
    for i := 0 to |tastePos|
      invariant i == 0 <==> bestS == None
      invariant i > 0 ==> bestS == Some(MaxCosine(tastePos, cand, i))
    {
      var s := DotProduct(tastePos[i], cand);
      if bestS.None? || s > bestS.value {
        bestS := Some(s);
      }
    }
    best := bestS.value;
    BestSimIsClosest(tastePos, cand, fallback);
  }

  // ---------- the update rule ----------

  /** Each vector normalised (`(taste.tastePos ?? []).map(normalize)`). */
  function NormalizeAll(sqrt: real -> real, vs: seq<Vec>): (r: seq<Vec>)
    ensures |r| == |vs|
    ensures forall k :: 0 <= k < |vs| ==> r[k] == Normalize(sqrt, vs[k])
  {
    seq(|vs|, k requires 0 <= k < |vs| => Normalize(sqrt, vs[k]))
  }

  /** Both parts of the taste model normalised, as the update and the
      ranking read it. */
  function Renormalized(sqrt: real -> real, taste: TasteVectors): (r: TasteVectors)
    ensures forall n: nat :: HasDim(taste, n) ==> HasDim(r, n)
  {
    TasteVectors(
      NormalizeAll(sqrt, taste.tastePos),
      if taste.tasteNeg.Some? then Some(Normalize(sqrt, taste.tasteNeg.value)) else None)
  }

  /** The exponential moving-average step `(1 - w) * t + w * v`. */
  function Ema(t: Vec, v: Vec, w: real): (r: Vec)
    requires |t| == |v|
    ensures |r| == |t|
  {
    Combine(1.0 - w, t, w, v)
  }

  /** The push-away step `t[k] - beta * projMag * v[k]`, where projMag is
      the cosine of t and v. */
  function PushAway(t: Vec, v: Vec, beta: real, projMag: real): (r: Vec)
    requires |t| == |v|
    ensures |r| == |t|
    ensures forall k :: 0 <= k < |t| ==> r[k] == t[k] - beta * projMag * v[k]
  {
    seq(|t|, k requires 0 <= k < |t| => t[k] - beta * projMag * v[k])
  }

  /** The like branch of `TeiMath.updateTaste` on the normalised inputs: the
      first cluster, or an EMA step of the closest one. */
  function LikeSpec(sqrt: real -> real, alpha: real, v: Vec, pos: seq<Vec>, neg: Option<Vec>): TasteVectors
    requires SameDim(pos, |v|)
  {
    if |pos| == 0 then TasteVectors([v], neg)
    else
      var i := Closest(pos, v);
      TasteVectors(pos[i := Normalize(sqrt, Ema(pos[i], v, alpha))], neg)
  }

  /** The dislike branch on the normalised inputs: an EMA step (or the first
      value) of the negative centroid, and with β > 0 a push of the closest
      cluster away from the disliked direction. */
  function DislikeSpec(sqrt: real -> real, gamma: real, beta: real, v: Vec, pos: seq<Vec>, neg: Option<Vec>): TasteVectors
    requires SameDim(pos, |v|) && (neg.Some? ==> |neg.value| == |v|)
  {
    var nextNeg := if neg.None? then v else Normalize(sqrt, Ema(neg.value, v, gamma));
    var nextPos :=
      if beta > 0.0 && |pos| > 0 then
        var i := Closest(pos, v);
        pos[i := Normalize(sqrt, PushAway(pos[i], v, beta, CosineNorm(pos[i], v)))]
      else pos;
    TasteVectors(nextPos, Some(nextNeg))
  }

  /** What `TeiMath.updateTaste` returns. Any action other than "like" takes
      the dislike branch. */
  function UpdateTasteSpec(sqrt: real -> real, knobs: UpdateKnobs, embedding: Vec, taste: TasteVectors, action: string): TasteVectors
    requires HasDim(taste, |embedding|)
  {
    var v := Normalize(sqrt, embedding);
    var t := Renormalized(sqrt, taste);
    if action == "like" then LikeSpec(sqrt, knobs.alpha, v, t.tastePos, t.tasteNeg)
    else DislikeSpec(sqrt, knobs.gamma, knobs.beta, v, t.tastePos, t.tasteNeg)
  }

  /** `TeiMath.updateTaste`: the positive clusters are copied into a fresh
      array (so the caller's taste is never changed), one entry of it is
      overwritten, and the new model is returned. */
  method UpdateTaste(sqrt: real -> real, knobs: UpdateKnobs, embedding: Vec, taste: TasteVectors, action: string)
    returns (r: TasteVectors)
    requires HasDim(taste, |embedding|)
    ensures r == UpdateTasteSpec(sqrt, knobs, embedding, taste, action)
  {
    var v := Normalize(sqrt, embedding);
    var n := |taste.tastePos|;
    var tastePos := new Vec[n](j requires 0 <= j < n => Normalize(sqrt, taste.tastePos[j]));
    ghost var norm := Renormalized(sqrt, taste);
    ghost var pos := norm.tastePos;
    assert tastePos[..] == pos;
    var tasteNeg := if taste.tasteNeg.Some? then Some(Normalize(sqrt, taste.tasteNeg.value)) else None;
    assert tasteNeg == norm.tasteNeg;

    if action == "like" {
      assert UpdateTasteSpec(sqrt, knobs, embedding, taste, action) == LikeSpec(sqrt, knobs.alpha, v, pos, tasteNeg);
      if n == 0 {
        r := TasteVectors([v], tasteNeg);
        assert r == LikeSpec(sqrt, knobs.alpha, v, pos, tasteNeg);
        return;
      }
      var i := PickClosest(tastePos[..], v);
      var t := tastePos[i];
      var updated := Normalize(sqrt, Ema(t, v, knobs.alpha));
      tastePos[i] := updated;
      assert tastePos[..] == pos[i := updated];
      r := TasteVectors(tastePos[..], tasteNeg);
      assert r == LikeSpec(sqrt, knobs.alpha, v, pos, tasteNeg);
      return;
    }
    assert UpdateTasteSpec(sqrt, knobs, embedding, taste, action)
      == DislikeSpec(sqrt, knobs.gamma, knobs.beta, v, pos, tasteNeg);

    var nextNeg: Vec;
    if tasteNeg.None? {
      nextNeg := v;
    } else {
      nextNeg := Normalize(sqrt, Ema(tasteNeg.value, v, knobs.gamma));
    }
    assert DislikeSpec(sqrt, knobs.gamma, knobs.beta, v, pos, tasteNeg).tasteNeg == Some(nextNeg);

    ghost var expected := DislikeSpec(sqrt, knobs.gamma, knobs.beta, v, pos, tasteNeg).tastePos;
    if knobs.beta > 0.0 && n > 0 {
      var i := PickClosest(tastePos[..], v);
      if i != -1 {
        var t := tastePos[i];
        var projMag := DotProduct(t, v);
        var updated := Normalize(sqrt, PushAway(t, v, knobs.beta, projMag));
        assert i == Closest(pos, v) && t == pos[i] && projMag == CosineNorm(pos[i], v);
        assert expected == pos[i := updated];
        tastePos[i] := updated;
        assert tastePos[..] == expected;
      }
    } else {
      assert expected == pos;
    }
    r := TasteVectors(tastePos[..], Some(nextNeg));
  }
}
