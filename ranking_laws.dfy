/** What the ranking promises its caller. */
module RankingLaws {
  import opened Wrappers
  import opened Vectors
  import opened Results
  import opened Freshness
  import opened Taste
  import opened ScoreSort
  import opened Ranking

  /** The scoring loop never pushes more entries than there are
      candidates. */
  lemma {:induction false} ScoredLength(env: Env, k: ScoreKnobs, q: Vec, taste: TasteVectors, cands: seq<FilteredResult>)
    requires EmbedsTo(env.embed, |q|) && HasDim(taste, |q|)
    ensures |Scored(env, k, q, taste, cands)| <= |cands|
    decreases |cands|
  {
    if |cands| > 0 {
      ScoredLength(env, k, q, taste, cands[..|cands| - 1]);
    }
  }

  /** Every pushed entry is a candidate with its own score, which reaches the
      threshold. */
  lemma {:induction false} ScoredSound(env: Env, k: ScoreKnobs, q: Vec, taste: TasteVectors, cands: seq<FilteredResult>)
    requires EmbedsTo(env.embed, |q|) && HasDim(taste, |q|)
    ensures forall e :: e in Scored(env, k, q, taste, cands) ==>
              e.candidate in cands && e.score == CandidateScore(env, k, q, taste, e.candidate) && e.score >= k.threshold
    decreases |cands|
  {
    if |cands| > 0 {
      var pre := cands[..|cands| - 1];
      var last := cands[|cands| - 1];
      ScoredSound(env, k, q, taste, pre);
      var s := CandidateScore(env, k, q, taste, last);
      var tail := if s >= k.threshold then [RankedResult(last, s)] else [];
      assert Scored(env, k, q, taste, cands) == Scored(env, k, q, taste, pre) + tail;
      forall e | e in Scored(env, k, q, taste, cands)
        ensures e.candidate in cands && e.score == CandidateScore(env, k, q, taste, e.candidate) && e.score >= k.threshold
      {
        if e in Scored(env, k, q, taste, pre) {
          var m :| 0 <= m < |pre| && pre[m] == e.candidate;
          assert cands[m] == e.candidate;
        }
      }
    }
  }

  /** Anything in a sequence other than its last element is in the front
      part. */
  lemma {:induction false} InFront<T>(s: seq<T>, x: T)
    requires x in s && x != s[|s| - 1]
    ensures x in s[..|s| - 1]
  {
    var m :| 0 <= m < |s| && s[m] == x;
    assert s[..|s| - 1][m] == x;
  }

  /** Every candidate that reaches the threshold is pushed, with its
      score. */
  lemma {:induction false} ScoredComplete(env: Env, k: ScoreKnobs, q: Vec, taste: TasteVectors, cands: seq<FilteredResult>, c: FilteredResult)
    requires EmbedsTo(env.embed, |q|) && HasDim(taste, |q|)
    requires c in cands && CandidateScore(env, k, q, taste, c) >= k.threshold
    ensures RankedResult(c, CandidateScore(env, k, q, taste, c)) in Scored(env, k, q, taste, cands)
    decreases |cands|
  {
    var pre := cands[..|cands| - 1];
    var last := cands[|cands| - 1];
    var s := CandidateScore(env, k, q, taste, last);
    var tail := if s >= k.threshold then [RankedResult(last, s)] else [];
    assert Scored(env, k, q, taste, cands) == Scored(env, k, q, taste, pre) + tail;
    if c != last {
      InFront(cands, c);
      ScoredComplete(env, k, q, taste, pre, c);
    }
  }

  lemma {:induction false} PrefixMembers(r: seq<RankedResult>, s: seq<RankedResult>)
    requires r <= s
    ensures forall e :: e in r ==> e in s
  {
    forall e | e in r ensures e in s {
      var m :| 0 <= m < |r| && r[m] == e;
      assert s[m] == e;
    }
  }

  lemma {:induction false} SameMembers(a: seq<RankedResult>, b: seq<RankedResult>)
    requires multiset(a) == multiset(b)
    ensures forall e :: e in a ==> e in b
  {
    forall e | e in a ensures e in b {
      assert e in multiset(a);
    }
  }

  /** Every returned entry is one of the candidates with its own score, which
      reaches the threshold; the entries come by non-increasing score; there
      are no more of them than candidates, nor than TOP_N. */
  lemma {:induction false} RankFacts(env: Env, k: ScoreKnobs, dim: nat, queryText: string, candidates: seq<FilteredResult>, taste: TasteVectors)
    requires EmbedsTo(env.embed, dim) && HasDim(taste, dim)
    ensures var r := RankSpec(env, k, dim, queryText, candidates, taste);
            var q := Normalize(env.sqrt, env.embed(queryText));
            var t := Renormalized(env.sqrt, taste);
            SortedDesc(r)
            && |r| <= |candidates|
            && (k.topN >= 0 ==> |r| <= k.topN)
            && (forall e :: e in r ==>
                  e.candidate in candidates && e.score == CandidateScore(env, k, q, t, e.candidate) && e.score >= k.threshold)
  {
    var q := Normalize(env.sqrt, env.embed(queryText));
    var t := Renormalized(env.sqrt, taste);
    var scored := Scored(env, k, q, t, candidates);
    var all := SortByScore(scored);
    var r := JsSlice(all, k.topN);
    ScoredLength(env, k, q, t, candidates);
    ScoredSound(env, k, q, t, candidates);
    SortSorted(scored);
    PrefixMembers(r, all);
    SameMembers(all, scored);
  }

  /** The result holds the best of the passing candidates: it is a prefix of
      all of them sorted, everything left out scores no higher than
      everything returned, and with a cap of at least their number every
      passing candidate is returned. */
  lemma {:induction false} RankIsTopN(env: Env, k: ScoreKnobs, dim: nat, queryText: string, candidates: seq<FilteredResult>, taste: TasteVectors)
    requires EmbedsTo(env.embed, dim) && HasDim(taste, dim)
    ensures var r := RankSpec(env, k, dim, queryText, candidates, taste);
            var q := Normalize(env.sqrt, env.embed(queryText));
            var scored := Scored(env, k, q, Renormalized(env.sqrt, taste), candidates);
            var all := SortByScore(scored);
            multiset(all) == multiset(scored)
            && r == all[..|r|]
            && (forall i, j :: 0 <= i < |r| <= j < |all| ==> all[j].score <= all[i].score)
            && (k.topN >= |scored| ==> multiset(r) == multiset(scored))
  {
    var q := Normalize(env.sqrt, env.embed(queryText));
    var scored := Scored(env, k, q, Renormalized(env.sqrt, taste), candidates);
    var all := SortByScore(scored);
    SortSorted(scored);
    var r := JsSlice(all, k.topN);
    if k.topN >= |scored| {
      assert r == all;
    }
  }

  /** Ties keep their input order: for every score, the returned entries
      with that score are the first ones with that score among the passing
      candidates, in input order. */
  lemma {:induction false} RankStable(env: Env, k: ScoreKnobs, dim: nat, queryText: string, candidates: seq<FilteredResult>, taste: TasteVectors, x: real)
    requires EmbedsTo(env.embed, dim) && HasDim(taste, dim)
    ensures var q := Normalize(env.sqrt, env.embed(queryText));
            var scored := Scored(env, k, q, Renormalized(env.sqrt, taste), candidates);
            WithScore(RankSpec(env, k, dim, queryText, candidates, taste), x) <= WithScore(scored, x)
  {
    var q := Normalize(env.sqrt, env.embed(queryText));
    var scored := Scored(env, k, q, Renormalized(env.sqrt, taste), candidates);
    var all := SortByScore(scored);
    var r := JsSlice(all, k.topN);
    SortStable(scored, x);
    WithScorePrefix(all, |r|, x);
    assert all[..|r|] == r;
  }

  /** When the taste term equals the query term the weights λ and 1 - λ
      add up to one, whatever λ is. */
  lemma {:induction false} BlendSameTerms(k: ScoreKnobs, s: real, n: real, f: real)
    ensures Blend(k, s, s, n, f) == s - k.mu * n + f
  {
  }

  /** With 0 <= λ <= 1 and μ >= 0 the blended score rises with the query,
      taste and freshness terms and falls with the negative term. */
  lemma {:induction false} BlendMonotone(k: ScoreKnobs, q1: real, p1: real, n1: real, f1: real,
                                         q2: real, p2: real, n2: real, f2: real)
    requires 0.0 <= k.lambda <= 1.0 && k.mu >= 0.0
    requires q1 <= q2 && p1 <= p2 && n2 <= n1 && f1 <= f2
    ensures Blend(k, q1, p1, n1, f1) <= Blend(k, q2, p2, n2, f2)
  {
    var w := 1.0 - k.lambda;
    WeightLess(k.lambda, q1, q2);
    WeightLess(w, p1, p2);
    WeightLess(k.mu, n2, n1);
    SumLess(k.lambda * q1, w * p1, k.mu * n1, f1, k.lambda * q2, w * p2, k.mu * n2, f2);
  }

  lemma {:induction false} SumLess(a1: real, b1: real, c1: real, d1: real, a2: real, b2: real, c2: real, d2: real)
    requires a1 <= a2 && b1 <= b2 && c2 <= c1 && d1 <= d2
    ensures a1 + b1 - c1 + d1 <= a2 + b2 - c2 + d2
  {
  }

  lemma {:induction false} WeightLess(c: real, x: real, y: real)
    requires c >= 0.0 && x <= y
    ensures c * x <= c * y
  {
  }

  /** Without positive clusters the taste term falls back to the query
      cosine; without a negative centroid the negative term is zero. */
  lemma {:induction false} ScoreWithoutTaste(env: Env, k: ScoreKnobs, q: Vec, taste: TasteVectors, cand: FilteredResult)
    requires EmbedsTo(env.embed, |q|) && HasDim(taste, |q|)
    ensures var v := CandidateVec(env, cand);
            var sQuery := CosineNorm(q, v);
            var sNeg := if taste.tasteNeg.Some? then CosineNorm(taste.tasteNeg.value, v) else 0.0;
            var sFresh := FreshnessBonus(env.parse, env.now, cand.publishedAt);
            |taste.tastePos| == 0 ==>
              CandidateScore(env, k, q, taste, cand) == Blend(k, sQuery, sQuery, sNeg, sFresh)
    ensures var v := CandidateVec(env, cand);
            var sQuery := CosineNorm(q, v);
            var sFresh := FreshnessBonus(env.parse, env.now, cand.publishedAt);
            taste.tasteNeg.None? ==>
              CandidateScore(env, k, q, taste, cand) == Blend(k, sQuery, BestSim(taste.tastePos, v, sQuery), 0.0, sFresh)
  {
  }

  /** With an empty taste model the score is the cosine with the query plus
      the freshness bonus, whatever λ is; with the default knobs a candidate
      without a publication date at cosine 0.8 scores 0.8 and is kept. */
  lemma {:induction false} ScoreWithEmptyTaste(env: Env, k: ScoreKnobs, q: Vec, cand: FilteredResult)
    requires EmbedsTo(env.embed, |q|)
    ensures CandidateScore(env, k, q, TasteVectors([], None), cand)
            == CosineNorm(q, CandidateVec(env, cand)) + FreshnessBonus(env.parse, env.now, cand.publishedAt)
    ensures cand.publishedAt.None? && CosineNorm(q, CandidateVec(env, cand)) == 0.8
            ==> CandidateScore(env, DefaultScoreKnobs, q, TasteVectors([], None), cand) >= DefaultScoreKnobs.threshold
  {
    var taste := TasteVectors([], None);
    var v := CandidateVec(env, cand);
    var sQuery := CosineNorm(q, v);
    var sFresh := FreshnessBonus(env.parse, env.now, cand.publishedAt);
    assert CandidateScore(env, k, q, taste, cand) == Blend(k, sQuery, sQuery, 0.0, sFresh);
    BlendSameTerms(k, sQuery, 0.0, sFresh);
    assert CandidateScore(env, DefaultScoreKnobs, q, taste, cand) == Blend(DefaultScoreKnobs, sQuery, sQuery, 0.0, sFresh);
    BlendSameTerms(DefaultScoreKnobs, sQuery, 0.0, sFresh);
  }
}
