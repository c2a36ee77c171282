/** Personalised ranking of YouTube search results (`rankYouTubeResults`). */
module Ranking {
  import opened Wrappers
  import opened Vectors
  import opened Results
  import opened Batching
  import opened Freshness
  import opened TextHelpers
  import opened Taste
  import opened ScoreSort

  /** The scoring knobs: query weight λ, negative weight μ, the score
      threshold, the result cap TOP_N and the embedding batch size. */
  datatype ScoreKnobs = ScoreKnobs(lambda: real, mu: real, threshold: real, topN: int, batchSize: int)

  /** The defaults `LAMBDA_QUERY`, `MU_NEGATIVE`, `SCORE_THRESHOLD`, `TOP_N`
      and `EMBED_BATCH_SIZE`. */
  const DefaultScoreKnobs := ScoreKnobs(0.60, 0.30, 0.4, 5, 64)

  /** What the ranking depends on besides its arguments: the square root,
      the embedding model (one vector per text), `Date.parse` and the time
      `Date.now()` reads. */
  datatype Env = Env(sqrt: real -> real, embed: string -> Vec, parse: string -> Option<int>, now: int)

  /** Every text embeds to a vector of dimension `dim`. */
  ghost predicate EmbedsTo(embed: string -> Vec, dim: nat) {
    forall s :: |embed(s)| == dim
  }

  /** The model of one `embedTexts` call: one vector per input, in order. */
  function EmbedBatch(embed: string -> Vec, texts: seq<string>): (r: seq<Vec>)
    ensures |r| == |texts|
    ensures forall k :: 0 <= k < |texts| ==> r[k] == embed(texts[k])
  {
    seq(|texts|, k requires 0 <= k < |texts| => embed(texts[k]))
  }

  /** The normalised embedding of one text. */
  function NormalEmbedding(env: Env, text: string): Vec {
    Normalize(env.sqrt, env.embed(text))
  }

  /** The normalised embedding a candidate is scored with. */
  function CandidateVec(env: Env, cand: FilteredResult): Vec {
    NormalEmbedding(env, YoutubeResultToText(cand))
  }

  /** `λ·sQuery + (1-λ)·sPos − μ·sNeg + sFresh`. */
  function Blend(k: ScoreKnobs, sQuery: real, sPos: real, sNeg: real, sFresh: real): real {
    k.lambda * sQuery + (1.0 - k.lambda) * sPos - k.mu * sNeg + sFresh
  }

  /** The score of one candidate against the normalised query vector `q` and
      the normalised taste model `taste`. */
  function CandidateScore(env: Env, k: ScoreKnobs, q: Vec, taste: TasteVectors, cand: FilteredResult): real
    requires EmbedsTo(env.embed, |q|) && HasDim(taste, |q|)
  {
    var v := CandidateVec(env, cand);
    var sQuery := CosineNorm(q, v);
    var sPos := BestSim(taste.tastePos, v, sQuery);
    var sNeg := if taste.tasteNeg.Some? then CosineNorm(taste.tasteNeg.value, v) else 0.0;
    var sFresh := FreshnessBonus(env.parse, env.now, cand.publishedAt);
    Blend(k, sQuery, sPos, sNeg, sFresh)
  }

  /** The candidates that reach the threshold, with their scores, in input
      order: what the scoring loop pushes into `scored`. */
  function Scored(env: Env, k: ScoreKnobs, q: Vec, taste: TasteVectors, cands: seq<FilteredResult>): seq<RankedResult>
    requires EmbedsTo(env.embed, |q|) && HasDim(taste, |q|)
    decreases |cands|
  {
    if |cands| == 0 then []
    else
      var last := cands[|cands| - 1];
      var s := CandidateScore(env, k, q, taste, last);
      Scored(env, k, q, taste, cands[..|cands| - 1]) + (if s >= k.threshold then [RankedResult(last, s)] else [])
  }

  /** What `rankYouTubeResults` returns. */
  function RankSpec(env: Env, k: ScoreKnobs, dim: nat, queryText: string, candidates: seq<FilteredResult>, taste: TasteVectors): seq<RankedResult>
    requires EmbedsTo(env.embed, dim) && HasDim(taste, dim)
  {
    var q := Normalize(env.sqrt, env.embed(queryText));
    JsSlice(SortByScore(Scored(env, k, q, Renormalized(env.sqrt, taste), candidates)), k.topN)
  }

  /** Batch j of a cut of `texts` sits in `texts` right after the batches
      before it. */
  lemma {:induction false} BatchInPlace(texts: seq<string>, parts: seq<seq<string>>, j: nat, offset: nat)
    requires Flatten(parts) == texts && j < |parts|
    requires offset <= |texts| && Flatten(parts[..j]) == texts[..offset]
    ensures offset + |parts[j]| <= |texts|
    ensures Flatten(parts[..j + 1]) == texts[..offset + |parts[j]|]
    ensures forall i :: 0 <= i < |parts[j]| ==> texts[offset + i] == parts[j][i]
  {
    FlattenStep(parts, j);
    FlattenPrefix(parts, j + 1);
    var part := parts[j];
    assert texts[..offset] + part <= texts;
    forall i | 0 <= i < |part| ensures texts[offset + i] == part[i] {
      assert (texts[..offset] + part)[offset + i] == part[i];
    }
  }

  /** The inner loop of the embedding step: the normalised vectors of one
      batch are written from `offset` on, and nothing else changes. */
  method StoreBatch(env: Env, candVecs: array<Vec>, offset: nat, batch: seq<Vec>)
    requires offset + |batch| <= candVecs.Length
    modifies candVecs
    ensures forall m :: 0 <= m < candVecs.Length ==>
              candVecs[m] == if offset <= m < offset + |batch| then Normalize(env.sqrt, batch[m - offset]) else old(candVecs[m])
  {
    for i := 0 to |batch|
      invariant forall m :: 0 <= m < candVecs.Length ==>
                  candVecs[m] == if offset <= m < offset + i then Normalize(env.sqrt, batch[m - offset]) else old(candVecs[m])
    {
      candVecs[offset + i] := Normalize(env.sqrt, batch[i]);
    }
  }

  /** The batched embedding loop of `rankYouTubeResults`: the texts are cut
      into batches, each batch is embedded, and its normalised vectors are
      written into `candVecs` from `offset` on. However the texts are cut,
      entry i is the normalised embedding of text i. */
  method EmbedCandidates(env: Env, batchSize: int, texts: seq<string>) returns (vecs: seq<Vec>)
    requires batchSize > 0 || |texts| == 0
    ensures |vecs| == |texts|
    ensures forall i :: 0 <= i < |texts| ==> vecs[i] == Normalize(env.sqrt, env.embed(texts[i]))
  {
    var candVecs := new Vec[|texts|];
    var parts := Chunk(texts, batchSize);
    var offset: nat := 0;
    for j := 0 to |parts|
      invariant offset <= |texts|
      invariant Flatten(parts[..j]) == texts[..offset]
      invariant forall m :: 0 <= m < offset ==> candVecs[m] == NormalEmbedding(env, texts[m])
    {
      var part := parts[j];
      BatchInPlace(texts, parts, j, offset);
      var batch := EmbedBatch(env.embed, part);
      StoreBatch(env, candVecs, offset, batch);
      forall m | 0 <= m < offset + |part| ensures candVecs[m] == NormalEmbedding(env, texts[m]) {
        if offset <= m {
          assert texts[m] == part[m - offset];
        }
      }
      offset := offset + |part|;
    }
    assert parts[..|parts|] == parts;
    assert texts[..offset] == texts;
    vecs := candVecs[..];
    assert forall i :: 0 <= i < |texts| ==> vecs[i] == NormalEmbedding(env, texts[i]);
  }

  /** The body of the scoring loop for one candidate whose normalised
      embedding is `v`: its score, with the freshness bonus looked up only
      when there is a publication date. */
  method ScoreOne(env: Env, k: ScoreKnobs, q: Vec, taste: TasteVectors, cand: FilteredResult, v: Vec)
    returns (score: real)
    requires EmbedsTo(env.embed, |q|) && HasDim(taste, |q|)
    requires v == CandidateVec(env, cand)
    ensures score == CandidateScore(env, k, q, taste, cand)
  {
    var sQuery := DotProduct(q, v);
    var sPos := BestPositiveSim(taste.tastePos, v, sQuery);
    var sNeg := 0.0;
    if taste.tasteNeg.Some? {
      sNeg := DotProduct(taste.tasteNeg.value, v);
    }
    var sFresh := 0.0;
    if cand.publishedAt.Some? && cand.publishedAt.value != "" {
      sFresh := FreshnessBonus(env.parse, env.now, cand.publishedAt);
    }
    score := Blend(k, sQuery, sPos, sNeg, sFresh);
  }

  /** One more candidate adds its entry to `Scored` when it passes. */
  lemma {:induction false} ScoredStep(env: Env, k: ScoreKnobs, q: Vec, taste: TasteVectors, cands: seq<FilteredResult>, i: nat)
    requires EmbedsTo(env.embed, |q|) && HasDim(taste, |q|)
    requires i < |cands|
    ensures var s := CandidateScore(env, k, q, taste, cands[i]);
            Scored(env, k, q, taste, cands[..i + 1])
            == Scored(env, k, q, taste, cands[..i]) + (if s >= k.threshold then [RankedResult(cands[i], s)] else [])
  {
    assert cands[..i + 1][..i] == cands[..i];
  }

  /** The scoring loop of `rankYouTubeResults`: every candidate whose score
      reaches the threshold is pushed, in input order. */
  method ScoreCandidates(env: Env, k: ScoreKnobs, q: Vec, taste: TasteVectors, candidates: seq<FilteredResult>, candVecs: seq<Vec>)
    returns (scored: seq<RankedResult>)
    requires EmbedsTo(env.embed, |q|) && HasDim(taste, |q|)
    requires |candVecs| == |candidates|
    requires forall i :: 0 <= i < |candidates| ==> candVecs[i] == CandidateVec(env, candidates[i])
    ensures scored == Scored(env, k, q, taste, candidates)
  {
    scored := [];
    for i := 0 to |candidates|
      invariant scored == Scored(env, k, q, taste, candidates[..i])
    {
      var cand := candidates[i];
      var score := ScoreOne(env, k, q, taste, cand, candVecs[i]);
      ScoredStep(env, k, q, taste, candidates, i);
      if score >= k.threshold {
        scored := scored + [RankedResult(cand, score)];
      }
    }
    assert candidates[..|candidates|] == candidates;
  }

  /** `rankYouTubeResults`. */
  method RankYouTubeResults(env: Env, k: ScoreKnobs, ghost dim: nat, queryText: string, candidates: seq<FilteredResult>, taste: TasteVectors)
    returns (ranked: seq<RankedResult>)
    requires EmbedsTo(env.embed, dim) && HasDim(taste, dim)
    requires k.batchSize > 0 || |candidates| == 0
    ensures ranked == RankSpec(env, k, dim, queryText, candidates, taste)
  {
    var qRaw := EmbedBatch(env.embed, [queryText])[0];
    var q := Normalize(env.sqrt, qRaw);
    var texts := seq(|candidates|, i requires 0 <= i < |candidates| => YoutubeResultToText(candidates[i]));
    var candVecs := EmbedCandidates(env, k.batchSize, texts);
    var tastePos := NormalizeAll(env.sqrt, taste.tastePos);
    var tasteNeg := if taste.tasteNeg.Some? then Some(Normalize(env.sqrt, taste.tasteNeg.value)) else None;
    var norm := TasteVectors(tastePos, tasteNeg);
    assert norm == Renormalized(env.sqrt, taste);
    var scored := ScoreCandidates(env, k, q, norm, candidates, candVecs);
    var sorted := SortByScore(scored);
    ranked := JsSlice(sorted, k.topN);
  }
}
