# Personalised ranking and taste adaptation, modelled in Dafny

This project models two parts of the `mymusic` services:

- **The ranking and taste engine of the `tei-manager` service** (`src/tei-manager/src/utils/teiMath.ts`).
  - It scores YouTube search results against a query embedding and a per-user taste model.
  - It keeps the results that reach a threshold, sorts them by score and returns the first `TOP_N`.
  - On a like or dislike it moves the taste model: an EMA step on the closest positive cluster, an EMA step on the negative centroid, and a push of the closest cluster away from a disliked item.
- **The scheduler filter of the `youtube` service** (`src/youtube/src/utils/filter.ts`). It picks out the saved queries whose next run is due.

How JavaScript's behaviour is modelled:

- **Numbers** are `real`.
- **`Math.sqrt`** is a parameter `sqrt`. The lemmas that need its two defining facts assume them through `Vectors.IsSqrt`.
- **The embedding service** (`embedTexts`, an HTTP call) is a function `embed` from text to vector, applied per text.
- **`Date.parse`** is a function from string to `Option<int>` milliseconds, where `None` stands for `NaN`.
- **`Date.now()` and `new Date()`** are an integer `now`.
- **The configuration read from the environment** is two knob records:
  - `Ranking.ScoreKnobs` holds λ, μ, the threshold, `TOP_N` and the batch size. Its defaults are in `DefaultScoreKnobs`.
  - `Taste.UpdateKnobs` holds α, γ and β. Its defaults are in `DefaultUpdateKnobs`.

How the code is modelled:

- The loops of the source are methods with loop invariants.
  - These methods are proved equal to a specification function: `dot`, `bestPositiveSim`, `pickClosest`, the scoring loop of `rankYouTubeResults`, the in-place overwrite of `updateTaste` and the `for … continue` loop of `getRelevantQueries`.
  - These methods are proved against the properties they promise: `chunk` (the chunks concatenate back to the input and have the batch size) and the embedding loop of `rankYouTubeResults` (entry i is the normalised embedding of text i).
- The properties the code promises are lemmas about the specification functions.
- `Array.prototype.sort` is modelled as a stable insertion sort (`ScoreSort.SortByScore`). `slice(0, n)` is modelled as `ScoreSort.JsSlice`, including its meaning for a negative `n`.

Modules:

- `wrappers.dfy`: `Option` and `Result`.
- `arith.dfy`: `Math.min` and `Math.max`.
- `vectors.dfy`: the vector primitives.
- `results.dfy`: the record shapes.
- `batching.dfy`: `chunk`.
- `freshness.dfy`: `freshnessBonus`.
- `text.dfy`: the three text helpers, `String.prototype.trim`, `filter(Boolean)` and `join`.
- `taste.dfy`: `pickClosest`, `bestPositiveSim` and `updateTaste`.
- `taste_laws.dfy`: the laws of the update.
- `sorting.dfy`: the sort and the slice.
- `ranking.dfy`: `rankYouTubeResults` and its specification.
- `ranking_laws.dfy`: what the ranking promises.
- `feedback.dfy`: `updateTasteUsingQuery`.
- `query_filter.dfy`: `getRelevantQueries`.

Behaviour of the code that the model keeps as written:

- **Candidate text.** The ranking text is always the literal `YouTube | <channelTitle> | <title> | <description>`, trimmed, whatever the platform.
- **Unknown actions.** No error is raised for an unknown action: every action other than `"like"` takes the dislike branch.
- **Feedback text.** The generic text is never empty, so the only text failure on the feedback path is an item whose own `text` is the empty string (`Feedback.DeriveText`).
- **Cached embeddings.** The feedback path uses an embedding already stored on the item when there is one, and then does not call the embedder.
- **Dimension mismatches.** The code performs no dimension check. Here every operation requires matching dimensions.

## Model

| member | source | states |
|---|---|---|
| Vectors.DotProduct | src/tei-manager/src/utils/teiMath.ts:43-47 | the accumulating loop returns the sum of the products of corresponding entries (`Dot`) |
| Vectors.DotSymmetric | src/tei-manager/src/utils/teiMath.ts:43-47 | the dot product does not depend on the order of its arguments |
| Vectors.DotSelfZero | src/tei-manager/src/utils/teiMath.ts:48-54 | the squared norm is zero exactly for the all-zero vector, the case `normalize` maps to zeros |
| Vectors.L2 | src/tei-manager/src/utils/teiMath.ts:48-50 | defined here as `sqrt(Dot(a, a))`; facts in `Vectors.L2Root` |
| Vectors.L2Root | src/tei-manager/src/utils/teiMath.ts:48-50 | under the square-root facts the norm is the non-negative number whose square is the squared length, and it is zero exactly for the all-zero vector |
| Vectors.NormPositive | src/tei-manager/src/utils/teiMath.ts:48-50 | a vector with a non-zero entry has a positive L2 norm whose square is its squared length |
| Vectors.Normalize | src/tei-manager/src/utils/teiMath.ts:52-57 | the result has the input's length, and a zero norm gives the zero vector of that length |
| Vectors.NormalizeUnitOrZero | src/tei-manager/src/utils/teiMath.ts:52-57 | the normalised vector has unit squared length for a non-zero input, and is all-zero exactly when the input is |
| Vectors.NormalizeKeepsDirection | src/tei-manager/src/utils/teiMath.ts:54-56 | a non-zero vector is only rescaled, by a positive factor, so its direction is kept |
| Vectors.NormalizeIdempotent | src/tei-manager/src/utils/teiMath.ts:52-57 | normalising a unit or all-zero vector returns it unchanged |
| Vectors.NormalizeTwice | src/tei-manager/src/utils/teiMath.ts:52-57 | normalising twice is the same as normalising once |
| Vectors.CosineNorm | src/tei-manager/src/utils/teiMath.ts:59-62 | defined here as the dot product; facts in `Vectors.CosineBounded` |
| Vectors.CosineBounded | src/tei-manager/src/utils/teiMath.ts:59-62 | the cosine of two unit vectors lies in [-1, 1] (Cauchy-Schwarz) |
| Vectors.DotScale | src/tei-manager/src/utils/teiMath.ts:55-56 | scaling a vector by a constant scales its dot products by that constant |
| Vectors.DotCombine | src/tei-manager/src/utils/teiMath.ts:248-250 | the dot product of a linear combination is the combination of the dot products |
| Freshness.AgeBonus | src/tei-manager/src/utils/teiMath.ts:69-71 | the bonus lies in [0, 0.05]: the full bonus at age 0 or less, nothing from 14 days on |
| Freshness.FreshnessBonus | src/tei-manager/src/utils/teiMath.ts:64-72 | no bonus for an absent, empty or unparsable date; otherwise the age-decayed bonus of the parsed date, within [0, 0.05] |
| Freshness.AgeBonusMonotone | src/tei-manager/src/utils/teiMath.ts:70-71 | an older item never gets a larger age bonus |
| Freshness.FreshnessMonotone | src/tei-manager/src/utils/teiMath.ts:66-71 | of two parsable dates, the earlier never gets a larger bonus |
| Freshness.FreshnessExpires | src/tei-manager/src/utils/teiMath.ts:68-71 | an item published 14 days or more before `now` gets no bonus |
| Batching.Chunk | src/tei-manager/src/utils/teiMath.ts:74-78 | the chunks concatenate back to the input, each is non-empty and at most `size` long, and all but the last are exactly `size` long |
| Taste.BestPositiveSim | src/tei-manager/src/utils/teiMath.ts:80-92 | without clusters the fallback; otherwise a cosine attained by some cluster that bounds every cluster's cosine, equal to the cosine at `Closest` |
| Taste.BestSimIsClosest | src/tei-manager/src/utils/teiMath.ts:80-92 | the best similarity is the fallback for no clusters and the cosine of the closest cluster otherwise |
| TextHelpers.TrimEnd | src/tei-manager/src/utils/teiMath.ts:128 | the result is a prefix of the input that does not end in white space, with only white space cut off |
| TextHelpers.TrimStart | src/tei-manager/src/utils/teiMath.ts:128 | the result is a suffix of the input that does not start with white space, with only white space cut off |
| TextHelpers.Trim | src/tei-manager/src/utils/teiMath.ts:128 | the result is no longer than the input and neither starts nor ends with white space |
| TextHelpers.TrimIsSlice | src/tei-manager/src/utils/teiMath.ts:128 | the trimmed text is a contiguous slice of the input with only white space before and after it |
| TextHelpers.TrimmedTemplate | src/tei-manager/src/utils/teiMath.ts:128 | the trimmed template keeps its `YouTube \|` head, is a prefix of the template, ends in a non-space character, and everything cut off is white space |
| TextHelpers.YoutubeResultToText | src/tei-manager/src/utils/teiMath.ts:124-129 | the text starts with `YouTube \|`, is a prefix of the full `YouTube \| channel \| title \| description` template, ends in a non-space character, and all that is cut off is white space: exactly the trailing white space is removed |
| TextHelpers.YoutubeResultToTextSafe | src/tei-manager/src/utils/teiMath.ts:131-141 | no text exactly when title, channel and video id are all empty; otherwise the `YouTube \| channel \| title` template with exactly its trailing white space removed |
| TextHelpers.NonEmpty | src/tei-manager/src/utils/teiMath.ts:147 | a string is kept exactly when it is one of the parts and not empty; no more are kept than given, and a non-empty first part is kept first |
| TextHelpers.NonEmptyAppend | src/tei-manager/src/utils/teiMath.ts:147 | filtering distributes over concatenation, so the kept parts stay in input order |
| TextHelpers.Join | src/tei-manager/src/utils/teiMath.ts:147 | a single part joins to itself, the first part starts the joined text, and the text is empty exactly when every part is empty and no separator is written |
| TextHelpers.JoinSnoc | src/tei-manager/src/utils/teiMath.ts:147 | appending a part to a non-empty list adds one separator and then the part, so the separator stands exactly between neighbours |
| TextHelpers.GenericTextFromResult | src/tei-manager/src/utils/teiMath.ts:143-149 | a text is always produced, never empty, and it starts with the platform or `Item` |
| TextHelpers.GenericTextParts | src/tei-manager/src/utils/teiMath.ts:144-148 | the generic text is exactly the platform (or `Item`), then ` \| channel` when the channel is not empty, then ` \| title` when the title is not empty |
| Ranking.EmbedBatch | src/tei-manager/src/utils/teiMath.ts:96-114 | one embedding per input text, in input order, each the embedding of its own text |
| Ranking.StoreBatch | src/tei-manager/src/utils/teiMath.ts:172-174 | the slots from `offset` on receive the normalised vectors of the batch, in order; every other slot keeps its value |
| Ranking.EmbedCandidates | src/tei-manager/src/utils/teiMath.ts:166-176 | however the texts are cut into batches, entry i is the normalised embedding of text i |
| Ranking.ScoreOne | src/tei-manager/src/utils/teiMath.ts:183-198 | one loop step computes the candidate's blended score (`CandidateScore`), also when the bonus is skipped for a missing or empty date |
| Ranking.ScoreCandidates | src/tei-manager/src/utils/teiMath.ts:181-203 | the loop pushes exactly the candidates whose blended score reaches the threshold, in input order, with their scores (`Scored`) |
| Ranking.RankYouTubeResults | src/tei-manager/src/utils/teiMath.ts:153-207 | the result is the passing candidates, scored against the normalised query and taste model, stably sorted by descending score and cut to `TOP_N` (`RankSpec`) |
| RankingLaws.ScoredLength | src/tei-manager/src/utils/teiMath.ts:181-203 | the scoring loop pushes at most one entry per candidate |
| RankingLaws.ScoredSound | src/tei-manager/src/utils/teiMath.ts:194-202 | every pushed entry is a candidate with its own score, and that score is at least the threshold |
| RankingLaws.ScoredComplete | src/tei-manager/src/utils/teiMath.ts:200-202 | every candidate whose score is at least the threshold is pushed with that score (the threshold is inclusive) |
| RankingLaws.RankFacts | src/tei-manager/src/utils/teiMath.ts:200-206 | the result is sorted by non-increasing score, has at most as many entries as there are candidates, and at most `TOP_N`; every entry is a passing candidate with its own score |
| RankingLaws.RankIsTopN | src/tei-manager/src/utils/teiMath.ts:205-206 | the result is a prefix of a permutation of the passing entries, nothing left out outscores anything returned, and with `TOP_N` at least their number every passing entry is returned |
| RankingLaws.RankStable | src/tei-manager/src/utils/teiMath.ts:205-206 | for each score, the returned entries with that score are the first of them in input order |
| RankingLaws.ScoreWithoutTaste | src/tei-manager/src/utils/teiMath.ts:186-198 | without positive clusters the taste term falls back to the query cosine; without a negative centroid the negative term vanishes |
| Ranking.Blend | src/tei-manager/src/utils/teiMath.ts:194-198 | defined here as the score expression; facts in `RankingLaws.BlendMonotone` and `RankingLaws.BlendSameTerms` |
| RankingLaws.BlendMonotone | src/tei-manager/src/utils/teiMath.ts:194-198 | with 0 <= λ <= 1 and μ >= 0 the blended score rises with the query, taste and freshness terms and falls with the negative term |
| RankingLaws.BlendSameTerms | src/tei-manager/src/utils/teiMath.ts:194-198 | when the taste term equals the query term, the λ and 1 - λ weights add up to one for any λ |
| RankingLaws.ScoreWithEmptyTaste | src/tei-manager/src/utils/teiMath.ts:186-200 | with an empty taste model the score is the query cosine plus the bonus; a cosine of 0.8 without a date passes the default threshold |
| ScoreSort.SortByScore | src/tei-manager/src/utils/teiMath.ts:205 | the sorted list has the same length and the same entries, counted with multiplicity |
| ScoreSort.SortSorted | src/tei-manager/src/utils/teiMath.ts:205 | the sort orders by non-increasing score |
| ScoreSort.SortStable | src/tei-manager/src/utils/teiMath.ts:205 | the sort is stable: for every score, the entries with it keep their order |
| ScoreSort.JsSlice | src/tei-manager/src/utils/teiMath.ts:206 | `slice(0, n)` is a prefix of length `min(n, len)` for `n >= 0` and `max(0, len + n)` otherwise |
| Taste.ClosestIsFirstMax | src/tei-manager/src/utils/teiMath.ts:211-223 | the closest index has the largest cosine, strictly larger than that of every earlier cluster |
| Taste.FirstMaxUnique | src/tei-manager/src/utils/teiMath.ts:215-221 | at most one index is the first maximum, so the choice is determined |
| Taste.PickClosest | src/tei-manager/src/utils/teiMath.ts:211-223 | -1 exactly for no clusters; otherwise the first index of largest cosine (`Closest`) |
| Taste.Renormalized | src/tei-manager/src/utils/teiMath.ts:236-240 | renormalising keeps every vector of the model at the dimension it had |
| Taste.UpdateTaste | src/tei-manager/src/utils/teiMath.ts:231-279 | the in-place update of a fresh copy returns exactly `UpdateTasteSpec`: like and dislike branches as written |
| TasteLaws.RenormalizedIsNormalized | src/tei-manager/src/utils/teiMath.ts:236-240 | after renormalisation every stored vector is unit length or all-zero |
| TasteLaws.RenormalizedStable | src/tei-manager/src/utils/teiMath.ts:236-240 | a model that is already normalised is read back unchanged |
| TasteLaws.UpdatePreservesNormalized | src/tei-manager/src/utils/teiMath.ts:231-279 | the updated model is normalised and of the embedding's dimension, for either action |
| TasteLaws.LikeWithoutClusters | src/tei-manager/src/utils/teiMath.ts:242-244 | a like on no clusters creates exactly one, the normalised embedding, and keeps the negative centroid |
| TasteLaws.LikeMovesOnlyClosest | src/tei-manager/src/utils/teiMath.ts:245-253 | a like replaces only the closest cluster, by its renormalised EMA step; other clusters and the negative centroid stay as read |
| TasteLaws.DislikeMovesNegative | src/tei-manager/src/utils/teiMath.ts:257-264 | a dislike sets a missing negative centroid to the embedding, or moves it by an EMA step; the number of clusters is kept |
| TasteLaws.DislikeWithoutPush | src/tei-manager/src/utils/teiMath.ts:266 | with `β <= 0` or no clusters a dislike leaves every positive cluster as read |
| TasteLaws.DislikePushesClosest | src/tei-manager/src/utils/teiMath.ts:266-276 | with `β > 0` a dislike replaces only the closest cluster, by its renormalised push-away |
| TasteLaws.EmaMovesToward | src/tei-manager/src/utils/teiMath.ts:248-250 | before renormalisation, an EMA step of weight in [0, 1] between unit vectors never lowers the dot product with the new vector below the old cosine |
| TasteLaws.PushAwayAlignment | src/tei-manager/src/utils/teiMath.ts:270-272 | before renormalisation the push scales the cluster's cosine with the disliked vector by `1 - β` |
| Feedback.DeriveText | src/tei-manager/src/utils/teiMath.ts:303-304 | the item's own text when present; else exactly the text of `youtubeResultToTextSafe` when it gives one; else exactly the generic text; empty exactly when the own text is the empty string |
| Feedback.CachedEmbeddingIgnoresEmbedder | src/tei-manager/src/utils/teiMath.ts:298-302 | with an embedding stored on the item, the resolved embedding is the same whatever the embedder, so the embedding service is not consulted |
| Feedback.ResolveEmbedding | src/tei-manager/src/utils/teiMath.ts:293-311 | a missing item and an empty derived text are the two errors, each exactly in its case; a cached embedding is used as is; otherwise the embedding of the derived text |
| Feedback.UpdateTasteUsingQuery | src/tei-manager/src/utils/teiMath.ts:287-314 | the method returns the error thrown, or the update applied to the resolved embedding (`FeedbackSpec`) |
| Feedback.OwnTextFirst | src/tei-manager/src/utils/teiMath.ts:303-309 | a non-empty own text is what gets embedded |
| Feedback.FeedbackOutcome | src/tei-manager/src/utils/teiMath.ts:293-313 | the feedback succeeds exactly when there is an item with an embedding or a non-empty text, and then the new model is normalised and of the embedding's dimension |
| QueryFilter.GetRelevantQueries | src/youtube/src/utils/filter.ts:4-21 | the loop returns the due queries in input order (`FilterDue`) |
| QueryFilter.IsDue | src/youtube/src/utils/filter.ts:9-16 | defined here as the due test; facts in `QueryFilter.FilterDueMembers`, `QueryFilter.DueStaysDue` and `QueryFilter.NeverDue` |
| QueryFilter.FilterDueMembers | src/youtube/src/utils/filter.ts:8-17 | a query is selected exactly when it is in the input and due; no more are selected than given |
| QueryFilter.FilterDueAppend | src/youtube/src/utils/filter.ts:8-17 | selection distributes over concatenation, so the input order is kept |
| QueryFilter.FilterDueIdempotent | src/youtube/src/utils/filter.ts:8-17 | selecting from the selection changes nothing |
| QueryFilter.DueStaysDue | src/youtube/src/utils/filter.ts:12-16 | a query due now is still due at any later time |
| QueryFilter.NeverDue | src/youtube/src/utils/filter.ts:9-16 | a query without a next run, with a zero interval, or with an unparsable next run is never selected |

## Left out

- The embedding service (`embedTexts`, `embedText`, teiMath.ts:96-120) is modelled as a function from text to vector. Its HTTP request, the bearer header, the error for an unset URL, non-2xx statuses and the shape check on the response are I/O and are not modelled.
- Reading the knobs from the environment (`parseFloat`, `parseInt`) is not modelled. They are parameters, with the defaults as constants.
- Floating point is not modelled: no `NaN`, no `Infinity`, no rounding. The `!isFinite(n)` guard of `normalize` is therefore not represented.
- Vectors.Normalize: does not state unit length in its own contract, because that needs the square-root facts. `NormalizeUnitOrZero` states it under `IsSqrt`.
- Batching.Chunk: does not state the number of chunks, `ceil(|arr| / size)`.
- Batching.Chunk requires a positive size on a non-empty input. On a non-empty input a size of zero or less never ends the source's loop. An empty input gives no chunks at any size, in the source and in the model. A `NaN` size is outside the integer model.
- Ranking.RankYouTubeResults and Ranking.EmbedCandidates require a positive batch size when there are candidates, for the same reason. With no candidates they admit any size.
- Dimension mismatches between the query, the candidates and the taste vectors are excluded by `requires`. In the source, `dot` runs over its first argument. A longer second vector gives the finite dot product of the common prefix. A longer first vector reads `undefined` and gives `NaN`. The EMA and push maps run over the stored vector in the same way.
- `Date.now()` is read once per scored candidate in the source. The model reads one `now` for the whole ranking.
- The batched embedding calls are sequential awaits in the source. Concurrency and cancellation are not modelled.
- Feedback.UpdateTasteUsingQuery: only an absent `lastResult` counts as missing. Other falsy values of the untyped field, such as `""`, `0` or `false`, are outside the typed model.
- The feedback item's fields are typed options. Non-string values in the untyped JSON are not modelled, and neither is the `try`/`catch` of `youtubeResultToTextSafe`, which only guards against such shapes.
- QueryFilter.IsDue: `addDays` is taken as adding `interval × 86 400 000` ms. The calendar-day shift across daylight-saving changes is not modelled. The `interval` is an integer number of days.
- The `console.log` of `getRelevantQueries` is output only and is left out.
- TasteLaws.EmaMovesToward: states the one-step alignment property of the EMA step before renormalisation only. Convergence of repeated EMA updates is not stated.
- The caller's taste value cannot be changed by the update in the model, because sequences are values. The source achieves the same with `map`.
