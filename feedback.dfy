/** Applying a like or dislike recorded on a saved query to the taste model
    (`updateTasteUsingQuery`). */
module Feedback {
  import opened Wrappers
  import opened Vectors
  import opened Results
  import opened TextHelpers
  import opened Taste
  import opened TasteLaws

  /** The two errors the feedback path throws. */
  datatype FeedbackError =
    | MissingLastResult   // the query holds no item to learn from
    | NoText              // no text could be derived to embed the item with

  /** The text an item is embedded with when it carries no embedding: its own
      `text` when present (even empty), else the YouTube form of it, else the
      generic form. The result is empty exactly when the item's own text is
      the empty string, since both derived forms are never empty. */
  function DeriveText(item: FeedbackItem): (t: string)
    ensures t == "" <==> item.text == Some("")
    ensures item.text.Some? ==> t == item.text.value
    ensures item.text.None? && YoutubeResultToTextSafe(item).Some?
            ==> t == YoutubeResultToTextSafe(item).value && YouTubeHead <= t
    ensures item.text.None? && YoutubeResultToTextSafe(item).None?
            ==> t == GenericTextFromResult(item).value && GenericHead(item) <= t
  {
    if item.text.Some? then item.text.value
    else
      var safe := YoutubeResultToTextSafe(item);
      if safe.Some? then safe.value
      else GenericTextFromResult(item).value
  }

  /** Where the embedding of the reacted-to item comes from: the cached
      `embedding` array when there is one, otherwise the embedder applied to
      the derived text. */
  function ResolveEmbedding(embed: string -> Vec, query: SavedQuery): (r: Result<Vec, FeedbackError>)
    ensures r == Failure(MissingLastResult) <==> query.lastResult.None?
    ensures r == Failure(NoText)
            <==> query.lastResult.Some? && query.lastResult.value.embedding.None?
                 && query.lastResult.value.text == Some("")
    ensures query.lastResult.Some? && query.lastResult.value.embedding.Some?
            ==> r == Success(query.lastResult.value.embedding.value)
    ensures query.lastResult.Some? && query.lastResult.value.embedding.None? && r.Success?
            ==> r.value == embed(DeriveText(query.lastResult.value))
  {
    if query.lastResult.None? then Failure(MissingLastResult)
    else
      var item := query.lastResult.value;
      if item.embedding.Some? then Success(item.embedding.value)
      else
        var text := DeriveText(item);
        if text == "" then Failure(NoText) else Success(embed(text))
  }

  /** What `updateTasteUsingQuery` returns: the error it throws, or the
      updated taste model. */
  function FeedbackSpec(sqrt: real -> real, knobs: UpdateKnobs, taste: TasteVectors, action: string,
                        query: SavedQuery, embed: string -> Vec): Result<TasteVectors, FeedbackError>
    requires ResolveEmbedding(embed, query).Success? ==> HasDim(taste, |ResolveEmbedding(embed, query).value|)
  {
    match ResolveEmbedding(embed, query)
    case Failure(e) => Failure(e)
    case Success(v) => Success(UpdateTasteSpec(sqrt, knobs, v, taste, action))
  }

  /** `updateTasteUsingQuery`: resolve the item's embedding, calling the
      embedder on a one-text batch only when none is cached, then delegate to
      the update. A thrown error becomes a `Failure`. */
  method UpdateTasteUsingQuery(sqrt: real -> real, knobs: UpdateKnobs, taste: TasteVectors, action: string,
                               query: SavedQuery, embed: string -> Vec)
    returns (r: Result<TasteVectors, FeedbackError>)
    requires ResolveEmbedding(embed, query).Success? ==> HasDim(taste, |ResolveEmbedding(embed, query).value|)
    ensures r == FeedbackSpec(sqrt, knobs, taste, action, query, embed)
  {
    if query.lastResult.None? {
      return Failure(MissingLastResult);
    }
    var cand := query.lastResult.value;
    var embedding: Vec;
    if cand.embedding.Some? {
      embedding := cand.embedding.value;
    } else {
      var text := DeriveText(cand);
      if text == "" {
        return Failure(NoText);
      }
      var vecs := [embed(text)];
      embedding := vecs[0];
    }
    assert ResolveEmbedding(embed, query) == Success(embedding);
    var updated := UpdateTaste(sqrt, knobs, embedding, taste, action);
    r := Success(updated);
  }

  /** A cached embedding makes the result independent of the embedder, so
      the embedding service is not consulted. */
  lemma {:induction false} CachedEmbeddingIgnoresEmbedder(embed1: string -> Vec, embed2: string -> Vec, query: SavedQuery)
    requires query.lastResult.Some? && query.lastResult.value.embedding.Some?
    ensures ResolveEmbedding(embed1, query) == ResolveEmbedding(embed2, query)
  {
  }

  /** The item's own `text` takes precedence over both derived texts. */
  lemma {:induction false} OwnTextFirst(embed: string -> Vec, query: SavedQuery)
    requires query.lastResult.Some? && query.lastResult.value.embedding.None?
    requires query.lastResult.value.text.Some? && query.lastResult.value.text.value != ""
    ensures ResolveEmbedding(embed, query) == Success(embed(query.lastResult.value.text.value))
  {
  }

  /** Whatever shape the stored item has, the feedback succeeds exactly when
      there is an item that has an embedding or a non-empty text, and then
      the new model is normalised and keeps the dimension of the
      embedding. */
  lemma {:induction false} FeedbackOutcome(sqrt: real -> real, knobs: UpdateKnobs, taste: TasteVectors, action: string,
                        query: SavedQuery, embed: string -> Vec)
    requires IsSqrt(sqrt)
    requires ResolveEmbedding(embed, query).Success? ==> HasDim(taste, |ResolveEmbedding(embed, query).value|)
    ensures var r := FeedbackSpec(sqrt, knobs, taste, action, query, embed);
            r.Success? <==> query.lastResult.Some?
                            && (query.lastResult.value.embedding.Some? || query.lastResult.value.text != Some(""))
    ensures var r := FeedbackSpec(sqrt, knobs, taste, action, query, embed);
            r.Success? ==> TasteNormalized(r.value)
                           && HasDim(r.value, |ResolveEmbedding(embed, query).value|)
  {
    var e := ResolveEmbedding(embed, query);
    if e.Success? {
      UpdatePreservesNormalized(sqrt, knobs, e.value, taste, action);
    }
  }
}
