/** The shapes of the items the engine ranks and learns from. */
module Results {
  import opened Wrappers
  import opened Vectors

  /** A search result reduced to the fields used for ranking
      (`FilteredResult`). */
  datatype FilteredResult = FilteredResult(
    videoId: string,
    title: string,
    channelTitle: string,
    description: string,
    publishedAt: Option<string>)

  /** The `snippet` and `id` objects of a YouTube search result, each field
      possibly absent. */
  datatype Snippet = Snippet(title: Option<string>, channelTitle: Option<string>)

  datatype ItemId = ItemId(videoId: Option<string>)

  /** A candidate together with the score that admitted it
      (`RankedResult`). */
  datatype RankedResult = RankedResult(candidate: FilteredResult, score: real)

  /** The untyped `lastResult` a saved query keeps: the item the user reacted
      to. Every field may be absent; `embedding` is present exactly when the
      stored value is an array. */
  datatype FeedbackItem = FeedbackItem(
    embedding: Option<Vec>,
    text: Option<string>,
    snippet: Option<Snippet>,
    id: Option<ItemId>,
    title: Option<string>,
    name: Option<string>,
    channelTitle: Option<string>,
    author: Option<string>,
    channel: Option<string>,
    platform: Option<string>)

  /** A saved query as the feedback path sees it (`SavedQuery`). */
  datatype SavedQuery = SavedQuery(id: string, searchTerm: Option<string>, lastResult: Option<FeedbackItem>)

  /** JavaScript's `a ?? b` on an optional string. */
  function OrElse(a: Option<string>, b: string): string {
    if a.Some? then a.value else b
  }
}
