/**
 The top-level dataset decision of the CoinDesk fetcher
 (`CoindeskArticleFetcher.create_dataset`): fetch, then normalise, then count
 the rows per sentiment label. There is no dataset when the fetch produced
 nothing, and the call raises when the sentiment counting cannot be done.
 */
module Dataset {
  import opened Wrappers
  import opened Articles
  import opened Pagination
  import PaginationProperties

  /** The page size `create_dataset` leaves at `fetch_all_articles`' default. */
  const DefaultBatchSize: int := 100

  /** The exceptions that escape `create_dataset` once rows were built. */
  datatype DatasetError =
    /** Every fetched article was dropped: the table has no `sentiment`
        column, and selecting it raises `KeyError`. */
    | MissingSentimentColumn
    /** Some row's sentiment is a list or an object, which cannot be counted
        per label (`TypeError`: unhashable). */
    | UnhashableSentiment

  /** What one call of `create_dataset` ends with. */
  datatype DatasetOutcome =
    /** Nothing was fetched; the call returns `None`. */
    | NoArticles
    /** The call raises. */
    | Raised(error: DatasetError)
    /** The call returns the table of normalised rows. */
    | Rows(rows: seq<NormalizedArticle>)

  /** A sentiment value the per-label count cannot hash. */
  predicate Unhashable(v: Value) {
    v.List? || v.Object?
  }

  /** `create_dataset`. */
  method CreateDataset(f: ArticleFetcher, format: DateFormatter, daysBack: int, maxArticles: int)
    returns (outcome: DatasetOutcome)
    ensures outcome.NoArticles? <==> Fetched(f, daysBack, DefaultBatchSize, maxArticles) == []
    ensures outcome == Raised(MissingSentimentColumn) <==>
      && Fetched(f, daysBack, DefaultBatchSize, maxArticles) != []
      && Processed(Fetched(f, daysBack, DefaultBatchSize, maxArticles), format) == []
    ensures outcome == Raised(UnhashableSentiment) <==>
      var rows := Processed(Fetched(f, daysBack, DefaultBatchSize, maxArticles), format);
      Fetched(f, daysBack, DefaultBatchSize, maxArticles) != [] &&
      exists i :: 0 <= i < |rows| && Unhashable(rows[i].sentiment)
    ensures outcome.Rows? ==>
      && outcome.rows == Processed(Fetched(f, daysBack, DefaultBatchSize, maxArticles), format)
      && 0 < |outcome.rows| <= maxArticles
      && forall i :: 0 <= i < |outcome.rows| ==> !Unhashable(outcome.rows[i].sentiment)
  {
    var articles, requests := FetchAllArticles(f, daysBack, DefaultBatchSize, maxArticles);
    StopsAfterUnique(f, daysBack, DefaultBatchSize, maxArticles,
                     |requests|, RoundCount(f, daysBack, DefaultBatchSize, maxArticles));
    PaginationProperties.FetchedBound(f, daysBack, DefaultBatchSize, maxArticles);
    if |articles| == 0 {
      return NoArticles;
    }
    var rows := ProcessArticleData(articles, format);
    if |rows| == 0 {
      return Raised(MissingSentimentColumn);
    }
    if exists i | 0 <= i < |rows| :: Unhashable(rows[i].sentiment) {
      return Raised(UnhashableSentiment);
    }
    return Rows(rows);
  }

  /** Without an API key nothing is fetched, so `create_dataset` returns `None`. */
  lemma NoApiKeyNoDataset(f: ArticleFetcher, daysBack: int, batchSize: int, maxArticles: int)
    requires !f.HasApiKey()
    ensures Fetched(f, daysBack, batchSize, maxArticles) == []
  {
    PaginationProperties.NoApiKeyFetchesNothing(f, daysBack, batchSize, maxArticles,
                                                RoundCount(f, daysBack, batchSize, maxArticles));
  }
}
