# CoinDesk article fetcher — Dafny model

This project models the collection core of `CoindeskArticleFetcher`, the part of the
sentiment-dataset builder that pages through CoinDesk's article-list API, normalises each
article into a flat row, and decides whether a dataset exists at all.

- `Pagination` models `fetch_articles` (the API-key guard) and `fetch_all_articles`. That is
  the offset-paginated loop. Round `k` asks for `batch_size` articles at offset
  `k * batch_size`. Pages are appended whole. The loop stops on an empty page, after a short
  page, or once `max_articles` articles are gathered. It returns Python's
  `all_articles[:max_articles]`. The HTTP endpoint is an abstract total function
  `Request -> seq<RawArticle>`. Every transport, status or decoding failure is already an
  empty page there. `StopsAfter(n)` says declaratively what "the loop makes exactly `n`
  requests" means. `FetchAllArticles` is the imperative loop, and its contract ties it to
  `StopsAfter`. `RoundCount` shows that such an `n` always exists, and `StopsAfterUnique`
  shows that it is unique.
- `Articles` models `process_article_data`. A raw article is a `map<string, Value>` of
  decoded JSON. Missing keys take the source's defaults. Date formatting is an opaque
  `Value -> Option<string>` parameter, where `None` means `datetime.fromtimestamp` or
  `strftime` raised. An article whose formatting fails is dropped, and the others keep
  their order.
- `Dataset` models `create_dataset`. It has three outcomes. It returns `None` exactly when
  nothing was fetched. It raises when the rows cannot be counted per sentiment. That
  happens when every fetched article was dropped, because the empty table has no
  `sentiment` column (`KeyError`). It also happens when some sentiment is a list or an
  object, because those values are unhashable (`TypeError`). Otherwise it returns the
  processed rows.
- `PaginationProperties` holds the lemmas that relate several rounds.

The loop pages by `offset` only (fetch_coindesk_articles.py:70, 78). It keeps no timestamp
watermark. It does not deduplicate by GUID: each page is appended whole (line 77), so
overlapping pages leave repeated articles in the result.
`PaginationProperties.OverlappingPagesKeepDuplicates` shows this on a concrete source. With
batch size 2 and at most 3 articles, the source answers `[a, b]` at offset 0, `[b, c]` at
offset 2, and nothing after that. Two requests are made, and the result is `[a, b, b]`.

## Model

| member | source | states |
|---|---|---|
| Pagination.FetchArticles | fetch_coindesk_articles.py:24-29 | the `check_api_key` guard of `fetch_articles` (a key is present exactly when `HasApiKey`): without an API key the page is empty and the endpoint is not consulted; with one, the page is the endpoint's answer |
| Pagination.Take | fetch_coindesk_articles.py:87 | Python's `s[:n]`: a prefix of `s` of length `min(n, len(s))` for `n >= 0`, and `max(0, len(s) + n)` for negative `n` |
| Pagination.FlattenPagesStep | fetch_coindesk_articles.py:77 | each round appends its whole page to what was gathered |
| Pagination.RoundsFrom | fetch_coindesk_articles.py:72-85 | from any round reached by continuing pages, the loop ends after a number of requests satisfying the stopping characterisation |
| Pagination.RoundCount | fetch_coindesk_articles.py:72-85 | the loop always terminates: some request count satisfies the stopping characterisation, for every source and every integer parameters |
| Pagination.StopsAfterUnique | fetch_coindesk_articles.py:72-85 | the number of requests is determined by the pages: the stopping characterisation has exactly one solution |
| Pagination.FetchAllArticles | fetch_coindesk_articles.py:68-87 | the loop's request count satisfies the stopping characterisation; request `k` has limit `batch_size` and offset `k * batch_size`; the result is the first `max_articles` of the in-order concatenation of all pages fetched |
| PaginationProperties.GatheredGrowsByPrefix | fetch_coindesk_articles.py:77 | what an earlier round gathered is a prefix of what any later round gathered, so the result is a prefix of the concatenated pages |
| PaginationProperties.NoRoomNoRequest | fetch_coindesk_articles.py:72 | with `max_articles <= 0` no request is sent and the result is empty |
| PaginationProperties.FetchedBound | fetch_coindesk_articles.py:87 | the result holds at most `max_articles` articles, and none when `max_articles <= 0` |
| PaginationProperties.OvershootBelowLastPage | fetch_coindesk_articles.py:72-78 | a request is sent only while fewer than `max_articles` are gathered, so the gathered total stays below `max_articles` plus the last page |
| PaginationProperties.EmptyPageEndsLoop | fetch_coindesk_articles.py:73-75 | a request answered by an empty page is the last one, and the gathered articles are those of the earlier pages only |
| PaginationProperties.ShortPageEndsLoop | fetch_coindesk_articles.py:77-85 | a non-empty page shorter than `batch_size` is appended whole and then ends the loop |
| PaginationProperties.NoApiKeyFetchesNothing | fetch_coindesk_articles.py:24-29 | without an API key the loop makes at most one round and gathers nothing |
| PaginationProperties.FullPagesLength | fetch_coindesk_articles.py:77 | with a source of full pages, `k` rounds gather exactly `k * batch_size` articles |
| PaginationProperties.FullPagesExactCount | fetch_coindesk_articles.py:72-87 | with a source that always answers a full page, exactly `ceil(max_articles / batch_size)` requests are made and exactly `max_articles` articles are returned |
| PaginationProperties.OverlappingPagesKeepDuplicates | fetch_coindesk_articles.py:70-87 | offset pages that overlap are kept as they are: the repeated article appears twice in the result |
| Articles.Normalize | fetch_coindesk_articles.py:93-120 | an article is kept exactly when its `PUBLISHED_ON` value, or 0 when absent, can be formatted; a missing key never causes a drop; the row's date is that formatting |
| Articles.MissingKeysTakeDefaults | fetch_coindesk_articles.py:96-116 | absent BODY/AUTHORS/KEYWORDS give `""`, LANG gives `"EN"`, UPVOTES/DOWNVOTES/SCORE give 0, SENTIMENT gives `"NEUTRAL"`, STATUS gives `"ACTIVE"`, ID/GUID/TITLE/SUBTITLE/URL/IMAGE_URL/SOURCE_ID and the timestamp give null, and the date is the formatting of 0 |
| Articles.EmptyRecordIsAllDefaults | fetch_coindesk_articles.py:96-116 | the empty record is kept exactly when epoch zero formats, and then gives the all-defaults row |
| Articles.PresentKeysAreCopied | fetch_coindesk_articles.py:97-116 | every key present in a record, including a partial one, is copied unchanged into its field, whatever JSON value it holds; together with the defaults lemma each field is either the stored value or its default |
| Articles.NormalizeToRaw | fetch_coindesk_articles.py:97-116 | a row is recovered from its full raw form when its date formats its timestamp, so no field is altered on the way |
| Articles.ToRawNormalize | fetch_coindesk_articles.py:97-116 | a raw article holding exactly the source keys is recovered from its row: nothing but the date is derived |
| Articles.ExtraKeysIgnored | fetch_coindesk_articles.py:97-116 | keys outside the source schema do not influence the row |
| Articles.Processed | fetch_coindesk_articles.py:89-122 | processing never yields more rows than there are articles |
| Articles.Survivors | fetch_coindesk_articles.py:92-120 | the positions of the articles that normalise, strictly increasing, and containing every such position |
| Articles.ProcessedAreSurvivorRows | fetch_coindesk_articles.py:92-120 | the j-th row is the normalisation of the j-th surviving article, so input order is kept and exactly the failing articles are dropped |
| Articles.ProcessedAppend | fetch_coindesk_articles.py:92-120 | each article is processed independently: processing a concatenation concatenates the results |
| Articles.AllFormattedKeepsAll | fetch_coindesk_articles.py:92-120 | when every article formats, nothing is dropped and row `i` is the normalisation of article `i` |
| Articles.ProcessArticleData | fetch_coindesk_articles.py:89-122 | the loop returns the in-order rows of the articles that normalise |
| Dataset.CreateDataset | fetch_coindesk_articles.py:132-145 | fetching with batch size 100: `None` exactly when the fetch returned nothing; a raise of the missing `sentiment` column exactly when articles were fetched but all were dropped; a raise of an unhashable sentiment exactly when some row's sentiment is a list or an object; otherwise the processed rows, non-empty and at most `max_articles` of them |
| Dataset.NoApiKeyNoDataset | fetch_coindesk_articles.py:27-29 | without an API key the fetch returns nothing, so no dataset is built |

## Left out

- The HTTP request inside `fetch_articles` is left out. This covers headers, the status-code check and JSON decoding (fetch_coindesk_articles.py:31-66). It is network I/O, and the endpoint is an abstract total function whose failures are empty pages.
- The API's `Data` field holding something other than a list of objects is left out. A non-object entry is outside `RawArticle`.
- `datetime.now()` and the computed start and end date strings are left out (fetch_coindesk_articles.py:31-34). They depend on the wall clock. The request carries `days_back` instead.
- The internals of `datetime.fromtimestamp` and `strftime` are left out. They are a time-zone-dependent library, and they are an opaque, possibly failing formatter here.
- `time.sleep`, logging, `load_dotenv` and `os.getenv` are left out. They are side effects and environment. The API key is a field of the fetcher.
- `pandas.DataFrame` and `save_dataset`/`to_csv` are left out. They are a persistence library. The dataset is the sequence of rows. The file written before a raise in `create_dataset` is therefore not modelled.
- The sentiment distribution computed by `value_counts` is left out, because it is only logged. What is modelled is the two ways the counting raises. Pandas' other failure modes (a failing write, for one) are not modelled.
- The percentage report in `main` is left out. It is logging and float formatting.
- `main` is left out: its only decision is the API-key guard, which is modelled by `Pagination.FetchArticles`.
- JSON numbers are `Int` or `Float(real)`. Binary floating point is not modelled.
- `compute_metrics` in utils.py is left out. It is a thin wrapper over sklearn with floating-point results. The batch predictor is not part of this model.
