/**
 The offset-paginated collection loop of the CoinDesk fetcher
 (`CoindeskArticleFetcher.fetch_articles` and `fetch_all_articles`).

 The HTTP call is an abstract total function from a request to a page of raw
 articles: every transport, status or decoding failure already shows up as an
 empty page. Round `k` (counting from 0) asks for `batchSize` articles at offset
 `k * batchSize`; pages are appended whole, with no deduplication, and the loop
 stops on an empty page, after a short page, or once `maxArticles` articles
 have been gathered. The result is the first `maxArticles` of them.
 */
module Pagination {
  import opened Wrappers
  import opened Articles

  /** The parameters of one page request sent to the article-list endpoint. */
  datatype Request = Request(daysBack: int, limit: int, offset: int)

  /** The article source behind the HTTP endpoint; never raises. */
  type Http = Request -> seq<RawArticle>

  /** The fetcher object: its API key (absent when the environment variable
      is unset) and the endpoint it talks to. */
  datatype ArticleFetcher = ArticleFetcher(apiKey: Option<string>, http: Http) {

    /** `check_api_key`. */
    predicate HasApiKey() {
      apiKey.Some?
    }
  }

  /** `fetch_articles`: without a key no request is sent and the page is
      empty; otherwise the page is whatever the endpoint answers. */
  function FetchArticles(f: ArticleFetcher, request: Request): (page: seq<RawArticle>)
    ensures !f.HasApiKey() ==> page == []
    ensures f.HasApiKey() ==> page == f.http(request)
  {
    if !f.HasApiKey() then [] else f.http(request)
  }

  /** The page returned by round `k` of the loop. */
  function Page(f: ArticleFetcher, daysBack: int, batchSize: int, k: int): (page: seq<RawArticle>) {
    FetchArticles(f, Request(daysBack, batchSize, k * batchSize))
  }

  /** The pages returned by the first `n` rounds. */
  function Pages(f: ArticleFetcher, daysBack: int, batchSize: int, n: nat): (pages: seq<seq<RawArticle>>)
    ensures |pages| == n
  {
    seq(n, k => Page(f, daysBack, batchSize, k))
  }

  /** In-order concatenation of a sequence of pages. */
  function Flatten<T>(pages: seq<seq<T>>): (joined: seq<T>)
    decreases |pages|
  {
    if |pages| == 0 then [] else Flatten(pages[..|pages| - 1]) + pages[|pages| - 1]
  }

  /** Python's `s[:n]`, including its reading of a negative `n` as "all but the last |n|". */
  function Take<T>(s: seq<T>, n: int): (r: seq<T>)
    ensures r <= s
    ensures 0 <= n ==> |r| == if n < |s| then n else |s|
    ensures n < 0 ==> |r| == if 0 < |s| + n then |s| + n else 0
  {
    if 0 <= n then (if n < |s| then s[..n] else s)
    else if 0 < |s| + n then s[..|s| + n]
    else []
  }

  /** A page after which the loop asks for another: it is neither empty nor
      shorter than the requested size. */
  predicate Continues(page: seq<RawArticle>, batchSize: int) {
    |page| != 0 && !(|page| < batchSize)
  }

  /** The loop makes exactly `n` requests: each one was sent while fewer than
      `maxArticles` articles had been gathered, every page but the last let the
      loop go on, and after the n-th round the loop stops, because enough
      articles were gathered or because the last page was empty or short. */
  predicate StopsAfter(f: ArticleFetcher, daysBack: int, batchSize: int, maxArticles: int, n: nat) {
    && (forall k :: 0 <= k < n ==> |Flatten(Pages(f, daysBack, batchSize, k))| < maxArticles)
    && (forall k :: 0 <= k < n - 1 ==> Continues(Page(f, daysBack, batchSize, k), batchSize))
    && (|| maxArticles <= |Flatten(Pages(f, daysBack, batchSize, n))|
        || (0 < n && !Continues(Page(f, daysBack, batchSize, n - 1), batchSize)))
  }

  /** One more round appends that round's page to what was gathered. */
  lemma FlattenPagesStep(f: ArticleFetcher, daysBack: int, batchSize: int, k: nat)
    ensures Flatten(Pages(f, daysBack, batchSize, k + 1))
         == Flatten(Pages(f, daysBack, batchSize, k)) + Page(f, daysBack, batchSize, k)
  {
    assert Pages(f, daysBack, batchSize, k + 1)[..k] == Pages(f, daysBack, batchSize, k);
  }

  /** The number of requests made when rounds `0 .. k-1` all went on. */
  function RoundsFrom(f: ArticleFetcher, daysBack: int, batchSize: int, maxArticles: int, k: nat): (n: nat)
    requires forall j :: 0 <= j < k ==> |Flatten(Pages(f, daysBack, batchSize, j))| < maxArticles
    requires forall j :: 0 <= j < k ==> Continues(Page(f, daysBack, batchSize, j), batchSize)
    ensures k <= n
    ensures StopsAfter(f, daysBack, batchSize, maxArticles, n)
    decreases maxArticles - |Flatten(Pages(f, daysBack, batchSize, k))|
  {
    if maxArticles <= |Flatten(Pages(f, daysBack, batchSize, k))| then k
    else if !Continues(Page(f, daysBack, batchSize, k), batchSize) then k + 1
    else
      FlattenPagesStep(f, daysBack, batchSize, k);
      RoundsFrom(f, daysBack, batchSize, maxArticles, k + 1)
  }

  /** The number of requests the loop makes; it always terminates. */
  function RoundCount(f: ArticleFetcher, daysBack: int, batchSize: int, maxArticles: int): (n: nat)
    ensures StopsAfter(f, daysBack, batchSize, maxArticles, n)
  {
    RoundsFrom(f, daysBack, batchSize, maxArticles, 0)
  }

  /** What `fetch_all_articles` returns. */
  function Fetched(f: ArticleFetcher, daysBack: int, batchSize: int, maxArticles: int): (articles: seq<RawArticle>) {
    Take(Flatten(Pages(f, daysBack, batchSize, RoundCount(f, daysBack, batchSize, maxArticles))), maxArticles)
  }

  /** The number of requests is determined by the pages: `StopsAfter` has one solution. */
  lemma StopsAfterUnique(f: ArticleFetcher, daysBack: int, batchSize: int, maxArticles: int, n: nat, m: nat)
    requires StopsAfter(f, daysBack, batchSize, maxArticles, n)
    requires StopsAfter(f, daysBack, batchSize, maxArticles, m)
    ensures n == m
  {
    // A round that a longer run went past can neither have met the guard's
    // bound nor have ended on a page that stops the loop.
    assert n < m ==> |Flatten(Pages(f, daysBack, batchSize, n))| < maxArticles;
    assert n < m && 0 < n ==> Continues(Page(f, daysBack, batchSize, n - 1), batchSize);
    assert m < n ==> |Flatten(Pages(f, daysBack, batchSize, m))| < maxArticles;
    assert m < n && 0 < m ==> Continues(Page(f, daysBack, batchSize, m - 1), batchSize);
  }

  /** `fetch_all_articles`. Besides the articles it returns the requests it
      sent, in order. */
  method FetchAllArticles(f: ArticleFetcher, daysBack: int, batchSize: int, maxArticles: int)
    returns (articles: seq<RawArticle>, requests: seq<Request>)
    ensures StopsAfter(f, daysBack, batchSize, maxArticles, |requests|)
    ensures forall k :: 0 <= k < |requests| ==> requests[k] == Request(daysBack, batchSize, k * batchSize)
    ensures articles == Take(Flatten(Pages(f, daysBack, batchSize, |requests|)), maxArticles)
  {
    var all: seq<RawArticle> := [];
    var offset := 0;
    var done := false;
    requests := [];
    while !done && |all| < maxArticles
      invariant !done ==> offset == |requests| * batchSize
      invariant forall k :: 0 <= k < |requests| ==> requests[k] == Request(daysBack, batchSize, k * batchSize)
      invariant all == Flatten(Pages(f, daysBack, batchSize, |requests|))
      invariant forall k :: 0 <= k < |requests| ==> |Flatten(Pages(f, daysBack, batchSize, k))| < maxArticles
      invariant forall k :: 0 <= k < |requests| - 1 ==> Continues(Page(f, daysBack, batchSize, k), batchSize)
      invariant !done && 0 < |requests| ==> Continues(Page(f, daysBack, batchSize, |requests| - 1), batchSize)
      invariant done ==> 0 < |requests| && !Continues(Page(f, daysBack, batchSize, |requests| - 1), batchSize)
      decreases maxArticles - |all|, if done then 0 else 1
    {
      var request := Request(daysBack, batchSize, offset);
      var batch := FetchArticles(f, request);
      assert batch == Page(f, daysBack, batchSize, |requests|);
      FlattenPagesStep(f, daysBack, batchSize, |requests|);
      requests := requests + [request];
      if |batch| == 0 {
        done := true;
      } else {
        all := all + batch;
        offset := offset + batchSize;
        if |batch| < batchSize {
          done := true;
        }
      }
    }
    articles := Take(all, maxArticles);
  }
}
