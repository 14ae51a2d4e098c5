/**
 Properties of the offset-paginated loop that relate several rounds: how each
 stopping condition ends it, how many requests a source of full pages costs,
 and that overlapping pages are kept as they are.
 */
module PaginationProperties {
  import opened Wrappers
  import opened Articles
  import opened Pagination

  /** Pages are appended whole: what an earlier round had gathered is a prefix
      of what a later round has gathered. */
  lemma {:induction false} GatheredGrowsByPrefix(f: ArticleFetcher, daysBack: int, batchSize: int, j: nat, k: nat)
    requires j <= k
    ensures Flatten(Pages(f, daysBack, batchSize, j)) <= Flatten(Pages(f, daysBack, batchSize, k))
    decreases k
  {
    if j < k {
      GatheredGrowsByPrefix(f, daysBack, batchSize, j, k - 1);
      FlattenPagesStep(f, daysBack, batchSize, k - 1);
    }
  }

  /** With no room for articles the loop sends no request and returns nothing. */
  lemma NoRoomNoRequest(f: ArticleFetcher, daysBack: int, batchSize: int, maxArticles: int, n: nat)
    requires maxArticles <= 0
    requires StopsAfter(f, daysBack, batchSize, maxArticles, n)
    ensures n == 0
    ensures Take(Flatten(Pages(f, daysBack, batchSize, n)), maxArticles) == []
  {
    assert Pages(f, daysBack, batchSize, 0) == [];
  }

  /** The result never holds more than `maxArticles` articles, and is empty
      when `maxArticles` is not positive. */
  lemma FetchedBound(f: ArticleFetcher, daysBack: int, batchSize: int, maxArticles: int)
    ensures 0 <= maxArticles ==> |Fetched(f, daysBack, batchSize, maxArticles)| <= maxArticles
    ensures maxArticles <= 0 ==> Fetched(f, daysBack, batchSize, maxArticles) == []
  {
    if maxArticles <= 0 {
      NoRoomNoRequest(f, daysBack, batchSize, maxArticles, RoundCount(f, daysBack, batchSize, maxArticles));
    }
  }

  /** Before the last request fewer than `maxArticles` articles were gathered,
      so the loop overshoots by less than that last page. */
  lemma OvershootBelowLastPage(f: ArticleFetcher, daysBack: int, batchSize: int, maxArticles: int, n: nat)
    requires StopsAfter(f, daysBack, batchSize, maxArticles, n)
    requires 0 < n
    ensures |Flatten(Pages(f, daysBack, batchSize, n))| < maxArticles + |Page(f, daysBack, batchSize, n - 1)|
  {
    FlattenPagesStep(f, daysBack, batchSize, n - 1);
  }

  /** A request answered by an empty page is the last one, and the result is
      made only of the pages before it. */
  lemma EmptyPageEndsLoop(f: ArticleFetcher, daysBack: int, batchSize: int, maxArticles: int, n: nat, j: nat)
    requires StopsAfter(f, daysBack, batchSize, maxArticles, n)
    requires j < n
    requires Page(f, daysBack, batchSize, j) == []
    ensures n == j + 1
    ensures Flatten(Pages(f, daysBack, batchSize, n)) == Flatten(Pages(f, daysBack, batchSize, j))
  {
    assert j < n - 1 ==> Continues(Page(f, daysBack, batchSize, j), batchSize);
    FlattenPagesStep(f, daysBack, batchSize, j);
    assert Flatten(Pages(f, daysBack, batchSize, j)) + [] == Flatten(Pages(f, daysBack, batchSize, j));
  }

  /** A request answered by a non-empty page shorter than `batchSize` is the
      last one, and that page is appended whole before the loop ends. */
  lemma ShortPageEndsLoop(f: ArticleFetcher, daysBack: int, batchSize: int, maxArticles: int, n: nat, j: nat)
    requires StopsAfter(f, daysBack, batchSize, maxArticles, n)
    requires j < n
    requires 0 < |Page(f, daysBack, batchSize, j)| < batchSize
    ensures n == j + 1
    ensures Flatten(Pages(f, daysBack, batchSize, n))
         == Flatten(Pages(f, daysBack, batchSize, j)) + Page(f, daysBack, batchSize, j)
  {
    assert j < n - 1 ==> Continues(Page(f, daysBack, batchSize, j), batchSize);
    FlattenPagesStep(f, daysBack, batchSize, j);
  }

  /** Without an API key every page is empty: the loop stops after at most one
      round and gathers nothing. */
  lemma NoApiKeyFetchesNothing(f: ArticleFetcher, daysBack: int, batchSize: int, maxArticles: int, n: nat)
    requires !f.HasApiKey()
    requires StopsAfter(f, daysBack, batchSize, maxArticles, n)
    ensures n <= 1
    ensures Flatten(Pages(f, daysBack, batchSize, n)) == []
  {
    assert Pages(f, daysBack, batchSize, 0) == [];
    if 0 < n {
      EmptyPageEndsLoop(f, daysBack, batchSize, maxArticles, n, 0);
    }
  }

  /** A source whose pages all hold exactly `batchSize` articles fills `k`
      rounds with `k * batchSize` articles. */
  lemma {:induction false} FullPagesLength(f: ArticleFetcher, daysBack: int, batchSize: int, k: nat)
    requires forall j: nat :: |Page(f, daysBack, batchSize, j)| == batchSize
    ensures |Flatten(Pages(f, daysBack, batchSize, k))| == k * batchSize
    decreases k
  {
    if k == 0 {
      assert Pages(f, daysBack, batchSize, 0) == [];
    } else {
      FullPagesLength(f, daysBack, batchSize, k - 1);
      FlattenPagesStep(f, daysBack, batchSize, k - 1);
    }
  }

  /** Multiplying by a positive factor keeps the order. */
  lemma ProductMonotone(a: int, c: int, s: int)
    requires 0 < s
    ensures c <= a ==> c * s <= a * s
  {
    assert a * s - c * s == (a - c) * s;
  }

  /** `n` is the ceiling of `total / size` when `n - 1` sizes fall short of
      `total` and `n` sizes reach it. */
  lemma CeilingQuotient(total: int, size: int, n: int)
    requires 0 < size
    requires (n - 1) * size < total <= n * size
    ensures n == (total + size - 1) / size
  {
    var q := (total + size - 1) / size;
    assert q * size <= total + size - 1 < (q + 1) * size;
    assert n * size == (n - 1) * size + size;
    assert (n + 1) * size == n * size + size;
    ProductMonotone(n, q + 1, size);
    ProductMonotone(q, n + 1, size);
  }

  /** With a source that always answers with a full page, the loop makes
      exactly `ceil(maxArticles / batchSize)` requests and returns exactly
      `maxArticles` articles. */
  lemma FullPagesExactCount(f: ArticleFetcher, daysBack: int, batchSize: int, maxArticles: int)
    requires 0 < batchSize
    requires 0 < maxArticles
    requires forall j: nat :: |Page(f, daysBack, batchSize, j)| == batchSize
    ensures RoundCount(f, daysBack, batchSize, maxArticles) == (maxArticles + batchSize - 1) / batchSize
    ensures |Fetched(f, daysBack, batchSize, maxArticles)| == maxArticles
  {
    var n := RoundCount(f, daysBack, batchSize, maxArticles);
    FullPagesLength(f, daysBack, batchSize, n);
    assert 0 < n by {
      assert Pages(f, daysBack, batchSize, 0) == [];
    }
    FullPagesLength(f, daysBack, batchSize, n - 1);
    assert (n - 1) * batchSize < maxArticles;
    CeilingQuotient(maxArticles, batchSize, n);
  }

  const ArticleA: RawArticle := map["GUID" := Str("a"), "PUBLISHED_ON" := Int(100)]
  const ArticleB: RawArticle := map["GUID" := Str("b"), "PUBLISHED_ON" := Int(90)]
  const ArticleC: RawArticle := map["GUID" := Str("c"), "PUBLISHED_ON" := Int(80)]

  /** A source whose second page (offset 2) repeats the last article of the
      first page, and that has nothing from offset 4 on. */
  function OverlappingSource(): ArticleFetcher {
    ArticleFetcher(Some("key"), (request: Request) =>
      if request.offset == 0 then [ArticleA, ArticleB]
      else if request.offset == 2 then [ArticleB, ArticleC]
      else [])
  }

  /** With `batchSize` 2 and `maxArticles` 3, two requests are made and the
      repeated article is kept twice: nothing is deduplicated across pages. */
  lemma OverlappingPagesKeepDuplicates()
    ensures RoundCount(OverlappingSource(), 7, 2, 3) == 2
    ensures Fetched(OverlappingSource(), 7, 2, 3) == [ArticleA, ArticleB, ArticleB]
  {
    var f := OverlappingSource();
    assert Page(f, 7, 2, 0) == [ArticleA, ArticleB];
    assert Page(f, 7, 2, 1) == [ArticleB, ArticleC];
    assert Pages(f, 7, 2, 0) == [];
    FlattenPagesStep(f, 7, 2, 0);
    FlattenPagesStep(f, 7, 2, 1);
    assert Flatten(Pages(f, 7, 2, 2)) == [ArticleA, ArticleB, ArticleB, ArticleC];
    assert StopsAfter(f, 7, 2, 3, 2);
    StopsAfterUnique(f, 7, 2, 3, 2, RoundCount(f, 7, 2, 3));
  }
}
