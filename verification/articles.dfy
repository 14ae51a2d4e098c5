/**
 Per-article normalisation of the CoinDesk fetcher
 (`CoindeskArticleFetcher.process_article_data`).

 A raw article is the key-to-value mapping decoded from the API's JSON. Each
 raw article becomes one flat row; a missing key takes a fixed default, and an
 article whose published date cannot be formatted is dropped while the others
 keep their order.
 */
module Articles {
  import opened Wrappers

  /** A decoded JSON value, as found under a key of a raw article. */
  datatype Value =
    | Null
    | Bool(b: bool)
    | Int(i: int)
    | Float(x: real)
    | Str(s: string)
    | List(items: seq<Value>)
    | Object(fields: map<string, Value>)

  /** One article as returned by the API: no key is guaranteed to be present. */
  type RawArticle = map<string, Value>

  /** Turns the `PUBLISHED_ON` value into the `%Y-%m-%d %H:%M:%S` text, or
      fails (`None`) when the conversion raises. Its internals (time zone,
      calendar) are not modelled. */
  type DateFormatter = Value -> Option<string>

  /** The flat record produced for one article. Fields that the source copies
      from the raw article keep whatever JSON value was stored there. */
  datatype NormalizedArticle = NormalizedArticle(
    id: Value,
    guid: Value,
    title: Value,
    subtitle: Value,
    content: Value,
    publishedDate: string,
    publishedTimestamp: Value,
    url: Value,
    imageUrl: Value,
    authors: Value,
    sourceId: Value,
    keywords: Value,
    language: Value,
    upvotes: Value,
    downvotes: Value,
    score: Value,
    sentiment: Value,
    status: Value)

  /** The API keys a normalised row is built from. */
  const SourceKeys: set<string> :=
    {"ID", "GUID", "TITLE", "SUBTITLE", "BODY", "PUBLISHED_ON", "URL", "IMAGE_URL",
     "AUTHORS", "SOURCE_ID", "KEYWORDS", "LANG", "UPVOTES", "DOWNVOTES", "SCORE",
     "SENTIMENT", "STATUS"}

  /** Python's `dict.get(key, default)`: a stored value (even a stored null)
      wins over the default. */
  function Get(raw: RawArticle, key: string, default: Value): (v: Value) {
    if key in raw then raw[key] else default
  }

  /** The value handed to the date formatter: `PUBLISHED_ON`, or 0 when absent. */
  function PublishedOn(raw: RawArticle): (v: Value) {
    Get(raw, "PUBLISHED_ON", Int(0))
  }

  /** Normalises one raw article; `None` means the article is dropped because
      formatting its published date raised. Missing keys never cause a drop. */
  function Normalize(raw: RawArticle, format: DateFormatter): (r: Option<NormalizedArticle>)
    ensures "PUBLISHED_ON" !in raw ==> (r.Some? <==> format(Int(0)).Some?)
    ensures "PUBLISHED_ON" in raw ==> (r.Some? <==> format(raw["PUBLISHED_ON"]).Some?)
    ensures r.Some? ==> format(PublishedOn(raw)) == Some(r.value.publishedDate)
  {
    match format(PublishedOn(raw))
    case None => None
    case Some(date) =>
      Some(NormalizedArticle(
        id := Get(raw, "ID", Null),
        guid := Get(raw, "GUID", Null),
        title := Get(raw, "TITLE", Null),
        subtitle := Get(raw, "SUBTITLE", Null),
        content := Get(raw, "BODY", Str("")),
        publishedDate := date,
        publishedTimestamp := Get(raw, "PUBLISHED_ON", Null),
        url := Get(raw, "URL", Null),
        imageUrl := Get(raw, "IMAGE_URL", Null),
        authors := Get(raw, "AUTHORS", Str("")),
        sourceId := Get(raw, "SOURCE_ID", Null),
        keywords := Get(raw, "KEYWORDS", Str("")),
        language := Get(raw, "LANG", Str("EN")),
        upvotes := Get(raw, "UPVOTES", Int(0)),
        downvotes := Get(raw, "DOWNVOTES", Int(0)),
        score := Get(raw, "SCORE", Int(0)),
        sentiment := Get(raw, "SENTIMENT", Str("NEUTRAL")),
        status := Get(raw, "STATUS", Str("ACTIVE"))))
  }

  /** Every absent key takes its documented default in the normalised row. */
  lemma MissingKeysTakeDefaults(raw: RawArticle, format: DateFormatter)
    requires Normalize(raw, format).Some?
    ensures var n := Normalize(raw, format).value;
      && ("ID" !in raw ==> n.id == Null)
      && ("GUID" !in raw ==> n.guid == Null)
      && ("TITLE" !in raw ==> n.title == Null)
      && ("SUBTITLE" !in raw ==> n.subtitle == Null)
      && ("BODY" !in raw ==> n.content == Str(""))
      && ("PUBLISHED_ON" !in raw ==> n.publishedTimestamp == Null && format(Int(0)) == Some(n.publishedDate))
      && ("URL" !in raw ==> n.url == Null)
      && ("IMAGE_URL" !in raw ==> n.imageUrl == Null)
      && ("AUTHORS" !in raw ==> n.authors == Str(""))
      && ("SOURCE_ID" !in raw ==> n.sourceId == Null)
      && ("KEYWORDS" !in raw ==> n.keywords == Str(""))
      && ("LANG" !in raw ==> n.language == Str("EN"))
      && ("UPVOTES" !in raw ==> n.upvotes == Int(0))
      && ("DOWNVOTES" !in raw ==> n.downvotes == Int(0))
      && ("SCORE" !in raw ==> n.score == Int(0))
      && ("SENTIMENT" !in raw ==> n.sentiment == Str("NEUTRAL"))
      && ("STATUS" !in raw ==> n.status == Str("ACTIVE"))
  {
  }

  /** Every present key is copied unchanged into the row, whatever JSON value
      it holds; with `MissingKeysTakeDefaults` each field is either the stored
      value or the default. */
  lemma PresentKeysAreCopied(raw: RawArticle, format: DateFormatter)
    requires Normalize(raw, format).Some?
    ensures var n := Normalize(raw, format).value;
      && ("ID" in raw ==> n.id == raw["ID"])
      && ("GUID" in raw ==> n.guid == raw["GUID"])
      && ("TITLE" in raw ==> n.title == raw["TITLE"])
      && ("SUBTITLE" in raw ==> n.subtitle == raw["SUBTITLE"])
      && ("BODY" in raw ==> n.content == raw["BODY"])
      && ("PUBLISHED_ON" in raw ==>
            n.publishedTimestamp == raw["PUBLISHED_ON"] && format(raw["PUBLISHED_ON"]) == Some(n.publishedDate))
      && ("URL" in raw ==> n.url == raw["URL"])
      && ("IMAGE_URL" in raw ==> n.imageUrl == raw["IMAGE_URL"])
      && ("AUTHORS" in raw ==> n.authors == raw["AUTHORS"])
      && ("SOURCE_ID" in raw ==> n.sourceId == raw["SOURCE_ID"])
      && ("KEYWORDS" in raw ==> n.keywords == raw["KEYWORDS"])
      && ("LANG" in raw ==> n.language == raw["LANG"])
      && ("UPVOTES" in raw ==> n.upvotes == raw["UPVOTES"])
      && ("DOWNVOTES" in raw ==> n.downvotes == raw["DOWNVOTES"])
      && ("SCORE" in raw ==> n.score == raw["SCORE"])
      && ("SENTIMENT" in raw ==> n.sentiment == raw["SENTIMENT"])
      && ("STATUS" in raw ==> n.status == raw["STATUS"])
  {
  }

  /** The empty record normalises exactly when epoch zero can be formatted,
      and then yields the all-defaults row. */
  lemma EmptyRecordIsAllDefaults(format: DateFormatter)
    ensures Normalize(map[], format).Some? <==> format(Int(0)).Some?
    ensures format(Int(0)).Some? ==>
      Normalize(map[], format) == Some(NormalizedArticle(
        Null, Null, Null, Null, Str(""), format(Int(0)).value, Null, Null, Null,
        Str(""), Null, Str(""), Str("EN"), Int(0), Int(0), Int(0), Str("NEUTRAL"), Str("ACTIVE")))
  {
  }

  /** The raw article carrying exactly the fields of a normalised row. */
  function ToRaw(n: NormalizedArticle): (raw: RawArticle)
    ensures raw.Keys == SourceKeys
    ensures raw["ID"] == n.id && raw["GUID"] == n.guid && raw["TITLE"] == n.title
    ensures raw["SUBTITLE"] == n.subtitle && raw["BODY"] == n.content
    ensures raw["PUBLISHED_ON"] == n.publishedTimestamp && raw["URL"] == n.url
    ensures raw["IMAGE_URL"] == n.imageUrl && raw["AUTHORS"] == n.authors
    ensures raw["SOURCE_ID"] == n.sourceId && raw["KEYWORDS"] == n.keywords
    ensures raw["LANG"] == n.language && raw["UPVOTES"] == n.upvotes
    ensures raw["DOWNVOTES"] == n.downvotes && raw["SCORE"] == n.score
    ensures raw["SENTIMENT"] == n.sentiment && raw["STATUS"] == n.status
  {
    map[
      "ID" := n.id, "GUID" := n.guid, "TITLE" := n.title, "SUBTITLE" := n.subtitle,
      "BODY" := n.content, "PUBLISHED_ON" := n.publishedTimestamp, "URL" := n.url,
      "IMAGE_URL" := n.imageUrl, "AUTHORS" := n.authors, "SOURCE_ID" := n.sourceId,
      "KEYWORDS" := n.keywords, "LANG" := n.language, "UPVOTES" := n.upvotes,
      "DOWNVOTES" := n.downvotes, "SCORE" := n.score, "SENTIMENT" := n.sentiment,
      "STATUS" := n.status]
  }

  /** Present keys are copied unchanged: a row whose date is the formatting of
      its own timestamp is recovered from its raw form. */
  lemma NormalizeToRaw(n: NormalizedArticle, format: DateFormatter)
    requires format(n.publishedTimestamp) == Some(n.publishedDate)
    ensures Normalize(ToRaw(n), format) == Some(n)
  {
    PresentKeysAreCopied(ToRaw(n), format);
  }

  /** A raw article holding every source key, and nothing else, is recovered
      from its normalised row: normalisation loses nothing but the extra keys. */
  lemma ToRawNormalize(raw: RawArticle, format: DateFormatter)
    requires raw.Keys == SourceKeys
    requires Normalize(raw, format).Some?
    ensures ToRaw(Normalize(raw, format).value) == raw
  {
  }

  /** Keys outside the source schema have no influence on the row. */
  lemma ExtraKeysIgnored(raw: RawArticle, extra: RawArticle, format: DateFormatter)
    requires extra.Keys !! SourceKeys
    ensures Normalize(raw + extra, format) == Normalize(raw, format)
  {
  }

  /** The rows `process_article_data` builds: the normalisations of the
      articles, in order, with the failing ones left out. */
  function Processed(articles: seq<RawArticle>, format: DateFormatter): (rows: seq<NormalizedArticle>)
    ensures |rows| <= |articles|
    decreases |articles|
  {
    if |articles| == 0 then []
    else
      var rest := Processed(articles[..|articles| - 1], format);
      match Normalize(articles[|articles| - 1], format)
      case Some(row) => rest + [row]
      case None => rest
  }

  /** The positions of the articles that normalise, in increasing order. */
  function Survivors(articles: seq<RawArticle>, format: DateFormatter): (idx: seq<nat>)
    ensures forall j :: 0 <= j < |idx| ==> idx[j] < |articles| && Normalize(articles[idx[j]], format).Some?
    ensures forall j, j' :: 0 <= j < j' < |idx| ==> idx[j] < idx[j']
    ensures forall i :: 0 <= i < |articles| && Normalize(articles[i], format).Some? ==> i in idx
    decreases |articles|
  {
    if |articles| == 0 then []
    else
      var last := |articles| - 1;
      var rest := Survivors(articles[..last], format);
      assert forall j :: 0 <= j < |rest| ==> articles[..last][rest[j]] == articles[rest[j]];
      if Normalize(articles[last], format).Some? then rest + [last] else rest
  }

  /** The j-th row is the normalisation of the j-th surviving article: the
      output keeps input order and drops exactly the articles that fail. */
  lemma {:induction false} ProcessedAreSurvivorRows(articles: seq<RawArticle>, format: DateFormatter)
    ensures |Processed(articles, format)| == |Survivors(articles, format)|
    ensures forall j :: 0 <= j < |Survivors(articles, format)| ==>
      Processed(articles, format)[j] == Normalize(articles[Survivors(articles, format)[j]], format).value
    decreases |articles|
  {
    if |articles| > 0 {
      var last := |articles| - 1;
      var front := articles[..last];
      ProcessedAreSurvivorRows(front, format);
      var rows, idx := Processed(front, format), Survivors(front, format);
      assert forall j :: 0 <= j < |idx| ==> rows[j] == Normalize(articles[idx[j]], format).value by {
        forall j | 0 <= j < |idx|
          ensures rows[j] == Normalize(articles[idx[j]], format).value
        {
          assert front[idx[j]] == articles[idx[j]];
        }
      }
      if Normalize(articles[last], format).Some? {
        assert Processed(articles, format) == rows + [Normalize(articles[last], format).value];
        assert Survivors(articles, format) == idx + [last];
      } else {
        assert Processed(articles, format) == rows;
        assert Survivors(articles, format) == idx;
      }
    }
  }

  /** Processing distributes over concatenation: each article is handled on
      its own, independently of its neighbours. */
  lemma {:induction false} ProcessedAppend(a: seq<RawArticle>, b: seq<RawArticle>, format: DateFormatter)
    ensures Processed(a + b, format) == Processed(a, format) + Processed(b, format)
    decreases |b|
  {
    if |b| == 0 {
      assert a + b == a;
    } else {
      var last := |b| - 1;
      assert (a + b)[..|a + b| - 1] == a + b[..last];
      assert (a + b)[|a + b| - 1] == b[last];
      ProcessedAppend(a, b[..last], format);
    }
  }

  /** When every article's date can be formatted, nothing is dropped. */
  lemma {:induction false} AllFormattedKeepsAll(articles: seq<RawArticle>, format: DateFormatter)
    requires forall i :: 0 <= i < |articles| ==> Normalize(articles[i], format).Some?
    ensures |Processed(articles, format)| == |articles|
    ensures forall i :: 0 <= i < |articles| ==>
      Processed(articles, format)[i] == Normalize(articles[i], format).value
    decreases |articles|
  {
    if |articles| > 0 {
      var last := |articles| - 1;
      var front := articles[..last];
      assert forall i :: 0 <= i < |front| ==> front[i] == articles[i];
      AllFormattedKeepsAll(front, format);
    }
  }

  /** `process_article_data`: normalises each article in turn, skipping the
      ones whose processing raises. */
  method ProcessArticleData(articles: seq<RawArticle>, format: DateFormatter)
    returns (rows: seq<NormalizedArticle>)
    ensures rows == Processed(articles, format)
  {
    rows := [];
    var i := 0;
    while i < |articles|
      invariant 0 <= i <= |articles|
      invariant rows == Processed(articles[..i], format)
    {
      assert articles[..i + 1][..i] == articles[..i];
      var normalized := Normalize(articles[i], format);
      if normalized.Some? {
        rows := rows + [normalized.value];
      }
      i := i + 1;
    }
    assert articles[..i] == articles;
  }
}
