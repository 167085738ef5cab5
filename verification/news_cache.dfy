/**
 * The source registry, one update run over all sources (`updateNews`) and
 * the read side of the cache (`getNews`).
 *
 * The network fetch and the HTML selection of a source are one opaque
 * collaborator `fetch`: it either yields the matched elements of the page
 * or fails, in which case `scrapeArticle` logs and contributes nothing.
 */
module NewsCache {
  import opened Wrappers
  import opened Topics
  import opened Entities
  import opened Seqs
  import opened Scraper

  /** The selectors a source is scraped with: one set per source. */
  datatype Selectors = Selectors(articles: string, title: string, content: string)

  datatype Source = Source(name: string, url: string, selectors: Selectors)

  /** What fetching and selecting one source produced. */
  datatype FetchOutcome = Fetched(elements: seq<Element>) | Failed

  /** The cache slot: empty before the first run, replaced wholesale by each run. */
  datatype Cache = Cache(articles: seq<Article>)

  const Initial: Cache := Cache([])

  const Sources: seq<Source> := [
    Source("Times of India", "https://timesofindia.indiatimes.com/india",
      Selectors(".main-content article", "span.title", "p.synopsis")),
    Source("Economic Times", "https://economictimes.indiatimes.com/news/india",
      Selectors(".article", ".title", ".synopsis")),
    Source("Hindustan Times", "https://www.hindustantimes.com/india-news",
      Selectors(".hdg3", "h3.hdg3", ".sortDec")),
    Source("News18", "https://www.news18.com/india/",
      Selectors(".jsx-3621759782", ".jsx-3621759782 h4", ".jsx-3621759782 p")),
    Source("India Today", "https://www.indiatoday.in/india",
      Selectors(".B1S3_content__wrap__9mSB6", ".B1S3_story__title__9qn_v", ".B1S3_story__shortcontent__5kVZf"))
  ]

  /** A built-in sample record; its summary, sentiment, entities and link are not reproduced. */
  function Sample(source: string, title: string, topic: Category): Article
  {
    Article(source, title, "", topic, "", Entities([], []), None)
  }

  /** The sample records a run stores when no source yielded anything. */
  const RunFallback: seq<Article> := [
    Sample("Times of India", "Government Announces Major Policy Changes", Politics),
    Sample("Times of India", "Stock Market Hits New High", Business),
    Sample("Times of India", "New Education Policy Implementation", Politics),
    Sample("Times of India", "Tech Giants Invest in India", Technology),
    Sample("Times of India", "Climate Change Impact on Agriculture", Agriculture),
    Sample("NDTV", "Election Results Analysis", Politics),
    Sample("NDTV", "India vs Australia: Match Preview", Sports),
    Sample("NDTV", "Healthcare System Reform", Politics),
    Sample("NDTV", "Space Mission Success", Technology),
    Sample("NDTV", "Economic Growth Forecast", Business),
    Sample("India Today", "AI Innovation in Indian Startups", Technology),
    Sample("India Today", "Defense Deal Announced", Politics),
    Sample("India Today", "Tourism Sector Recovery", Business),
    Sample("India Today", "Sports Infrastructure Development", Sports),
    Sample("India Today", "Environmental Protection Initiative", Politics)
  ]

  /** The sample records served while the cache is empty. */
  const ServeFallback: seq<Article> := [
    Sample("Times of India", "Government Announces Major Policy Changes", Politics),
    Sample("Times of India", "Stock Market Hits New High", Business),
    Sample("Times of India", "New Education Policy Implementation", Politics),
    Sample("NDTV", "Election Results Analysis", Politics),
    Sample("NDTV", "India vs Australia: Match Preview", Sports),
    Sample("NDTV", "Healthcare System Reform", Politics),
    Sample("India Today", "AI Innovation in Indian Startups", Technology),
    Sample("India Today", "Defense Deal Announced", Politics),
    Sample("India Today", "Tourism Sector Recovery", Business)
  ]

  /** Every record of the cache carries a title. */
  predicate Titled(articles: seq<Article>)
  {
    forall a :: a in articles ==> a.title != ""
  }

  /** What `scrapeArticle(source)` resolves to. */
  function SourceArticles(source: Source, fetch: Source -> FetchOutcome, nlp: Nlp): (r: seq<Article>)
    ensures |r| <= MaxPerSource
    ensures fetch(source).Failed? ==> r == []
    ensures Titled(r)
  {
    match fetch(source)
    case Failed => []
    case Fetched(elements) =>
      ConvertWellFormed(source.name, elements[..Min(|elements|, MaxPerSource)], nlp);
      ScrapeResult(source.name, elements, nlp)
  }

  function SourceRecords(fetch: Source -> FetchOutcome, nlp: Nlp): Source -> seq<Article>
  {
    source => SourceArticles(source, fetch, nlp)
  }

  /** The concatenation of the sources' records, in registry order. */
  function Collect(sources: seq<Source>, fetch: Source -> FetchOutcome, nlp: Nlp): (r: seq<Article>)
    ensures |r| <= MaxPerSource * |sources|
  {
    FlattenBound(SourceRecords(fetch, nlp), sources, MaxPerSource);
    Flatten(SourceRecords(fetch, nlp), sources)
  }

  /** Every collected record has a title. */
  lemma {:induction false} CollectTitled(sources: seq<Source>, fetch: Source -> FetchOutcome, nlp: Nlp)
    ensures Titled(Collect(sources, fetch, nlp))
    decreases |sources|
  {
    if |sources| > 0 {
      CollectTitled(sources[..|sources| - 1], fetch, nlp);
      var last := sources[|sources| - 1];
      match fetch(last)
      case Failed =>
      case Fetched(elements) =>
        ConvertWellFormed(last.name, elements[..Min(|elements|, MaxPerSource)], nlp);
    }
  }

  /** A run over a registry split in two is the first part's records followed by the second's. */
  lemma CollectAppend(xs: seq<Source>, ys: seq<Source>, fetch: Source -> FetchOutcome, nlp: Nlp)
    ensures Collect(xs + ys, fetch, nlp) == Collect(xs, fetch, nlp) + Collect(ys, fetch, nlp)
  {
    FlattenAppend(SourceRecords(fetch, nlp), xs, ys);
  }

  /** A failing source is simply skipped: the others' records are unaffected. */
  lemma FailedSourceSkipped(sources: seq<Source>, i: nat, fetch: Source -> FetchOutcome, nlp: Nlp)
    requires i < |sources| && fetch(sources[i]).Failed?
    ensures Collect(sources, fetch, nlp) == Collect(sources[..i], fetch, nlp) + Collect(sources[i + 1..], fetch, nlp)
  {
    var pre, post := sources[..i], sources[i + 1..];
    var tail := [sources[i]] + post;
    assert sources == pre + tail;
    CollectAppend(pre, tail, fetch, nlp);
    CollectAppend([sources[i]], post, fetch, nlp);
    FlattenOne(SourceRecords(fetch, nlp), sources[i]);
    assert Collect(tail, fetch, nlp) == Collect(post, fetch, nlp);
  }

  /** When every source fails the run collects nothing. */
  lemma AllFailedCollectsNothing(sources: seq<Source>, fetch: Source -> FetchOutcome, nlp: Nlp)
    requires forall i :: 0 <= i < |sources| ==> fetch(sources[i]).Failed?
    ensures Collect(sources, fetch, nlp) == []
  {
    FlattenEmpty(SourceRecords(fetch, nlp), sources);
  }

  /** `scrapeArticle(source)`: the fetch fails and yields nothing, or the matched elements are processed. */
  method ScrapeArticle(source: Source, fetch: Source -> FetchOutcome, nlp: Nlp) returns (articles: seq<Article>)
    ensures articles == SourceArticles(source, fetch, nlp)
  {
    match fetch(source)
    case Failed =>
      articles := [];
    case Fetched(elements) =>
      articles := ScrapeElements(source.name, elements, nlp);
  }

  /** The `for ... of sources` loop of `updateNews`: each source's records appended in turn. */
  method ScrapeAll(sources: seq<Source>, fetch: Source -> FetchOutcome, nlp: Nlp) returns (all: seq<Article>)
    ensures all == Collect(sources, fetch, nlp)
  {
    all := [];
    for i := 0 to |sources|
      invariant all == Flatten(SourceRecords(fetch, nlp), sources[..i])
    {
      FlattenTake(SourceRecords(fetch, nlp), sources, i);
      var articles := ScrapeArticle(sources[i], fetch, nlp);
      all := all + articles;
    }
    assert sources[..|sources|] == sources;
  }

  /**
   * The end of `updateNews()`: a run that collected records stores them,
   * a run that collected nothing stores the run samples instead.
   */
  function Refresh(all: seq<Article>): (c: Cache)
    ensures all != [] ==> c.articles == all
    ensures all == [] ==> c.articles == RunFallback
    ensures c.articles != []
    ensures Titled(all) ==> Titled(c.articles)
  {
    if |all| > 0 then Cache(all) else Cache(RunFallback)
  }

  /**
   * `updateNews()`: scrape the sources one after another and store their
   * records, or the sample records when there are none. The previous cache
   * contents play no part, and readers afterwards get exactly what was
   * stored: at most five records per source, or the run samples.
   */
  method UpdateNews(fetch: Source -> FetchOutcome, nlp: Nlp) returns (cache: Cache)
    ensures cache == Refresh(Collect(Sources, fetch, nlp))
    ensures Titled(cache.articles)
    ensures GetNews(cache) == cache.articles
    ensures |cache.articles| <= MaxPerSource * |Sources| || cache.articles == RunFallback
  {
    var all := ScrapeAll(Sources, fetch, nlp);
    CollectTitled(Sources, fetch, nlp);
    cache := Refresh(all);
  }

  /** `getNews()`: the cache, or the serving samples while the cache is empty. */
  function GetNews(cache: Cache): (r: seq<Article>)
    ensures r != []
    ensures cache.articles != [] ==> r == cache.articles
    ensures cache.articles == [] ==> r == ServeFallback
    ensures Titled(cache.articles) ==> Titled(r)
  {
    if |cache.articles| == 0 then ServeFallback else cache.articles
  }

  /** Before the first run completes the cache is empty and readers get the serving samples. */
  lemma ServeBeforeFirstRun()
    ensures GetNews(Initial) == ServeFallback
    ensures Initial.articles == []
  {
  }
}
