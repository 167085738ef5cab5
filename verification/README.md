# News scraper core, modelled in Dafny

The news backend harvests articles from five Indian news sites, turns each
matched page element into an article record (title, summary, topic,
sentiment, named entities, link) and keeps the latest run in an in-memory
cache that the API serves. This project models the pure part of
`src/services/scraper.js`:

- `wrappers.dfy` — the optional value used for a missing `href`.
- `strings.dfy` — the JavaScript string operations the scraper leans on:
  `split` on one character (with its `join` round trips), `includes`,
  `substring(start)` with its clamping, ASCII `toLowerCase`.
- `seqs.dfy` — `filter` and the `[...new Set(xs)]` de-duplication, with the
  first-occurrence order it keeps.
- `topics.dfy` — `categorizeArticle`: keyword table, per-category scores,
  and the `reduce` that picks the best score with ties going to the later
  category.
- `entities.dfy` — `extractEntities`: place names by substring search of the
  lower-cased text, person names as capitalised tokens without repeats.
- `scraper.dfy` — the per-element callback of `scrapeArticle`: content
  fallback, title taken from the first sentence, the keep/skip rule, the
  30-token summary, the "Untitled Article" placeholder, and the cap of five
  elements per source.
- `news_cache.dfy` — the source registry, `scrapeArticle` with its failure
  path, `updateNews` (concatenation in registry order, sample records when a
  run yields nothing) and `getNews`.

Foreign collaborators are parameters: `fetch` (the HTTP request plus cheerio
selection, yielding the matched elements or a failure), `Nlp.sentiment`
(AFINN scoring and `toFixed(2)`, from the token list to a string) and
`Nlp.tokenize` (natural's `WordTokenizer`). Each matched element is an
`Element` holding the trimmed text of its title selection, of its content
selection, of the whole element, and the `href` of its first anchor.

Behaviour of the code worth knowing:

- Topic ties go to the LATER category (`a[1] > b[1] ? a : b` keeps the
  accumulated entry only when strictly greater), so text with no keyword hit
  is classified `business`, not `politics`.
- Words are split on a single space, not on any whitespace.
- After a title is taken from the first sentence, the content keeps the
  ".": `"Breaking news today. Markets surge sharply."` leaves the content
  `". Markets surge sharply."` (see `Scraper.RecoverFields`).
- A cut title is 63 characters long (60 plus "..."), and the content then
  loses 63 characters, three more than the title shows. So content of 61 to
  63 characters whose first 61 characters hold no "." is left empty, even
  when a "." stands at index 61 or 62.
- Each source is scraped with its one selector set; the link is the raw
  `href`, not resolved against the source URL.
- The keyword "AI" is upper case while the words are lower-cased, so it never
  matches (`Topics.AiNeverMatches`).

## Model

| member | source | states |
|---|---|---|
| Strings.Split | src/services/scraper.js:155 | `split(".")` yields one piece more than there are separators, no piece holds the separator, and the first piece is the prefix up to the first separator (or the whole string) |
| Strings.JoinSplit | src/services/scraper.js:172 | joining the pieces of `split(" ")` with " " gives back the original string |
| Strings.SplitJoin | src/services/scraper.js:172 | splitting a join of separator-free pieces gives back those pieces |
| Strings.JoinPrefix | src/services/scraper.js:172 | the join of the first k pieces is a prefix of the whole join, followed by one separator and the rest |
| Strings.Drop | src/services/scraper.js:160 | `substring(start)` is the suffix after `start`, and "" when `start` is past the end |
| Strings.Lower | src/services/scraper.js:93 | `toLowerCase` keeps the length and lower-cases each ASCII capital in place, leaving every other character alone |
| Strings.Contains | src/services/scraper.js:98 | `includes` needs the key to fit inside the string, and a key the string starts with (the empty key in particular) is found |
| Strings.Join | src/services/scraper.js:172 | `join` starts with the first piece; with `JoinSplit` and `SplitJoin` it is the inverse of `split` |
| Seqs.Filter | src/services/scraper.js:111-113 | `filter` keeps exactly the elements satisfying the predicate, each as often as it occurs, in their original order |
| Seqs.Dedup | src/services/scraper.js:122 | the de-duplicated list has the same elements as the input and no repeats |
| Seqs.DedupOrder | src/services/scraper.js:122 | de-duplication lists elements in the order of their first occurrence |
| Seqs.DedupBySet | src/services/scraper.js:122 | inserting into a `Set` and spreading it gives the same list as `Dedup` |
| Topics.LastMaxIndex | src/services/scraper.js:102 | the `reduce` picks a maximal score and every later entry scores strictly less, so ties go to the later entry |
| Topics.Keywords | src/services/scraper.js:85-91 | every category has five keywords and none is empty, so the empty word (what two adjacent spaces split into) holds no keyword |
| Topics.Words | src/services/scraper.js:93 | the lower-cased text splits into one word more than it has spaces, and no word holds a space |
| Topics.Score | src/services/scraper.js:96-100 | a category's score never exceeds the number of words; `ScoreIsFilterLength` fixes its value |
| Topics.ScoreIsFilterLength | src/services/scraper.js:96-100 | the score is the length of `words.filter(...)` keeping the words that hold one of the keywords |
| Topics.TopicScore | src/services/scraper.js:96-100 | the score of a category for a text is at most the number of words of the text; `TopicScoreCountsWords` fixes its value |
| Topics.TopicScoreCountsWords | src/services/scraper.js:93-100 | a category's score for a text is the number of the text's lower-cased, space-separated words that hold one of the category's keywords |
| Topics.Scores | src/services/scraper.js:94-102 | one score per category, in table order, each the category's `TopicScore` |
| Topics.Categorize | src/services/scraper.js:84-103 | the chosen category has the highest score, and every category after it in the table scores strictly less |
| Topics.ScoreZero | src/services/scraper.js:96-100 | a category scores 0 when no word contains any of its keywords |
| Topics.NoHitsIsBusiness | src/services/scraper.js:96-102 | text with no keyword hit in any category is classified business |
| Topics.AiNeverMatches | src/services/scraper.js:89-98 | no lower-cased word contains the keyword "AI" |
| Topics.TechnologyIgnoresAi | src/services/scraper.js:89-98 | the technology score equals the score with "AI" removed from its keyword list |
| Entities.ExtractEntities | src/services/scraper.js:105-124 | states are exactly the listed names occurring in the lower-cased text, in list order; people are exactly the tokens matching `^[A-Z][a-z]+$` longer than two characters, without repeats |
| Entities.PeopleInFirstOccurrenceOrder | src/services/scraper.js:116-122 | people are listed in the order of their first occurrence among the tokens |
| Entities.IsPersonToken | src/services/scraper.js:117 | the token matches `^[A-Z][a-z]+$` (one ASCII capital, then only ASCII lower-case letters) and is longer than two characters; such a token differs from its lower-cased form exactly in its first character |
| Seqs.FilterKeepsOrder | src/services/scraper.js:116-118 | filtering preserves the relative order of first occurrences |
| Scraper.RecoverFields | src/services/scraper.js:145-161 | an empty content selection falls back to the element text; with no title, a short first sentence becomes the title and the content keeps the rest from the "."; a first sentence over 60 characters gives a 63-character title and content minus its first 63 characters |
| Scraper.FirstSentenceUnique | src/services/scraper.js:155 | there is only one way to cut a string into a "."-free head and a rest that is empty or starts at "." |
| Scraper.Body | src/services/scraper.js:149-151 | the content after the fallback is the content selection when that is non-empty and the element text otherwise, so it is empty only when both are |
| Scraper.ShortSentenceTitle | src/services/scraper.js:154-161 | when no title was found and the first sentence is at most 60 characters, the title is exactly the first piece of `split(".")`, uncut |
| Scraper.Summary | src/services/scraper.js:172 | the summary always ends in "..." |
| Scraper.SummaryShape | src/services/scraper.js:172 | the summary is the content up to its 30th space, or the whole content when it has fewer than 30 spaces, followed by "..." |
| Scraper.AnalysedText | src/services/scraper.js:174-177 | the analysed text is the content, or the title when the content is empty, and is empty only when both are |
| Scraper.ToArticle | src/services/scraper.js:170-194 | an element is skipped exactly when its title, content and element texts are all empty; a kept record is the one `BuildArticle` makes from the recovered fields and the raw `href`, with the source name, a non-empty title ("Untitled Article" when none was recovered), and a summary that never falls back to the title |
| Scraper.BuildArticle | src/services/scraper.js:172-188 | a pushed record has the source name, the raw `href`, the recovered title or "Untitled Article" when it is empty, the 30-token summary, and topic, sentiment and entities computed from the content, or from the title when the content is empty |
| Scraper.Convert | src/services/scraper.js:179 | a list of elements never yields more records than elements |
| Scraper.ConvertWellFormed | src/services/scraper.js:179-188 | every record built carries its source name, a non-empty title and a summary ending in "..." |
| Scraper.ConvertAppend | src/services/scraper.js:137-196 | records appear in element order: converting two runs of elements equals converting their concatenation |
| Scraper.ConvertOne | src/services/scraper.js:170-193 | a single element gives exactly the record `ToArticle` builds for it: one record, or none exactly when it is blank |
| Scraper.ScrapeResult | src/services/scraper.js:137-138 | a page yields at most five records |
| Scraper.LaterElementsIgnored | src/services/scraper.js:137-138 | elements after the fifth never change a page's records |
| Seqs.FlattenFirst | src/services/scraper.js:137-138 | a loop over all elements that appends only while the index is below the cap yields the concatenated results of the first `cap` elements |
| Seqs.FlattenAppend | src/services/scraper.js:219-223 | the results of a list split in two are the results of the first part followed by those of the second |
| Scraper.ScrapeElements | src/services/scraper.js:137-196 | the `.each` loop with its `i < 5` guard computes the records of the first five elements in order |
| NewsCache.SourceArticles | src/services/scraper.js:205-212 | a source contributes at most five titled records, and none when its scrape fails |
| NewsCache.CollectTitled | src/services/scraper.js:179-223 | every record a run collects has a title |
| NewsCache.CollectAppend | src/services/scraper.js:219-223 | a run collects the sources' records concatenated in registry order |
| NewsCache.FailedSourceSkipped | src/services/scraper.js:205-223 | a failing source is skipped and the other sources' records are unaffected |
| NewsCache.Collect | src/services/scraper.js:219-223 | the records of a run, each source's in registry order, at most five per source |
| NewsCache.AllFailedCollectsNothing | src/services/scraper.js:205-226 | when every source fails nothing is collected |
| NewsCache.ScrapeArticle | src/services/scraper.js:126-213 | `scrapeArticle` returns the page's records, or nothing on failure |
| NewsCache.ScrapeAll | src/services/scraper.js:219-223 | the loop over the registry appends each source's records in registry order |
| NewsCache.Refresh | src/services/scraper.js:225-446 | a run that collected records stores exactly those, a run that collected nothing stores the 15 run samples, so the stored list is never empty |
| NewsCache.UpdateNews | src/services/scraper.js:215-448 | the new cache is what `Refresh` makes of the sources' records in registry order, every stored record has a title, `getNews` then returns exactly what was stored, and that is at most 25 records or the run samples |
| NewsCache.GetNews | src/services/scraper.js:450-586 | `getNews` is never empty: it returns the cache when non-empty and exactly the 9 serving samples otherwise |
| NewsCache.ServeBeforeFirstRun | src/services/scraper.js:14 | before any run has stored records the cache is empty and readers get the 9 serving samples |

## Left out

- HTTP fetching with axios (headers, 15-second timeout) and cheerio parsing
  and selection: network I/O and a foreign library; a source's fetch is the
  input `fetch`, yielding the matched elements or a failure.
- Exceptions thrown while processing a fetched page (inside cheerio or the
  sentiment analyser) are folded into the same `Failed` outcome, which is
  what the `catch` makes of them.
- The AFINN sentiment analyser with Porter stemming and `toFixed(2)`: a
  foreign floating-point computation, modelled as the opaque function
  `Nlp.sentiment`.
- natural's `WordTokenizer`: foreign; its token list is `Nlp.tokenize`.
- `toLowerCase` is modelled for ASCII letters only; strings are sequences
  of characters, whereas JavaScript counts UTF-16 code units, which differs
  for characters outside the Basic Multilingual Plane.
- Timestamps (`new Date()`) and all `console.log`/`console.error` output.
- The literal summaries, sentiments, entities and links of the 15 run
  sample records and the 9 serving sample records: sample data; their
  sources, titles and topics are kept.
- `setupNewsScraping` and the node-cron schedule: timing and concurrency.
  The cache is a value returned by `UpdateNews`; the atomic swap of the
  module-level variable is not modelled.
- `src/index.js` (Express server, CORS, routes, error middleware): I/O
  plumbing.
