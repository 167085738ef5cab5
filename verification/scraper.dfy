/**
 * The per-element part of `scrapeArticle`: recovering a title and content
 * from the texts found for one matched element, assembling the article
 * record, and keeping at most five records per source in element order.
 *
 * Fetching, HTML parsing and CSS selection are outside the model: each
 * matched element arrives as an `Element` holding the already-trimmed texts
 * of its title and content selections, of the element itself, and the
 * `href` of its first anchor.
 */
module Scraper {
  import opened Wrappers
  import opened Strings
  import opened Seqs
  import opened Topics
  import opened Entities

  datatype Element = Element(titleText: string, contentText: string, elementText: string, href: Option<string>)

  /** Title and content of one element after recovery. */
  datatype Fields = Fields(title: string, content: string)

  /**
   * The natural-language collaborators: the AFINN sentiment score of a
   * token list, already formatted with two decimals, and the word tokenizer.
   */
  datatype Nlp = Nlp(sentiment: seq<string> -> string, tokenize: string -> seq<string>)

  datatype Article = Article(
    source: string,
    title: string,
    summary: string,
    topic: Category,
    sentiment: string,
    entities: Entities,
    url: Option<string>)

  /** Longest title taken from a first sentence before it is cut. */
  const TitleLimit: nat := 60
  const Ellipsis: string := "..."
  /** Number of space-separated tokens kept in a summary. */
  const SummaryTokens: nat := 30
  /** Elements processed per source. */
  const MaxPerSource: nat := 5
  const Placeholder: string := "Untitled Article"

  /** Content after the fallback: the element's own text when the content selection is empty. */
  function Body(e: Element): (r: string)
    ensures r == "" <==> e.contentText == "" && e.elementText == ""
    ensures r == e.contentText || r == e.elementText
    ensures e.contentText != "" ==> r == e.contentText
  {
    if e.contentText != "" then e.contentText else e.elementText
  }

  /** The first sentence of `s` (up to the first ".") is longer than the title limit. */
  predicate LongFirstSentence(s: string)
  {
    |s| > TitleLimit && '.' !in s[..TitleLimit + 1]
  }

  /**
   * Title and content recovery. When no title was found, the first sentence
   * of the content becomes the title (cut to 60 characters plus "..." when
   * longer), and the content loses as many leading characters as the title
   * has: the sentence itself when it is short, so the content then starts
   * at the ".", but 63 characters when it was cut.
   */
  function RecoverFields(e: Element): (f: Fields)
    ensures e.titleText != "" ==> f == Fields(e.titleText, Body(e))
    ensures e.titleText == "" && Body(e) == "" ==> f == Fields("", "")
    ensures e.titleText == "" && LongFirstSentence(Body(e)) ==>
      f == Fields(Body(e)[..TitleLimit] + Ellipsis, Drop(Body(e), TitleLimit + |Ellipsis|))
    ensures e.titleText == "" && Body(e) != "" && !LongFirstSentence(Body(e)) ==>
      && Body(e) == f.title + f.content
      && '.' !in f.title
      && (f.content == "" || f.content[0] == '.')
  {
    var content := Body(e);
    if e.titleText == "" && content != "" then
      var firstSentence := Split(content, '.')[0];
      assert |firstSentence| > TitleLimit ==> content[..TitleLimit + 1] == firstSentence[..TitleLimit + 1];
      assert |firstSentence| <= TitleLimit < |content| ==> content[..TitleLimit + 1][|firstSentence|] == '.';
      var title := if |firstSentence| > TitleLimit then firstSentence[..TitleLimit] + Ellipsis else firstSentence;
      Fields(title, Drop(content, |title|))
    else
      Fields(e.titleText, content)
  }

  /** Two ways of cutting `s` into a "."-free head and a rest that is empty
      or starts at a "." agree: the head is the first sentence. */
  lemma FirstSentenceUnique(s: string, t1: string, c1: string, t2: string, c2: string)
    requires s == t1 + c1 && s == t2 + c2
    requires '.' !in t1 && '.' !in t2
    requires c1 == "" || c1[0] == '.'
    requires c2 == "" || c2[0] == '.'
    ensures t1 == t2 && c1 == c2
  {
    assert forall j :: 0 <= j < |t1| ==> s[j] != '.';
    assert forall j :: 0 <= j < |t2| ==> s[j] != '.';
    assert c1 != "" ==> s[|t1|] == '.';
    assert c2 != "" ==> s[|t2|] == '.';
    assert |t1| == |t2|;
    assert t1 == s[..|t1|] && t2 == s[..|t2|];
  }

  /** A short "."-free first sentence is taken whole as the title. */
  lemma ShortSentenceTitle(e: Element)
    requires e.titleText == "" && Body(e) != "" && !LongFirstSentence(Body(e))
    ensures RecoverFields(e).title == Split(Body(e), '.')[0]
    ensures |RecoverFields(e).title| <= TitleLimit
  {
  }

  /** `content.split(" ").slice(0, 30).join(" ") + "..."` */
  function Summary(content: string): (s: string)
    ensures EndsWith(s, Ellipsis)
  {
    var tokens := Split(content, ' ');
    var kept := if |tokens| <= SummaryTokens then |tokens| else SummaryTokens;
    Join(tokens[..kept], ' ') + Ellipsis
  }

  /**
   * A summary is the content up to (not including) its 30th space, followed
   * by "...": the whole content when it has fewer than 30 spaces.
   */
  lemma SummaryShape(content: string)
    ensures var s := Summary(content);
      var body := s[..|s| - |Ellipsis|];
      && IsPrefix(body, content)
      && (Count(content, ' ') < SummaryTokens ==> body == content)
      && (Count(content, ' ') >= SummaryTokens ==> Count(body, ' ') == SummaryTokens - 1 && |body| < |content| && content[|body|] == ' ')
  {
    var tokens := Split(content, ' ');
    var kept := if |tokens| <= SummaryTokens then |tokens| else SummaryTokens;
    var body := Join(tokens[..kept], ' ');
    var s := Summary(content);
    assert s == body + Ellipsis;
    assert s[..|s| - |Ellipsis|] == body;
    JoinSplit(content, ' ');
    JoinPrefix(tokens, kept, ' ');
    if Count(content, ' ') < SummaryTokens {
      assert tokens[..kept] == tokens;
    } else {
      JoinCount(tokens[..kept], ' ');
    }
  }

  /** The text that topic, sentiment and entities are computed from: `content || title`. */
  function AnalysedText(f: Fields): (r: string)
    ensures r == "" <==> f.title == "" && f.content == ""
    ensures r == f.content || r == f.title
    ensures f.content != "" ==> r == f.content
  {
    if f.content != "" then f.content else f.title
  }

  /**
   * One pass of the `.each` callback: `None` when the element is skipped
   * for lacking both title and content.
   */
  function ToArticle(source: string, e: Element, nlp: Nlp): (r: Option<Article>)
    ensures r.None? <==> e.titleText == "" && e.contentText == "" && e.elementText == ""
    ensures r.Some? ==>
      && r.value.source == source
      && r.value.url == e.href
      && r.value.title != ""
      && (r.value.title == Placeholder <== RecoverFields(e).title == "")
      && EndsWith(r.value.summary, Ellipsis)
      && r.value.summary == Summary(RecoverFields(e).content)
      && AnalysedText(RecoverFields(e)) != ""
    ensures r.Some? ==>
      && (RecoverFields(e).title != "" || RecoverFields(e).content != "")
      && r.value == BuildArticle(source, RecoverFields(e), e.href, nlp)
  {
    var f := RecoverFields(e);
    if f.title != "" || f.content != "" then Some(BuildArticle(source, f, e.href, nlp)) else None
  }

  /** The record pushed for recovered fields of which at least one is non-empty. */
  function BuildArticle(source: string, f: Fields, url: Option<string>, nlp: Nlp): (a: Article)
    requires f.title != "" || f.content != ""
    ensures a.source == source && a.url == url
    ensures a.title != "" && a.title == if f.title != "" then f.title else Placeholder
    ensures a.summary == Summary(f.content)
    ensures AnalysedText(f) != ""
    ensures a.topic == Categorize(AnalysedText(f))
    ensures a.entities == ExtractEntities(AnalysedText(f), nlp.tokenize(AnalysedText(f)))
    ensures a.sentiment == nlp.sentiment(Split(AnalysedText(f), ' '))
  {
    var summary := Summary(f.content);
    var text := AnalysedText(f);
    Article(
      source,
      if f.title != "" then f.title else Placeholder,
      if summary != "" then summary else f.title,
      Categorize(text),
      nlp.sentiment(Split(text, ' ')),
      ExtractEntities(text, nlp.tokenize(text)),
      url)
  }

  function Records(r: Option<Article>): seq<Article>
  {
    match r
    case Some(a) => [a]
    case None => []
  }

  /** The records one element gives: none or one. */
  function ElementRecords(source: string, nlp: Nlp): Element -> seq<Article>
  {
    e => Records(ToArticle(source, e, nlp))
  }

  /** The records for a list of elements, in element order, skipping blank elements. */
  function Convert(source: string, es: seq<Element>, nlp: Nlp): (r: seq<Article>)
    ensures |r| <= |es|
  {
    FlattenBound(ElementRecords(source, nlp), es, 1);
    Flatten(ElementRecords(source, nlp), es)
  }

  /** A well-formed record: it names its source, has a title, and its summary ends in "...". */
  predicate WellFormed(source: string, a: Article)
  {
    a.source == source && a.title != "" && EndsWith(a.summary, Ellipsis)
  }

  /** Every record built from a page is well formed. */
  lemma {:induction false} ConvertWellFormed(source: string, es: seq<Element>, nlp: Nlp)
    ensures forall a :: a in Convert(source, es, nlp) ==> WellFormed(source, a)
    decreases |es|
  {
    if |es| > 0 {
      ConvertWellFormed(source, es[..|es| - 1], nlp);
    }
  }

  /** Records come out in element order: converting two runs of elements
      one after the other is the same as converting them together. */
  lemma ConvertAppend(source: string, xs: seq<Element>, ys: seq<Element>, nlp: Nlp)
    ensures Convert(source, xs + ys, nlp) == Convert(source, xs, nlp) + Convert(source, ys, nlp)
  {
    FlattenAppend(ElementRecords(source, nlp), xs, ys);
  }

  /** One element yields one record, or none exactly when it is blank. */
  lemma ConvertOne(source: string, e: Element, nlp: Nlp)
    ensures |Convert(source, [e], nlp)| == if e.titleText == "" && e.contentText == "" && e.elementText == "" then 0 else 1
    ensures Convert(source, [e], nlp) == Records(ToArticle(source, e, nlp))
  {
    FlattenOne(ElementRecords(source, nlp), e);
  }

  /** The records of one fetched page: only the first five matched elements count. */
  function ScrapeResult(source: string, es: seq<Element>, nlp: Nlp): (r: seq<Article>)
    ensures |r| <= MaxPerSource
  {
    Convert(source, es[..Min(|es|, MaxPerSource)], nlp)
  }

  /** Elements after the fifth never change a source's records. */
  lemma LaterElementsIgnored(source: string, es: seq<Element>, more: seq<Element>, nlp: Nlp)
    requires |es| >= MaxPerSource
    ensures ScrapeResult(source, es + more, nlp) == ScrapeResult(source, es, nlp)
  {
    assert (es + more)[..MaxPerSource] == es[..MaxPerSource];
  }

  /** The `.each` loop over the matched elements, processing index `i` only when `i < 5`. */
  method ScrapeElements(source: string, elements: seq<Element>, nlp: Nlp) returns (articles: seq<Article>)
    ensures articles == ScrapeResult(source, elements, nlp)
  {
    articles := FlattenFirst(ElementRecords(source, nlp), elements, MaxPerSource);
  }
}
