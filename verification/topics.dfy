/**
 * The topic classifier: lower-case the text, split it on single spaces,
 * score each category by the number of words containing one of its
 * keywords, and pick the best score, later categories winning ties.
 */
module Topics {
  import opened Strings
  import opened Seqs

  datatype Category = Politics | Sports | Agriculture | Technology | Business

  /** The categories in the order the score table enumerates them. */
  const Categories: seq<Category> := [Politics, Sports, Agriculture, Technology, Business]

  /** Position of a category in `Categories`. */
  function Rank(c: Category): (r: nat)
    ensures r < |Categories| && Categories[r] == c
  {
    match c
    case Politics => 0
    case Sports => 1
    case Agriculture => 2
    case Technology => 3
    case Business => 4
  }

  /** The keyword table. "AI" is written in upper case in the table. */
  function Keywords(c: Category): (r: seq<string>)
    ensures |r| == 5
    ensures forall i :: 0 <= i < |r| ==> |r[i]| > 0
    ensures !HasKeyword("", r)
  {
    match c
    case Politics => ["government", "minister", "election", "party", "parliament"]
    case Sports => ["cricket", "football", "game", "player", "tournament"]
    case Agriculture => ["farmer", "crop", "agriculture", "harvest", "farming"]
    case Technology => ["tech", "digital", "software", "AI", "innovation"]
    case Business => ["market", "economy", "stock", "company", "trade"]
  }

  /** `text.toLowerCase().split(" ")` */
  function Words(text: string): (r: seq<string>)
    ensures |r| == Count(Lower(text), ' ') + 1
    ensures forall i :: 0 <= i < |r| ==> ' ' !in r[i]
  {
    Split(Lower(text), ' ')
  }

  /** Some keyword occurs inside the word (not necessarily the whole word). */
  predicate HasKeyword(word: string, keywords: seq<string>)
  {
    exists k :: k in keywords && Contains(word, k)
  }

  /** `words.filter(...).length`: the number of words holding one of the keywords. */
  function Score(words: seq<string>, keywords: seq<string>): (r: nat)
    ensures r <= |words|
    decreases |words|
  {
    if |words| == 0 then 0
    else (if HasKeyword(words[0], keywords) then 1 else 0) + Score(words[1..], keywords)
  }

  /** Two keyword lists that agree on every word give the same score. */
  lemma {:induction false} ScoreCongruence(words: seq<string>, k1: seq<string>, k2: seq<string>)
    requires forall i :: 0 <= i < |words| ==> HasKeyword(words[i], k1) == HasKeyword(words[i], k2)
    ensures Score(words, k1) == Score(words, k2)
    decreases |words|
  {
    if |words| > 0 {
      ScoreCongruence(words[1..], k1, k2);
    }
  }

  /** The score is the length of the list of keyword-holding words. */
  lemma {:induction false} ScoreIsFilterLength(words: seq<string>, keywords: seq<string>)
    ensures Score(words, keywords) == |Filter(w => HasKeyword(w, keywords), words)|
    decreases |words|
  {
    if |words| > 0 {
      ScoreIsFilterLength(words[1..], keywords);
    }
  }

  function TopicScore(text: string, c: Category): (r: nat)
    ensures r <= |Words(text)|
  {
    Score(Words(text), Keywords(c))
  }

  /** A category's score for a text is the number of its lower-cased,
      space-separated words that hold one of the category's keywords. */
  lemma TopicScoreCountsWords(text: string, c: Category)
    ensures TopicScore(text, c) == |Filter(w => HasKeyword(w, Keywords(c)), Words(text))|
  {
    ScoreIsFilterLength(Words(text), Keywords(c));
  }

  /**
   * `entries.reduce((a, b) => a[1] > b[1] ? a : b)` over a list of scores:
   * the index of the last maximal score.
   */
  function LastMaxIndex(xs: seq<nat>): (r: nat)
    requires |xs| > 0
    ensures r < |xs|
    ensures forall j :: 0 <= j < |xs| ==> xs[j] <= xs[r]
    ensures forall j :: r < j < |xs| ==> xs[j] < xs[r]
    decreases |xs|
  {
    if |xs| == 1 then 0
    else
      var a := LastMaxIndex(xs[..|xs| - 1]);
      if xs[a] > xs[|xs| - 1] then a else |xs| - 1
  }

  /** The score table, in category order. */
  function Scores(text: string): (r: seq<nat>)
    ensures |r| == |Categories|
    ensures forall c :: r[Rank(c)] == TopicScore(text, c)
  {
    seq(|Categories|, i requires 0 <= i < |Categories| => TopicScore(text, Categories[i]))
  }

  /** `categorizeArticle(text)` */
  function Categorize(text: string): (r: Category)
    ensures forall c :: TopicScore(text, c) <= TopicScore(text, r)
    ensures forall c :: Rank(r) < Rank(c) ==> TopicScore(text, c) < TopicScore(text, r)
  {
    var scores := Scores(text);
    var best := LastMaxIndex(scores);
    assert Rank(Categories[best]) == best;
    Categories[best]
  }

  /** A score is zero when no word holds any of the keywords. */
  lemma {:induction false} ScoreZero(words: seq<string>, keywords: seq<string>)
    requires forall i :: 0 <= i < |words| ==> !HasKeyword(words[i], keywords)
    ensures Score(words, keywords) == 0
    decreases |words|
  {
    if |words| > 0 {
      ScoreZero(words[1..], keywords);
    }
  }

  /** With no keyword hits at all, every score is 0 and the tie goes to the
      last category, business. */
  lemma NoHitsIsBusiness(text: string)
    requires forall c, i :: 0 <= i < |Words(text)| ==> !HasKeyword(Words(text)[i], Keywords(c))
    ensures Categorize(text) == Business
  {
    forall c ensures TopicScore(text, c) == 0 {
      ScoreZero(Words(text), Keywords(c));
    }
  }

  /** No word of a lower-cased text can contain the upper-case keyword "AI". */
  lemma AiNeverMatches(text: string)
    ensures forall i :: 0 <= i < |Words(text)| ==> !Contains(Words(text)[i], "AI")
  {
    LowerHasNoUpper(text, 'A');
    SplitPieceChars(Lower(text), ' ', 'A');
    forall i | 0 <= i < |Words(text)| ensures !Contains(Words(text)[i], "AI") {
      if Contains(Words(text)[i], "AI") {
        ContainsChar(Words(text)[i], "AI", 0);
        assert false;
      }
    }
  }

  /** The technology score is the same as if "AI" were not in the table. */
  lemma TechnologyIgnoresAi(text: string)
    ensures TopicScore(text, Technology) == Score(Words(text), ["tech", "digital", "software", "innovation"])
  {
    var words := Words(text);
    var without := ["tech", "digital", "software", "innovation"];
    AiNeverMatches(text);
    forall i | 0 <= i < |words|
      ensures HasKeyword(words[i], Keywords(Technology)) == HasKeyword(words[i], without)
    {
      if HasKeyword(words[i], Keywords(Technology)) {
        var k :| k in Keywords(Technology) && Contains(words[i], k);
        assert k != "AI";
        assert k in without;
      }
    }
    ScoreCongruence(words, Keywords(Technology), without);
  }
}
