/**
 * The entity recogniser: place names found anywhere in the lower-cased
 * text, and capitalised tokens taken as person names.
 */
module Entities {
  import opened Strings
  import opened Seqs

  datatype Entities = Entities(states: seq<string>, people: seq<string>)

  /** The fixed list of place names searched for, in lower case. */
  const StateNames: seq<string> := ["delhi", "mumbai", "kerala", "gujarat", "punjab"]

  /** The token matches `^[A-Z][a-z]+$` and is longer than two characters. */
  predicate IsPersonToken(w: string)
    ensures IsPersonToken(w) ==> |Lower(w)| == |w| > 2 && Lower(w)[0] != w[0] && Lower(w)[1..] == w[1..]
  {
    |w| > 2 && 'A' <= w[0] <= 'Z' && forall i :: 1 <= i < |w| ==> 'a' <= w[i] <= 'z'
  }

  /**
   * `extractEntities(text)`, where `tokens` is what the word tokenizer
   * yields for `text`.
   */
  function ExtractEntities(text: string, tokens: seq<string>): (r: Entities)
    ensures forall s :: s in r.states <==> s in StateNames && Contains(Lower(text), s)
    ensures IsSubsequence(r.states, StateNames)
    ensures forall p :: p in r.people <==> p in tokens && IsPersonToken(p)
    ensures NoDuplicates(r.people)
  {
    var lowered := Lower(text);
    Entities(Filter(s => Contains(lowered, s), StateNames), Dedup(Filter(IsPersonToken, tokens)))
  }

  /** People are listed in the order in which they first appear among the tokens. */
  lemma PeopleInFirstOccurrenceOrder(text: string, tokens: seq<string>)
    ensures var people := ExtractEntities(text, tokens).people;
      forall i, j :: 0 <= i < j < |people| ==> FirstIndex(tokens, people[i]) < FirstIndex(tokens, people[j])
  {
    var persons := Filter(IsPersonToken, tokens);
    var people := ExtractEntities(text, tokens).people;
    DedupOrder(persons);
    forall i, j | 0 <= i < j < |people|
      ensures FirstIndex(tokens, people[i]) < FirstIndex(tokens, people[j])
    {
      FilterKeepsOrder(IsPersonToken, tokens, people[i], people[j]);
    }
  }
}
