/** The keyword classifier applied to a feedback message when the item is
    recorded (src/contexts/FeedbackContext.tsx, analyzeSentiment). */
module SentimentAnalysis {
  import opened Js
  import opened Types

  const PositiveWords: seq<string> :=
    ["great", "excellent", "good", "amazing", "wonderful", "fantastic", "helpful"]

  const NegativeWords: seq<string> :=
    ["poor", "bad", "terrible", "unhelpful", "disappointing", "needs improvement"]

  /** The negative list without its one two-word entry. */
  const SingleNegativeWords: seq<string> :=
    ["poor", "bad", "terrible", "unhelpful", "disappointing"]

  /** `message.toLowerCase().split(' ')` */
  function Words(message: string): (r: seq<string>)
    ensures |r| >= 1
    ensures forall i :: 0 <= i < |r| ==> ' ' !in r[i]
  {
    Split(ToLowerCase(message), ' ')
  }

  /** `word => list.includes(word)` */
  function InList(list: seq<string>): (r: string -> bool)
    ensures forall w :: r(w) <==> w in list
  {
    w => w in list
  }

  /** How many words of the message are on `list`, repeats counted. */
  function Hits(message: string, list: seq<string>): (r: nat)
    ensures r <= |Words(message)|
  {
    Count(Words(message), InList(list))
  }

  /** The decision rule with the keyword lists as parameters. */
  function Classify(message: string, positive: seq<string>, negative: seq<string>): (r: Sentiment)
    ensures r == Positive <==> Hits(message, positive) > Hits(message, negative)
    ensures r == Negative <==> Hits(message, negative) > Hits(message, positive)
    ensures r == Neutral <==> Hits(message, positive) == Hits(message, negative)
  {
    var positiveCount := Hits(message, positive);
    var negativeCount := Hits(message, negative);
    if positiveCount > negativeCount then Positive
    else if negativeCount > positiveCount then Negative
    else Neutral
  }

  /** analyzeSentiment */
  function AnalyzeSentiment(message: string): (r: Sentiment)
    ensures r == Positive <==> Hits(message, PositiveWords) > Hits(message, NegativeWords)
    ensures r == Negative <==> Hits(message, NegativeWords) > Hits(message, PositiveWords)
    ensures r == Neutral <==> Hits(message, PositiveWords) == Hits(message, NegativeWords)
  {
    Classify(message, PositiveWords, NegativeWords)
  }

  /** A word of a message never holds a space, so the two-word entry
      'needs improvement' never matches: the negative count and the verdict
      are those of the list without it. */
  lemma NeedsImprovementNeverCounts(message: string)
    ensures Hits(message, NegativeWords) == Hits(message, SingleNegativeWords)
    ensures AnalyzeSentiment(message) == Classify(message, PositiveWords, SingleNegativeWords)
  {
    var words := Words(message);
    forall i | 0 <= i < |words|
      ensures InList(NegativeWords)(words[i]) == InList(SingleNegativeWords)(words[i])
    {
      assert ' ' !in words[i];
      assert "needs improvement"[5] == ' ';
      assert words[i] != "needs improvement";
    }
    FilterCongruent(words, InList(NegativeWords), InList(SingleNegativeWords));
  }

  /** A message none of whose words is a keyword is neutral. */
  lemma NoKeywordsIsNeutral(message: string)
    requires forall w :: w in Words(message) ==> w !in PositiveWords && w !in NegativeWords
    ensures AnalyzeSentiment(message) == Neutral
  {
    FilterNone(Words(message), InList(PositiveWords));
    FilterNone(Words(message), InList(NegativeWords));
  }

  /** The empty message is a single empty word and is neutral. */
  lemma EmptyMessageIsNeutral()
    ensures AnalyzeSentiment("") == Neutral
  {
    assert Words("") == [""];
    NoKeywordsIsNeutral("");
  }

  /** No word is on both lists. */
  lemma ListsDisjoint()
    ensures forall w :: w in PositiveWords ==> w !in NegativeWords
  {
  }

  /** A message whose every word is on the positive list is positive. */
  lemma OnlyPositiveWordsIsPositive(message: string)
    requires forall w :: w in Words(message) ==> w in PositiveWords
    ensures AnalyzeSentiment(message) == Positive
  {
    var words := Words(message);
    FilterAll(words, InList(PositiveWords));
    ListsDisjoint();
    FilterNone(words, InList(NegativeWords));
  }

  /** A message whose every word is on the negative list is negative. */
  lemma OnlyNegativeWordsIsNegative(message: string)
    requires forall w :: w in Words(message) ==> w in NegativeWords
    ensures AnalyzeSentiment(message) == Negative
  {
    var words := Words(message);
    FilterAll(words, InList(NegativeWords));
    ListsDisjoint();
    FilterNone(words, InList(PositiveWords));
  }

  /** "This was a terrible experience" splits into five words, one of them negative. */
  lemma TerribleExperienceWords()
    ensures Words("This was a terrible experience") == ["this", "was", "a", "terrible", "experience"]
  {
    var parts := ["this", "was", "a", "terrible", "experience"];
    LowerTerribleExperience();
    JoinTerribleExperience();
    SplitJoin(parts, ' ');
  }

  lemma LowerTerribleExperience()
    ensures ToLowerCase("This was a terrible experience") == "this was a terrible experience"
  {
  }

  lemma JoinTerribleExperience()
    ensures Join(["this", "was", "a", "terrible", "experience"], ' ') == "this was a terrible experience"
  {
    var parts := ["this", "was", "a", "terrible", "experience"];
    assert parts[1..] == ["was", "a", "terrible", "experience"];
    assert parts[1..][1..] == ["a", "terrible", "experience"];
    assert parts[1..][1..][1..] == ["terrible", "experience"];
    assert parts[1..][1..][1..][1..] == ["experience"];
  }

  /** Of those five words none is positive and one is negative. */
  lemma TerribleExperienceHits()
    ensures Count(["this", "was", "a", "terrible", "experience"], InList(PositiveWords)) == 0
  {
    var parts := ["this", "was", "a", "terrible", "experience"];
    assert "this" !in PositiveWords && "was" !in PositiveWords && "a" !in PositiveWords;
    assert "terrible" !in PositiveWords && "experience" !in PositiveWords;
    FilterNone(parts, InList(PositiveWords));
  }

  lemma TerribleExperienceNegativeHits()
    ensures Count(["this", "was", "a", "terrible", "experience"], InList(NegativeWords)) == 1
  {
    var head: seq<string> := ["this", "was", "a"];
    var tail: seq<string> := ["terrible", "experience"];
    assert head + tail == ["this", "was", "a", "terrible", "experience"];
    NegativeHitsHead();
    NegativeHitsTail();
    FilterConcat(head, tail, InList(NegativeWords));
  }

  lemma NegativeHitsHead()
    ensures Count(["this", "was", "a"], InList(NegativeWords)) == 0
  {
    assert "this" !in NegativeWords && "was" !in NegativeWords && "a" !in NegativeWords;
    FilterNone(["this", "was", "a"], InList(NegativeWords));
  }

  lemma NegativeHitsTail()
    ensures Count(["terrible", "experience"], InList(NegativeWords)) == 1
  {
    var tail: seq<string> := ["terrible", "experience"];
    assert "terrible" in NegativeWords && "experience" !in NegativeWords;
    assert tail[1..] == ["experience"];
    FilterNone(tail[1..], InList(NegativeWords));
  }

  /** The message of the one-item example is classed negative. */
  lemma TerribleExperienceIsNegative()
    ensures AnalyzeSentiment("This was a terrible experience") == Negative
  {
    TerribleExperienceWords();
    TerribleExperienceHits();
    TerribleExperienceNegativeHits();
  }
}
