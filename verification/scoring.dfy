/**
 * The lexicon-based sentiment score: every `positive` label counts +1, every
 * `negative` label counts -1, everything else 0. Scores are integers (every
 * contribution is one).
 */
module Scoring {
  import opened Wrappers
  import opened Tokens

  /** `value_of`: the score of one label. */
  function ValueOf(sentiment: string): (v: int)
    ensures v == 1 <==> sentiment == "positive"
    ensures v == -1 <==> sentiment == "negative"
    ensures v == 0 <==> sentiment != "positive" && sentiment != "negative"
  {
    if sentiment == "positive" then 1
    else if sentiment == "negative" then -1
    else 0
  }

  /** `sum([value_of(tag) for tag in tags])`, added up from the front. */
  function TagsScore(tags: seq<string>): (r: int)
    ensures -|tags| <= r <= |tags|
    decreases |tags|
  {
    if tags == [] then 0 else ValueOf(tags[0]) + TagsScore(tags[1..])
  }

  /** All labels of a run of tokens, token by token. */
  function AllTags(tokens: seq<Token>): seq<string>
    decreases |tokens|
  {
    if tokens == [] then [] else tokens[0].tags + AllTags(tokens[1..])
  }

  /** All labels of a review, sentence by sentence. */
  function ReviewTags(review: seq<seq<Token>>): seq<string>
    decreases |review|
  {
    if review == [] then [] else AllTags(review[0]) + ReviewTags(review[1..])
  }

  /**
   * `sentence_score(sentence_tokens, previous_token, acum_score)`: walks the tokens,
   * passing the current token on as `previous` (which nothing reads) and adding its
   * label score to the accumulator. The result stays within one point per label of `acc`.
   */
  function SentenceScore(tokens: seq<Token>, previous: Option<Token>, acc: int): (r: int)
    ensures acc - |AllTags(tokens)| <= r <= acc + |AllTags(tokens)|
    decreases |tokens|
  {
    if tokens == [] then acc
    else SentenceScore(tokens[1..], Some(tokens[0]), acc + TagsScore(tokens[0].tags))
  }

  /** `sentiment_score(review)`: the sum of the sentence scores, each started from 0. */
  function SentimentScore(review: seq<seq<Token>>): (r: int)
    ensures -|ReviewTags(review)| <= r <= |ReviewTags(review)|
    decreases |review|
  {
    if review == [] then 0 else SentenceScore(review[0], None, 0) + SentimentScore(review[1..])
  }

  /** The score of a label list is the number of `positive` labels minus the number of `negative` ones. */
  lemma {:induction false} TagsScoreCounts(tags: seq<string>)
    ensures TagsScore(tags) == multiset(tags)["positive"] as int - multiset(tags)["negative"]
    decreases |tags|
  {
    if tags != [] {
      TagsScoreCounts(tags[1..]);
      assert tags == [tags[0]] + tags[1..];
      assert multiset(tags) == multiset{tags[0]} + multiset(tags[1..]);
    }
  }

  /** Reordering the labels does not change the score. */
  lemma TagsScorePermutation(a: seq<string>, b: seq<string>)
    requires multiset(a) == multiset(b)
    ensures TagsScore(a) == TagsScore(b)
  {
    TagsScoreCounts(a);
    TagsScoreCounts(b);
  }

  /** The label score is additive over concatenation. */
  lemma {:induction false} TagsScoreAppend(a: seq<string>, b: seq<string>)
    ensures TagsScore(a + b) == TagsScore(a) + TagsScore(b)
    decreases |a|
  {
    if a != [] {
      TagsScoreAppend(a[1..], b);
      assert (a + b)[1..] == a[1..] + b;
    } else {
      assert a + b == b;
    }
  }

  lemma {:induction false} AllTagsAppend(a: seq<Token>, b: seq<Token>)
    ensures AllTags(a + b) == AllTags(a) + AllTags(b)
    decreases |a|
  {
    if a != [] {
      AllTagsAppend(a[1..], b);
      assert (a + b)[1..] == a[1..] + b;
    } else {
      assert a + b == b;
    }
  }

  lemma {:induction false} ReviewTagsAppend(a: seq<seq<Token>>, b: seq<seq<Token>>)
    ensures ReviewTags(a + b) == ReviewTags(a) + ReviewTags(b)
    decreases |a|
  {
    if a != [] {
      ReviewTagsAppend(a[1..], b);
      assert (a + b)[1..] == a[1..] + b;
    } else {
      assert a + b == b;
    }
  }

  /** A sentence's score is the accumulator plus the score of all its labels. */
  lemma {:induction false} SentenceScoreSum(tokens: seq<Token>, previous: Option<Token>, acc: int)
    ensures SentenceScore(tokens, previous, acc) == acc + TagsScore(AllTags(tokens))
    decreases |tokens|
  {
    if tokens != [] {
      SentenceScoreSum(tokens[1..], Some(tokens[0]), acc + TagsScore(tokens[0].tags));
      TagsScoreAppend(tokens[0].tags, AllTags(tokens[1..]));
    }
  }

  /** The `previous_token` argument has no influence on the score. */
  lemma {:induction false} SentenceScoreIgnoresPrevious(tokens: seq<Token>, p: Option<Token>, q: Option<Token>, acc: int)
    ensures SentenceScore(tokens, p, acc) == SentenceScore(tokens, q, acc)
  {
    SentenceScoreSum(tokens, p, acc);
    SentenceScoreSum(tokens, q, acc);
  }

  /** Splitting a sentence's tokens splits its score. */
  lemma SentenceScoreAppend(a: seq<Token>, b: seq<Token>, acc: int)
    ensures SentenceScore(a + b, None, acc) == SentenceScore(a, None, acc) + SentenceScore(b, None, 0)
  {
    SentenceScoreSum(a + b, None, acc);
    SentenceScoreSum(a, None, acc);
    SentenceScoreSum(b, None, 0);
    AllTagsAppend(a, b);
    TagsScoreAppend(AllTags(a), AllTags(b));
  }

  /** The review score is the score of all the review's labels together. */
  lemma {:induction false} SentimentScoreIsTagsScore(review: seq<seq<Token>>)
    ensures SentimentScore(review) == TagsScore(ReviewTags(review))
    decreases |review|
  {
    if review != [] {
      SentimentScoreIsTagsScore(review[1..]);
      SentenceScoreSum(review[0], None, 0);
      TagsScoreAppend(AllTags(review[0]), ReviewTags(review[1..]));
    }
  }

  /** The review score is additive over concatenation of sentence lists. */
  lemma SentimentScoreAppend(a: seq<seq<Token>>, b: seq<seq<Token>>)
    ensures SentimentScore(a + b) == SentimentScore(a) + SentimentScore(b)
  {
    SentimentScoreIsTagsScore(a + b);
    SentimentScoreIsTagsScore(a);
    SentimentScoreIsTagsScore(b);
    ReviewTagsAppend(a, b);
    TagsScoreAppend(ReviewTags(a), ReviewTags(b));
  }

  /** The review score counts positive against negative labels over the whole review. */
  lemma SentimentScoreCounts(review: seq<seq<Token>>)
    ensures SentimentScore(review) ==
      multiset(ReviewTags(review))["positive"] as int - multiset(ReviewTags(review))["negative"]
  {
    SentimentScoreIsTagsScore(review);
    TagsScoreCounts(ReviewTags(review));
  }
}
