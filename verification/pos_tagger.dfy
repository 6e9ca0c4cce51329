/**
 * `POSTagger.pos_tag`: reshapes part-of-speech tagged sentences, lists of
 * `(word, postag)` pairs, into the `(form, lemma, tags)` tokens the lexicon tagger
 * reads. The word stands in for its own lemma and the tag becomes a one-element list.
 */
module PosTagging {
  import opened Tokens

  /** A sentence as the part-of-speech tagger hands it over: `(word, postag)` pairs. */
  type TaggedSentence = seq<(string, string)>

  /** `pos_tag`: every `(w, t)` becomes `(w, w, [t])`; sentences and their lengths are kept. */
  function PosTag(sentences: seq<TaggedSentence>): (r: seq<seq<Token>>)
    ensures |r| == |sentences|
    ensures forall i :: 0 <= i < |r| ==> |r[i]| == |sentences[i]|
    ensures forall i, k :: 0 <= i < |r| && 0 <= k < |r[i]| ==>
      r[i][k].form == r[i][k].lemmaForm == sentences[i][k].0 && r[i][k].tags == [sentences[i][k].1]
  {
    seq(|sentences|, i requires 0 <= i < |sentences| =>
      seq(|sentences[i]|, k requires 0 <= k < |sentences[i]| =>
        Token(sentences[i][k].0, sentences[i][k].0, [sentences[i][k].1])))
  }

  /** The shape `pos_tag` produces: the lemma repeats the form and there is exactly one tag. */
  predicate PosShaped(sentences: seq<seq<Token>>)
  {
    forall i, k :: 0 <= i < |sentences| && 0 <= k < |sentences[i]| ==>
      sentences[i][k].lemmaForm == sentences[i][k].form && |sentences[i][k].tags| == 1
  }

  /** Reads the `(word, postag)` pairs back out of reshaped tokens. */
  function PosUntag(sentences: seq<seq<Token>>): (r: seq<TaggedSentence>)
    requires PosShaped(sentences)
    ensures |r| == |sentences|
    ensures forall i :: 0 <= i < |r| ==> |r[i]| == |sentences[i]|
  {
    seq(|sentences|, i requires 0 <= i < |sentences| =>
      seq(|sentences[i]|, k requires 0 <= k < |sentences[i]| =>
        (sentences[i][k].form, sentences[i][k].tags[0])))
  }

  /** Reshaping loses nothing: the pairs can be read back. */
  lemma PosTagRoundTrip(sentences: seq<TaggedSentence>)
    ensures PosShaped(PosTag(sentences))
    ensures PosUntag(PosTag(sentences)) == sentences
  {
    var r := PosUntag(PosTag(sentences));
    forall i | 0 <= i < |sentences|
      ensures r[i] == sentences[i]
    {
      assert |r[i]| == |sentences[i]|;
    }
  }

  /** Every token list of the reshaped shape is the reshaping of its pairs. */
  lemma PosUntagRoundTrip(sentences: seq<seq<Token>>)
    requires PosShaped(sentences)
    ensures PosTag(PosUntag(sentences)) == sentences
  {
    var r := PosTag(PosUntag(sentences));
    forall i | 0 <= i < |sentences|
      ensures r[i] == sentences[i]
    {
      forall k | 0 <= k < |sentences[i]|
        ensures r[i][k] == sentences[i][k]
      {
        assert sentences[i][k].tags == [sentences[i][k].tags[0]];
      }
    }
  }
}
