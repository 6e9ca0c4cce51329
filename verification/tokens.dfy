/** Tagged tokens: `(form, lemma, tags)` triples, as the taggers pass them along. */
module Tokens {

  // `lemma` is a Dafny keyword, so the second component is called lemmaForm.
  datatype Token = Token(form: string, lemmaForm: string, tags: seq<string>)

  /** The surface forms of a run of tokens (`word[0] for word in ...`). */
  function Forms(ts: seq<Token>): (r: seq<string>)
    ensures |r| == |ts|
    ensures forall k :: 0 <= k < |ts| ==> r[k] == ts[k].form
    decreases |ts|
  {
    if ts == [] then [] else [ts[0].form] + Forms(ts[1..])
  }

  /** The lemmas of a run of tokens (`word[1] for word in ...`). */
  function Lemmas(ts: seq<Token>): (r: seq<string>)
    ensures |r| == |ts|
    ensures forall k :: 0 <= k < |ts| ==> r[k] == ts[k].lemmaForm
    decreases |ts|
  {
    if ts == [] then [] else [ts[0].lemmaForm] + Lemmas(ts[1..])
  }
}
