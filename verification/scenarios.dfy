/** Worked cases of the pipeline, stated as lemmas over the model. */
module Scenarios {
  import opened Wrappers
  import opened Text
  import opened Tokens
  import opened Lexicon
  import opened Tagging
  import opened Scoring
  import opened PosTagging
  import opened Entities

  const Positive: Dict := map["good" := ["positive"]]
  const Negative: Dict := map["not good" := ["negative"]]

  /** The merged lexicon of the two files, and its longest key, "not good", of eight characters. */
  lemma TwoFileLexicon()
    ensures Merge([Positive, Negative]) == map["good" := ["positive"], "not good" := ["negative"]]
    ensures IsMaxKeyLength(Merge([Positive, Negative]).Keys, 8)
  {
    var ds := [Positive, Negative];
    assert ds[..1] == [Positive] && ds[1] == Negative;
    MergeSingle(Positive);
    var m := Merge(ds);
    assert m == Combine(Positive, Negative);
    assert m.Keys == {"good", "not good"};
    var target := map["good" := ["positive"], "not good" := ["negative"]];
    assert ["positive"] + [] == ["positive"] && [] + ["negative"] == ["negative"];
    assert m["good"] == ["positive"] + [] == target["good"];
    assert m["not good"] == [] + ["negative"] == target["not good"];
    assert m.Keys == target.Keys;
    assert m == target;
    assert |"not good"| == 8 && |"good"| == 4;
    assert "not good" in m.Keys;
    assert forall k :: k in m.Keys ==> |k| <= 8;
  }

  /** The lower-case words of the example are left as they are. */
  lemma LowerNotGood()
    ensures Lower("not good") == "not good"
  {
    assert NoUpper("not good");
    LowerFixesLowerCase("not good");
  }

  /**
   * "not good" is matched as one two-token span ahead of "good" alone: one fused token
   * carrying only the lexicon's label.
   */
  lemma NotGoodIsOneNegativeToken()
    ensures
      var lex := map["good" := ["positive"], "not good" := ["negative"]];
      var s := [Token("not", "not", ["RB"]), Token("good", "good", ["JJ"])];
      Tagged(lex, 8, s) == [Token("not good", "not good", ["negative"])]
  {
    var lex := map["good" := ["positive"], "not good" := ["negative"]];
    var s := [Token("not", "not", ["RB"]), Token("good", "good", ["JJ"])];
    assert s[0..2] == s;
    assert s[1..] == [Token("good", "good", ["JJ"])];
    assert Forms(s) == ["not", "good"];
    assert Lemmas(s) == ["not", "good"];
    assert JoinSpace(["not", "good"]) == "not good";
    LowerNotGood();
    assert Key(s, 0, 2) == "not good";
    assert Min(0 + 8, |s|) == 2;
    assert MatchEnd(lex, s, 0, 2) == Some(2);
    assert Fused(lex, s, 0, 2) == Token("not good", "not good", ["negative"] + []);
    assert TagFrom(lex, 8, s, 2) == [];
    assert ["negative"] + [] == ["negative"];
    assert TagFrom(lex, 8, s, 0) == [Fused(lex, s, 0, 2)] + TagFrom(lex, 8, s, 2);
    assert [Fused(lex, s, 0, 2)] + [] == [Token("not good", "not good", ["negative"])];
  }

  /** The fused token scores -1: its only label is `negative`. */
  lemma NotGoodScoresMinusOne()
    ensures SentenceScore([Token("not good", "not good", ["negative"])], None, 0) == -1
  {
    var t := Token("not good", "not good", ["negative"]);
    assert TagsScore(["negative"]) == -1 + TagsScore([]);
    assert [t][1..] == [];
  }

  /** The names the chunk tree of the example sentence yields: "Weasley", twice. */
  lemma WeasleyTwiceNames()
    ensures ExtractEntityNames(Node("S", [Node("NE", [Leaf("Weasley", "NNP")]), Leaf("and", "CC"), Node("NE", [Leaf("Weasley", "NNP")])]))
      == Some(["Weasley", "Weasley"])
  {
    var ne := Node("NE", [Leaf("Weasley", "NNP")]);
    var and := Leaf("and", "CC");
    var kids := [ne, and, ne];
    var tree := Node("S", kids);
    var one: seq<string> := ["Weasley"];
    assert Words(ne.kids) == one;
    assert ExtractEntityNames(ne) == Some(one);
    assert ExtractEntityNames(and) == Some([]);
    var k1, k2 := kids[1..], kids[1..][1..];
    assert k1 == [and, ne] && k2 == [ne] && k2[1..] == [];
    assert kids[0] == ne && k1[0] == and && k2[0] == ne;
    assert one + [] == one && [] + one == one;
    assert ExtractFromKids(tree, k2[1..]) == Some([]);
    assert ExtractFromKids(tree, k2) == Some(one + []);
    assert ExtractFromKids(tree, k1) == Some([] + one);
    assert ExtractFromKids(tree, kids) == Some(one + one);
    assert one + one == ["Weasley", "Weasley"];
  }

  lemma LowerWeasley()
    ensures Lower("Weasley") == "weasley"
  {
    var tail := "easley";
    assert "Weasley" == ['W'] + tail && "weasley" == ['w'] + tail;
    assert NoUpper(tail);
    LowerFixesLowerCase(tail);
    assert Lower("Weasley") == [LowerChar('W')] + Lower(tail);
  }

  /** "weasley" passes one Ron test and no other. */
  lemma WeasleyTests()
    ensures Occurrences(RonAliases, "weasley") == 1
    ensures Occurrences(HarryAliases, "weasley") == 0
    ensures Occurrences(HermioneAliases, "weasley") == 0
  {
    HarryTests("weasley");
    RonTests("weasley");
    HermioneTests("weasley");
  }

  /** Both names count for Ron, neither for Harry or Hermione. */
  lemma WeasleyIsRon()
    ensures Hits(RonAliases, ["Weasley", "Weasley"]) == 2
    ensures Hits(HarryAliases, ["Weasley", "Weasley"]) == 0
    ensures Hits(HermioneAliases, ["Weasley", "Weasley"]) == 0
  {
    LowerWeasley();
    WeasleyTests();
    var names := ["Weasley", "Weasley"];
    assert names[..1] == ["Weasley"] && names[..1][..0] == [];
  }

  /** A single tree contributes its sentence once per passed test. */
  lemma AttributedOne(aliases: seq<string>, t: ChunkTree, x: TaggedSentence)
    requires ExtractEntityNames(t).Some?
    ensures Extractable([t])
    ensures Attributed(aliases, [t], [x]) == Repeat(x, Hits(aliases, ExtractEntityNames(t).value))
  {
    assert [t][..0] == [];
    var copies := Repeat(x, Hits(aliases, ExtractEntityNames(t).value));
    assert [] + copies == copies;
  }

  /** A sentence naming "Weasley" twice lands in Ron's list twice, and in nobody else's. */
  lemma WeasleyTwiceIsAppendedTwice()
    ensures
      var sentence := [("Weasley", "NNP"), ("and", "CC"), ("Weasley", "NNP")];
      var tree := Node("S", [Node("NE", [Leaf("Weasley", "NNP")]), Leaf("and", "CC"), Node("NE", [Leaf("Weasley", "NNP")])]);
      Extractable([tree]) &&
      AttributionOf([tree], [sentence]) == Attribution([], [sentence, sentence], [])
  {
    var sentence := [("Weasley", "NNP"), ("and", "CC"), ("Weasley", "NNP")];
    var tree := Node("S", [Node("NE", [Leaf("Weasley", "NNP")]), Leaf("and", "CC"), Node("NE", [Leaf("Weasley", "NNP")])]);
    WeasleyTwiceNames();
    WeasleyIsRon();
    AttributedOne(HarryAliases, tree, sentence);
    AttributedOne(RonAliases, tree, sentence);
    AttributedOne(HermioneAliases, tree, sentence);
    assert Repeat(sentence, 2) == [sentence, sentence];
  }

  /** Reshaping a part-of-speech tagged sentence gives the word as its own lemma and the tag as a list. */
  lemma PosTagExample()
    ensures PosTag([[("Harry", "NNP"), ("smiled", "VBD")]]) ==
      [[Token("Harry", "Harry", ["NNP"]), Token("smiled", "smiled", ["VBD"])]]
  {
    var input := [[("Harry", "NNP"), ("smiled", "VBD")]];
    var r := PosTag(input);
    assert |r| == 1 && |r[0]| == 2;
    assert r[0][0] == Token("Harry", "Harry", ["NNP"]);
    assert r[0][1] == Token("smiled", "smiled", ["VBD"]);
    assert r[0] == [Token("Harry", "Harry", ["NNP"]), Token("smiled", "smiled", ["VBD"])];
  }
}
