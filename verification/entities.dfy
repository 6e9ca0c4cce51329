/**
 * Named-entity extraction from chunk trees, and the attribution of sentences to the
 * three characters by the names found in them.
 */
module Entities {
  import opened Wrappers
  import opened Text
  import opened PosTagging

  /**
   * A chunk tree as the named-entity chunker produces it: a leaf is a `(word, postag)`
   * pair and carries no label; an inner node has a label (`NE` for a named entity, `S`
   * for the sentence) and children.
   */
  // `label` is a Dafny keyword, so a node's label is called its category.
  datatype ChunkTree = Leaf(word: string, pos: string) | Node(category: string, kids: seq<ChunkTree>)

  /** A node whose children are all leaves: the only kind whose words can be joined. */
  predicate Flat(kids: seq<ChunkTree>)
  {
    forall k :: 0 <= k < |kids| ==> kids[k].Leaf?
  }

  /** `child[0] for child in t`, for a node whose children are leaves. */
  function Words(kids: seq<ChunkTree>): (r: seq<string>)
    requires Flat(kids)
    ensures |r| == |kids|
    ensures forall k :: 0 <= k < |kids| ==> r[k] == kids[k].word
    decreases |kids|
  {
    if kids == [] then [] else [kids[0].word] + Words(kids[1..])
  }

  /**
   * `extract_entity_names2(t)`: the joined words of every `NE` node, depth first and left
   * to right, without descending into an `NE` node. A leaf has no label and gives nothing.
   * An `NE` node with a subtree among its children makes the join fail: `None`.
   */
  function ExtractEntityNames(t: ChunkTree): Option<seq<string>>
    decreases t, 1
  {
    match t
    case Leaf(_, _) => Some([])
    case Node(category, kids) =>
      if category == "NE" then
        if Flat(kids) then Some([JoinSpace(Words(kids))]) else None
      else ExtractFromKids(t, kids)
  }

  /** The loop over the children of a non-`NE` node, extending the result child by child. */
  function ExtractFromKids(parent: ChunkTree, kids: seq<ChunkTree>): Option<seq<string>>
    requires forall k :: 0 <= k < |kids| ==> kids[k] < parent
    decreases parent, 0, |kids|
  {
    if kids == [] then Some([])
    else match ExtractEntityNames(kids[0])
      case None => None
      case Some(first) =>
        match ExtractFromKids(parent, kids[1..])
        case None => None
        case Some(rest) => Some(first + rest)
  }

  // ---------------------------------------------------------------------------
  // A reference description: the outermost NE nodes, and what each contributes.

  /** The `NE` nodes of `t` not nested inside another `NE` node, depth first, left to right. */
  function Outermost(t: ChunkTree): (r: seq<ChunkTree>)
    ensures forall k :: 0 <= k < |r| ==> r[k].Node? && r[k].category == "NE"
    decreases t, 1
  {
    match t
    case Leaf(_, _) => []
    case Node(category, kids) => if category == "NE" then [t] else OutermostOfKids(t, kids)
  }

  function OutermostOfKids(parent: ChunkTree, kids: seq<ChunkTree>): (r: seq<ChunkTree>)
    requires forall k :: 0 <= k < |kids| ==> kids[k] < parent
    ensures forall k :: 0 <= k < |r| ==> r[k].Node? && r[k].category == "NE"
    decreases parent, 0, |kids|
  {
    if kids == [] then [] else Outermost(kids[0]) + OutermostOfKids(parent, kids[1..])
  }

  /** Every node of the list has only leaves as children. */
  predicate AllFlat(nodes: seq<ChunkTree>)
  {
    forall k :: 0 <= k < |nodes| ==> nodes[k].Node? && Flat(nodes[k].kids)
  }

  /** The phrases of a list of flat nodes, in order. */
  function Phrases(nodes: seq<ChunkTree>): (r: seq<string>)
    requires AllFlat(nodes)
    ensures |r| == |nodes|
    ensures forall k :: 0 <= k < |nodes| ==> r[k] == JoinSpace(Words(nodes[k].kids))
    decreases |nodes|
  {
    if nodes == [] then [] else [JoinSpace(Words(nodes[0].kids))] + Phrases(nodes[1..])
  }

  lemma PhrasesAppend(a: seq<ChunkTree>, b: seq<ChunkTree>)
    requires AllFlat(a) && AllFlat(b)
    ensures AllFlat(a + b)
    ensures Phrases(a + b) == Phrases(a) + Phrases(b)
  {
    assert AllFlat(a + b) by {
      forall k | 0 <= k < |a + b| ensures (a + b)[k].Node? && Flat((a + b)[k].kids) {
        if k >= |a| { assert (a + b)[k] == b[k - |a|]; }
      }
    }
  }

  lemma AllFlatSplit(a: seq<ChunkTree>, b: seq<ChunkTree>)
    ensures AllFlat(a + b) <==> AllFlat(a) && AllFlat(b)
  {
    if AllFlat(a + b) {
      forall k | 0 <= k < |b| ensures b[k].Node? && Flat(b[k].kids) {
        assert b[k] == (a + b)[k + |a|];
      }
      forall k | 0 <= k < |a| ensures a[k].Node? && Flat(a[k].kids) {
        assert a[k] == (a + b)[k];
      }
    }
    if AllFlat(a) && AllFlat(b) {
      PhrasesAppend(a, b);
    }
  }

  /**
   * Extraction succeeds exactly when every outermost `NE` node is flat, and then yields
   * one phrase per outermost `NE` node, in depth-first order.
   */
  lemma {:induction false} ExtractIsOutermostPhrases(t: ChunkTree)
    ensures ExtractEntityNames(t).Some? <==> AllFlat(Outermost(t))
    ensures ExtractEntityNames(t).Some? ==> ExtractEntityNames(t).value == Phrases(Outermost(t))
    decreases t, 1
  {
    match t
    case Leaf(_, _) =>
    case Node(category, kids) =>
      if category != "NE" {
        ExtractFromKidsIsOutermostPhrases(t, kids);
      } else {
        assert [t][0] == t;
        if Flat(kids) {
          assert AllFlat([t]);
          assert Phrases([t]) == [JoinSpace(Words(kids))];
        } else {
          assert !AllFlat([t]);
        }
      }
  }

  lemma {:induction false} ExtractFromKidsIsOutermostPhrases(parent: ChunkTree, kids: seq<ChunkTree>)
    requires forall k :: 0 <= k < |kids| ==> kids[k] < parent
    ensures ExtractFromKids(parent, kids).Some? <==> AllFlat(OutermostOfKids(parent, kids))
    ensures ExtractFromKids(parent, kids).Some? ==>
      ExtractFromKids(parent, kids).value == Phrases(OutermostOfKids(parent, kids))
    decreases parent, 0, |kids|
  {
    if kids != [] {
      ExtractIsOutermostPhrases(kids[0]);
      ExtractFromKidsIsOutermostPhrases(parent, kids[1..]);
      var a, b := Outermost(kids[0]), OutermostOfKids(parent, kids[1..]);
      AllFlatSplit(a, b);
      if AllFlat(a) && AllFlat(b) {
        PhrasesAppend(a, b);
      }
    }
  }

  /** The tree contains an `NE` node somewhere. */
  predicate HasNe(t: ChunkTree)
    decreases t
  {
    match t
    case Leaf(_, _) => false
    case Node(category, kids) => category == "NE" || exists k :: 0 <= k < |kids| && HasNe(kids[k])
  }

  /** A tree without `NE` nodes has no outermost ones. */
  lemma {:induction false} NoNeNoOutermost(t: ChunkTree)
    requires !HasNe(t)
    ensures Outermost(t) == []
    decreases t, 1
  {
    match t
    case Leaf(_, _) =>
    case Node(category, kids) => NoNeNoOutermostOfKids(t, kids);
  }

  lemma {:induction false} NoNeNoOutermostOfKids(parent: ChunkTree, kids: seq<ChunkTree>)
    requires forall k :: 0 <= k < |kids| ==> kids[k] < parent && !HasNe(kids[k])
    ensures OutermostOfKids(parent, kids) == []
    decreases parent, 0, |kids|
  {
    if kids != [] {
      NoNeNoOutermost(kids[0]);
      NoNeNoOutermostOfKids(parent, kids[1..]);
    }
  }

  /** A sentence without named entities yields no names (and no failure). */
  lemma NoNeNoNames(t: ChunkTree)
    requires !HasNe(t)
    ensures ExtractEntityNames(t) == Some([])
  {
    NoNeNoOutermost(t);
    ExtractIsOutermostPhrases(t);
  }

  // ---------------------------------------------------------------------------
  // Attributing sentences to the characters.

  const HarryAliases: seq<string> := ["harry", "harry potter", "potter"]
  const RonAliases: seq<string> := ["ron", "ronald", "ronald weasley", "weasley", "ron weasley"]
  const HermioneAliases: seq<string> := ["hermione granger", "hermione", "granger", "hermione jean granger"]

  /** How many of the alias tests for one character a lower-cased name passes. */
  function Occurrences(aliases: seq<string>, name: string): (r: nat)
    ensures r <= |aliases|
    ensures r == 0 <==> name !in aliases
    decreases |aliases|
  {
    if aliases == [] then 0
    else (if aliases[0] == name then 1 else 0) + Occurrences(aliases[1..], name)
  }

  /** How many times one sentence is appended for a character: once per passed alias test per name. */
  function Hits(aliases: seq<string>, names: seq<string>): nat
    decreases |names|
  {
    if names == [] then 0
    else Hits(aliases, names[..|names| - 1]) + Occurrences(aliases, Lower(names[|names| - 1]))
  }

  /** A sentence is appended for a character exactly when one of its names is an alias of that character. */
  lemma {:induction false} HitsPositive(aliases: seq<string>, names: seq<string>)
    ensures Hits(aliases, names) > 0 <==> exists k :: 0 <= k < |names| && Lower(names[k]) in aliases
    decreases |names|
  {
    if names != [] {
      var n := |names| - 1;
      HitsPositive(aliases, names[..n]);
      if exists k :: 0 <= k < n && Lower(names[..n][k]) in aliases {
        var k :| 0 <= k < n && Lower(names[..n][k]) in aliases;
        assert names[k] == names[..n][k];
      }
      if exists k :: 0 <= k < |names| && Lower(names[k]) in aliases {
        var k :| 0 <= k < |names| && Lower(names[k]) in aliases;
        if k < n {
          assert names[..n][k] == names[k];
        }
      }
    }
  }

  /** `n` copies of one sentence. */
  function Repeat(x: TaggedSentence, n: nat): (r: seq<TaggedSentence>)
    ensures |r| == n
    decreases n
  {
    if n == 0 then [] else Repeat(x, n - 1) + [x]
  }

  lemma {:induction false} RepeatAdd(x: TaggedSentence, a: nat, b: nat)
    ensures Repeat(x, a) + Repeat(x, b) == Repeat(x, a + b)
    decreases b
  {
    if b == 0 {
      assert Repeat(x, a) + [] == Repeat(x, a);
    } else {
      RepeatAdd(x, a, b - 1);
    }
  }

  /** Every tree can be searched for names without failing. */
  predicate Extractable(trees: seq<ChunkTree>)
  {
    forall k :: 0 <= k < |trees| ==> ExtractEntityNames(trees[k]).Some?
  }

  /** The list a character's sentences end up in, after the trees seen so far. */
  function Attributed(aliases: seq<string>, trees: seq<ChunkTree>, sentences: seq<TaggedSentence>): seq<TaggedSentence>
    requires Extractable(trees) && |trees| <= |sentences|
    decreases |trees|
  {
    if trees == [] then []
    else
      var n := |trees| - 1;
      Attributed(aliases, trees[..n], sentences) +
        Repeat(sentences[n], Hits(aliases, ExtractEntityNames(trees[n]).value))
  }

  /** One more tree appends its sentence's copies after those of the earlier trees. */
  lemma AttributedStep(aliases: seq<string>, trees: seq<ChunkTree>, sentences: seq<TaggedSentence>, c: nat)
    requires c < |trees| <= |sentences| && Extractable(trees[..c]) && ExtractEntityNames(trees[c]).Some?
    ensures Extractable(trees[..c + 1])
    ensures Attributed(aliases, trees[..c + 1], sentences) ==
      Attributed(aliases, trees[..c], sentences) + Repeat(sentences[c], Hits(aliases, ExtractEntityNames(trees[c]).value))
  {
    var done := trees[..c + 1];
    assert done[..c] == trees[..c] && done[c] == trees[c];
    assert Extractable(done) by {
      forall k | 0 <= k < |done| ensures ExtractEntityNames(done[k]).Some? {
        if k < c { assert done[k] == trees[..c][k]; }
      }
    }
  }

  lemma {:induction false} RepeatMembers(x: TaggedSentence, n: nat, y: TaggedSentence)
    ensures y in Repeat(x, n) <==> n > 0 && y == x
    decreases n
  {
    if n > 0 {
      RepeatMembers(x, n - 1, y);
    }
  }

  /**
   * A sentence is in a character's list exactly when it is the sentence of some tree in
   * which a name is one of the character's aliases.
   */
  lemma {:induction false} AttributedMembers(aliases: seq<string>, trees: seq<ChunkTree>, sentences: seq<TaggedSentence>, x: TaggedSentence)
    requires Extractable(trees) && |trees| <= |sentences|
    ensures x in Attributed(aliases, trees, sentences) <==>
      exists k :: 0 <= k < |trees| && sentences[k] == x && Hits(aliases, ExtractEntityNames(trees[k]).value) > 0
    decreases |trees|
  {
    if trees != [] {
      var n := |trees| - 1;
      var front := trees[..n];
      assert forall k :: 0 <= k < n ==> front[k] == trees[k];
      AttributedMembers(aliases, front, sentences, x);
      RepeatMembers(sentences[n], Hits(aliases, ExtractEntityNames(trees[n]).value), x);
    }
  }

  /** Earlier trees contribute first: the lists after a prefix of the trees are prefixes of the final lists. */
  lemma {:induction false} AttributedPrefix(aliases: seq<string>, trees: seq<ChunkTree>, sentences: seq<TaggedSentence>, c: nat)
    requires Extractable(trees) && |trees| <= |sentences| && c <= |trees|
    ensures Extractable(trees[..c])
    ensures Attributed(aliases, trees[..c], sentences) <= Attributed(aliases, trees, sentences)
    decreases |trees| - c
  {
    assert Extractable(trees[..c]) by {
      forall k | 0 <= k < c ensures ExtractEntityNames(trees[..c][k]).Some? {
        assert trees[..c][k] == trees[k];
      }
    }
    if c < |trees| {
      AttributedPrefix(aliases, trees, sentences, c + 1);
      AttributedStep(aliases, trees, sentences, c);
    } else {
      assert trees[..c] == trees;
    }
  }

  /** A tree none of whose names is an alias of the character adds nothing to that character's list. */
  lemma NoAliasNoAppend(aliases: seq<string>, trees: seq<ChunkTree>, sentences: seq<TaggedSentence>, c: nat)
    requires c < |trees| <= |sentences| && Extractable(trees[..c]) && ExtractEntityNames(trees[c]).Some?
    requires forall k :: 0 <= k < |ExtractEntityNames(trees[c]).value| ==>
      Lower(ExtractEntityNames(trees[c]).value[k]) !in aliases
    ensures Extractable(trees[..c + 1])
    ensures Attributed(aliases, trees[..c + 1], sentences) == Attributed(aliases, trees[..c], sentences)
  {
    AttributedStep(aliases, trees, sentences, c);
    HitsPositive(aliases, ExtractEntityNames(trees[c]).value);
    assert Attributed(aliases, trees[..c], sentences) + [] == Attributed(aliases, trees[..c], sentences);
  }

  /** The three lists the filter builds. */
  datatype Attribution = Attribution(harry: seq<TaggedSentence>, ron: seq<TaggedSentence>, hermione: seq<TaggedSentence>)

  /** The three lists after all the trees. */
  function AttributionOf(trees: seq<ChunkTree>, sentences: seq<TaggedSentence>): Attribution
    requires Extractable(trees) && |trees| <= |sentences|
  {
    Attribution(
      Attributed(HarryAliases, trees, sentences),
      Attributed(RonAliases, trees, sentences),
      Attributed(HermioneAliases, trees, sentences))
  }

  /** The lists after one more sentence whose names are `names`. */
  function Extend(acc: Attribution, sentence: TaggedSentence, names: seq<string>): Attribution
  {
    Attribution(
      acc.harry + Repeat(sentence, Hits(HarryAliases, names)),
      acc.ron + Repeat(sentence, Hits(RonAliases, names)),
      acc.hermione + Repeat(sentence, Hits(HermioneAliases, names)))
  }

  /** No alias appears twice in a table. */
  predicate Distinct(aliases: seq<string>)
  {
    forall i, j :: 0 <= i < j < |aliases| ==> aliases[i] != aliases[j]
  }

  /** With distinct aliases, a name passes one test of a character when it is an alias of that character, and none otherwise. */
  lemma {:induction false} OccurrencesDistinct(aliases: seq<string>, name: string)
    requires Distinct(aliases)
    ensures Occurrences(aliases, name) == if name in aliases then 1 else 0
    decreases |aliases|
  {
    if aliases != [] {
      var rest := aliases[1..];
      assert Distinct(rest) by {
        forall i, j | 0 <= i < j < |rest| ensures rest[i] != rest[j] {
          assert rest[i] == aliases[i + 1] && rest[j] == aliases[j + 1];
        }
      }
      OccurrencesDistinct(rest, name);
      if aliases[0] == name {
        assert name !in rest by {
          forall j | 0 <= j < |rest| ensures rest[j] != name {
            assert rest[j] == aliases[j + 1];
          }
        }
      }
      assert aliases == [aliases[0]] + rest;
    }
  }

  /** Each character's alias table is free of repeats, so each name appends a sentence at most once per character. */
  lemma AliasTablesDistinct()
    ensures Distinct(HarryAliases) && Distinct(RonAliases) && Distinct(HermioneAliases)
  {
  }

  /** The three Harry tests, one after another. */
  lemma HarryTests(name: string)
    ensures Occurrences(HarryAliases, name) ==
      (if name == "harry" then 1 else 0) + (if name == "harry potter" then 1 else 0) +
      (if name == "potter" then 1 else 0)
  {
    assert HarryAliases[1..] == ["harry potter", "potter"];
    assert HarryAliases[1..][1..] == ["potter"];
  }

  /** The five Ron tests, one after another. */
  lemma RonTests(name: string)
    ensures Occurrences(RonAliases, name) ==
      (if name == "ron" then 1 else 0) + (if name == "ronald" then 1 else 0) +
      (if name == "ronald weasley" then 1 else 0) + (if name == "weasley" then 1 else 0) +
      (if name == "ron weasley" then 1 else 0)
  {
    assert RonAliases[1..] == ["ronald", "ronald weasley", "weasley", "ron weasley"];
    assert RonAliases[1..][1..] == ["ronald weasley", "weasley", "ron weasley"];
    assert RonAliases[1..][1..][1..] == ["weasley", "ron weasley"];
    assert RonAliases[1..][1..][1..][1..] == ["ron weasley"];
  }

  /** The four Hermione tests, one after another. */
  lemma HermioneTests(name: string)
    ensures Occurrences(HermioneAliases, name) ==
      (if name == "hermione granger" then 1 else 0) + (if name == "hermione" then 1 else 0) +
      (if name == "granger" then 1 else 0) + (if name == "hermione jean granger" then 1 else 0)
  {
    assert HermioneAliases[1..] == ["hermione", "granger", "hermione jean granger"];
    assert HermioneAliases[1..][1..] == ["granger", "hermione jean granger"];
    assert HermioneAliases[1..][1..][1..] == ["hermione jean granger"];
  }

  /**
   * The filter loop of the main program: for the i-th chunk tree it extracts the names and
   * routes the i-th tagged sentence by each of them. A tree whose extraction fails stops
   * the loop with no result.
   */
  method FilterByCharacter(trees: seq<ChunkTree>, sentences: seq<TaggedSentence>) returns (r: Option<Attribution>)
    requires |trees| <= |sentences|
    ensures r.Some? <==> Extractable(trees)
    ensures r.Some? ==> r.value == AttributionOf(trees, sentences)
  {
    var acc := Attribution([], [], []);
    var counter := 0;
    while counter < |trees|
      invariant 0 <= counter <= |trees|
      invariant Extractable(trees[..counter])
      invariant acc == AttributionOf(trees[..counter], sentences)
    {
      var extracted := ExtractEntityNames(trees[counter]);
      if extracted.None? {
        return None;
      }
      AttributedStep(HarryAliases, trees, sentences, counter);
      AttributedStep(RonAliases, trees, sentences, counter);
      AttributedStep(HermioneAliases, trees, sentences, counter);
      acc := RouteNames(extracted.value, sentences[counter], acc);
      counter := counter + 1;
    }
    assert trees[..counter] == trees;
    return Some(acc);
  }

  /** The loop over the names found in one sentence. */
  method RouteNames(names: seq<string>, sentence: TaggedSentence, acc0: Attribution) returns (acc: Attribution)
    ensures acc == Extend(acc0, sentence, names)
  {
    acc := acc0;
    var e := 0;
    while e < |names|
      invariant 0 <= e <= |names|
      invariant acc == Extend(acc0, sentence, names[..e])
    {
      HitsStep(HarryAliases, acc0.harry, sentence, names, e);
      HitsStep(RonAliases, acc0.ron, sentence, names, e);
      HitsStep(HermioneAliases, acc0.hermione, sentence, names, e);
      acc := Route(Lower(names[e]), sentence, acc);
      e := e + 1;
    }
    assert names[..e] == names;
  }

  /** One more name adds its copies after those of the earlier names. */
  lemma HitsStep(aliases: seq<string>, list: seq<TaggedSentence>, sentence: TaggedSentence, names: seq<string>, e: nat)
    requires e < |names|
    ensures list + Repeat(sentence, Hits(aliases, names[..e + 1])) ==
      (list + Repeat(sentence, Hits(aliases, names[..e]))) + Repeat(sentence, Occurrences(aliases, Lower(names[e])))
  {
    var prefix := names[..e + 1];
    assert prefix[..e] == names[..e] && prefix[e] == names[e];
    RepeatAdd(sentence, Hits(aliases, names[..e]), Occurrences(aliases, Lower(names[e])));
  }

  /**
   * The twelve `entity.lower() == alias` tests for one name, in the program's order: three
   * for Harry, five for Ron, four for Hermione.
   */
  method Route(entity: string, sentence: TaggedSentence, acc: Attribution) returns (next: Attribution)
    ensures next == Attribution(
      acc.harry + Repeat(sentence, Occurrences(HarryAliases, entity)),
      acc.ron + Repeat(sentence, Occurrences(RonAliases, entity)),
      acc.hermione + Repeat(sentence, Occurrences(HermioneAliases, entity)))
  {
    var har := RouteHarry(entity, sentence, acc.harry);
    var ron := RouteRon(entity, sentence, acc.ron);
    var her := RouteHermione(entity, sentence, acc.hermione);
    next := Attribution(har, ron, her);
  }

  method RouteHarry(entity: string, sentence: TaggedSentence, list: seq<TaggedSentence>) returns (har: seq<TaggedSentence>)
    ensures har == list + Repeat(sentence, Occurrences(HarryAliases, entity))
  {
    har := list;
    ghost var h := 0;
    if entity == "harry" { har := har + [sentence]; h := h + 1; }
    assert har == list + Repeat(sentence, h);
    if entity == "harry potter" { har := har + [sentence]; h := h + 1; }
    assert har == list + Repeat(sentence, h);
    if entity == "potter" { har := har + [sentence]; h := h + 1; }
    assert har == list + Repeat(sentence, h);
    HarryTests(entity);
  }

  method RouteRon(entity: string, sentence: TaggedSentence, list: seq<TaggedSentence>) returns (ron: seq<TaggedSentence>)
    ensures ron == list + Repeat(sentence, Occurrences(RonAliases, entity))
  {
    ron := list;
    ghost var r := 0;
    if entity == "ron" { ron := ron + [sentence]; r := r + 1; }
    assert ron == list + Repeat(sentence, r);
    if entity == "ronald" { ron := ron + [sentence]; r := r + 1; }
    assert ron == list + Repeat(sentence, r);
    if entity == "ronald weasley" { ron := ron + [sentence]; r := r + 1; }
    assert ron == list + Repeat(sentence, r);
    if entity == "weasley" { ron := ron + [sentence]; r := r + 1; }
    assert ron == list + Repeat(sentence, r);
    if entity == "ron weasley" { ron := ron + [sentence]; r := r + 1; }
    assert ron == list + Repeat(sentence, r);
    RonTests(entity);
  }

  method RouteHermione(entity: string, sentence: TaggedSentence, list: seq<TaggedSentence>) returns (her: seq<TaggedSentence>)
    ensures her == list + Repeat(sentence, Occurrences(HermioneAliases, entity))
  {
    her := list;
    ghost var m := 0;
    if entity == "hermione granger" { her := her + [sentence]; m := m + 1; }
    assert her == list + Repeat(sentence, m);
    if entity == "hermione" { her := her + [sentence]; m := m + 1; }
    assert her == list + Repeat(sentence, m);
    if entity == "granger" { her := her + [sentence]; m := m + 1; }
    assert her == list + Repeat(sentence, m);
    if entity == "hermione jean granger" { her := her + [sentence]; m := m + 1; }
    assert her == list + Repeat(sentence, m);
    HermioneTests(entity);
  }
}
