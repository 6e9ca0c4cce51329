/**
 * The dictionary tagger: greedy, left-to-right, longest-match fusion of token
 * runs that spell a lexicon key.  The functions state what one pass over a
 * sentence produces for a given window bound; the class `DictionaryTagger`
 * is the stateful object whose methods run the nested loops and update the
 * window field.
 */
module Tagging {
  import opened Wrappers
  import opened Text
  import opened Tokens
  import opened Lexicon

  function Min(a: int, b: int): int
  {
    if a < b then a else b
  }

  /** The lookup key of the token run [i, j): its surface forms joined by spaces, then lower-cased. */
  function Key(s: seq<Token>, i: nat, j: nat): string
    requires i <= j <= |s|
  {
    Lower(JoinSpace(Forms(s[i..j])))
  }

  /** The largest end in (i, j] whose key is in the lexicon: the inner loop that shrinks the window. */
  function MatchEnd(dict: Dict, s: seq<Token>, i: nat, j: nat): (r: Option<nat>)
    requires i <= j <= |s|
    ensures r.Some? ==> i < r.value <= j && Key(s, i, r.value) in dict
    decreases j
  {
    if j == i then None
    else if Key(s, i, j) in dict then Some(j)
    else MatchEnd(dict, s, i, j - 1)
  }

  /**
   * The token emitted for a match on [i, j): lower-cased joined forms and lemmas,
   * the lexicon's labels, then the original tags when the match is a single token.
   */
  function Fused(dict: Dict, s: seq<Token>, i: nat, j: nat): Token
    requires i < j <= |s| && Key(s, i, j) in dict
  {
    Token(Key(s, i, j), Lower(JoinSpace(Lemmas(s[i..j]))),
          dict[Key(s, i, j)] + (if j - i == 1 then s[i].tags else []))
  }

  /** The tokens `tag_sentence` emits from position i on, with window bound w. */
  function TagFrom(dict: Dict, w: nat, s: seq<Token>, i: nat): (r: seq<Token>)
    requires i <= |s|
    ensures |r| <= |s| - i
    ensures |r| == 0 <==> i == |s|
    decreases |s| - i
  {
    if i == |s| then []
    else match MatchEnd(dict, s, i, Min(i + w, |s|))
      case Some(j) => [Fused(dict, s, i, j)] + TagFrom(dict, w, s, j)
      case None => [s[i]] + TagFrom(dict, w, s, i + 1)
  }

  /** One step of the outer loop when the shrinking window finds a match ending at j. */
  lemma TagFromMatched(dict: Dict, w: nat, s: seq<Token>, i: nat, j: nat)
    requires i < |s| && MatchEnd(dict, s, i, Min(i + w, |s|)) == Some(j)
    ensures TagFrom(dict, w, s, i) == [Fused(dict, s, i, j)] + TagFrom(dict, w, s, j)
  {
  }

  /** One step of the outer loop when no window end matches. */
  lemma TagFromUnmatched(dict: Dict, w: nat, s: seq<Token>, i: nat)
    requires i < |s| && MatchEnd(dict, s, i, Min(i + w, |s|)).None?
    ensures TagFrom(dict, w, s, i) == [s[i]] + TagFrom(dict, w, s, i + 1)
  {
  }

  /** The outer loop's invariant survives emitting the token for position i and moving on. */
  lemma TagFromAdvance(dict: Dict, w: nat, s: seq<Token>, i: nat, done: seq<Token>, emitted: Token, next: nat)
    requires i < |s|
    requires done + TagFrom(dict, w, s, i) == TagFrom(dict, w, s, 0)
    requires MatchEnd(dict, s, i, Min(i + w, |s|)).Some? ==>
      next == MatchEnd(dict, s, i, Min(i + w, |s|)).value && emitted == Fused(dict, s, i, next)
    requires MatchEnd(dict, s, i, Min(i + w, |s|)).None? ==> next == i + 1 && emitted == s[i]
    ensures next <= |s|
    ensures (done + [emitted]) + TagFrom(dict, w, s, next) == TagFrom(dict, w, s, 0)
  {
    var found := MatchEnd(dict, s, i, Min(i + w, |s|));
    if found.Some? {
      TagFromMatched(dict, w, s, i, found.value);
    } else {
      TagFromUnmatched(dict, w, s, i);
    }
    var rest := TagFrom(dict, w, s, next);
    assert TagFrom(dict, w, s, i) == [emitted] + rest;
    AppendShift(done, emitted, rest);
  }

  lemma AppendShift<T>(done: seq<T>, x: T, rest: seq<T>)
    ensures done + ([x] + rest) == (done + [x]) + rest
  {
  }

  /** `tag_sentence` with window bound w, as a function of the lexicon and the sentence. */
  function Tagged(dict: Dict, w: nat, s: seq<Token>): seq<Token>
  {
    TagFrom(dict, w, s, 0)
  }

  // ---------------------------------------------------------------------------
  // The same pass seen as spans of the input.

  /** One step of the outer loop: a fused run [start, end) or a token copied through. */
  datatype Span = Fuse(start: nat, end: nat) | Keep(pos: nat)
  {
    function Start(): nat
    {
      match this
      case Fuse(i, _) => i
      case Keep(i) => i
    }

    function End(): nat
    {
      match this
      case Fuse(_, j) => j
      case Keep(i) => i + 1
    }
  }

  /** The span lies inside the sentence, and a fused span spells a lexicon key. */
  predicate Fits(dict: Dict, s: seq<Token>, sp: Span)
  {
    match sp
    case Fuse(i, j) => i < j <= |s| && Key(s, i, j) in dict
    case Keep(i) => i < |s|
  }

  function Render(dict: Dict, s: seq<Token>, sp: Span): Token
    requires Fits(dict, s, sp)
  {
    match sp
    case Fuse(i, j) => Fused(dict, s, i, j)
    case Keep(i) => s[i]
  }

  /** The spans the tagger takes from position i on, with window bound w. */
  function Segment(dict: Dict, w: nat, s: seq<Token>, i: nat): (segs: seq<Span>)
    requires i <= |s|
    ensures forall k :: 0 <= k < |segs| ==> Fits(dict, s, segs[k])
    decreases |s| - i
  {
    if i == |s| then []
    else match MatchEnd(dict, s, i, Min(i + w, |s|))
      case Some(j) => [Fuse(i, j)] + Segment(dict, w, s, j)
      case None => [Keep(i)] + Segment(dict, w, s, i + 1)
  }

  /** Renders a run of spans, one token per span. */
  function RenderAll(dict: Dict, s: seq<Token>, segs: seq<Span>): (r: seq<Token>)
    requires forall k :: 0 <= k < |segs| ==> Fits(dict, s, segs[k])
    ensures |r| == |segs|
    ensures forall k :: 0 <= k < |segs| ==> r[k] == Render(dict, s, segs[k])
    decreases |segs|
  {
    if segs == [] then [] else [Render(dict, s, segs[0])] + RenderAll(dict, s, segs[1..])
  }

  /** The tagger's output is exactly the rendering of its spans, in order. */
  lemma {:induction false} TagFromRendersSegment(dict: Dict, w: nat, s: seq<Token>, i: nat)
    requires i <= |s|
    ensures TagFrom(dict, w, s, i) == RenderAll(dict, s, Segment(dict, w, s, i))
    decreases |s| - i
  {
    if i < |s| {
      var segs := Segment(dict, w, s, i);
      match MatchEnd(dict, s, i, Min(i + w, |s|)) {
        case Some(j) =>
          assert segs[1..] == Segment(dict, w, s, j);
          TagFromRendersSegment(dict, w, s, j);
        case None =>
          assert segs[1..] == Segment(dict, w, s, i + 1);
          TagFromRendersSegment(dict, w, s, i + 1);
      }
    }
  }

  // ---------------------------------------------------------------------------
  // The greedy parse, stated independently of the functions above.

  /** `segs` are consecutive, non-empty, non-overlapping spans that exactly cover [lo, hi). */
  ghost predicate Covers(segs: seq<Span>, lo: nat, hi: nat)
    decreases |segs|
  {
    if segs == [] then lo == hi
    else segs[0].Start() == lo && lo < segs[0].End() && Covers(segs[1..], segs[0].End(), hi)
  }

  /**
   * A fused span ends at the largest end within the window whose key is in the
   * lexicon; a kept token has no key in the lexicon at any end within the window.
   */
  ghost predicate LongestAt(dict: Dict, w: nat, s: seq<Token>, sp: Span)
  {
    match sp
    case Fuse(i, j) =>
      && i < j <= Min(i + w, |s|)
      && Key(s, i, j) in dict
      && forall e :: j < e <= Min(i + w, |s|) ==> Key(s, i, e) !in dict
    case Keep(i) =>
      && i < |s|
      && forall e :: i < e <= Min(i + w, |s|) ==> Key(s, i, e) !in dict
  }

  ghost predicate GreedyFrom(dict: Dict, w: nat, s: seq<Token>, segs: seq<Span>, lo: nat)
  {
    Covers(segs, lo, |s|) && forall k :: 0 <= k < |segs| ==> LongestAt(dict, w, s, segs[k])
  }

  /** The shrinking window stops at the longest match, and finds none only when there is none. */
  lemma {:induction false} MatchEndLongest(dict: Dict, s: seq<Token>, i: nat, j: nat)
    requires i <= j <= |s|
    ensures MatchEnd(dict, s, i, j).None? <==> forall e :: i < e <= j ==> Key(s, i, e) !in dict
    ensures MatchEnd(dict, s, i, j).Some? ==>
      forall e :: MatchEnd(dict, s, i, j).value < e <= j ==> Key(s, i, e) !in dict
    decreases j
  {
    if j > i && Key(s, i, j) !in dict {
      MatchEndLongest(dict, s, i, j - 1);
    }
  }

  /** The spans cover the rest of the sentence and each one is the longest match at its start. */
  lemma {:induction false} SegmentGreedy(dict: Dict, w: nat, s: seq<Token>, i: nat)
    requires i <= |s|
    ensures GreedyFrom(dict, w, s, Segment(dict, w, s, i), i)
    decreases |s| - i
  {
    if i < |s| {
      var segs := Segment(dict, w, s, i);
      MatchEndLongest(dict, s, i, Min(i + w, |s|));
      var next := segs[0].End();
      SegmentGreedy(dict, w, s, next);
      assert segs[1..] == Segment(dict, w, s, next);
      assert LongestAt(dict, w, s, segs[0]);
    }
  }

  /** The spans from lo when the shrinking window finds a match ending at j. */
  lemma SegmentMatched(dict: Dict, w: nat, s: seq<Token>, lo: nat, j: nat)
    requires lo < |s| && MatchEnd(dict, s, lo, Min(lo + w, |s|)) == Some(j)
    ensures Segment(dict, w, s, lo) == [Fuse(lo, j)] + Segment(dict, w, s, j)
  {
  }

  /** The spans from lo when no window end matches. */
  lemma SegmentUnmatched(dict: Dict, w: nat, s: seq<Token>, lo: nat)
    requires lo < |s| && MatchEnd(dict, s, lo, Min(lo + w, |s|)).None?
    ensures Segment(dict, w, s, lo) == [Keep(lo)] + Segment(dict, w, s, lo + 1)
  {
  }

  /** The longest match at lo is the one the shrinking window finds. */
  lemma FirstSpan(dict: Dict, w: nat, s: seq<Token>, sp: Span, lo: nat)
    requires lo < |s| && sp.Start() == lo && LongestAt(dict, w, s, sp)
    ensures Segment(dict, w, s, lo) == [sp] + Segment(dict, w, s, sp.End())
  {
    var hi := Min(lo + w, |s|);
    MatchEndLongest(dict, s, lo, hi);
    if sp.Fuse? {
      assert MatchEnd(dict, s, lo, hi) == Some(sp.end);
      SegmentMatched(dict, w, s, lo, sp.end);
    } else {
      assert MatchEnd(dict, s, lo, hi).None?;
      SegmentUnmatched(dict, w, s, lo);
    }
  }

  /** Any greedy parse from lo is the one the tagger computes: the output is uniquely determined. */
  lemma {:induction false} GreedyUnique(dict: Dict, w: nat, s: seq<Token>, segs: seq<Span>, lo: nat)
    requires lo <= |s|
    requires GreedyFrom(dict, w, s, segs, lo)
    ensures segs == Segment(dict, w, s, lo)
    decreases |segs|
  {
    if segs != [] {
      assert LongestAt(dict, w, s, segs[0]);
      assert forall k :: 0 <= k < |segs[1..]| ==> segs[1..][k] == segs[k + 1];
      GreedyUnique(dict, w, s, segs[1..], segs[0].End());
      FirstSpan(dict, w, s, segs[0], lo);
      assert segs == [segs[0]] + segs[1..];
    }
  }

  /** Spans covering [lo, hi) are at most hi - lo many, and none exactly when the range is empty. */
  lemma {:induction false} CoverLength(segs: seq<Span>, lo: nat, hi: nat)
    requires Covers(segs, lo, hi)
    ensures lo <= hi && |segs| <= hi - lo
    ensures |segs| == 0 <==> lo == hi
    decreases |segs|
  {
    if segs != [] {
      CoverLength(segs[1..], segs[0].End(), hi);
    }
  }

  /** With an empty lexicon nothing is fused: every token is copied through. */
  lemma {:induction false} TagFromEmptyLexicon(w: nat, s: seq<Token>, i: nat)
    requires i <= |s|
    ensures TagFrom(map[], w, s, i) == s[i..]
    decreases |s| - i
  {
    if i < |s| {
      TagFromEmptyLexicon(w, s, i + 1);
      assert s[i..] == [s[i]] + s[i + 1..];
    }
  }

  /** An empty lexicon leaves every sentence exactly as it was, whatever the window. */
  lemma EmptyLexiconIdentity(w: nat, s: seq<Token>)
    ensures Tagged(map[], w, s) == s
  {
    TagFromEmptyLexicon(w, s, 0);
  }

  /**
   * What a fused token carries: the joined, lower-cased forms and lemmas of its run,
   * the lexicon's labels first, and the original tags after them only for a one-token run.
   */
  lemma FusedContents(dict: Dict, s: seq<Token>, i: nat, j: nat)
    requires i < j <= |s| && Key(s, i, j) in dict
    ensures Fused(dict, s, i, j).form == Lower(JoinSpace(Forms(s[i..j])))
    ensures Fused(dict, s, i, j).lemmaForm == Lower(JoinSpace(Lemmas(s[i..j])))
    ensures Fused(dict, s, i, j).tags[..|dict[Key(s, i, j)]|] == dict[Key(s, i, j)]
    ensures j - i == 1 ==> Fused(dict, s, i, j).tags[|dict[Key(s, i, j)]|..] == s[i].tags
    ensures j - i > 1 ==> Fused(dict, s, i, j).tags == dict[Key(s, i, j)]
  {
  }

  /**
   * Because the window is the longest key's character length, it never cuts off a match
   * whose tokens all have a non-empty surface form.
   */
  lemma WindowCoversMatch(dict: Dict, m: nat, s: seq<Token>, i: nat, j: nat)
    requires IsMaxKeyLength(dict.Keys, m)
    requires i <= j <= |s|
    requires forall k :: i <= k < j ==> |s[k].form| > 0
    requires Key(s, i, j) in dict
    ensures j - i <= m
  {
    var forms := Forms(s[i..j]);
    assert forall k :: 0 <= k < |forms| ==> forms[k] == s[i + k].form;
    JoinSpaceLength(forms);
    LowerFixesLowerCase(JoinSpace(forms));
  }

  // ---------------------------------------------------------------------------
  // The window field across sentences.

  /** The window `tag_sentence` uses: a zero field is replaced by the sentence length. */
  function Settle(w: nat, n: nat): nat
  {
    if w == 0 then n else w
  }

  /** The window field after tagging `ss` one sentence after another, starting from w. */
  function WindowAfter(w: nat, ss: seq<seq<Token>>): nat
    decreases |ss|
  {
    if ss == [] then w else Settle(WindowAfter(w, ss[..|ss| - 1]), |ss[|ss| - 1]|)
  }

  lemma WindowAfterStep(w: nat, ss: seq<seq<Token>>, n: nat)
    requires n < |ss|
    ensures WindowAfter(w, ss[..n + 1]) == Settle(WindowAfter(w, ss[..n]), |ss[n]|)
  {
    assert ss[..n + 1][..n] == ss[..n];
  }

  /** Tagging a + b moves the field as tagging a, then b. */
  lemma {:induction false} WindowAfterAppend(w: nat, a: seq<seq<Token>>, b: seq<seq<Token>>)
    ensures WindowAfter(w, a + b) == WindowAfter(WindowAfter(w, a), b)
    decreases |b|
  {
    if b == [] {
      assert a + b == a;
    } else {
      assert (a + b)[..|a + b| - 1] == a + b[..|b| - 1];
      WindowAfterAppend(w, a, b[..|b| - 1]);
    }
  }

  /** Once the field is non-zero no sentence changes it. */
  lemma {:induction false} WindowSticks(w: nat, ss: seq<seq<Token>>)
    requires w != 0
    ensures WindowAfter(w, ss) == w
    decreases |ss|
  {
    if ss != [] {
      WindowSticks(w, ss[..|ss| - 1]);
    }
  }

  /** From zero, the field stays zero exactly as long as every sentence is empty. */
  lemma {:induction false} WindowStaysZero(ss: seq<seq<Token>>)
    ensures WindowAfter(0, ss) == 0 <==> forall k :: 0 <= k < |ss| ==> |ss[k]| == 0
    decreases |ss|
  {
    if ss != [] {
      var init := ss[..|ss| - 1];
      WindowStaysZero(init);
      if WindowAfter(0, init) != 0 {
        WindowSticks(WindowAfter(0, init), []);
        var k :| 0 <= k < |init| && |init[k]| != 0;
        assert ss[k] == init[k];
      }
    }
  }

  /** From zero, the field takes the length of the first non-empty sentence and keeps it. */
  lemma WindowFirstNonEmpty(ss: seq<seq<Token>>, k: nat)
    requires k < |ss| && |ss[k]| > 0
    requires forall m :: 0 <= m < k ==> |ss[m]| == 0
    ensures WindowAfter(0, ss) == |ss[k]|
  {
    var before, after := ss[..k], ss[k + 1..];
    assert ss == before + [ss[k]] + after;
    WindowStaysZero(before);
    WindowAfterAppend(0, before, [ss[k]]);
    WindowAfterAppend(0, before + [ss[k]], after);
    assert [ss[k]][..0] == [];
    WindowSticks(|ss[k]|, after);
  }

  // ---------------------------------------------------------------------------

  /**
   * The inner loop of `tag_sentence`: shrinks the window end j from j0 towards i until
   * the run [i, j) spells a lexicon key, and builds the fused token for it.
   */
  method ShrinkWindow(dict: Dict, sentence: seq<Token>, i: nat, j0: nat) returns (matched: bool, end: nat, token: Token)
    requires i <= j0 <= |sentence|
    ensures matched <==> MatchEnd(dict, sentence, i, j0).Some?
    ensures matched ==> end == MatchEnd(dict, sentence, i, j0).value
    ensures matched ==> token == Fused(dict, sentence, i, end)
  {
    var j := j0;
    matched, end, token := false, i, Token([], [], []);
    while j > i && !matched
      invariant i <= j <= j0
      invariant !matched ==> MatchEnd(dict, sentence, i, j0) == MatchEnd(dict, sentence, i, j)
      invariant matched ==> MatchEnd(dict, sentence, i, j0) == Some(end)
      invariant matched ==> i < end <= |sentence| && Key(sentence, i, end) in dict
      invariant matched ==> token == Fused(dict, sentence, i, end)
      decreases j - i, if matched then 0 else 1
    {
      var form := Key(sentence, i, j);
      var lemmaForm := Lower(JoinSpace(Lemmas(sentence[i..j])));
      if form in dict {
        var taggings := dict[form];
        if j - i == 1 {
          taggings := taggings + sentence[i].tags;
        }
        matched, end, token := true, j, Token(form, lemmaForm, taggings);
      } else {
        j := j - 1;
      }
    }
  }

  /**
   * The outer loop of `tag_sentence` for a settled window bound w: at each position
   * emits the fused token of the longest match, or copies the token through.
   */
  method TagPass(dict: Dict, w: nat, sentence: seq<Token>) returns (tagged: seq<Token>)
    ensures tagged == Tagged(dict, w, sentence)
  {
    var n := |sentence|;
    tagged := [];
    var i := 0;
    while i < n
      invariant 0 <= i <= n
      invariant tagged + TagFrom(dict, w, sentence, i) == TagFrom(dict, w, sentence, 0)
      decreases n - i
    {
      var matched, end, token := ShrinkWindow(dict, sentence, i, Min(i + w, n));
      var emitted, next := token, end;
      if !matched {
        emitted, next := sentence[i], i + 1;
      }
      TagFromAdvance(dict, w, sentence, i, tagged, emitted, next);
      tagged, i := tagged + [emitted], next;
    }
    assert tagged + [] == tagged;
  }

  /** The tagger object: the merged lexicon and the window bound it keeps in a field. */
  class DictionaryTagger {
    var dictionary: Dict
    var maxKeySize: nat

    /** Merges the already-loaded dictionaries in order, recording the longest key length. */
    constructor (dictionaries: seq<Dict>)
      ensures dictionary == Merge(dictionaries)
      ensures IsMaxKeyLength(dictionary.Keys, maxKeySize)
    {
      dictionary := map[];
      maxKeySize := 0;
      new;
      var n := 0;
      while n < |dictionaries|
        invariant 0 <= n <= |dictionaries|
        invariant dictionary == Merge(dictionaries[..n])
        invariant IsMaxKeyLength(dictionary.Keys, maxKeySize)
      {
        ghost var done := dictionaries[..n + 1];
        assert done[..n] == dictionaries[..n] && done[n] == dictionaries[n];
        assert Merge(done) == Combine(Merge(dictionaries[..n]), dictionaries[n]);
        Absorb(dictionaries[n]);
        n := n + 1;
      }
      assert dictionaries[..n] == dictionaries;
    }

    /**
     * One pass of the constructor's outer loop: each key of `current` is inserted with its
     * labels, or has them appended when it is already present; a newly inserted key may
     * raise the window bound.
     */
    method Absorb(current: Dict)
      requires IsMaxKeyLength(dictionary.Keys, maxKeySize)
      modifies this
      ensures dictionary == Combine(old(dictionary), current)
      ensures IsMaxKeyLength(dictionary.Keys, maxKeySize)
    {
      var pending := current.Keys;
      ghost var acc := dictionary;
      CombineNothing(acc, current);
      while pending != {}
        invariant pending <= current.Keys
        invariant dictionary == Combine(acc, current - pending)
        invariant IsMaxKeyLength(dictionary.Keys, maxKeySize)
        decreases pending
      {
        var key :| key in pending;
        CombineInsert(acc, current, pending, key);
        ghost var next := Combine(acc, current - (pending - {key}));
        if key in dictionary {
          dictionary := dictionary[key := dictionary[key] + current[key]];
        } else {
          MaxKeyLengthInsert(dictionary.Keys, maxKeySize, key);
          assert [] + current[key] == current[key];
          dictionary := dictionary[key := current[key]];
          maxKeySize := if maxKeySize < |key| then |key| else maxKeySize;
        }
        assert dictionary == next;
        pending := pending - {key};
      }
      assert current - {} == current;
    }

    /**
     * `tag_sentence`: fuses the longest lexicon match at each position, left to right,
     * and first replaces a zero window field by the sentence length, for good.
     */
    method TagSentence(sentence: seq<Token>) returns (tagged: seq<Token>)
      modifies this
      ensures dictionary == old(dictionary)
      ensures maxKeySize == Settle(old(maxKeySize), |sentence|)
      ensures tagged == Tagged(dictionary, maxKeySize, sentence)
    {
      if maxKeySize == 0 {
        maxKeySize := |sentence|;
      }
      tagged := TagPass(dictionary, maxKeySize, sentence);
    }

    /**
     * `tag`: tags the sentences one after another; each sentence sees the window
     * field as the sentences before it left it.
     */
    method Tag(sentences: seq<seq<Token>>) returns (tagged: seq<seq<Token>>)
      modifies this
      ensures dictionary == old(dictionary)
      ensures maxKeySize == WindowAfter(old(maxKeySize), sentences)
      ensures |tagged| == |sentences|
      ensures forall k :: 0 <= k < |sentences| ==>
        tagged[k] == Tagged(dictionary, WindowAfter(old(maxKeySize), sentences[..k + 1]), sentences[k])
    {
      ghost var dict, w0 := dictionary, maxKeySize;
      tagged := [];
      var n := 0;
      while n < |sentences|
        invariant 0 <= n <= |sentences|
        invariant dictionary == dict
        invariant maxKeySize == WindowAfter(w0, sentences[..n])
        invariant |tagged| == n
        invariant forall k :: 0 <= k < n ==>
          tagged[k] == Tagged(dict, WindowAfter(w0, sentences[..k + 1]), sentences[k])
      {
        WindowAfterStep(w0, sentences, n);
        var t := TagSentence(sentences[n]);
        assert t == Tagged(dict, WindowAfter(w0, sentences[..n + 1]), sentences[n]);
        ghost var before := tagged;
        tagged := tagged + [t];
        forall k | 0 <= k < n + 1
          ensures tagged[k] == Tagged(dict, WindowAfter(w0, sentences[..k + 1]), sentences[k])
        {
          if k < n {
            assert tagged[k] == before[k];
          }
        }
        n := n + 1;
      }
      assert sentences[..n] == sentences;
    }
  }
}
