# Lexicon sentiment tagging of Harry Potter chapters, in Dafny

This project models the core of `basic_sentiment_analysis_working.py`. That script scores how
positively or negatively a chapter speaks about three characters: Harry, Ron and Hermione.

**The pipeline, one step at a time**

1. Chunk trees are searched for named entities.
2. Each part-of-speech tagged sentence is routed to the characters whose aliases it names.
3. The sentences are reshaped into `(form, lemma, tags)` tokens.
4. A `DictionaryTagger` tags the tokens with `positive` and `negative` labels. It first merges several label dictionaries into one lexicon. Then it does greedy, left-to-right, longest-match fusion of token runs that spell a lexicon key.
5. The labels are added up into a sentiment score.

**Modules**

- `Wrappers`: the `Option` result used for lookups and raising paths.
- `Text`: `' '.join` and an ASCII `str.lower()`.
- `Tokens`: the token triple.
- `PosTagging`: `POSTagger.pos_tag`.
- `Lexicon`: the merge of label dictionaries, as a specification.
- `Tagging`: the matching specification and the `DictionaryTagger` class.
- `Scoring`: `value_of`, `sentence_score` and `sentiment_score`.
- `Entities`: `extract_entity_names2` and the alias filter of the main block.
- `Scenarios`: worked examples.

**How the code is modelled**

- **`DictionaryTagger` is a class.** Its fields `dictionary` and `maxKeySize` are updated in place:
  - the constructor loops over the dictionaries;
  - `Absorb` is one pass of that loop, over the keys of one dictionary;
  - `TagSentence` settles the window field and runs the outer matching loop, `TagPass`;
  - `ShrinkWindow` is the inner loop;
  - `Tag` tags sentence after sentence.
- **Each method is proved against a function.** These are `Merge`/`Combine`, `TagFrom`/`Tagged`, `MatchEnd`/`Fused` and `WindowAfter`. The lemmas about those functions state the promised properties:
  - the merged labels are the per-file lists concatenated in order;
  - the window bound is the longest key's character length;
  - the spans cover the sentence without overlap;
  - each span is the longest match at its start;
  - the greedy parse is unique;
  - the fused token has the stated contents;
  - the window field behaves as described below.
- **The scoring functions are pure.** Lemmas give:
  - additivity over tokens, sentences and reviews;
  - independence from `previous_token`;
  - the bound |score| ≤ number of labels;
  - the count form: positives minus negatives, so any reordering of the labels leaves the score unchanged.
- **Entity extraction is a function over a chunk-tree datatype.** It is related to an independent description: the outermost `NE` nodes and their phrases.
- **The alias filter is a method.** It is proved equal to a function over the trees. Lemmas cover membership, order (prefix), "no alias, no append", and "once per passed test".

**Behaviour worth knowing**

- The window bound `max_key_size` is the longest key's *character* length, `len(str(key))` (basic_sentiment_analysis_working.py:64). `Tagging.WindowCoversMatch` shows this bound never cuts off a key whose tokens have non-empty forms.
- When `max_key_size` is 0, `tag_sentence` writes the current sentence's length into the field (basic_sentiment_analysis_working.py:81-82). If that length is non-zero, it stays for every later sentence (`Tagging.WindowSticks`). An empty sentence leaves the field 0, and the next sentence writes its own length (`Tagging.WindowStaysZero`, `WindowFirstNonEmpty`).
- A sentence is appended to a character's list once for every extracted name that passes one of that character's alias tests (basic_sentiment_analysis_working.py:190-215). A sentence naming "Weasley" twice is therefore in Ron's list twice (`Scenarios.WeasleyTwiceIsAppendedTwice`).
- A key found in several dictionaries gets their label lists concatenated, duplicates kept (basic_sentiment_analysis_working.py:61).

**Inputs that are not computed here**

- The NLTK sentence splitter, word tokenizer, part-of-speech tagger and chunker. Their outputs (tagged sentences, chunk trees) are parameters.
- The dictionaries are given already loaded, as a sequence of maps from key to label list.

## Model

| member | source | states |
|---|---|---|
| Lexicon.KeysOfMember | basic_sentiment_analysis_working.py:58-63 | a key is in the merged key set exactly when some dictionary contains it |
| Lexicon.MergeIsConcatenation | basic_sentiment_analysis_working.py:55-64 | after merging, the keys are those of the dictionaries, and each key's labels are its label lists from every dictionary containing it, concatenated in dictionary order |
| Lexicon.MergeAppend | basic_sentiment_analysis_working.py:58-63 | merging two runs of dictionaries gives each key the labels from the first run followed by those from the second |
| Lexicon.MergeSingle | basic_sentiment_analysis_working.py:55-63 | merging a single dictionary into the empty lexicon gives that dictionary |
| Lexicon.CombineInsert | basic_sentiment_analysis_working.py:60-63 | one key step: a key not yet present is inserted with its labels, and a present key gets the new labels appended after its old ones |
| Lexicon.CombineNothing | basic_sentiment_analysis_working.py:55-59 | before any key of a dictionary is processed, the lexicon is unchanged |
| Lexicon.MaxKeyLengthInsert | basic_sentiment_analysis_working.py:64 | inserting a new key raises the recorded bound to the larger of the old bound and the key's character length |
| Lexicon.MaxKeyLengthUnique | basic_sentiment_analysis_working.py:56-64 | the bound is determined by the key set: the largest key length, or 0 with no keys |
| Tagging.DictionaryTagger.constructor | basic_sentiment_analysis_working.py:50-64 | the lexicon is the in-order merge of the dictionaries and `maxKeySize` is the largest character length of any key (0 when there are none) |
| Tagging.DictionaryTagger.Absorb | basic_sentiment_analysis_working.py:58-64 | one pass over a dictionary's keys merges it into the lexicon (insert or extend) and keeps `maxKeySize` the largest key length |
| Tagging.DictionaryTagger.TagSentence | basic_sentiment_analysis_working.py:70-107 | the lexicon is unchanged; a zero window field becomes the sentence length and any other value stays; the output is the greedy longest-match tagging with the field's new value |
| Tagging.TagPass | basic_sentiment_analysis_working.py:83-107 | the outer loop's output is the greedy longest-match tagging of the sentence for the settled window bound |
| Tagging.ShrinkWindow | basic_sentiment_analysis_working.py:85-103 | the shrinking window stops at the first (largest) end whose lower-cased joined forms are a key, and then builds the fused token; it reports no match when no end matches |
| Tagging.DictionaryTagger.Tag | basic_sentiment_analysis_working.py:66-68 | one tagged sentence per input sentence, in order; the k-th is tagged with the window field as the first k+1 sentences leave it, and the field ends as all sentences leave it |
| Tagging.MatchEnd | basic_sentiment_analysis_working.py:87-103 | a match found lies strictly after i, no later than the window end, and spells a lexicon key |
| Tagging.MatchEndLongest | basic_sentiment_analysis_working.py:85-103 | no match exactly when no end in the window spells a key; a match is the longest in the window |
| Tagging.TagFrom | basic_sentiment_analysis_working.py:84-107 | the output is no longer than the remaining input, and is empty exactly when no input remains |
| Tagging.TagFromAdvance | basic_sentiment_analysis_working.py:84-106 | one outer iteration appends the fused or copied token and advances i, keeping output + rest-to-tag equal to the whole tagging |
| Tagging.Segment | basic_sentiment_analysis_working.py:84-106 | each span the tagger takes lies in the sentence, and a fused span spells a key |
| Tagging.TagFromRendersSegment | basic_sentiment_analysis_working.py:84-107 | the output is exactly the spans rendered in order: a fused token per matched span, the original token per unmatched position |
| Tagging.SegmentGreedy | basic_sentiment_analysis_working.py:84-106 | the spans are consecutive, non-empty and non-overlapping, exactly cover the rest of the sentence, and each is the longest match within the window at its start (or a single unmatched token when none) |
| Tagging.GreedyUnique | basic_sentiment_analysis_working.py:73-78 | any cover by longest-match spans equals the tagger's: the two priority rules determine the tagging |
| Tagging.CoverLength | basic_sentiment_analysis_working.py:84-106 | a cover of [lo, hi) has at most hi - lo spans, and none exactly when the range is empty |
| Tagging.TagFromEmptyLexicon | basic_sentiment_analysis_working.py:104-106 | with an empty lexicon every token is copied through unchanged |
| Tagging.EmptyLexiconIdentity | basic_sentiment_analysis_working.py:104-106 | with an empty lexicon the tagged sentence equals the input |
| Tagging.FusedContents | basic_sentiment_analysis_working.py:88-100 | a fused token's form and lemma are the lower-cased joined forms and lemmas; its tags are the lexicon's labels, followed by the original token's tags only for a one-token match |
| Tagging.WindowCoversMatch | basic_sentiment_analysis_working.py:64 | when tokens have non-empty forms, a key spanning j - i tokens has at least j - i characters, so the character-length window never cuts off a match |
| Tagging.WindowAfterAppend | basic_sentiment_analysis_working.py:66-68 | tagging two batches of sentences leaves the field as tagging the second batch starting from where the first left it |
| Tagging.WindowSticks | basic_sentiment_analysis_working.py:81-82 | a non-zero window field is never changed by tagging |
| Tagging.WindowStaysZero | basic_sentiment_analysis_working.py:81-82 | a zero field stays zero exactly when every sentence tagged so far is empty |
| Tagging.WindowFirstNonEmpty | basic_sentiment_analysis_working.py:81-82 | from zero, the field ends as the length of the first non-empty sentence |
| Text.LowerFixesLowerCase | basic_sentiment_analysis_working.py:88-89 | lower-casing keeps the length, leaves no upper-case letter, and changes nothing in a lower-case string |
| Text.JoinSpaceLength | basic_sentiment_analysis_working.py:88 | joining n non-empty words with spaces gives at least n characters |
| PosTagging.PosTag | basic_sentiment_analysis_working.py:44 | as many sentences and tokens as the input; every (w, t) becomes a token with form w, lemma w and tags [t] |
| PosTagging.PosTagRoundTrip | basic_sentiment_analysis_working.py:44 | the reshaped tokens have the reshaped form, and the (word, tag) pairs can be read back unchanged |
| PosTagging.PosUntagRoundTrip | basic_sentiment_analysis_working.py:44 | every token list of that shape is the reshaping of its pairs |
| Scoring.ValueOf | basic_sentiment_analysis_working.py:110-116 | 1 exactly for `positive`, -1 exactly for `negative`, 0 for every other label |
| Scoring.TagsScore | basic_sentiment_analysis_working.py:126 | a token's score is within one point per label of zero |
| Scoring.SentenceScore | basic_sentiment_analysis_working.py:119-127 | the result is within one point per label of the starting accumulator |
| Scoring.SentimentScore | basic_sentiment_analysis_working.py:130-132 | the review score is within one point per label of the whole review of zero |
| Scoring.TagsScoreCounts | basic_sentiment_analysis_working.py:110-116 | the score of a label list is the number of `positive` labels minus the number of `negative` labels |
| Scoring.TagsScorePermutation | basic_sentiment_analysis_working.py:126 | reordering labels leaves the score unchanged |
| Scoring.TagsScoreAppend | basic_sentiment_analysis_working.py:126 | the label score is additive over concatenation |
| Scoring.SentenceScoreSum | basic_sentiment_analysis_working.py:119-127 | a sentence score is the accumulator plus the score of all the sentence's labels |
| Scoring.SentenceScoreIgnoresPrevious | basic_sentiment_analysis_working.py:119-127 | the `previous_token` argument has no influence on the result |
| Scoring.SentenceScoreAppend | basic_sentiment_analysis_working.py:119-127 | splitting a sentence's tokens in two splits its score into the two parts' scores |
| Scoring.SentimentScoreIsTagsScore | basic_sentiment_analysis_working.py:130-132 | the review score is the score of all labels of all sentences together |
| Scoring.SentimentScoreAppend | basic_sentiment_analysis_working.py:130-132 | the review score is additive over concatenating sentence lists |
| Scoring.SentimentScoreCounts | basic_sentiment_analysis_working.py:130-132 | the review score is positives minus negatives over the whole review |
| Entities.Words | basic_sentiment_analysis_working.py:140 | the words of an all-leaf node, one per child, in order |
| Entities.Outermost | basic_sentiment_analysis_working.py:138-143 | the nodes collected are all labelled `NE` |
| Entities.Phrases | basic_sentiment_analysis_working.py:140 | one joined phrase per flat `NE` node, in order |
| Entities.ExtractIsOutermostPhrases | basic_sentiment_analysis_working.py:135-144 | extraction succeeds exactly when every outermost `NE` node has only leaves as children, and then yields one joined phrase per `NE` node not nested in another, in depth-first left-to-right order |
| Entities.ExtractFromKidsIsOutermostPhrases | basic_sentiment_analysis_working.py:141-143 | the loop over a non-`NE` node's children extends the result with each child's phrases, in order |
| Entities.NoNeNoNames | basic_sentiment_analysis_working.py:135-144 | a tree with no `NE` node yields no names and does not fail |
| Entities.FilterByCharacter | basic_sentiment_analysis_working.py:183-216 | fails exactly when some tree's extraction fails; otherwise the three lists are, per character, each tree's sentence repeated once per passed alias test, in document order |
| Entities.RouteNames | basic_sentiment_analysis_working.py:190-215 | the loop over one sentence's names appends that sentence once per passed alias test per name, for each character |
| Entities.Route | basic_sentiment_analysis_working.py:192-215 | the twelve tests for one name append the sentence to each character's list once per equal alias |
| Entities.RouteHarry | basic_sentiment_analysis_working.py:192-197 | the three Harry tests append the sentence once per equal alias |
| Entities.RouteRon | basic_sentiment_analysis_working.py:198-207 | the five Ron tests append the sentence once per equal alias |
| Entities.RouteHermione | basic_sentiment_analysis_working.py:208-215 | the four Hermione tests append the sentence once per equal alias |
| Entities.Occurrences | basic_sentiment_analysis_working.py:192-215 | the number of passed tests is at most the number of aliases, and zero exactly when the name is no alias |
| Entities.OccurrencesDistinct | basic_sentiment_analysis_working.py:192-215 | with distinct aliases a name passes one test when it is an alias and none otherwise |
| Entities.AliasTablesDistinct | basic_sentiment_analysis_working.py:192-215 | no character's alias table repeats an alias |
| Entities.HarryTests | basic_sentiment_analysis_working.py:192-197 | Harry's passed tests are counted test by test |
| Entities.RonTests | basic_sentiment_analysis_working.py:198-207 | Ron's passed tests are counted test by test |
| Entities.HermioneTests | basic_sentiment_analysis_working.py:208-215 | Hermione's passed tests are counted test by test |
| Entities.HitsPositive | basic_sentiment_analysis_working.py:190-215 | a sentence is appended for a character exactly when one of its names, lower-cased, is an alias of that character |
| Entities.AttributedStep | basic_sentiment_analysis_working.py:183-216 | one more tree appends its sentence's copies after those of the earlier trees |
| Entities.AttributedMembers | basic_sentiment_analysis_working.py:183-216 | a sentence is in a character's list exactly when it is the sentence of a tree with a name that is one of the character's aliases |
| Entities.AttributedPrefix | basic_sentiment_analysis_working.py:183-216 | the lists after a prefix of the trees are prefixes of the final lists: document order is kept |
| Entities.NoAliasNoAppend | basic_sentiment_analysis_working.py:190-215 | a tree none of whose names is an alias of the character adds nothing to its list |
| Scenarios.TwoFileLexicon | basic_sentiment_analysis_working.py:55-64 | merging {good: [positive]} and {not good: [negative]} gives both keys and the bound 8 |
| Scenarios.NotGoodIsOneNegativeToken | basic_sentiment_analysis_working.py:84-107 | "not good" is fused as one token labelled only `negative`, ahead of "good" alone |
| Scenarios.NotGoodScoresMinusOne | basic_sentiment_analysis_working.py:119-127 | that sentence scores -1 |
| Scenarios.WeasleyTwiceNames | basic_sentiment_analysis_working.py:135-144 | a tree with two `NE` nodes for "Weasley" yields the name twice |
| Scenarios.WeasleyTwiceIsAppendedTwice | basic_sentiment_analysis_working.py:183-216 | that sentence is in Ron's list twice and in nobody else's |
| Scenarios.PosTagExample | basic_sentiment_analysis_working.py:44 | a concrete reshaping of two tagged words |

## Left out

- `Splitter` and the NLTK calls (sentence splitting, word tokenizing, part-of-speech tagging, named-entity chunking) are foreign library behaviour. Their outputs are parameters: tagged sentences and `ChunkTree` values.
- Opening and YAML-loading the dictionary files, and reading the chapter file, are I/O. The constructor takes the loaded dictionaries as `seq<map<string, seq<string>>>`.
- YAML values that are scalars rather than lists, and non-string keys, are not modelled. Keys are strings and values are label sequences.
- All `print` / `pprint` output is not modelled. It is diagnostics only.
- The list aliasing in the constructor is not modelled. `self.dictionary[key] = curr_dict[key]` (line 63) stores the loaded list itself, so a later `extend` (line 61) changes that list in place. The model stores values. It therefore does not capture the case where a YAML anchor makes two keys share one list object. There, extending one key's labels also changes the other key's labels in the merged lexicon, and the result depends on key order.
- Keys are assumed ASCII. Under Python 2, PyYAML returns a `unicode` key for a non-ASCII key, and `str(key)` (line 64) then raises `UnicodeEncodeError`, so the constructor fails. `DictionaryTagger.constructor` and `IsMaxKeyLength` take the length of every key and never fail.
- Scoring.SentenceScore: `sentence_score` (lines 119-127) recurses once per token. Python 2's default recursion limit of 1000 makes a sentence of about a thousand tokens raise `RuntimeError`. The model returns a value for every length.
- Lower-casing is ASCII only (`Text.Lower`). Python's Unicode `str.lower()` is not modelled.
- Scores are integers. The float `0.0` start of each sentence score is not modelled: every contribution is an integer, so the sum is the same.
- Dictionary iteration order in the constructor is left open: `Absorb` picks any pending key. The merged result does not depend on the order.
- Entities.ExtractEntityNames: an `NE` node with a subtree among its children makes `' '.join` raise in the program. The model returns `None` for this case. `FilterByCharacter` then returns `None`, where the program stops with an exception.
- Entities.FilterByCharacter: requires at least as many tagged sentences as chunk trees. With fewer, `tagged_sentences[counter]` (line 186) raises `IndexError`, and this path is not modelled. In the program, `ne_chunk_sents` produces one tree per tagged sentence, so the path is never taken there.
- Entities.FilterByCharacter: the three lists are returned together as one `Attribution` value instead of being three variables of the main block.
- The tagging, POS reshaping and scoring of the three lists after the filter (lines 217–264) are not modelled as a program. They are compositions of `Tag`, `PosTag` and `SentimentScore`, which are modelled.
