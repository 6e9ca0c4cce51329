/**
 * The merged lexicon that `DictionaryTagger.__init__` builds from its label
 * dictionaries, stated as functions of the list of already-loaded dictionaries.
 */
module Lexicon {

  /** One loaded dictionary, and the merged one: an expression mapped to its labels. */
  type Dict = map<string, seq<string>>

  /** Every key of every dictionary in `ds`. */
  function KeysOf(ds: seq<Dict>): set<string>
    decreases |ds|
  {
    if ds == [] then {} else KeysOf(ds[..|ds| - 1]) + ds[|ds| - 1].Keys
  }

  /** The label lists of `key` in every dictionary of `ds` that has it, concatenated in order. */
  function LabelsOf(ds: seq<Dict>, key: string): seq<string>
    decreases |ds|
  {
    if ds == [] then []
    else LabelsOf(ds[..|ds| - 1], key) + (if key in ds[|ds| - 1] then ds[|ds| - 1][key] else [])
  }

  /** One dictionary merged into `acc`: new keys are inserted, the labels of known keys extended. */
  function Combine(acc: Dict, d: Dict): Dict
  {
    map key | key in acc.Keys + d.Keys ::
      (if key in acc then acc[key] else []) + (if key in d then d[key] else [])
  }

  /** The merged lexicon: the dictionaries combined one after another, starting from `{}`. */
  function Merge(ds: seq<Dict>): Dict
    decreases |ds|
  {
    if ds == [] then map[] else Combine(Merge(ds[..|ds| - 1]), ds[|ds| - 1])
  }

  /** `m` is the largest character length of a key in `keys`, or 0 when there is none. */
  ghost predicate IsMaxKeyLength(keys: set<string>, m: nat)
  {
    && (forall k :: k in keys ==> |k| <= m)
    && (m == 0 || exists k :: k in keys && |k| == m)
  }

  /** A key of the merged lexicon is exactly a key of some source dictionary. */
  lemma {:induction false} KeysOfMember(ds: seq<Dict>, key: string)
    ensures key in KeysOf(ds) <==> exists n :: 0 <= n < |ds| && key in ds[n]
    decreases |ds|
  {
    if ds != [] {
      var init := ds[..|ds| - 1];
      KeysOfMember(init, key);
      if key in KeysOf(init) {
        var n :| 0 <= n < |init| && key in init[n];
        assert key in ds[n];
      }
      if exists n :: 0 <= n < |ds| && key in ds[n] {
        var n :| 0 <= n < |ds| && key in ds[n];
        if n < |init| { assert key in init[n]; }
      }
    }
  }

  /** A key that no dictionary has collects no labels. */
  lemma {:induction false} LabelsOfAbsent(ds: seq<Dict>, key: string)
    requires key !in KeysOf(ds)
    ensures LabelsOf(ds, key) == []
    decreases |ds|
  {
    if ds != [] {
      LabelsOfAbsent(ds[..|ds| - 1], key);
    }
  }

  /** Merging a list of dictionaries split in two concatenates the labels of the two halves. */
  lemma {:induction false} LabelsOfAppend(a: seq<Dict>, b: seq<Dict>, key: string)
    ensures LabelsOf(a + b, key) == LabelsOf(a, key) + LabelsOf(b, key)
    decreases |b|
  {
    if b == [] {
      assert a + b == a;
    } else {
      var b' := b[..|b| - 1];
      assert (a + b)[..|a + b| - 1] == a + b';
      assert (a + b)[|a + b| - 1] == b[|b| - 1];
      LabelsOfAppend(a, b', key);
    }
  }

  /**
   * After merging, the keys are those of the source dictionaries, and each key's labels are
   * its label lists from every dictionary that has it, concatenated in source order.
   */
  lemma {:induction false} MergeIsConcatenation(ds: seq<Dict>)
    ensures Merge(ds).Keys == KeysOf(ds)
    ensures forall key :: key in Merge(ds) ==> Merge(ds)[key] == LabelsOf(ds, key)
    decreases |ds|
  {
    if ds != [] {
      var init := ds[..|ds| - 1];
      MergeIsConcatenation(init);
      forall key | key in Merge(ds)
        ensures Merge(ds)[key] == LabelsOf(ds, key)
      {
        if key !in KeysOf(init) {
          LabelsOfAbsent(init, key);
        }
      }
    }
  }

  /** Merging a list split in two concatenates the labels the two halves give a key. */
  lemma MergeAppend(a: seq<Dict>, b: seq<Dict>, key: string)
    requires key in Merge(a + b)
    ensures key in Merge(a) || key in Merge(b)
    ensures Merge(a + b)[key] ==
      (if key in Merge(a) then Merge(a)[key] else []) + (if key in Merge(b) then Merge(b)[key] else [])
  {
    MergeIsConcatenation(a + b);
    MergeIsConcatenation(a);
    MergeIsConcatenation(b);
    LabelsOfAppend(a, b, key);
    KeysOfMember(a + b, key);
    KeysOfMember(a, key);
    KeysOfMember(b, key);
    var n :| 0 <= n < |a + b| && key in (a + b)[n];
    if n >= |a| { assert key in b[n - |a|]; }
    if key !in KeysOf(a) { LabelsOfAbsent(a, key); }
    if key !in KeysOf(b) { LabelsOfAbsent(b, key); }
  }

  /** Merging a single dictionary gives that dictionary back. */
  lemma MergeSingle(d: Dict)
    ensures Merge([d]) == d
  {
    assert [d][..0] == [];
    var m := Combine(map[], d);
    assert m.Keys == d.Keys;
    forall key | key in d
      ensures m[key] == d[key]
    {
      assert m[key] == [] + d[key];
    }
  }

  /** Merging the keys not yet pending, one more key at a time. */
  lemma CombineInsert(acc: Dict, d: Dict, pending: set<string>, key: string)
    requires key in pending && key in d
    ensures key in Combine(acc, d - pending) <==> key in acc
    ensures key in acc ==> Combine(acc, d - pending)[key] == acc[key]
    ensures Combine(acc, d - (pending - {key})) ==
      Combine(acc, d - pending)[key := (if key in acc then acc[key] else []) + d[key]]
  {
    var before, after := Combine(acc, d - pending), Combine(acc, d - (pending - {key}));
    if key in acc {
      assert before[key] == acc[key] + [];
    }
  }

  /** Nothing merged yet: the accumulated lexicon is unchanged. */
  lemma CombineNothing(acc: Dict, d: Dict)
    ensures Combine(acc, d - d.Keys) == acc
  {
    var c := Combine(acc, d - d.Keys);
    assert c.Keys == acc.Keys;
    forall key | key in acc
      ensures c[key] == acc[key]
    {
      assert c[key] == acc[key] + [];
    }
  }

  /** The maximum key length is determined by the key set. */
  lemma MaxKeyLengthUnique(keys: set<string>, m1: nat, m2: nat)
    requires IsMaxKeyLength(keys, m1) && IsMaxKeyLength(keys, m2)
    ensures m1 == m2
  {
    if m1 != 0 {
      var k :| k in keys && |k| == m1;
    }
    if m2 != 0 {
      var k :| k in keys && |k| == m2;
    }
  }

  /** Inserting a key raises the maximum to `max(m, len(key))`. */
  lemma MaxKeyLengthInsert(keys: set<string>, m: nat, key: string)
    requires IsMaxKeyLength(keys, m)
    ensures IsMaxKeyLength(keys + {key}, if m < |key| then |key| else m)
  {
  }
}
