/** The part of the structural diff library's output that the detector reads.
    The library itself is not modelled: its result is an input to the model. */
module DeepDiffOutput {
  import opened PyJson

  /** The `{'old_value': ..., 'new_value': ...}` record of one changed leaf value. */
  datatype ValueChange = ValueChange(oldValue: Json, newValue: Json)

  /** The three parts of `DeepDiff(previous, current, ignore_order=True)` that the
      detector reads: `dictionary_item_added`, `dictionary_item_removed` and
      `values_changed`.  Every location is the library's printed form, such as
      `root['paths']['/users']['get']`.  Each collection is listed in the order
      Python iterates it; an absent part is empty. */
  datatype Diff = Diff(
    itemsAdded: seq<string>,
    itemsRemoved: seq<string>,
    valuesChanged: seq<(string, ValueChange)>)

  /** The locations of `values_changed`, in iteration order (iterating a dict yields its keys). */
  function ChangedKeys(d: Diff): (keys: seq<string>)
    ensures |keys| == |d.valuesChanged|
    ensures forall i :: 0 <= i < |keys| ==> keys[i] == d.valuesChanged[i].0
  {
    seq(|d.valuesChanged|, i requires 0 <= i < |d.valuesChanged| => d.valuesChanged[i].0)
  }

  /** A dict key the library prints unambiguously: non-empty, without quotes or brackets. */
  predicate SimpleKey(k: string) {
    k != [] && forall i :: 0 <= i < |k| ==> k[i] != '\'' && k[i] != '[' && k[i] != ']'
  }

  /** The `['k1']['k2']...` tail of a printed location. */
  function Segments(keys: seq<string>): string {
    if keys == [] then "" else "['" + keys[0] + "']" + Segments(keys[1..])
  }

  /** How the library prints the location of a nested dict key: `root['k1']['k2']...`. */
  function Render(keys: seq<string>): string {
    "root" + Segments(keys)
  }

  /** The tail printed for a first key followed by more keys. */
  lemma SegmentsCons(k: string, rest: seq<string>)
    ensures Segments([k] + rest) == "['" + k + "']" + Segments(rest)
  {
    assert ([k] + rest)[1..] == rest;
  }

  /** Every `[` of a printed tail opens it or follows a `]`. */
  predicate OpenAfterClose(s: string) {
    forall i :: 0 < i < |s| && s[i] == '[' ==> s[i - 1] == ']'
  }

  lemma {:induction false} SegmentsOpenAfterClose(keys: seq<string>)
    requires forall k :: 0 <= k < |keys| ==> SimpleKey(keys[k])
    ensures OpenAfterClose(Segments(keys))
    ensures Segments(keys) == [] || Segments(keys)[0] == '['
    decreases |keys|
  {
    if keys != [] {
      var head := "['" + keys[0] + "']";
      var tail := Segments(keys[1..]);
      SegmentsOpenAfterClose(keys[1..]);
      assert Segments(keys) == head + tail;
      forall i | 0 < i < |head + tail| && (head + tail)[i] == '['
        ensures (head + tail)[i - 1] == ']'
      {
        if i > |head| {
          assert (head + tail)[i] == tail[i - |head|];
        }
      }
    }
  }
}
