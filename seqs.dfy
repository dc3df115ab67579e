/** Sequence helpers: the "filter and transform" shape of the detector's
    accumulation loops, and `list(set(xs))`. */
module Seqs {
  import opened Results

  /** Keeps `f(x)` for every `x` of `xs` where `f` gives a value, in order. */
  function FilterMap<T, U>(xs: seq<T>, f: T -> Option<U>): (ys: seq<U>)
    ensures |ys| <= |xs|
    decreases |xs|
  {
    if xs == [] then []
    else
      FilterMap(xs[..|xs| - 1], f) + (match f(xs[|xs| - 1]) case Some(y) => [y] case None => [])
  }

  /** One more element of the input adds its value, if any, at the end. */
  lemma FilterMapSnoc<T, U>(xs: seq<T>, i: nat, f: T -> Option<U>)
    requires i < |xs|
    ensures FilterMap(xs[..i + 1], f) == FilterMap(xs[..i], f) + (match f(xs[i]) case Some(y) => [y] case None => [])
  {
    assert xs[..i + 1][..i] == xs[..i];
  }

  /** A value is in the result exactly when some element maps to it. */
  lemma {:induction false} FilterMapMember<T, U>(xs: seq<T>, f: T -> Option<U>, y: U)
    ensures y in FilterMap(xs, f) <==> exists i :: 0 <= i < |xs| && f(xs[i]) == Some(y)
    decreases |xs|
  {
    if xs != [] {
      var init, last := xs[..|xs| - 1], xs[|xs| - 1];
      var tail := match f(last) case Some(z) => [z] case None => [];
      assert FilterMap(xs, f) == FilterMap(init, f) + tail;
      assert y in tail <==> f(last) == Some(y);
      FilterMapMember(init, f, y);
      if y in FilterMap(init, f) {
        var i :| 0 <= i < |init| && f(init[i]) == Some(y);
        assert xs[i] == init[i];
      }
      if exists i :: 0 <= i < |xs| && f(xs[i]) == Some(y) {
        var i :| 0 <= i < |xs| && f(xs[i]) == Some(y);
        if i < |init| {
          assert init[i] == xs[i];
        }
      }
    }
  }

  /** The result is empty exactly when no element maps to a value. */
  lemma {:induction false} FilterMapEmpty<T, U>(xs: seq<T>, f: T -> Option<U>)
    ensures FilterMap(xs, f) == [] <==> forall i :: 0 <= i < |xs| ==> f(xs[i]).None?
    decreases |xs|
  {
    if xs != [] {
      var init := xs[..|xs| - 1];
      FilterMapEmpty(init, f);
      assert forall i :: 0 <= i < |init| ==> init[i] == xs[i];
    }
  }

  /** Filtering distributes over concatenation. */
  lemma {:induction false} FilterMapConcat<T, U>(xs: seq<T>, ys: seq<T>, f: T -> Option<U>)
    ensures FilterMap(xs + ys, f) == FilterMap(xs, f) + FilterMap(ys, f)
    decreases |ys|
  {
    if ys == [] {
      assert xs + ys == xs;
    } else {
      var init := ys[..|ys| - 1];
      FilterMapConcat(xs, init, f);
      assert (xs + ys)[..|xs + ys| - 1] == xs + init;
    }
  }

  /** Taking an element out of the input takes its value, if any, out of the
      multiset of the output. */
  lemma FilterMapRemove<T, U>(before: seq<T>, x: T, after: seq<T>, f: T -> Option<U>)
    ensures multiset(FilterMap((before + [x]) + after, f))
            == multiset(FilterMap(before + after, f)) + multiset(FilterMap([x], f))
  {
    FilterMapAround(before, x, after, f);
    FilterMapConcat(before, after, f);
    MultisetMiddle(FilterMap(before, f), FilterMap([x], f), FilterMap(after, f));
  }

  /** Filtering an element with what comes before and after it. */
  lemma FilterMapAround<T, U>(before: seq<T>, x: T, after: seq<T>, f: T -> Option<U>)
    ensures FilterMap((before + [x]) + after, f) == (FilterMap(before, f) + FilterMap([x], f)) + FilterMap(after, f)
  {
    FilterMapConcat(before + [x], after, f);
    FilterMapConcat(before, [x], f);
  }

  /** The same elements taken out of equal multisets leave equal multisets. */
  lemma MultisetCancel<T>(a: multiset<T>, b: multiset<T>, c: multiset<T>)
    requires a + c == b + c
    ensures a == b
  {
    assert a == (a + c) - c;
    assert b == (b + c) - c;
  }

  /** Moving the middle part of a sequence out keeps its multiset. */
  lemma MultisetMiddle<T>(a: seq<T>, b: seq<T>, c: seq<T>)
    ensures multiset((a + b) + c) == multiset(a + c) + multiset(b)
  {
  }

  /** Reordering the input only reorders the output: the result, as a multiset,
      depends only on the multiset of inputs. */
  lemma {:induction false} FilterMapPermutation<T, U>(xs: seq<T>, ys: seq<T>, f: T -> Option<U>)
    requires multiset(xs) == multiset(ys)
    ensures multiset(FilterMap(xs, f)) == multiset(FilterMap(ys, f))
    decreases |xs|
  {
    if xs == [] {
      assert |ys| == |multiset(ys)| == 0;
    } else {
      var x, init := xs[|xs| - 1], xs[..|xs| - 1];
      assert xs == init + [x];
      assert x in multiset(ys);
      var k :| 0 <= k < |ys| && ys[k] == x;
      var before, after := ys[..k], ys[k + 1..];
      var rest := before + after;
      assert ys == (before + [x]) + after;
      MultisetMiddle(before, [x], after);
      MultisetCancel(multiset(init), multiset(rest), multiset([x]));
      FilterMapPermutation(init, rest, f);
      FilterMapRemove(before, x, after, f);
      FilterMapConcat(init, [x], f);
      calc {
        multiset(FilterMap(xs, f));
        multiset(FilterMap(init, f) + FilterMap([x], f));
        multiset(FilterMap(init, f)) + multiset(FilterMap([x], f));
        multiset(FilterMap(rest, f)) + multiset(FilterMap([x], f));
        multiset(FilterMap(ys, f));
      }
    }
  }

  /** Appends `f(x)` for every `x` of `xs`, in order, when `f` gives a value not
      yet in the list built so far. */
  function MergeNew<T>(xs: seq<T>, acc: seq<string>, f: T -> Option<string>): seq<string>
    decreases |xs|
  {
    if xs == [] then acc
    else
      var merged := MergeNew(xs[..|xs| - 1], acc, f);
      match f(xs[|xs| - 1])
      case Some(y) => if y !in merged then merged + [y] else merged
      case None => merged
  }

  /** The merge only appends to `acc`, and what it appends is new to `acc` and
      appears once. */
  lemma {:induction false} MergeNewExtends<T>(xs: seq<T>, acc: seq<string>, f: T -> Option<string>)
    ensures |MergeNew(xs, acc, f)| >= |acc|
    ensures MergeNew(xs, acc, f)[..|acc|] == acc
    ensures NoDuplicates(MergeNew(xs, acc, f)[|acc|..])
    ensures forall y :: y in MergeNew(xs, acc, f)[|acc|..] ==> y !in acc
    decreases |xs|
  {
    if xs != [] {
      var init := xs[..|xs| - 1];
      MergeNewExtends(init, acc, f);
      var merged := MergeNew(init, acc, f);
      var result := MergeNew(xs, acc, f);
      if result != merged {
        var y := f(xs[|xs| - 1]).value;
        assert result == merged + [y] && y !in merged;
        assert result[|acc|..] == merged[|acc|..] + [y];
        assert merged == merged[..|acc|] + merged[|acc|..];
      }
    }
  }

  /** After the merge, a value is in the list exactly when it was in `acc` or
      `f` gives it for some element. */
  lemma {:induction false} MergeNewMember<T>(xs: seq<T>, acc: seq<string>, f: T -> Option<string>, y: string)
    ensures y in MergeNew(xs, acc, f) <==> y in acc || exists i :: 0 <= i < |xs| && f(xs[i]) == Some(y)
    decreases |xs|
  {
    if xs != [] {
      var init, last := xs[..|xs| - 1], xs[|xs| - 1];
      MergeNewMember(init, acc, f, y);
      var merged := MergeNew(init, acc, f);
      assert y in MergeNew(xs, acc, f) <==> y in merged || f(last) == Some(y);
      if y in merged && y !in acc {
        var i :| 0 <= i < |init| && f(init[i]) == Some(y);
        assert xs[i] == init[i];
      }
      if y !in acc && exists i :: 0 <= i < |xs| && f(xs[i]) == Some(y) {
        var i :| 0 <= i < |xs| && f(xs[i]) == Some(y);
        if i < |init| {
          assert init[i] == xs[i];
        }
      }
    }
  }

  /** No element occurs twice. */
  predicate NoDuplicates<T(==)>(xs: seq<T>) {
    forall i, j :: 0 <= i < j < |xs| ==> xs[i] != xs[j]
  }

  /** Python's `list(set(xs))`, keeping the first occurrence of each element. */
  function Distinct(xs: seq<string>): (ys: seq<string>)
    ensures forall x :: x in ys <==> x in xs
    ensures NoDuplicates(ys)
    decreases |xs|
  {
    if xs == [] then []
    else
      var prior := Distinct(xs[..|xs| - 1]);
      assert forall x :: x in xs[..|xs| - 1] ==> x in xs;
      assert forall x :: x in xs ==> x in xs[..|xs| - 1] || x == xs[|xs| - 1];
      if xs[|xs| - 1] in prior then prior else prior + [xs[|xs| - 1]]
  }
}
