/**
 * Ordered lists without repeats, built the way the orchestration builds them:
 * `if x not in xs: xs.append(x)`.
 */
module Unique {

  predicate NoDuplicates<T(==)>(s: seq<T>)
  {
    forall i, j :: 0 <= i < j < |s| ==> s[i] != s[j]
  }

  /** One step of the idiom: append `x` unless it is already present. */
  function AddNew<T(==)>(acc: seq<T>, x: T): seq<T>
  {
    if x in acc then acc else acc + [x]
  }

  /** The idiom applied to every element of `xs` in turn, starting from `acc`. */
  function Merge<T(==)>(acc: seq<T>, xs: seq<T>): seq<T>
    decreases |xs|
  {
    if xs == [] then acc else Merge(AddNew(acc, xs[0]), xs[1..])
  }

  /** Reference definition: the elements of `xs` at their first occurrence, in order. */
  function Dedup<T(==)>(xs: seq<T>): (r: seq<T>)
    ensures NoDuplicates(r)
    ensures forall i :: 0 <= i < |r| ==> r[i] in xs
    ensures forall i :: 0 <= i < |xs| ==> xs[i] in r
  {
    if xs == [] then []
    else AddNew(Dedup(xs[..|xs| - 1]), xs[|xs| - 1])
  }

  /** The position of the first occurrence of `x` in `xs`. */
  function FirstIndex<T(==)>(xs: seq<T>, x: T): (i: nat)
    requires x in xs
    ensures i < |xs| && xs[i] == x && x !in xs[..i]
  {
    if xs[0] == x then 0 else 1 + FirstIndex(xs[1..], x)
  }

  /** Merging a concatenation is merging its two halves one after the other. */
  lemma {:induction false} MergeAppend<T>(acc: seq<T>, xs: seq<T>, ys: seq<T>)
    ensures Merge(acc, xs + ys) == Merge(Merge(acc, xs), ys)
    decreases |xs|
  {
    if xs != [] {
      assert (xs + ys)[0] == xs[0];
      assert (xs + ys)[1..] == xs[1..] + ys;
      MergeAppend(AddNew(acc, xs[0]), xs[1..], ys);
    } else {
      assert xs + ys == ys;
    }
  }

  /** Merging one more element is one more `AddNew`. */
  lemma MergeSnoc<T>(acc: seq<T>, xs: seq<T>, x: T)
    ensures Merge(acc, xs + [x]) == AddNew(Merge(acc, xs), x)
  {
    MergeAppend(acc, xs, [x]);
  }

  /** A list without repeats is its own deduplication. */
  lemma {:induction false} DedupOfUnique<T>(xs: seq<T>)
    requires NoDuplicates(xs)
    ensures Dedup(xs) == xs
  {
    if xs != [] {
      var init := xs[..|xs| - 1];
      DedupOfUnique(init);
      assert xs[|xs| - 1] !in init;
      assert init + [xs[|xs| - 1]] == xs;
    }
  }

  /** Starting from a repeat-free list, the idiom computes the deduplication of the whole. */
  lemma {:induction false} MergeIsDedup<T>(acc: seq<T>, xs: seq<T>)
    requires NoDuplicates(acc)
    ensures Merge(acc, xs) == Dedup(acc + xs)
    decreases |xs|
  {
    if xs == [] {
      assert acc + xs == acc;
      DedupOfUnique(acc);
    } else {
      var init, x := xs[..|xs| - 1], xs[|xs| - 1];
      assert xs == init + [x];
      MergeIsDedup(acc, init);
      MergeSnoc(acc, init, x);
      assert (acc + xs)[..|acc + xs| - 1] == acc + init && (acc + xs)[|acc + xs| - 1] == x;
      assert Dedup(acc + xs) == AddNew(Dedup(acc + init), x);
    }
  }

  /** Merging a deduplicated list adds exactly what merging the raw list adds. */
  lemma {:induction false} MergeDedup<T>(acc: seq<T>, xs: seq<T>)
    ensures Merge(acc, Dedup(xs)) == Merge(acc, xs)
    decreases |xs|
  {
    if xs != [] {
      var init, x := xs[..|xs| - 1], xs[|xs| - 1];
      assert xs == init + [x];
      MergeDedup(acc, init);
      MergeSnoc(acc, init, x);
      MergeElements(acc, init);
      if x in Dedup(init) {
        assert Dedup(xs) == Dedup(init);
      } else {
        MergeSnoc(acc, Dedup(init), x);
      }
    }
  }

  /** The idiom keeps what it started with and gains exactly the merged elements. */
  lemma {:induction false} MergeElements<T>(acc: seq<T>, xs: seq<T>)
    ensures forall x :: x in Merge(acc, xs) <==> x in acc || x in xs
    ensures NoDuplicates(acc) ==> NoDuplicates(Merge(acc, xs))
    decreases |xs|
  {
    if xs != [] {
      MergeElements(AddNew(acc, xs[0]), xs[1..]);
      assert xs == [xs[0]] + xs[1..];
    }
  }

  /** A deduplicated list lists its elements in the order of their first occurrence. */
  lemma {:induction false} DedupKeepsFirstOccurrenceOrder<T>(xs: seq<T>, i: nat, j: nat)
    requires i < j < |Dedup(xs)|
    ensures FirstIndex(xs, Dedup(xs)[i]) < FirstIndex(xs, Dedup(xs)[j])
    decreases |xs|
  {
    var init, x := xs[..|xs| - 1], xs[|xs| - 1];
    var d := Dedup(init);
    var a, b := Dedup(xs)[i], Dedup(xs)[j];
    if x in d {
      DedupKeepsFirstOccurrenceOrder(init, i, j);
      FirstIndexPrefix(xs, a);
      FirstIndexPrefix(xs, b);
    } else if j < |d| {
      DedupKeepsFirstOccurrenceOrder(init, i, j);
      FirstIndexPrefix(xs, a);
      FirstIndexPrefix(xs, b);
    } else {
      assert b == x && x !in init;
      FirstIndexPrefix(xs, a);
      assert FirstIndex(xs, b) == |xs| - 1 by { LastFirstIndex(xs); }
    }
  }

  /** An element of all but the last position is first found there. */
  lemma {:induction false} FirstIndexPrefix<T>(xs: seq<T>, a: T)
    requires |xs| > 0 && a in xs[..|xs| - 1]
    ensures FirstIndex(xs, a) == FirstIndex(xs[..|xs| - 1], a) < |xs| - 1
  {
    if xs[0] != a {
      assert xs[1..][..|xs[1..]| - 1] == xs[..|xs| - 1][1..];
      FirstIndexPrefix(xs[1..], a);
    }
  }

  /** A last element that occurs nowhere earlier is first found at the end. */
  lemma LastFirstIndex<T>(xs: seq<T>)
    requires |xs| > 0 && xs[|xs| - 1] !in xs[..|xs| - 1]
    ensures FirstIndex(xs, xs[|xs| - 1]) == |xs| - 1
  {
  }
}
