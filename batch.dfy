/**
 * The shape both enrichment loops share: every item is processed in turn, an item whose
 * processing raises contributes nothing, and every other item contributes one record,
 * appended in input order.
 */
module Batch {
  import opened Wrappers

  /** The records a loop over `xs` appends, when `step` is what one item yields (`None` for
      an item whose processing raised). */
  function Survivors<T, U>(xs: seq<T>, step: T -> Option<U>): (r: seq<U>)
    ensures |r| <= |xs|
  {
    if xs == [] then []
    else
      var last := step(xs[|xs| - 1]);
      Survivors(xs[..|xs| - 1], step) + (if last.Some? then [last.value] else [])
  }

  /** One more item extends the records of the earlier ones by its own record, if any. */
  lemma SurvivorsSnoc<T, U>(xs: seq<T>, x: T, step: T -> Option<U>)
    ensures Survivors(xs + [x], step) == Survivors(xs, step) + (if step(x).Some? then [step(x).value] else [])
  {
    assert (xs + [x])[..|xs|] == xs;
  }

  /** Isolation: the records of a batch are those of its two halves, one after the other, so
      no item's outcome depends on the items before or after it. */
  lemma {:induction false} SurvivorsAppend<T, U>(xs: seq<T>, ys: seq<T>, step: T -> Option<U>)
    ensures Survivors(xs + ys, step) == Survivors(xs, step) + Survivors(ys, step)
    decreases |ys|
  {
    if ys == [] {
      assert xs + ys == xs;
    } else {
      var init := ys[..|ys| - 1];
      var y := ys[|ys| - 1];
      assert ys == init + [y];
      assert xs + ys == (xs + init) + [y];
      SurvivorsSnoc(xs + init, y, step);
      SurvivorsAppend(xs, init, step);
      SurvivorsSnoc(init, y, step);
    }
  }

  /** An item that raises is skipped and the items after it are still processed. */
  lemma SkipFailing<T, U>(before: seq<T>, x: T, after: seq<T>, step: T -> Option<U>)
    requires step(x).None?
    ensures Survivors(before + [x] + after, step) == Survivors(before, step) + Survivors(after, step)
  {
    SurvivorsAppend(before + [x], after, step);
    SurvivorsSnoc(before, x, step);
  }

  /** When no item raises there is exactly one record per item, the i-th for the i-th item. */
  lemma {:induction false} SurvivorsAllKept<T, U>(xs: seq<T>, step: T -> Option<U>)
    requires forall i :: 0 <= i < |xs| ==> step(xs[i]).Some?
    ensures |Survivors(xs, step)| == |xs|
    ensures forall i :: 0 <= i < |xs| ==> Survivors(xs, step)[i] == step(xs[i]).value
    decreases |xs|
  {
    if xs != [] {
      var init := xs[..|xs| - 1];
      assert forall i :: 0 <= i < |init| ==> init[i] == xs[i];
      SurvivorsAllKept(init, step);
    }
  }

  /** Order and completeness: the records are the successful items' records, taken at
      strictly increasing positions, and every successful item has its record there. */
  lemma {:induction false} SurvivorsOrigin<T, U>(xs: seq<T>, step: T -> Option<U>) returns (idx: seq<nat>)
    ensures |idx| == |Survivors(xs, step)|
    ensures forall k :: 0 <= k < |idx| ==> idx[k] < |xs| && step(xs[idx[k]]) == Some(Survivors(xs, step)[k])
    ensures forall k, l :: 0 <= k < l < |idx| ==> idx[k] < idx[l]
    ensures forall i :: 0 <= i < |xs| && step(xs[i]).Some? ==> i in idx
    decreases |xs|
  {
    if xs == [] {
      idx := [];
    } else {
      var n := |xs| - 1;
      var init := xs[..n];
      var prev := SurvivorsOrigin(init, step);
      assert forall i :: 0 <= i < n ==> init[i] == xs[i];
      if step(xs[n]).Some? {
        idx := prev + [n];
      } else {
        idx := prev;
      }
    }
  }

  /** One iteration of such a loop: appending the item's record, if any, to the records of
      the items before it gives the records of the longer prefix. */
  lemma SurvivorsStep<T, U>(results: seq<U>, xs: seq<T>, i: nat, step: T -> Option<U>, record: Option<U>)
    requires i < |xs| && results == Survivors(xs[..i], step) && record == step(xs[i])
    ensures record.None? ==> results == Survivors(xs[..i + 1], step)
    ensures record.Some? ==> results + [record.value] == Survivors(xs[..i + 1], step)
  {
    assert xs[..i + 1] == xs[..i] + [xs[i]];
    SurvivorsSnoc(xs[..i], xs[i], step);
  }
}
