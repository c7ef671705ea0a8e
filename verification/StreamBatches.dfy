/** Batching of a frame stream (src/stream-batches.ts). */
module StreamBatches {

  function Flatten<T>(batches: seq<seq<T>>): seq<T> {
    if batches == [] then [] else Flatten(batches[..|batches| - 1]) + batches[|batches| - 1]
  }

  /** A batch is one item, or several batchable ones up to the maximum. */
  predicate IsBatch<T>(batch: seq<T>, batchable: T -> bool, maximum: nat) {
    && |batch| > 0
    && (|batch| > 1 ==> |batch| <= maximum && forall i :: 0 <= i < |batch| ==> batchable(batch[i]))
  }

  lemma {:induction false} FlattenSnoc<T>(batches: seq<seq<T>>, batch: seq<T>)
    ensures Flatten(batches + [batch]) == Flatten(batches) + batch
  {
    assert (batches + [batch])[..|batches|] == batches;
  }

  /**
   The generator, with the source's items and whether it ends in an error.  `pending` is the
   position of the read already requested; the deadline of a batch may win any race.
   */
  method StreamBatches<T>(source: seq<T>, errs: bool, batchable: T -> bool, maximum: nat)
    returns (batches: seq<seq<T>>, threw: bool)
    ensures Flatten(batches) == source
    ensures threw == errs
    ensures forall i :: 0 <= i < |batches| ==> IsBatch(batches[i], batchable, maximum)
  {
    batches, threw := [], false;
    var pending, done := 0, false;
    while !done && !threw
      invariant 0 <= pending <= |source|
      invariant Flatten(batches) == source[..pending]
      invariant forall i :: 0 <= i < |batches| ==> IsBatch(batches[i], batchable, maximum)
      invariant done || threw ==> pending == |source| && threw == errs
      decreases |source| - pending, !done && !threw
    {
      if pending == |source| {
        if errs { threw := true; } else { done := true; }
      } else {
        var first := pending;
        var batch := [source[pending]];
        pending := pending + 1;
        if batchable(batch[0]) {
          var late := false;
          while !late && |batch| < maximum && pending < |source| && batchable(source[pending])
            invariant first < pending <= |source| && batch == source[first..pending]
            invariant IsBatch(batch, batchable, maximum) && batchable(batch[0])
            decreases |source| - pending, !late
          {
            late := *;
            if !late {
              batch := batch + [source[pending]];
              pending := pending + 1;
            }
          }
        }
        FlattenSnoc(batches, batch);
        batches := batches + [batch];
      }
    }
    assert source[..pending] == source;
  }
}
