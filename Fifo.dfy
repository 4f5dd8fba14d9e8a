/** FIFO cost-of-goods-sold allocation over a product's stock batches (calculateFifo). */
module Fifo {
  import opened Wrappers
  import opened Inventory
  import opened Seqs

  datatype Allocation = Allocation(costOfGoodsSold: int, updatedBatches: seq<Batch>)

  datatype FifoError = NotEnoughStock

  const NotEnoughStockMessage: string := "Not enough stock to fulfill the order."

  /** The state the walk over the batches ends in: cost so far, the batch copies, and what is still needed. */
  datatype Walk = Walk(cost: int, batches: seq<Batch>, unmet: int)

  /**
   * Walks the batches oldest first, taking min(remaining, still needed) from each,
   * and stops as soon as nothing more is needed. Every batch comes back, touched or
   * not, differing from the input at most in its remaining quantity.
   */
  function FifoWalk(bs: seq<Batch>, need: int): (w: Walk)
    ensures |w.batches| == |bs|
    decreases |bs|
  {
    if |bs| == 0 || need <= 0 then Walk(0, bs, need)
    else
      var take := Min(bs[0].remaining, need);
      var rest := FifoWalk(bs[1..], need - take);
      Walk(take * bs[0].costPrice + rest.cost,
           [bs[0].(remaining := bs[0].remaining - take)] + rest.batches,
           rest.unmet)
  }

  /** What calculateFifo returns, or the error it throws. */
  function Allocate(bs: seq<Batch>, quantity: int): Result<Allocation, FifoError>
  {
    var w := FifoWalk(bs, quantity);
    if w.unmet > 0 then Failure(NotEnoughStock) else Success(Allocation(w.cost, w.batches))
  }

  /** One step of the walk at position i, when something is still needed. */
  lemma FifoWalkStep(bs: seq<Batch>, i: nat, need: int)
    requires i < |bs| && need > 0
    ensures var take := Min(bs[i].remaining, need);
      var tail := FifoWalk(bs[i + 1..], need - take);
      FifoWalk(bs[i..], need)
      == Walk(take * bs[i].costPrice + tail.cost,
              [bs[i].(remaining := bs[i].remaining - take)] + tail.batches,
              tail.unmet)
  {
    assert bs[i..][1..] == bs[i + 1..];
  }

  /**
   * The loop's state after i batches: the copies so far are `done`, the rest of
   * `updated` is still the input, and finishing the walk from here with what is
   * still needed gives the whole walk.
   */
  ghost predicate WalkedTo(batches: seq<Batch>, whole: Walk, i: nat, done: seq<Batch>, updated: seq<Batch>, cost: int, need: int)
  {
    && i <= |batches| == |updated|
    && |done| == i && updated == done + batches[i..]
    && whole.cost == cost + FifoWalk(batches[i..], need).cost
    && whole.batches == done + FifoWalk(batches[i..], need).batches
    && whole.unmet == FifoWalk(batches[i..], need).unmet
  }

  /** The first i entries of `updated` are the copies in `done`; the rest is still the input. */
  ghost predicate CopiedTo(batches: seq<Batch>, i: nat, done: seq<Batch>, updated: seq<Batch>)
    requires i <= |batches|
  {
    |done| == i && updated == done + batches[i..]
  }

  /** Finishing the walk from batch i with what is still needed gives the whole walk. */
  ghost predicate WalkRest(batches: seq<Batch>, whole: Walk, i: nat, done: seq<Batch>, cost: int, need: int)
    requires i <= |batches|
  {
    && whole.cost == cost + FifoWalk(batches[i..], need).cost
    && whole.batches == done + FifoWalk(batches[i..], need).batches
    && whole.unmet == FifoWalk(batches[i..], need).unmet
  }

  /** One pass of the loop body keeps the loop's state in step with the walk. */
  lemma WalkedToStep(batches: seq<Batch>, whole: Walk, i: nat, done: seq<Batch>, updated: seq<Batch>, cost: int, need: int)
    requires WalkedTo(batches, whole, i, done, updated, cost, need)
    requires i < |batches| && need > 0
    ensures var take := Min(updated[i].remaining, need);
      var taken := updated[i].(remaining := updated[i].remaining - take);
      WalkedTo(batches, whole, i + 1, done + [taken], updated[i := taken], cost + take * updated[i].costPrice, need - take)
  {
    var take := Min(batches[i].remaining, need);
    var taken := batches[i].(remaining := batches[i].remaining - take);
    CopyAdvances(batches, i, done, updated, taken);
    WalkAdvances(batches, whole, i, done, cost, need);
  }

  /** Overwriting the first untouched entry extends the copied prefix by one. */
  lemma CopyAdvances(batches: seq<Batch>, i: nat, done: seq<Batch>, updated: seq<Batch>, taken: Batch)
    requires i < |batches| && CopiedTo(batches, i, done, updated)
    ensures updated[i] == batches[i]
    ensures CopiedTo(batches, i + 1, done + [taken], updated[i := taken])
  {
    assert updated[i := taken] == (done + [taken]) + batches[i + 1..];
  }

  /** What is left of the walk after batch i is the walk from batch i + 1 with what batch i did not cover. */
  lemma WalkAdvances(batches: seq<Batch>, whole: Walk, i: nat, done: seq<Batch>, cost: int, need: int)
    requires i < |batches| && need > 0
    requires WalkRest(batches, whole, i, done, cost, need)
    ensures var take := Min(batches[i].remaining, need);
      WalkRest(batches, whole, i + 1, done + [batches[i].(remaining := batches[i].remaining - take)],
        cost + take * batches[i].costPrice, need - take)
  {
    FifoWalkStep(batches, i, need);
  }

  /** With no batches left, or nothing more needed, the walk takes nothing. */
  lemma WalkDone(bs: seq<Batch>, need: int)
    requires |bs| == 0 || need <= 0
    ensures FifoWalk(bs, need) == Walk(0, bs, need)
  {
  }

  /** The loop of calculateFifo over a copy of the batches. */
  method CalculateFifo(batches: seq<Batch>, quantity: int) returns (r: Result<Allocation, FifoError>)
    ensures r == Allocate(batches, quantity)
  {
    ghost var whole := FifoWalk(batches, quantity);
    ghost var done: seq<Batch> := [];
    var costOfGoodsSold := 0;
    var remainingQuantity := quantity;
    var updatedBatches := batches;
    var i := 0;
    while i < |updatedBatches|
      invariant WalkedTo(batches, whole, i, done, updatedBatches, costOfGoodsSold, remainingQuantity)
    {
      if remainingQuantity <= 0 {
        break;
      }
      var batch := updatedBatches[i];
      var quantityToTake := Min(batch.remaining, remainingQuantity);
      WalkedToStep(batches, whole, i, done, updatedBatches, costOfGoodsSold, remainingQuantity);
      var taken := batch.(remaining := batch.remaining - quantityToTake);
      costOfGoodsSold := costOfGoodsSold + quantityToTake * batch.costPrice;
      updatedBatches := updatedBatches[i := taken];
      remainingQuantity := remainingQuantity - quantityToTake;
      done := done + [taken];
      i := i + 1;
    }
    WalkDone(batches[i..], remainingQuantity);
    if remainingQuantity > 0 {
      return Failure(NotEnoughStock);
    }
    return Success(Allocation(costOfGoodsSold, updatedBatches));
  }

  // ---------------------------------------------------------------------------
  // Properties of the allocation

  function SumRemaining(bs: seq<Batch>): int { SumBy(bs, Remaining) }

  ghost predicate NonNegative(bs: seq<Batch>)
  {
    forall i :: 0 <= i < |bs| ==> bs[i].remaining >= 0
  }

  /** Sum over the batches of (units taken) × (unit cost). */
  function CostOfTaken(before: seq<Batch>, after: seq<Batch>): int
    requires |before| == |after|
  {
    if |before| == 0 then 0
    else (before[0].remaining - after[0].remaining) * before[0].costPrice
         + CostOfTaken(before[1..], after[1..])
  }

  /** The result lists every input batch, in order, differing at most in its remaining quantity. */
  lemma {:induction false} FifoShape(bs: seq<Batch>, need: int)
    ensures forall i :: 0 <= i < |bs| ==>
      FifoWalk(bs, need).batches[i] == bs[i].(remaining := FifoWalk(bs, need).batches[i].remaining)
    decreases |bs|
  {
    if |bs| > 0 && need > 0 {
      var take := Min(bs[0].remaining, need);
      FifoShape(bs[1..], need - take);
      var w := FifoWalk(bs, need);
      forall i | 0 < i < |bs|
        ensures w.batches[i] == bs[i].(remaining := w.batches[i].remaining)
      {
        assert w.batches[i] == FifoWalk(bs[1..], need - take).batches[i - 1];
      }
    }
  }

  /** The units taken across all batches add up to what was asked minus what could not be met. */
  lemma {:induction false} FifoConservation(bs: seq<Batch>, need: int)
    ensures SumRemaining(bs) - SumRemaining(FifoWalk(bs, need).batches) == need - FifoWalk(bs, need).unmet
    decreases |bs|
  {
    if |bs| > 0 && need > 0 {
      var take := Min(bs[0].remaining, need);
      var rest := FifoWalk(bs[1..], need - take);
      FifoConservation(bs[1..], need - take);
      assert bs == [bs[0]] + bs[1..];
      SumByCons(bs[0], bs[1..], Remaining);
      SumByCons(bs[0].(remaining := bs[0].remaining - take), rest.batches, Remaining);
    }
  }

  /** The cost is exactly the units taken from each batch priced at that batch's unit cost. */
  lemma {:induction false} FifoCostIdentity(bs: seq<Batch>, need: int)
    ensures FifoWalk(bs, need).cost == CostOfTaken(bs, FifoWalk(bs, need).batches)
    decreases |bs|
  {
    if |bs| == 0 {
    } else if need <= 0 {
      ZeroCostWhenUnchanged(bs);
    } else {
      var take := Min(bs[0].remaining, need);
      FifoCostIdentity(bs[1..], need - take);
    }
  }

  lemma {:induction false} ZeroCostWhenUnchanged(bs: seq<Batch>)
    ensures CostOfTaken(bs, bs) == 0
    decreases |bs|
  {
    if |bs| > 0 {
      ZeroCostWhenUnchanged(bs[1..]);
    }
  }

  /** With no negative stock, every batch ends between 0 and what it had. */
  lemma {:induction false} FifoBounds(bs: seq<Batch>, need: int)
    requires NonNegative(bs)
    ensures forall i :: 0 <= i < |bs| ==>
      0 <= FifoWalk(bs, need).batches[i].remaining <= bs[i].remaining
    decreases |bs|
  {
    if |bs| > 0 && need > 0 {
      var take := Min(bs[0].remaining, need);
      FifoBounds(bs[1..], need - take);
      var w := FifoWalk(bs, need);
      forall i | 0 < i < |bs|
        ensures 0 <= w.batches[i].remaining <= bs[i].remaining
      {
        assert w.batches[i] == FifoWalk(bs[1..], need - take).batches[i - 1];
      }
    }
  }

  /** FIFO order: a batch is touched only if every older batch was emptied. */
  lemma {:induction false} FifoOrder(bs: seq<Batch>, need: int)
    ensures forall j, k :: 0 <= j < k < |bs| && FifoWalk(bs, need).batches[k] != bs[k] ==>
      FifoWalk(bs, need).batches[j].remaining == 0
    decreases |bs|
  {
    if |bs| > 0 && need > 0 {
      var take := Min(bs[0].remaining, need);
      var restIn := bs[1..];
      var rest := FifoWalk(restIn, need - take);
      FifoOrder(restIn, need - take);
      var w := FifoWalk(bs, need);
      forall j, k | 0 <= j < k < |bs| && w.batches[k] != bs[k]
        ensures w.batches[j].remaining == 0
      {
        assert w.batches[k] == rest.batches[k - 1] && bs[k] == restIn[k - 1];
        if j == 0 {
          if take != bs[0].remaining {
            assert false;
          }
        } else {
          assert w.batches[j] == rest.batches[j - 1];
        }
      }
    }
  }

  /** With no negative stock, what is left unmet is the shortfall of the stock against the request. */
  lemma {:induction false} FifoUnmet(bs: seq<Batch>, need: int)
    requires NonNegative(bs)
    ensures FifoWalk(bs, need).unmet ==
      if need <= 0 then need
      else if need > SumRemaining(bs) then need - SumRemaining(bs)
      else 0
    decreases |bs|
  {
    if |bs| > 0 && need > 0 {
      var take := Min(bs[0].remaining, need);
      FifoUnmet(bs[1..], need - take);
      SumNonNegative(bs[1..]);
      assert bs == [bs[0]] + bs[1..];
      SumByCons(bs[0], bs[1..], Remaining);
    }
  }

  /** calculateFifo throws exactly when more is asked than the batches hold. */
  lemma FifoFailsIffShort(bs: seq<Batch>, quantity: int)
    requires NonNegative(bs)
    ensures Allocate(bs, quantity).Failure? <==> quantity > SumRemaining(bs)
  {
    FifoUnmet(bs, quantity);
    SumNonNegative(bs);
  }

  lemma {:induction false} SumNonNegative(bs: seq<Batch>)
    requires NonNegative(bs)
    ensures SumRemaining(bs) >= 0
    decreases |bs|
  {
    if |bs| > 0 {
      SumNonNegative(bs[..|bs| - 1]);
    }
  }

  /**
   * A request that the stock covers succeeds and removes exactly the requested
   * units from the batches, leaving none negative.
   */
  lemma FifoSuccess(bs: seq<Batch>, quantity: int)
    requires NonNegative(bs)
    requires 0 <= quantity <= SumRemaining(bs)
    ensures Allocate(bs, quantity).Success?
    ensures SumRemaining(Allocate(bs, quantity).value.updatedBatches) == SumRemaining(bs) - quantity
    ensures NonNegative(Allocate(bs, quantity).value.updatedBatches)
  {
    FifoUnmet(bs, quantity);
    FifoConservation(bs, quantity);
    FifoBounds(bs, quantity);
  }

  /** A request of zero or less takes nothing, costs nothing and does not throw. */
  lemma FifoNothingRequested(bs: seq<Batch>, quantity: int)
    requires quantity <= 0
    ensures Allocate(bs, quantity) == Success(Allocation(0, bs))
  {
  }

  /** Remaining [5, 5] at unit costs [10, 12], quantity 8: cost 86, remaining [0, 2]. */
  lemma FifoExample()
    ensures
      var a := Batch(1, 7, 5, 5, 10, 100);
      var b := Batch(2, 7, 5, 5, 12, 200);
      Allocate([a, b], 8) == Success(Allocation(86, [a.(remaining := 0), b.(remaining := 2)]))
  {
    var a := Batch(1, 7, 5, 5, 10, 100);
    var b := Batch(2, 7, 5, 5, 12, 200);
    assert [a, b][1..] == [b];
    assert [b][1..] == [];
    assert FifoWalk([], 0) == Walk(0, [], 0);
    assert FifoWalk([b], 3) == Walk(36, [b.(remaining := 2)], 0);
    assert FifoWalk([a, b], 8) == Walk(86, [a.(remaining := 0), b.(remaining := 2)], 0);
  }
}
