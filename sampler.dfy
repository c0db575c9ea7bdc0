/**
 * `weighted_random_choice`: draw `r` uniformly from `[0, total]` and return the first item
 * whose running sum of weights reaches `r`. The uniform draw `r` is a parameter; a draw is
 * `total * u` for some `u` in `[0, 1]`. Weights are exact reals here.
 */
module Sampler {
  import opened Rewards

  /** Sum of the weights of the first `n` items. */
  function PrefixWeight(items: seq<RewardItem>, n: nat): real
    requires n <= |items|
  {
    if n == 0 then 0.0 else PrefixWeight(items, n - 1) + items[n - 1].probability
  }

  /** `sum(item['probability'] for item in items)`. */
  function TotalWeight(items: seq<RewardItem>): real
  {
    PrefixWeight(items, |items|)
  }

  /** The running sum `upto + item['probability']` the scan compares at item `j`. */
  function RunningSum(items: seq<RewardItem>, j: nat): real
    requires j < |items|
  {
    PrefixWeight(items, j + 1)
  }

  predicate NonNegativeWeights(items: seq<RewardItem>)
  {
    forall i :: 0 <= i < |items| ==> items[i].probability >= 0.0
  }

  /**
   * The index of the first item whose inclusive running sum reaches `r`, searching from
   * `from` on; `|items|` when none does.
   */
  function FirstReachingFrom(items: seq<RewardItem>, r: real, from: nat): (k: nat)
    requires from <= |items|
    requires forall j :: 0 <= j < from ==> RunningSum(items, j) < r
    ensures from <= k <= |items|
    ensures forall j :: 0 <= j < k ==> RunningSum(items, j) < r
    ensures k < |items| ==> r <= RunningSum(items, k)
    decreases |items| - from
  {
    if from == |items| then from
    else if r <= RunningSum(items, from) then from
    else FirstReachingFrom(items, r, from + 1)
  }

  function FirstReaching(items: seq<RewardItem>, r: real): (k: nat)
    ensures k <= |items|
    ensures forall j :: 0 <= j < k ==> RunningSum(items, j) < r
    ensures k < |items| ==> r <= RunningSum(items, k)
    ensures |items| > 0 && r <= TotalWeight(items) ==> k < |items|
  {
    var k := FirstReachingFrom(items, r, 0);
    assert k == |items| && |items| > 0 ==> RunningSum(items, |items| - 1) < r;
    k
  }

  /** The first index whose running sum reaches `r` is the only index with that description. */
  lemma {:induction false} FirstReachingUnique(items: seq<RewardItem>, r: real, from: nat, i: nat)
    requires from <= i < |items| && r <= RunningSum(items, i)
    requires forall j :: 0 <= j < i ==> RunningSum(items, j) < r
    ensures FirstReachingFrom(items, r, from) == i
    decreases i - from
  {
    if from < i {
      assert RunningSum(items, from) < r;
      FirstReachingUnique(items, r, from + 1, i);
    }
  }

  /**
   * The scan with its running sum `upto`, for the uniform draw `r`. `None` is the failing
   * `assert` after the loop: no running sum reached `r`, which is what an empty list always does.
   */
  method WeightedRandomChoice(items: seq<RewardItem>, r: real) returns (choice: Option<RewardItem>)
    ensures var k := FirstReaching(items, r);
            choice == if k < |items| then Some(items[k]) else None
    ensures items == [] ==> choice.None?
  {
    var upto := 0.0;
    var i := 0;
    while i < |items|
      invariant 0 <= i <= |items|
      invariant upto == PrefixWeight(items, i)
      invariant forall j :: 0 <= j < i ==> RunningSum(items, j) < r
    {
      if upto + items[i].probability >= r {
        FirstReachingUnique(items, r, 0, i);
        return Some(items[i]);
      }
      upto := upto + items[i].probability;
      i := i + 1;
    }
    return None;
  }

  /** With non-negative weights the running sums never decrease. */
  lemma {:induction false} PrefixMonotone(items: seq<RewardItem>, i: nat, j: nat)
    requires NonNegativeWeights(items)
    requires i <= j <= |items|
    ensures PrefixWeight(items, i) <= PrefixWeight(items, j)
    decreases j - i
  {
    if i < j {
      PrefixMonotone(items, i, j - 1);
    }
  }

  /**
   * With non-negative weights and a positive `r`, item `k` is returned exactly when `r`
   * falls in its own slice `(prefix_k, prefix_k + weight_k]` of the total: each item is
   * chosen with probability proportional to its weight, and a zero-weight item never.
   */
  lemma ChosenExactlyInItsSlice(items: seq<RewardItem>, r: real, k: nat)
    requires NonNegativeWeights(items)
    requires 0.0 < r && k < |items|
    ensures FirstReaching(items, r) == k <==> PrefixWeight(items, k) < r <= RunningSum(items, k)
  {
    var f := FirstReaching(items, r);
    if f == k {
      if k > 0 {
        assert RunningSum(items, k - 1) < r;
      }
    } else if PrefixWeight(items, k) < r <= RunningSum(items, k) {
      if f < k {
        PrefixMonotone(items, f + 1, k);
      }
    }
  }

  /** The total of non-negative weights is non-negative. */
  lemma {:induction false} TotalNonNegative(items: seq<RewardItem>, n: nat)
    requires NonNegativeWeights(items) && n <= |items|
    ensures PrefixWeight(items, n) >= 0.0
  {
    if n > 0 {
      TotalNonNegative(items, n - 1);
    }
  }

  /**
   * For a non-empty list with non-negative weights and a draw within `[0, total]`, the scan
   * always returns an item: the `assert` after the loop is reached only by an empty list.
   */
  lemma ChoiceAlwaysFound(items: seq<RewardItem>, u: real)
    requires |items| > 0 && NonNegativeWeights(items)
    requires 0.0 <= u <= 1.0
    ensures FirstReaching(items, TotalWeight(items) * u) < |items|
  {
    TotalNonNegative(items, |items|);
    var t := TotalWeight(items);
    assert t * u <= t * 1.0;
  }
}
