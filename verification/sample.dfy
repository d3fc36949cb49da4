/**
  `sample_action`: draw an action from a strategy row by inverse-CDF sampling,
  `argmax(rnd < cumsum(values))` over the row's values in key order. The uniform draw
  `np.random.random()` is the parameter `rnd`; the row's key order is the list `ks`.
*/
module KuhnSample {
  import opened Common
  import opened KuhnGame
  import opened CfrStore

  /** The cumulative sum of the first `i` listed values (`cumsum(...)[i - 1]`, 0 for `i == 0`). */
  function Cum(row: Row, ks: seq<Key>, i: nat): real
    requires KeySet(ks) <= row.Keys && i <= |ks|
  {
    if i == 0 then 0.0 else Cum(row, ks, i - 1) + row[ks[i - 1]]
  }

  /** `cumsum(values)[m]`: the sum of the values up to and including position `m`. */
  function CumAt(row: Row, ks: seq<Key>, m: nat): real
    requires KeySet(ks) <= row.Keys && m < |ks|
  {
    Cum(row, ks, m + 1)
  }

  /**
    `np.argmax(rnd < cumsum)` from position `i` on: the first position whose cumulative sum
    exceeds `rnd`, or 0 when there is none (argmax of an all-false array).
  */
  function FirstAbove(row: Row, ks: seq<Key>, rnd: real, i: nat): (j: nat)
    requires KeySet(ks) <= row.Keys && i <= |ks|
    ensures j == 0 || i <= j < |ks|
    ensures (exists m :: i <= m < |ks| && rnd < CumAt(row, ks, m)) ==>
      i <= j < |ks| && rnd < CumAt(row, ks, j) && forall m :: i <= m < j ==> CumAt(row, ks, m) <= rnd
    ensures (forall m :: i <= m < |ks| ==> CumAt(row, ks, m) <= rnd) ==> j == 0
    decreases |ks| - i
  {
    if i == |ks| then 0
    else if rnd < CumAt(row, ks, i) then i
    else FirstAbove(row, ks, rnd, i + 1)
  }

  /**
    `sample_action` on a row whose keys are listed in `ks`: `None` for an empty row (argmax of
    an empty array raises), otherwise the key at the first position whose cumulative sum
    exceeds `rnd`, or the first key when no sum does.
  */
  function SampleAction(row: Row, ks: seq<Key>, rnd: real): (a: Option<Key>)
    requires KeySet(ks) <= row.Keys
    ensures a.Some? <==> ks != []
    ensures a.Some? ==> a.value in ks
  {
    if ks == [] then None else Some(ks[FirstAbove(row, ks, rnd, 0)])
  }

  /** The listed values sum to the last cumulative sum. */
  lemma {:induction false} CumSum(row: Row, ks: seq<Key>, i: nat)
    requires KeySet(ks) <= row.Keys && i <= |ks|
    ensures Sum(row, ks) == Cum(row, ks, i) + Sum(row, ks[i..])
    decreases i
  {
    if i > 0 {
      CumSum(row, ks, i - 1);
      assert ks[i - 1..] == [ks[i - 1]] + ks[i..];
      assert ks[i - 1..][1..] == ks[i..];
    }
  }

  /**
    With `0 <= rnd` below the total, the sampled position `j` is the one whose interval
    `[cumsum[j - 1], cumsum[j])` holds `rnd`; its width is the row's value there, so each key
    is drawn with the probability the row gives it.
  */
  lemma SampleLands(row: Row, ks: seq<Key>, rnd: real)
    requires KeySet(ks) <= row.Keys && 0.0 <= rnd < Sum(row, ks)
    ensures ks != []
    ensures var j := FirstAbove(row, ks, rnd, 0);
      j < |ks| && Cum(row, ks, j) <= rnd < Cum(row, ks, j + 1) &&
      Cum(row, ks, j + 1) - Cum(row, ks, j) == row[ks[j]]
  {
    CumSum(row, ks, |ks|);
    assert ks[|ks|..] == [];
    assert ks != [];
    var j := FirstAbove(row, ks, rnd, 0);
    var last := |ks| - 1;
    assert 0 <= last < |ks| && rnd < CumAt(row, ks, last);
    if j > 0 {
      var m := j - 1;
      assert 0 <= m < j;
      assert CumAt(row, ks, m) <= rnd;
    }
  }

  /** Sampling a probability distribution with `0 <= rnd < 1` never falls back: it returns the key whose interval holds `rnd`. */
  lemma SampleDistribution(row: Row, ks: seq<Key>, rnd: real)
    requires IsDistribution(row, ks) && 0.0 <= rnd < 1.0
    ensures var j := FirstAbove(row, ks, rnd, 0);
      j < |ks| && SampleAction(row, ks, rnd) == Some(ks[j]) && Cum(row, ks, j) <= rnd < Cum(row, ks, j + 1)
  {
    SampleLands(row, ks, rnd);
  }
}
