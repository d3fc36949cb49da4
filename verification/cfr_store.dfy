/**
  The regret-matching strategy store: rows map the keys of one information set to reals
  (probabilities, cumulative regrets or cumulative strategy mass), tables map information-set
  strings to rows. The arithmetic of the CFR family lives here: the positive-part normalisation
  with a uniform fallback (`update_sigma`), the plain normalisation (`compute_ne`) and sums.
  Python floats are modelled as Dafny reals.
*/
module CfrStore {
  import opened KuhnGame

  type Row = map<Key, real>
  type Table = map<string, Row>

  /** `N_ACTIONS`: the uniform fallback probability is 1 / N_ACTIONS. */
  const N_ACTIONS: nat := 2

  function Max0(x: real): (r: real)
    ensures r >= 0.0 && r >= x && (r == x || r == 0.0)
  {
    if x > 0.0 then x else 0.0
  }

  /** The set of keys listed in `ks`. */
  function KeySet(ks: seq<Key>): set<Key>
  {
    set k | k in ks
  }

  /** The sum of `row` over the keys `ks` (the `np.sum` of the row's values when `ks` lists its keys). */
  function Sum(row: Row, ks: seq<Key>): real
    requires KeySet(ks) <= row.Keys
  {
    if ks == [] then 0.0 else row[ks[0]] + Sum(row, ks[1..])
  }

  /** The sum of the positive parts `np.sum(np.maximum(r, 0))`. */
  function PosSum(row: Row, ks: seq<Key>): (s: real)
    requires KeySet(ks) <= row.Keys
    ensures s >= 0.0
  {
    if ks == [] then 0.0 else Max0(row[ks[0]]) + PosSum(row, ks[1..])
  }

  predicate NonNegRow(row: Row)
  {
    forall k :: k in row ==> row[k] >= 0.0
  }

  predicate NonNegTable(t: Table)
  {
    forall s, k :: s in t && k in t[s] ==> t[s][k] >= 0.0
  }

  /** `t2` has the rows of `t`, each with the same keys. */
  predicate SameShape(t: Table, t2: Table)
  {
    t2.Keys == t.Keys && forall s :: s in t ==> t2[s].Keys == t[s].Keys
  }

  /** `t2` has the shape of `t` and no entry smaller. */
  predicate Grows(t: Table, t2: Table)
  {
    SameShape(t, t2) && forall s, k :: s in t && k in t[s] ==> t2[s][k] >= t[s][k]
  }

  lemma WriteSameShape(t: Table, s: string, row: Row)
    requires s in t && row.Keys == t[s].Keys
    ensures SameShape(t, t[s := row])
  {
  }

  lemma WriteGrows(t: Table, s: string, row: Row)
    requires s in t && row.Keys == t[s].Keys
    requires forall k :: k in row ==> row[k] >= t[s][k]
    ensures Grows(t, t[s := row])
  {
  }

  lemma WriteNonNeg(t: Table, s: string, row: Row)
    requires NonNegTable(t) && NonNegRow(row)
    ensures NonNegTable(t[s := row])
  {
  }

  /** A probability distribution over the keys `ks` (listed once each). */
  predicate IsDistribution(row: Row, ks: seq<Key>)
  {
    KeySet(ks) <= row.Keys && NonNegRow(row) && Sum(row, ks) == 1.0
  }

  /**
    Regret matching, the row written by `update_sigma`: each key gets its positive regret
    over the total positive regret, or 1 / N_ACTIONS when no regret is positive.
  */
  function RegretMatch(regrets: Row, keys: set<Key>, ks: seq<Key>): (sigma: Row)
    requires KeySet(ks) <= regrets.Keys && keys <= regrets.Keys
    ensures sigma.Keys == keys
    ensures NonNegRow(sigma)
  {
    var norm := PosSum(regrets, ks);
    map k | k in keys :: if norm > 0.0 then Max0(regrets[k]) / norm else 1.0 / N_ACTIONS as real
  }

  /** The row written by `compute_ne`: each key's mass over the total, or 1 / N_ACTIONS when the total is not positive. */
  function Normalise(mass: Row, keys: set<Key>, ks: seq<Key>): (ne: Row)
    requires KeySet(ks) <= mass.Keys && keys <= mass.Keys
    ensures ne.Keys == keys
  {
    var total := Sum(mass, ks);
    map k | k in keys :: if total > 0.0 then mass[k] / total else 1.0 / N_ACTIONS as real
  }

  /** The uniform row of `init_map("prob")`, or the zero row of `init_map` with any other fill. */
  function InitRow(ks: seq<Key>, fill: string): (row: Row)
    ensures row.Keys == KeySet(ks)
  {
    map k | k in ks :: if fill == "prob" then 1.0 / |ks| as real else 0.0
  }

  // ---------------------------------------------------------------------------
  // Sums

  lemma {:induction false} SumNonNeg(row: Row, ks: seq<Key>)
    requires KeySet(ks) <= row.Keys && NonNegRow(row)
    ensures Sum(row, ks) >= 0.0
  {
    if ks != [] {
      SumNonNeg(row, ks[1..]);
    }
  }

  /** Scaling every listed value by `1 / c` scales the sum by `1 / c`. */
  lemma {:induction false} SumOfScaled(row: Row, scaled: Row, ks: seq<Key>, c: real)
    requires KeySet(ks) <= row.Keys && KeySet(ks) <= scaled.Keys && c > 0.0
    requires forall k :: k in ks ==> scaled[k] == row[k] / c
    ensures Sum(scaled, ks) == Sum(row, ks) / c
  {
    if ks != [] {
      SumOfScaled(row, scaled, ks[1..], c);
    }
  }

  /** Taking positive parts of every listed value turns `Sum` into `PosSum`. */
  lemma {:induction false} SumOfPositiveParts(row: Row, pos: Row, ks: seq<Key>)
    requires KeySet(ks) <= row.Keys && KeySet(ks) <= pos.Keys
    requires forall k :: k in ks ==> pos[k] == Max0(row[k])
    ensures Sum(pos, ks) == PosSum(row, ks)
  {
    if ks != [] {
      SumOfPositiveParts(row, pos, ks[1..]);
    }
  }

  /** A constant row sums to the constant times the number of listed keys. */
  lemma {:induction false} SumOfConstant(row: Row, ks: seq<Key>, c: real)
    requires KeySet(ks) <= row.Keys
    requires forall k :: k in ks ==> row[k] == c
    ensures Sum(row, ks) == |ks| as real * c
  {
    if ks != [] {
      SumOfConstant(row, ks[1..], c);
    }
  }

  /** Rows that agree on the listed keys have the same sum. */
  lemma {:induction false} SumAgree(a: Row, b: Row, ks: seq<Key>)
    requires KeySet(ks) <= a.Keys && KeySet(ks) <= b.Keys
    requires forall k :: k in ks ==> a[k] == b[k]
    ensures Sum(a, ks) == Sum(b, ks)
  {
    if ks != [] {
      SumAgree(a, b, ks[1..]);
    }
  }

  lemma DivSelf(x: real)
    requires x > 0.0
    ensures x / x == 1.0
  {
  }

  lemma {:induction false} RegretMatchSumPositive(regrets: Row, ks: seq<Key>)
    requires KeySet(ks) <= regrets.Keys && PosSum(regrets, ks) > 0.0
    ensures Sum(RegretMatch(regrets, KeySet(ks), ks), ks) == 1.0
  {
    var sigma := RegretMatch(regrets, KeySet(ks), ks);
    var norm := PosSum(regrets, ks);
    var pos := map k | k in KeySet(ks) :: Max0(regrets[k]);
    SumOfPositiveParts(regrets, pos, ks);
    forall k | k in ks
      ensures sigma[k] == pos[k] / norm
    {
      assert k in KeySet(ks);
    }
    SumOfScaled(pos, sigma, ks, norm);
    assert Sum(sigma, ks) == norm / norm;
    DivSelf(norm);
  }

  lemma {:induction false} RegretMatchSumUniform(regrets: Row, ks: seq<Key>)
    requires KeySet(ks) <= regrets.Keys && PosSum(regrets, ks) == 0.0 && |ks| == N_ACTIONS
    ensures Sum(RegretMatch(regrets, KeySet(ks), ks), ks) == 1.0
  {
    SumOfConstant(RegretMatch(regrets, KeySet(ks), ks), ks, 1.0 / 2.0);
  }

  /**
    Regret matching yields a probability distribution over the two actions of a decision node:
    proportional to positive regret when some regret is positive, uniform otherwise.
  */
  lemma RegretMatchIsDistribution(regrets: Row, ks: seq<Key>)
    requires KeySet(ks) <= regrets.Keys && |ks| == N_ACTIONS
    ensures IsDistribution(RegretMatch(regrets, KeySet(ks), ks), ks)
    ensures PosSum(regrets, ks) > 0.0 ==> forall k :: k in ks ==>
      RegretMatch(regrets, KeySet(ks), ks)[k] == Max0(regrets[k]) / PosSum(regrets, ks)
  {
    if PosSum(regrets, ks) > 0.0 {
      RegretMatchSumPositive(regrets, ks);
    } else {
      RegretMatchSumUniform(regrets, ks);
    }
  }

  lemma NormalisePositive(mass: Row, ks: seq<Key>)
    requires KeySet(ks) <= mass.Keys && Sum(mass, ks) > 0.0
    ensures Sum(Normalise(mass, KeySet(ks), ks), ks) == 1.0
  {
    var ne := Normalise(mass, KeySet(ks), ks);
    var total := Sum(mass, ks);
    forall k | k in ks
      ensures ne[k] == mass[k] / total
    {
      assert k in KeySet(ks);
    }
    SumOfScaled(mass, ne, ks, total);
    DivSelf(total);
  }

  lemma NormaliseUniform(mass: Row, ks: seq<Key>)
    requires KeySet(ks) <= mass.Keys && Sum(mass, ks) <= 0.0 && |ks| == N_ACTIONS
    ensures Sum(Normalise(mass, KeySet(ks), ks), ks) == 1.0
  {
    var ne := Normalise(mass, KeySet(ks), ks);
    forall k | k in ks
      ensures ne[k] == 1.0 / N_ACTIONS as real
    {
      assert k in KeySet(ks);
    }
    SumOfConstant(ne, ks, 1.0 / N_ACTIONS as real);
  }

  /** Normalising non-negative mass yields a probability distribution over the two actions. */
  lemma {:induction false} NormaliseIsDistribution(mass: Row, ks: seq<Key>)
    requires KeySet(ks) <= mass.Keys && |ks| == N_ACTIONS
    requires forall k :: k in ks ==> mass[k] >= 0.0
    ensures IsDistribution(Normalise(mass, KeySet(ks), ks), ks)
  {
    var ne := Normalise(mass, KeySet(ks), ks);
    var total := Sum(mass, ks);
    if total > 0.0 {
      NormalisePositive(mass, ks);
      forall k | k in ne
        ensures ne[k] >= 0.0
      {
        assert mass[k] >= 0.0;
      }
    } else {
      NormaliseUniform(mass, ks);
    }
  }

  /** The uniform row of `init_map("prob")` is a probability distribution over distinct keys. */
  lemma {:induction false} InitRowIsDistribution(ks: seq<Key>)
    requires |ks| > 0
    ensures IsDistribution(InitRow(ks, "prob"), ks)
  {
    SumOfConstant(InitRow(ks, "prob"), ks, 1.0 / |ks| as real);
  }
}
