/**
 * The fixed bid-increment table of the bid route (`TARTAMI_INCREMENTS`) and
 * `getIncrement`, its `find` over the table with a fallback step of 1.
 * Amounts are whole currency units.
 */
module BidIncrements {
  import opened Wrappers

  /** The upper end of a tier: an inclusive whole amount, or `Infinity`. */
  datatype Bound = UpTo(max: nat) | Unbounded

  /** One row `{ min, max, inc }`: amounts in `[min, max]` step by `inc`. */
  datatype Tier = Tier(min: nat, max: Bound, inc: nat)

  /** `amount >= r.min && amount <= r.max`. */
  predicate Contains(t: Tier, amount: nat) {
    amount >= t.min && (t.max.Unbounded? || amount <= t.max.max)
  }

  const TARTAMI_INCREMENTS: seq<Tier> := [
    Tier(0, UpTo(19), 1),
    Tier(20, UpTo(49), 2),
    Tier(50, UpTo(199), 5),
    Tier(200, UpTo(499), 10),
    Tier(500, UpTo(999), 25),
    Tier(1000, UpTo(4999), 50),
    Tier(5000, UpTo(9999), 100),
    Tier(10000, UpTo(24999), 250),
    Tier(25000, UpTo(49999), 500),
    Tier(50000, Unbounded, 1000)
  ]

  /**
   * A table without gaps or overlaps: it starts at 0, every bounded tier is
   * non-empty and is followed by a tier starting one unit above its maximum,
   * and only the last tier is unbounded.
   */
  ghost predicate Contiguous(table: seq<Tier>) {
    && |table| > 0
    && table[0].min == 0
    && table[|table| - 1].max.Unbounded?
    && (forall k :: 0 <= k < |table| - 1 ==>
          table[k].max.UpTo? && table[k].min <= table[k].max.max && table[k + 1].min == table[k].max.max + 1)
  }

  /** Steps never shrink as the tiers go up. */
  ghost predicate StepsNonDecreasing(table: seq<Tier>) {
    forall k :: 0 <= k < |table| - 1 ==> table[k].inc <= table[k + 1].inc
  }

  /** `Array.prototype.find` from index `from`: the index of the first tier containing `amount`. */
  function FindFrom(table: seq<Tier>, amount: nat, from: nat): (r: Option<nat>)
    requires from <= |table|
    decreases |table| - from
    ensures r.Some? ==> from <= r.value < |table| && Contains(table[r.value], amount)
    ensures r.Some? ==> forall j :: from <= j < r.value ==> !Contains(table[j], amount)
    ensures r.None? ==> forall j :: from <= j < |table| ==> !Contains(table[j], amount)
  {
    if from == |table| then None
    else if Contains(table[from], amount) then Some(from)
    else FindFrom(table, amount, from + 1)
  }

  /** `getIncrement`: the step of the first tier containing `amount`, else 1. */
  function GetIncrement(amount: nat): (r: nat)
    ensures 1 <= r <= 1000
  {
    match FindFrom(TARTAMI_INCREMENTS, amount, 0)
    case Some(i) => TARTAMI_INCREMENTS[i].inc
    case None => 1
  }

  /** The amount the bid route inserts on top of the current price. */
  function NextBid(price: nat): (r: nat)
    ensures price < r <= price + 1000
  {
    price + GetIncrement(price)
  }

  lemma TartamiTableIsContiguous()
    ensures Contiguous(TARTAMI_INCREMENTS)
    ensures StepsNonDecreasing(TARTAMI_INCREMENTS)
    ensures forall k :: 0 <= k < |TARTAMI_INCREMENTS| ==> TARTAMI_INCREMENTS[k].inc >= 1
  {
    var t := TARTAMI_INCREMENTS;
    assert t[0] == Tier(0, UpTo(19), 1);
    assert t[1] == Tier(20, UpTo(49), 2);
    assert t[2] == Tier(50, UpTo(199), 5);
    assert t[3] == Tier(200, UpTo(499), 10);
    assert t[4] == Tier(500, UpTo(999), 25);
    assert t[5] == Tier(1000, UpTo(4999), 50);
    assert t[6] == Tier(5000, UpTo(9999), 100);
    assert t[7] == Tier(10000, UpTo(24999), 250);
    assert t[8] == Tier(25000, UpTo(49999), 500);
    assert t[9] == Tier(50000, Unbounded, 1000);
  }

  /** In a contiguous table every bounded tier ends below the start of every later tier. */
  lemma {:induction false} TiersAreOrdered(table: seq<Tier>, i: nat, j: nat)
    requires Contiguous(table)
    requires i < j < |table|
    ensures table[i].max.UpTo? && table[i].max.max < table[j].min
  {
    if j > i + 1 {
      TiersAreOrdered(table, i, j - 1);
    }
  }

  /** Some tier at or after `from` contains `amount` once `from`'s minimum is reached. */
  lemma {:induction false} SomeTierFrom(table: seq<Tier>, amount: nat, from: nat)
    requires Contiguous(table)
    requires from < |table| && table[from].min <= amount
    ensures exists i :: from <= i < |table| && Contains(table[i], amount)
    decreases |table| - from
  {
    if from == |table| - 1 {
      assert Contains(table[from], amount);
    } else if table[from + 1].min <= amount {
      SomeTierFrom(table, amount, from + 1);
    } else {
      assert Contains(table[from], amount);
    }
  }

  /** A contiguous table has exactly one tier for every amount. */
  lemma {:induction false} ExactlyOneTier(table: seq<Tier>, amount: nat)
    requires Contiguous(table)
    ensures exists i :: 0 <= i < |table| && Contains(table[i], amount)
    ensures forall i, j :: 0 <= i < |table| && 0 <= j < |table| && Contains(table[i], amount) && Contains(table[j], amount) ==> i == j
  {
    SomeTierFrom(table, amount, 0);
    forall i, j | 0 <= i < |table| && 0 <= j < |table| && Contains(table[i], amount) && Contains(table[j], amount)
      ensures i == j
    {
      if i < j {
        TiersAreOrdered(table, i, j);
      } else if j < i {
        TiersAreOrdered(table, j, i);
      }
    }
  }

  /**
   * Every whole amount lies in exactly one row of the table, the `find`
   * always succeeds (the fallback step of 1 is never taken), and the step
   * returned is that row's increment.
   */
  lemma {:induction false} IncrementIsTierStep(amount: nat)
    ensures exists i :: 0 <= i < |TARTAMI_INCREMENTS| && Contains(TARTAMI_INCREMENTS[i], amount)
    ensures forall i :: 0 <= i < |TARTAMI_INCREMENTS| && Contains(TARTAMI_INCREMENTS[i], amount) ==>
      GetIncrement(amount) == TARTAMI_INCREMENTS[i].inc
    ensures FindFrom(TARTAMI_INCREMENTS, amount, 0).Some?
  {
    TartamiTableIsContiguous();
    ExactlyOneTier(TARTAMI_INCREMENTS, amount);
  }

  /** Steps of a table with non-decreasing steps compare like their indices. */
  lemma {:induction false} StepsOrdered(table: seq<Tier>, i: nat, j: nat)
    requires StepsNonDecreasing(table)
    requires i <= j < |table|
    ensures table[i].inc <= table[j].inc
    decreases j - i
  {
    if i < j {
      StepsOrdered(table, i + 1, j);
    }
  }

  /** `getIncrement` is non-decreasing in the amount. */
  lemma {:induction false} IncrementMonotone(a: nat, b: nat)
    requires a <= b
    ensures GetIncrement(a) <= GetIncrement(b)
  {
    var table := TARTAMI_INCREMENTS;
    TartamiTableIsContiguous();
    IncrementIsTierStep(a);
    IncrementIsTierStep(b);
    var i := FindFrom(table, a, 0).value;
    var j := FindFrom(table, b, 0).value;
    if j < i {
      TiersAreOrdered(table, j, i);
    }
    StepsOrdered(table, i, j);
  }
}
