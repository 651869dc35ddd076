/** Per-profile waste statistics, `calculate_waste_percentage`
    (co.py:144-156). For each entry of the optimiser's result the total stock
    is the number of bars times the stock length, the used length is the sum
    of all pieces, and the waste percentage is the unused share of the total
    stock. The percentage is kept as an exact real; its rounding to two
    decimals is not modelled. A zero total stock makes Python's division
    raise, which here gives None for the whole computation. */
module Waste {
  import opened Wrappers
  import opened Seqs
  import opened Demand
  import opened Packing
  import opened Optimizer

  /** The dictionary value `{'waste_percentage', 'total_stock', 'used_length'}`. */
  datatype WasteStat = WasteStat(wastePercentage: real, totalStock: int, usedLength: int)

  /** `sum(sum(pieces) for pieces, _ in stock_used)`: the pieces themselves
      are added up, not the lengths recorded in the bars. */
  function UsedLength(bars: seq<Bar>): int
  {
    if bars == [] then 0 else UsedLength(bars[..|bars| - 1]) + Sum(bars[|bars| - 1].pieces)
  }

  /** The unused share of `total`, in percent. */
  function Percentage(total: int, used: int): real
    requires total != 0
  {
    ((total - used) as real / total as real) * 100.0
  }

  /** `len(stock_used) * stock_length` (co.py:148). */
  function TotalStock(e: ProfilePlan): int
  {
    |e.bars| * e.stock
  }

  /** The statistics of one entry (co.py:147-155); None when its total stock
      is zero, where the division of co.py:150 raises on Python integers. */
  function ProfileWaste(e: ProfilePlan): (r: Option<WasteStat>)
    ensures r.None? <==> |e.bars| * e.stock == 0
    ensures r.Some? ==> r.value.totalStock == |e.bars| * e.stock
                        && r.value.usedLength == Sum(Flatten(e.bars))
                        && r.value.wastePercentage
                           == ((r.value.totalStock - r.value.usedLength) as real / r.value.totalStock as real) * 100.0
  {
    UsedLengthIsPieceSum(e.bars);
    var total := TotalStock(e);
    var used := UsedLength(e.bars);
    if total == 0 then None else Some(WasteStat(Percentage(total, used), total, used))
  }

  /** No later entry has the same profile as entry i. */
  predicate LastFor(results: seq<ProfilePlan>, i: nat)
    requires i < |results|
  {
    forall j :: i < j < |results| ==> results[j].profile != results[i].profile
  }

  /** The dictionary built by the loop of co.py:146-155, keyed by profile; a
      later entry for the same profile overwrites an earlier one. None when
      some entry has a zero total stock. */
  function CalculateWastePercentage(results: seq<ProfilePlan>): (r: Option<map<string, WasteStat>>)
    ensures r.Some? <==> forall i :: 0 <= i < |results| ==> TotalStock(results[i]) != 0
    ensures r.Some? ==> forall p :: p in r.value <==> exists i :: 0 <= i < |results| && results[i].profile == p
    ensures r.Some? ==>
              forall i :: 0 <= i < |results| && LastFor(results, i) ==>
                ProfileWaste(results[i]) == Some(r.value[results[i].profile])
  {
    if results == [] then Some(map[]) else
      var front := results[..|results| - 1];
      var last := results[|results| - 1];
      match CalculateWastePercentage(front)
      case None =>
        NonZeroTotals(results, front);
        None
      case Some(m) =>
        NonZeroTotals(results, front);
        match ProfileWaste(last)
        case None => None
        case Some(stat) =>
          StatsStepKeys(results, m, stat);
          StatsStepValues(results, m, stat);
          Some(m[last.profile := stat])
  }

  /** Every entry has a non-zero total stock exactly when every entry but
      the last has one and the last has one too. */
  lemma NonZeroTotals(results: seq<ProfilePlan>, front: seq<ProfilePlan>)
    requires results != [] && front == results[..|results| - 1]
    ensures (forall i :: 0 <= i < |results| ==> TotalStock(results[i]) != 0) <==>
            (forall i :: 0 <= i < |front| ==> TotalStock(front[i]) != 0)
            && TotalStock(results[|results| - 1]) != 0
  {
    assert forall i :: 0 <= i < |front| ==> front[i] == results[i];
  }

  /** The keys after adding the last entry's statistics. */
  lemma StatsStepKeys(results: seq<ProfilePlan>, m: map<string, WasteStat>, stat: WasteStat)
    requires results != []
    requires var front := results[..|results| - 1];
             forall p :: p in m <==> exists i :: 0 <= i < |front| && front[i].profile == p
    ensures var m' := m[results[|results| - 1].profile := stat];
            forall p :: p in m' <==> exists i :: 0 <= i < |results| && results[i].profile == p
  {
    var n := |results| - 1;
    var front := results[..n];
    forall p | p in m ensures exists i :: 0 <= i < |results| && results[i].profile == p {
      var i :| 0 <= i < |front| && front[i].profile == p;
      assert results[i].profile == p;
    }
    forall i | 0 <= i < n ensures results[i].profile in m {
      assert front[i].profile == results[i].profile;
    }
  }

  /** The values after adding the last entry's statistics: each profile maps
      to the statistics of its last entry. */
  lemma StatsStepValues(results: seq<ProfilePlan>, m: map<string, WasteStat>, stat: WasteStat)
    requires results != []
    requires var front := results[..|results| - 1];
             && (forall i :: 0 <= i < |front| ==> front[i].profile in m)
             && (forall i :: 0 <= i < |front| && LastFor(front, i) ==>
                   ProfileWaste(front[i]) == Some(m[front[i].profile]))
    requires ProfileWaste(results[|results| - 1]) == Some(stat)
    ensures var m' := m[results[|results| - 1].profile := stat];
            forall i :: 0 <= i < |results| && LastFor(results, i) ==>
              ProfileWaste(results[i]) == Some(m'[results[i].profile])
  {
    var n := |results| - 1;
    var front := results[..n];
    forall i | 0 <= i < n && LastFor(results, i) ensures LastFor(front, i) && front[i] == results[i] {
    }
  }

  /** The used length of a plan is the sum of all its pieces. */
  lemma {:induction false} UsedLengthIsPieceSum(bars: seq<Bar>)
    ensures UsedLength(bars) == Sum(Flatten(bars))
    decreases |bars|
  {
    if bars != [] {
      UsedLengthIsPieceSum(bars[..|bars| - 1]);
      SumConcat(Flatten(bars[..|bars| - 1]), bars[|bars| - 1].pieces);
    }
  }

  /** When no bar uses more than the stock, the used length is at most the
      total stock. */
  lemma {:induction false} UsedLengthAtMost(bars: seq<Bar>, stock: int)
    requires forall j :: 0 <= j < |bars| ==> Sum(bars[j].pieces) <= stock
    ensures UsedLength(bars) <= |bars| * stock
    decreases |bars|
  {
    if bars != [] {
      var front := bars[..|bars| - 1];
      assert forall j :: 0 <= j < |front| ==> front[j] == bars[j];
      UsedLengthAtMost(front, stock);
      MulSucc(|front|, stock);
    }
  }

  lemma MulSucc(n: nat, x: int)
    ensures (n + 1) * x == n * x + x
  {
  }

  /** With no bar of negative length, the used length is non-negative. */
  lemma {:induction false} UsedLengthNonNegative(bars: seq<Bar>)
    requires forall j :: 0 <= j < |bars| ==> Sum(bars[j].pieces) >= 0
    ensures UsedLength(bars) >= 0
    decreases |bars|
  {
    if bars != [] {
      var front := bars[..|bars| - 1];
      assert forall j :: 0 <= j < |front| ==> front[j] == bars[j];
      UsedLengthNonNegative(front);
    }
  }

  /** Waste statistics of an optimiser entry: the total stock is bars ×
      stock length, and the used length is the whole length its demand rows
      ask for (co.py:147-149). The division fails only for a zero stock. */
  lemma EntryWaste(data: seq<DemandRow>, settings: seq<Catalog.SettingRow>, results: seq<ProfilePlan>, i: nat)
    requires IsOptimizedPlan(data, settings, results) && i < |results|
    ensures ProfileWaste(results[i]).Some? <==> results[i].stock != 0
    ensures ProfileWaste(results[i]).Some? ==>
              ProfileWaste(results[i]).value.totalStock == |results[i].bars| * results[i].stock
              && ProfileWaste(results[i]).value.usedLength == DemandLength(data, results[i].profile)
  {
    var e := results[i];
    ResultShape(data, settings, results);
    assert |e.bars| > 0;
    ProductZero(|e.bars|, e.stock);
    EntryUsedLength(data, settings, results, i);
  }

  lemma ProductZero(n: int, x: int)
    requires n > 0
    ensures n * x == 0 <==> x == 0
  {
    if x > 0 {
      assert n * x >= x;
    } else if x < 0 {
      assert n * x <= x;
    }
  }

  /** The pieces of an entry add up to the length its demand rows ask for. */
  lemma EntryUsedLength(data: seq<DemandRow>, settings: seq<Catalog.SettingRow>, results: seq<ProfilePlan>, i: nat)
    requires IsOptimizedPlan(data, settings, results) && i < |results|
    ensures UsedLength(results[i].bars) == DemandLength(data, results[i].profile)
  {
    var e := results[i];
    var pieces := Expansion(data, e.profile);
    Conservation(data, settings, results, i);
    UsedLengthIsPieceSum(e.bars);
    SumOfPermutation(SortDescending(pieces), pieces);
    ExpansionSum(data, e.profile);
  }

  /** One statistics entry per result entry: on an optimiser result the
      statistics exist exactly when no profile has stock length zero, are
      keyed by the result's profiles, and give each its own entry's figures. */
  lemma StatsPerEntry(data: seq<DemandRow>, settings: seq<Catalog.SettingRow>, results: seq<ProfilePlan>)
    requires IsOptimizedPlan(data, settings, results)
    ensures CalculateWastePercentage(results).Some? <==> forall i :: 0 <= i < |results| ==> results[i].stock != 0
    ensures CalculateWastePercentage(results).Some? ==>
              var m := CalculateWastePercentage(results).value;
              && (forall p :: p in m <==> exists i :: 0 <= i < |results| && results[i].profile == p)
              && forall i :: 0 <= i < |results| ==> ProfileWaste(results[i]) == Some(m[results[i].profile])
  {
    ResultShape(data, settings, results);
    forall i | 0 <= i < |results| ensures ProfileWaste(results[i]).Some? <==> results[i].stock != 0 {
      EntryWaste(data, settings, results, i);
    }
  }

  /** Waste bounds: when the stock is positive and every piece lies between
      zero and the stock length, the waste percentage lies in [0, 100]; when
      every piece is also longer than zero it is below 100. */
  lemma WasteBounds(s: seq<int>, e: ProfilePlan)
    requires IsGreedyPlan(s, e.stock, e.bars) && e.bars != [] && e.stock > 0
    requires forall k :: 0 <= k < |s| ==> 0 <= s[k] <= e.stock
    ensures ProfileWaste(e).Some?
    ensures 0.0 <= ProfileWaste(e).value.wastePercentage <= 100.0
    ensures (forall k :: 0 <= k < |s| ==> s[k] > 0) ==> ProfileWaste(e).value.wastePercentage < 100.0
  {
    var total := |e.bars| * e.stock;
    var used := UsedLength(e.bars);
    PlanWithinStock(s, e.stock, e.bars);
    UsedLengthAtMost(e.bars, e.stock);
    UsedLengthNonNegative(e.bars);
    assert 0 <= used <= total;
    PercentageBounds(total, used);
    if forall k :: 0 <= k < |s| ==> s[k] > 0 {
      UsedLengthIsPieceSum(e.bars);
      FlattenLength(e.bars);
      PositiveSum(s);
    }
  }

  lemma {:induction false} PositiveSum(s: seq<int>)
    requires s != [] && forall k :: 0 <= k < |s| ==> s[k] > 0
    ensures Sum(s) > 0
    decreases |s|
  {
    if |s| > 1 {
      PositiveSum(s[..|s| - 1]);
    }
  }

  lemma PercentageBounds(total: int, used: int)
    requires 0 <= used <= total && total > 0
    ensures 0.0 <= Percentage(total, used) <= 100.0
    ensures used > 0 ==> Percentage(total, used) < 100.0
  {
    RatioBounds((total - used) as real, total as real);
  }

  /** The unused share lies in [0, 1], and below 1 when something is used. */
  lemma RatioBounds(n: real, t: real)
    requires t > 0.0 && 0.0 <= n <= t
    ensures 0.0 <= n / t <= 1.0
    ensures n < t ==> n / t < 1.0
  {
    var q := n / t;
    assert q * t == n;
    if q < 0.0 {
      PosMul(-q, t);
    }
    if q > 1.0 {
      PosMul(q - 1.0, t);
    }
  }

  lemma PosMul(x: real, y: real)
    requires x > 0.0 && y > 0.0
    ensures x * y > 0.0
  {
  }

  /** The worked plan: three bars of 6000 with 11000 used give a total stock
      of 18000 and a waste of 7000 / 18000 × 100 percent. */
  lemma WorkedExampleWaste(profile: string)
    ensures ProfileWaste(ProfilePlan(profile, 6000,
              [Bar([4000], 4000), Bar([3000, 2500], 5500), Bar([1500], 1500)]))
            == Some(WasteStat(7000.0 / 18000.0 * 100.0, 18000, 11000))
  {
    var bars := [Bar([4000], 4000), Bar([3000, 2500], 5500), Bar([1500], 1500)];
    SumSingle(4000);
    SumSingle(3000);
    SumSingle(1500);
    SumAppend([3000], 2500);
    assert [3000] + [2500] == [3000, 2500];
    assert bars[..2] == [bars[0], bars[1]] && bars[..2][..1] == [bars[0]] && [bars[0]][..0] == [];
    assert UsedLength([bars[0]]) == 4000;
    assert UsedLength(bars[..2]) == 9500;
    assert UsedLength(bars) == 11000;
  }
}
