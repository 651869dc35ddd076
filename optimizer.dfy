/** The cutting-plan optimiser `optimize_cutting` (co.py:36-74). It walks the
    distinct profiles of the settings table in order of first appearance,
    takes the stock length of the first settings row of each, expands and
    sorts that profile's demand, packs it sequentially and records the
    profile only when it has at least one piece. The `defaultLength`
    argument is accepted and never used, and profiles that occur only in the
    demand table are never looked at. */
module Optimizer {
  import opened Seqs
  import opened Catalog
  import opened Demand
  import opened Packing
  import opened Wrappers

  /** One entry of the result list: `(profile, stock_length, stock_used)`. */
  datatype ProfilePlan = ProfilePlan(profile: string, stock: int, bars: seq<Bar>)

  /** The profiles of ps that have at least one demand piece, in the order of ps. */
  function WithPieces(data: seq<DemandRow>, ps: seq<string>): seq<string>
  {
    if ps == [] then [] else
      var p := ps[|ps| - 1];
      WithPieces(data, ps[..|ps| - 1]) + (if |Expansion(data, p)| > 0 then [p] else [])
  }

  /** The profiles the optimiser records, in the order it records them. */
  function PlannedProfiles(data: seq<DemandRow>, settings: seq<SettingRow>): seq<string>
  {
    WithPieces(data, UniqueProfiles(settings))
  }

  /** The stock length read for a listed profile: that of its first settings
      row (co.py:42). */
  function StockOf(settings: seq<SettingRow>, profile: string): (r: int)
    requires Listed(settings, profile)
    ensures exists i :: 0 <= i < |settings| && settings[i].profile == profile && r == settings[i].stock
                        && forall j :: 0 <= j < i ==> settings[j].profile != profile
    ensures forall d :: r == GetStockLength(profile, settings, d)
  {
    settings[FirstMatch(settings, profile).value].stock
  }

  /** An entry as the optimiser builds it for its profile: the stock length
      of the profile's first settings row, and the bars of the sequential
      packing of the profile's pieces sorted in descending order. */
  predicate PlanFor(data: seq<DemandRow>, settings: seq<SettingRow>, e: ProfilePlan)
  {
    && Listed(settings, e.profile)
    && e.stock == StockOf(settings, e.profile)
    && IsGreedyPlan(SortDescending(Expansion(data, e.profile)), e.stock, e.bars)
  }

  /** `results` holds one entry per profile of ps that has pieces, in order,
      each built as PlanFor says. */
  predicate PlannedPrefix(data: seq<DemandRow>, settings: seq<SettingRow>, ps: seq<string>,
                          results: seq<ProfilePlan>)
  {
    var w := WithPieces(data, ps);
    && |results| == |w|
    && forall i :: 0 <= i < |results| ==> results[i].profile == w[i] && PlanFor(data, settings, results[i])
  }

  /** `results` is what `optimize_cutting(data, settings, _)` returns: one
      entry per planned profile, in order, each built as PlanFor says. */
  predicate IsOptimizedPlan(data: seq<DemandRow>, settings: seq<SettingRow>, results: seq<ProfilePlan>)
  {
    PlannedPrefix(data, settings, UniqueProfiles(settings), results)
  }

  /** A profile without pieces adds no entry (co.py:53). */
  lemma SkipProfile(data: seq<DemandRow>, settings: seq<SettingRow>, ps: seq<string>, p: string,
                    results: seq<ProfilePlan>)
    requires PlannedPrefix(data, settings, ps, results) && Expansion(data, p) == []
    ensures PlannedPrefix(data, settings, ps + [p], results)
  {
    assert (ps + [p])[..|ps|] == ps;
  }

  /** A profile with pieces adds its entry at the end (co.py:72). */
  lemma AddProfile(data: seq<DemandRow>, settings: seq<SettingRow>, ps: seq<string>,
                   results: seq<ProfilePlan>, e: ProfilePlan)
    requires PlannedPrefix(data, settings, ps, results)
    requires Expansion(data, e.profile) != [] && PlanFor(data, settings, e)
    ensures PlannedPrefix(data, settings, ps + [e.profile], results + [e])
  {
    assert (ps + [e.profile])[..|ps|] == ps;
  }

  /** The body of the loop of co.py:42-72 for one listed profile: its stock
      length, its pieces, and, when it has any, its sorted sequential
      packing; None when the profile has no pieces. */
  method PlanProfile(data: seq<DemandRow>, settings: seq<SettingRow>, profile: string)
    returns (e: Option<ProfilePlan>)
    requires Listed(settings, profile)
    ensures e.None? <==> Expansion(data, profile) == []
    ensures e.Some? ==> e.value.profile == profile && PlanFor(data, settings, e.value)
  {
    var stockLength := StockOf(settings, profile);
    var pieces := CollectPieces(data, profile);
    if pieces == [] {
      return None;
    }
    var sorted := SortDescending(pieces);
    var bars := PackSorted(sorted, stockLength);
    e := Some(ProfilePlan(profile, stockLength, bars));
  }

  /** The loop of co.py:36-74 over the distinct settings profiles. */
  method OptimizeCutting(data: seq<DemandRow>, settings: seq<SettingRow>, defaultLength: int)
    returns (results: seq<ProfilePlan>)
    ensures IsOptimizedPlan(data, settings, results)
  {
    results := [];
    var profiles := UniqueProfiles(settings);
    for k := 0 to |profiles|
      invariant PlannedPrefix(data, settings, profiles[..k], results)
    {
      var profile := profiles[k];
      assert profiles[..k + 1] == profiles[..k] + [profile];
      assert profile in profiles;
      var e := PlanProfile(data, settings, profile);
      if e.Some? {
        AddProfile(data, settings, profiles[..k], results, e.value);
        results := results + [e.value];
      } else {
        SkipProfile(data, settings, profiles[..k], profile, results);
      }
    }
    assert profiles[..|profiles|] == profiles;
  }

  /** A profile is kept exactly when it is one of ps and has a demand piece. */
  lemma {:induction false} WithPiecesMembers(data: seq<DemandRow>, ps: seq<string>, p: string)
    ensures p in WithPieces(data, ps) <==> p in ps && HasDemand(data, p)
    decreases |ps|
  {
    if ps != [] {
      var front := ps[..|ps| - 1];
      WithPiecesMembers(data, front, p);
      ExpansionNonEmpty(data, ps[|ps| - 1]);
      assert ps == front + [ps[|ps| - 1]];
    }
  }

  /** Keeping some profiles preserves their first-appearance order. */
  lemma {:induction false} WithPiecesOrdered(data: seq<DemandRow>, settings: seq<SettingRow>, ps: seq<string>)
    requires forall p :: p in ps ==> Listed(settings, p)
    requires forall i, j :: 0 <= i < j < |ps| ==>
               FirstMatch(settings, ps[i]).value < FirstMatch(settings, ps[j]).value
    ensures forall p :: p in WithPieces(data, ps) ==> p in ps
    ensures forall i, j :: 0 <= i < j < |WithPieces(data, ps)| ==>
               FirstMatch(settings, WithPieces(data, ps)[i]).value
               < FirstMatch(settings, WithPieces(data, ps)[j]).value
    decreases |ps|
  {
    forall p | p in WithPieces(data, ps) ensures p in ps {
      WithPiecesMembers(data, ps, p);
    }
    if ps != [] {
      var front := ps[..|ps| - 1];
      var last := ps[|ps| - 1];
      assert forall i :: 0 <= i < |front| ==> front[i] == ps[i];
      WithPiecesOrdered(data, settings, front);
      var w := WithPieces(data, front);
      if |Expansion(data, last)| > 0 {
        forall i | 0 <= i < |w|
          ensures FirstMatch(settings, w[i]).Some?
          ensures FirstMatch(settings, w[i]).value < FirstMatch(settings, last).value
        {
          assert w[i] in w;
          var a :| 0 <= a < |front| && front[a] == w[i];
          assert ps[a] == w[i];
        }
        AppendLater(settings, w, last);
        assert WithPieces(data, ps) == w + [last];
      } else {
        assert WithPieces(data, ps) == w;
      }
    }
  }

  /** Result shape: a profile has an entry exactly when the settings table
      lists it and some demand row of it asks for a piece, so profiles that
      only the demand table names never appear; entries follow the first
      appearance of their profile in the settings table, hence no profile
      appears twice; every entry has at least one bar (co.py:40-45, 53, 72). */
  lemma ResultShape(data: seq<DemandRow>, settings: seq<SettingRow>, results: seq<ProfilePlan>)
    requires IsOptimizedPlan(data, settings, results)
    ensures forall p :: (exists i :: 0 <= i < |results| && results[i].profile == p)
                        <==> Listed(settings, p) && HasDemand(data, p)
    ensures forall i, j :: 0 <= i < j < |results| ==>
              FirstMatch(settings, results[i].profile).value < FirstMatch(settings, results[j].profile).value
    ensures forall i, j :: 0 <= i < j < |results| ==> results[i].profile != results[j].profile
    ensures forall i :: 0 <= i < |results| ==> results[i].bars != []
  {
    var ps := PlannedProfiles(data, settings);
    var u := UniqueProfiles(settings);
    WithPiecesOrdered(data, settings, u);
    forall p ensures (exists i :: 0 <= i < |results| && results[i].profile == p)
                     <==> Listed(settings, p) && HasDemand(data, p)
    {
      WithPiecesMembers(data, u, p);
      if p in ps {
        var i :| 0 <= i < |ps| && ps[i] == p;
        assert results[i].profile == p;
      }
    }
    forall i | 0 <= i < |results| ensures results[i].bars != [] {
      var p := results[i].profile;
      assert p in ps;
      WithPiecesMembers(data, u, p);
      ExpansionNonEmpty(data, p);
      assert PlanFor(data, settings, results[i]);
      assert |SortDescending(Expansion(data, p))| == |Expansion(data, p)| by {
        assert |multiset(SortDescending(Expansion(data, p)))| == |multiset(Expansion(data, p))|;
      }
    }
  }

  /** The stock length of every entry is what `get_stock_length` returns for
      its profile, whatever default it is given: the default never matters. */
  lemma StockFromFirstRow(data: seq<DemandRow>, settings: seq<SettingRow>, results: seq<ProfilePlan>,
                          defaultLength: int)
    requires IsOptimizedPlan(data, settings, results)
    ensures forall i :: 0 <= i < |results| ==>
              results[i].stock == GetStockLength(results[i].profile, settings, defaultLength)
  {
    forall i | 0 <= i < |results|
      ensures results[i].stock == GetStockLength(results[i].profile, settings, defaultLength)
    {
      assert PlanFor(data, settings, results[i]);
    }
  }

  /** Conservation: the bars of an entry, read in order, are the profile's
      pieces sorted in descending order, and hold each length exactly as many
      times as the demand rows of the profile ask for it (co.py:47-54, 59-70). */
  lemma Conservation(data: seq<DemandRow>, settings: seq<SettingRow>, results: seq<ProfilePlan>, i: nat)
    requires IsOptimizedPlan(data, settings, results) && i < |results|
    ensures Flatten(results[i].bars) == SortDescending(Expansion(data, results[i].profile))
    ensures Descending(Flatten(results[i].bars))
    ensures forall x :: multiset(Flatten(results[i].bars))[x] == DemandCount(data, results[i].profile, x)
  {
    assert PlanFor(data, settings, results[i]);
    forall x ensures multiset(Flatten(results[i].bars))[x] == DemandCount(data, results[i].profile, x) {
      ExpansionCount(data, results[i].profile, x);
    }
  }

  /** Determinism: the inputs fix the result completely, so two runs on the
      same tables (and any defaults) give identical plans. */
  lemma OptimizeDeterministic(data: seq<DemandRow>, settings: seq<SettingRow>,
                              r1: seq<ProfilePlan>, r2: seq<ProfilePlan>)
    requires IsOptimizedPlan(data, settings, r1) && IsOptimizedPlan(data, settings, r2)
    ensures r1 == r2
  {
    forall i | 0 <= i < |r1| ensures r1[i] == r2[i] {
      assert PlanFor(data, settings, r1[i]) && PlanFor(data, settings, r2[i]);
      GreedyPlanUnique(SortDescending(Expansion(data, r1[i].profile)), r1[i].stock, r1[i].bars, r2[i].bars);
    }
  }

  /** Every piece placed for a profile is the length of one of its demand rows. */
  lemma PlacedPieceFromRow(data: seq<DemandRow>, profile: string, k: nat)
    requires k < |SortDescending(Expansion(data, profile))|
    ensures exists i :: 0 <= i < |data| && data[i].profile == profile && data[i].qty > 0
                        && data[i].len == SortDescending(Expansion(data, profile))[k]
  {
    var e := Expansion(data, profile);
    var s := SortDescending(e);
    assert s[k] in multiset(s);
    var k' :| 0 <= k' < |e| && e[k'] == s[k];
    ExpansionFromRows(data, profile, k');
  }

  /** Bounds: when every demand row of a profile that yields pieces is no
      longer than its stock, every bar of the entry has used length at most the stock, so
      `current_stock` never went negative; with no negative lengths the used
      length is also non-negative (co.py:59-67). */
  lemma EntryWithinStock(data: seq<DemandRow>, settings: seq<SettingRow>, results: seq<ProfilePlan>, i: nat)
    requires IsOptimizedPlan(data, settings, results) && i < |results|
    requires forall r :: r in data && r.profile == results[i].profile && r.qty > 0 ==> r.len <= results[i].stock
    ensures forall j :: 0 <= j < |results[i].bars| ==> results[i].bars[j].used <= results[i].stock
    ensures (forall r :: r in data && r.profile == results[i].profile && r.qty > 0 ==> 0 <= r.len) ==>
              forall j :: 0 <= j < |results[i].bars| ==> 0 <= results[i].bars[j].used
  {
    var e := results[i];
    var s := SortDescending(Expansion(data, e.profile));
    assert PlanFor(data, settings, e);
    forall k | 0 <= k < |s| ensures s[k] <= e.stock
      ensures (forall r :: r in data && r.profile == e.profile && r.qty > 0 ==> 0 <= r.len) ==> s[k] >= 0
    {
      PlacedPieceFromRow(data, e.profile, k);
      var a :| 0 <= a < |data| && data[a].profile == e.profile && data[a].qty > 0 && data[a].len == s[k];
      assert data[a] in data;
    }
    PlanWithinStock(s, e.stock, e.bars);
  }

  /** With no demand, or with an empty settings table, the result is empty. */
  lemma EmptyInputs(data: seq<DemandRow>, settings: seq<SettingRow>, results: seq<ProfilePlan>)
    requires IsOptimizedPlan(data, settings, results)
    requires data == [] || settings == []
    ensures results == []
  {
    var w := PlannedProfiles(data, settings);
    if w != [] {
      WithPiecesMembers(data, UniqueProfiles(settings), w[0]);
    }
  }
}
