/** The settings table: one row per profile entry with the length of its raw
    stock bars. Both the lookup with a default (`get_stock_length`) and the
    optimiser's own lookup take the first row whose profile matches. */
module Catalog {
  import opened Wrappers

  /** One row of the settings table: the `Profile` and `Stock Length` columns. */
  datatype SettingRow = SettingRow(profile: string, stock: int)

  /** Some row of the table names this profile. */
  predicate Listed(settings: seq<SettingRow>, profile: string)
  {
    exists i :: 0 <= i < |settings| && settings[i].profile == profile
  }

  /** Index of the first row whose profile matches, as selected by filtering
      the table on the profile and taking `.iloc[0]`; None when the filtered
      table is empty. */
  function FirstMatch(settings: seq<SettingRow>, profile: string): (r: Option<nat>)
    ensures r.None? <==> !Listed(settings, profile)
    ensures r.Some? ==> r.value < |settings| && settings[r.value].profile == profile
    ensures r.Some? ==> forall i :: 0 <= i < r.value ==> settings[i].profile != profile
  {
    if settings == [] then None else
      var n := |settings| - 1;
      ListedExtend(settings, profile);
      match FirstMatch(settings[..n], profile)
      case Some(i) =>
        assert settings[i] == settings[..n][i];
        assert forall k :: 0 <= k < i ==> settings[k] == settings[..n][k];
        Some(i)
      case None =>
        if settings[n].profile == profile then
          assert forall k :: 0 <= k < n ==> settings[k] == settings[..n][k];
          Some(n)
        else None
  }

  /** The stock length for a profile: that of the first row naming it, or
      `defaultLength` when no row does. Never fails (co.py:29-34). */
  function GetStockLength(profile: string, settings: seq<SettingRow>, defaultLength: int): (r: int)
    ensures !Listed(settings, profile) ==> r == defaultLength
    ensures forall i :: 0 <= i < |settings| && settings[i].profile == profile
                        && (forall j :: 0 <= j < i ==> settings[j].profile != profile)
                        ==> r == settings[i].stock
  {
    match FirstMatch(settings, profile)
    case None => defaultLength
    case Some(i) => settings[i].stock
  }

  /** The profiles of the table, each once, in order of first appearance:
      pandas' `Series.unique()` on the `Profile` column (co.py:40). */
  function UniqueProfiles(settings: seq<SettingRow>): (r: seq<string>)
    ensures forall i, j :: 0 <= i < j < |r| ==> r[i] != r[j]
    ensures forall p :: p in r <==> Listed(settings, p)
    ensures forall i, j :: 0 <= i < j < |r| ==>
              FirstMatch(settings, r[i]).value < FirstMatch(settings, r[j]).value
  {
    if settings == [] then [] else
      var n := |settings| - 1;
      var u := UniqueProfiles(settings[..n]);
      var p := settings[n].profile;
      var r := if p in u then u else u + [p];
      UniqueProfilesStep(settings, u, r);
      r
  }

  /** The last row adds its profile unless an earlier row already named it. */
  lemma UniqueProfilesStep(settings: seq<SettingRow>, u: seq<string>, r: seq<string>)
    requires settings != []
    requires var prefix := settings[..|settings| - 1];
             && (forall i, j :: 0 <= i < j < |u| ==> u[i] != u[j])
             && (forall p :: p in u <==> Listed(prefix, p))
             && (forall i, j :: 0 <= i < j < |u| ==>
                   FirstMatch(prefix, u[i]).value < FirstMatch(prefix, u[j]).value)
    requires var p := settings[|settings| - 1].profile;
             r == if p in u then u else u + [p]
    ensures forall i, j :: 0 <= i < j < |r| ==> r[i] != r[j]
    ensures forall p :: p in r <==> Listed(settings, p)
    ensures forall i, j :: 0 <= i < j < |r| ==>
              FirstMatch(settings, r[i]).value < FirstMatch(settings, r[j]).value
  {
    var prefix := settings[..|settings| - 1];
    var p := settings[|settings| - 1].profile;
    forall q ensures q in r <==> Listed(settings, q) {
      ListedExtend(settings, q);
    }
    if p !in u {
      assert forall i :: 0 <= i < |u| ==> r[i] == u[i];
    }
    assert forall i :: 0 <= i < |u| ==> u[i] in u;
    UniqueStepOrdered(settings, u, r);
  }

  /** The first-appearance order survives the last row. */
  lemma UniqueStepOrdered(settings: seq<SettingRow>, u: seq<string>, r: seq<string>)
    requires settings != []
    requires var prefix := settings[..|settings| - 1];
             && (forall i :: 0 <= i < |u| ==> Listed(prefix, u[i]))
             && (forall i, j :: 0 <= i < j < |u| ==>
                   FirstMatch(prefix, u[i]).value < FirstMatch(prefix, u[j]).value)
    requires var p := settings[|settings| - 1].profile;
             && (p !in u ==> !Listed(settings[..|settings| - 1], p))
             && r == if p in u then u else u + [p]
    ensures forall i, j :: 0 <= i < j < |r| ==>
              FirstMatch(settings, r[i]).value < FirstMatch(settings, r[j]).value
  {
    var n := |settings| - 1;
    var p := settings[n].profile;
    forall i | 0 <= i < |u| ensures FirstMatch(settings, u[i]) == FirstMatch(settings[..n], u[i]) {
      FirstMatchPrefix(settings, u[i]);
    }
    if p !in u {
      AppendLater(settings, u, p);
    } else {
      OrderKept(settings, u);
    }
  }

  /** A profile listed before the last row keeps its first matching row. */
  lemma FirstMatchPrefix(settings: seq<SettingRow>, q: string)
    requires settings != [] && Listed(settings[..|settings| - 1], q)
    ensures FirstMatch(settings, q) == FirstMatch(settings[..|settings| - 1], q)
  {
  }

  /** An order by first matching row in the front of the table is the same
      order in the whole table when each first matching row is unchanged. */
  lemma OrderKept(settings: seq<SettingRow>, u: seq<string>)
    requires settings != []
    requires forall i :: 0 <= i < |u| ==>
               FirstMatch(settings[..|settings| - 1], u[i]).Some?
               && FirstMatch(settings, u[i]) == FirstMatch(settings[..|settings| - 1], u[i])
    requires forall i, j :: 0 <= i < j < |u| ==>
               FirstMatch(settings[..|settings| - 1], u[i]).value < FirstMatch(settings[..|settings| - 1], u[j]).value
    ensures forall i, j :: 0 <= i < j < |u| ==>
              FirstMatch(settings, u[i]).value < FirstMatch(settings, u[j]).value
  {
  }

  /** Appending a profile whose first row comes after those of u keeps the
      first-appearance order. */
  lemma AppendLater(settings: seq<SettingRow>, u: seq<string>, p: string)
    requires FirstMatch(settings, p).Some?
    requires forall i :: 0 <= i < |u| ==>
               FirstMatch(settings, u[i]).Some? && FirstMatch(settings, u[i]).value < FirstMatch(settings, p).value
    requires forall i, j :: 0 <= i < j < |u| ==>
               FirstMatch(settings, u[i]).value < FirstMatch(settings, u[j]).value
    ensures forall i, j :: 0 <= i < j < |u + [p]| ==>
              FirstMatch(settings, (u + [p])[i]).value < FirstMatch(settings, (u + [p])[j]).value
  {
    var r := u + [p];
    forall i | 0 <= i < |u| ensures r[i] == u[i] {
    }
    assert r[|u|] == p;
  }

  /** A table lists a profile exactly when its front lists it or its last
      row names it. */
  lemma ListedExtend(settings: seq<SettingRow>, q: string)
    requires settings != []
    ensures Listed(settings, q) <==> Listed(settings[..|settings| - 1], q) || q == settings[|settings| - 1].profile
  {
    var n := |settings| - 1;
    if Listed(settings, q) && q != settings[n].profile {
      var i :| 0 <= i < |settings| && settings[i].profile == q;
      assert settings[..n][i] == settings[i];
    }
    if Listed(settings[..n], q) {
      var i :| 0 <= i < n && settings[..n][i].profile == q;
      assert settings[..n][i] == settings[i];
    }
  }
}
