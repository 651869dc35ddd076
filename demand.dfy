/** The demand table and its expansion into individual pieces: each row of a
    profile contributes `Qté` copies of its `Long.` (co.py:47-51). */
module Demand {
  import opened Seqs

  /** One row of the demand table: the `Profil`, `Long.` and `Qté` columns,
      already converted to integers. */
  datatype DemandRow = DemandRow(profile: string, len: int, qty: int)

  /** How many copies Python's `[x] * n` makes: none when n is not positive. */
  function Copies(n: int): nat
  {
    if n > 0 then n else 0
  }

  /** The list `[x] * n`. */
  function Repeat(x: int, n: int): (r: seq<int>)
    ensures |r| == Copies(n)
    ensures forall k :: 0 <= k < |r| ==> r[k] == x
  {
    if n <= 0 then [] else Repeat(x, n - 1) + [x]
  }

  /** What one row adds to the piece list of `profile`. */
  function RowPieces(row: DemandRow, profile: string): seq<int>
  {
    if row.profile == profile then Repeat(row.len, row.qty) else []
  }

  /** The piece list of a profile: the rows of that profile taken in table
      order, each expanded into its copies (co.py:45-51). */
  function Expansion(data: seq<DemandRow>, profile: string): seq<int>
  {
    if data == [] then []
    else Expansion(data[..|data| - 1], profile) + RowPieces(data[|data| - 1], profile)
  }

  /** The loop of co.py:47-51 that builds the piece list row by row. */
  method CollectPieces(data: seq<DemandRow>, profile: string) returns (pieces: seq<int>)
    ensures pieces == Expansion(data, profile)
  {
    pieces := [];
    for i := 0 to |data|
      invariant pieces == Expansion(data[..i], profile)
    {
      assert data[..i + 1][..i] == data[..i];
      if data[i].profile == profile {
        pieces := pieces + Repeat(data[i].len, data[i].qty);
      }
    }
    assert data[..|data|] == data;
  }

  /** Some row of the profile asks for at least one piece. */
  predicate HasDemand(data: seq<DemandRow>, profile: string)
  {
    exists i :: 0 <= i < |data| && data[i].profile == profile && data[i].qty > 0
  }

  /** Copies of length x that the rows of the profile ask for. */
  function DemandCount(data: seq<DemandRow>, profile: string, x: int): nat
  {
    if data == [] then 0 else
      var row := data[|data| - 1];
      DemandCount(data[..|data| - 1], profile, x)
        + (if row.profile == profile && row.len == x then Copies(row.qty) else 0)
  }

  /** Total length that the rows of the profile ask for: Σ length × quantity. */
  function DemandLength(data: seq<DemandRow>, profile: string): int
  {
    if data == [] then 0 else
      var row := data[|data| - 1];
      DemandLength(data[..|data| - 1], profile)
        + (if row.profile == profile then Copies(row.qty) * row.len else 0)
  }

  lemma RepeatCount(x: int, n: int, y: int)
    ensures multiset(Repeat(x, n))[y] == if x == y then Copies(n) else 0
  {
    var r := Repeat(x, n);
    if x == y {
      assert multiset(r) == multiset{}[x := |r|] by {
        assert forall k :: 0 <= k < |r| ==> r[k] == x;
        RepeatIsConstant(x, n);
      }
    } else {
      assert y !in r;
    }
  }

  lemma {:induction false} RepeatIsConstant(x: int, n: int)
    ensures multiset(Repeat(x, n)) == multiset{}[x := Copies(n)]
    decreases if n > 0 then n else 0
  {
    if n > 0 {
      RepeatIsConstant(x, n - 1);
    }
  }

  lemma {:induction false} RepeatSum(x: int, n: int)
    ensures Sum(Repeat(x, n)) == Copies(n) * x
    decreases if n > 0 then n else 0
  {
    if n > 0 {
      RepeatSum(x, n - 1);
      SumAppend(Repeat(x, n - 1), x);
    }
  }

  /** Conservation at the source: the piece list holds exactly as many
      copies of each length as the demand rows of the profile ask for. */
  lemma {:induction false} ExpansionCount(data: seq<DemandRow>, profile: string, x: int)
    ensures multiset(Expansion(data, profile))[x] == DemandCount(data, profile, x)
    decreases |data|
  {
    if data != [] {
      var row := data[|data| - 1];
      ExpansionCount(data[..|data| - 1], profile, x);
      if row.profile == profile {
        RepeatCount(row.len, row.qty, x);
      }
    }
  }

  /** The piece list adds up to the total length asked for. */
  lemma {:induction false} ExpansionSum(data: seq<DemandRow>, profile: string)
    ensures Sum(Expansion(data, profile)) == DemandLength(data, profile)
    decreases |data|
  {
    if data != [] {
      var row := data[|data| - 1];
      ExpansionSum(data[..|data| - 1], profile);
      SumConcat(Expansion(data[..|data| - 1], profile), RowPieces(row, profile));
      if row.profile == profile {
        RepeatSum(row.len, row.qty);
      }
    }
  }

  /** The piece list is empty exactly when no row of the profile asks for a
      piece, in particular when the profile has no rows at all (co.py:48, 53). */
  lemma {:induction false} ExpansionNonEmpty(data: seq<DemandRow>, profile: string)
    ensures |Expansion(data, profile)| > 0 <==> HasDemand(data, profile)
    decreases |data|
  {
    if data != [] {
      var n := |data| - 1;
      ExpansionNonEmpty(data[..n], profile);
      assert forall i :: 0 <= i < n ==> data[..n][i] == data[i];
      if HasDemand(data, profile) && !HasDemand(data[..n], profile) {
        var i :| 0 <= i < |data| && data[i].profile == profile && data[i].qty > 0;
        assert i == n;
      }
      if HasDemand(data[..n], profile) {
        var i :| 0 <= i < n && data[..n][i].profile == profile && data[..n][i].qty > 0;
        assert data[i] == data[..n][i];
      }
    }
  }

  /** Every piece of the list is the length of some row of the profile. */
  lemma {:induction false} ExpansionFromRows(data: seq<DemandRow>, profile: string, k: nat)
    requires k < |Expansion(data, profile)|
    ensures exists i :: 0 <= i < |data| && data[i].profile == profile && data[i].qty > 0
                        && data[i].len == Expansion(data, profile)[k]
    decreases |data|
  {
    var n := |data| - 1;
    var front := Expansion(data[..n], profile);
    if k < |front| {
      ExpansionFromRows(data[..n], profile, k);
      var i :| 0 <= i < n && data[..n][i].profile == profile && data[..n][i].qty > 0
               && data[..n][i].len == front[k];
      assert data[i] == data[..n][i];
    } else {
      assert Expansion(data, profile)[k] == RowPieces(data[n], profile)[k - |front|];
    }
  }
}
