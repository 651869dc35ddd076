/** Sequential packing of one profile's sorted piece list (co.py:55-70).
    One bar is open at a time; a piece goes into the open bar when it fits
    into what is left of it, otherwise the open bar is closed and the piece
    starts the next one. A closed bar is never reopened. */
module Packing {
  import opened Seqs

  /** A closed bar: its pieces in cutting order and the length recorded as
      used, `stock_length - current_stock` when it was closed. */
  datatype Bar = Bar(pieces: seq<int>, used: int)

  /** All pieces of a plan, bar after bar. */
  function Flatten(bars: seq<Bar>): seq<int>
  {
    if bars == [] then [] else Flatten(bars[..|bars| - 1]) + bars[|bars| - 1].pieces
  }

  /** Each piece after the first one fitted into what was left of the bar
      when it was cut, for bars of length `stock`. */
  predicate Filled(pieces: seq<int>, stock: int)
  {
    |pieces| <= 1 ||
      var front := pieces[..|pieces| - 1];
      Filled(front, stock) && pieces[|pieces| - 1] <= stock - Sum(front)
  }

  /** The piece at position k >= 1 of a filled bar fitted into the room
      left by the pieces before it. */
  lemma {:induction false} FilledAt(pieces: seq<int>, stock: int, k: nat)
    requires Filled(pieces, stock) && 1 <= k < |pieces|
    ensures pieces[k] <= stock - Sum(pieces[..k])
    decreases |pieces|
  {
    var front := pieces[..|pieces| - 1];
    if k < |front| {
      FilledAt(front, stock, k);
      assert front[..k] == pieces[..k];
    } else {
      assert front == pieces[..k];
    }
  }

  /** A bar as the loop closes it: not empty, its used length the sum of its
      pieces, and each of its later pieces fitted when it was added. Its
      first piece was placed without a check, so it may exceed `stock`. */
  predicate GreedyBar(b: Bar, stock: int)
  {
    |b.pieces| > 0 && b.used == Sum(b.pieces) && Filled(b.pieces, stock)
  }

  /** Every bar is closed as the loop closes it, and a bar was closed only
      because the first piece of the next one did not fit into its leftover. */
  predicate Chained(bars: seq<Bar>, stock: int)
  {
    && (forall j :: 0 <= j < |bars| ==> GreedyBar(bars[j], stock))
    && (forall j :: 0 < j < |bars| ==> bars[j].pieces[0] > stock - bars[j - 1].used)
  }

  /** `bars` is the result of packing `s` sequentially into bars of length
      `stock`: the bars cut `s` into consecutive chunks, in order, and are
      chained as the loop closes them. */
  predicate IsGreedyPlan(s: seq<int>, stock: int, bars: seq<Bar>)
  {
    Flatten(bars) == s && Chained(bars, stock)
  }

  /** Closing one more bar keeps the chain. */
  lemma ChainedAppend(bars: seq<Bar>, b: Bar, stock: int)
    requires Chained(bars, stock) && GreedyBar(b, stock)
    requires bars != [] ==> b.pieces[0] > stock - bars[|bars| - 1].used
    ensures Chained(bars + [b], stock)
  {
    var r := bars + [b];
    assert forall j :: 0 <= j < |bars| ==> r[j] == bars[j];
  }

  lemma FlattenAppend(bars: seq<Bar>, b: Bar)
    ensures Flatten(bars + [b]) == Flatten(bars) + b.pieces
  {
    assert (bars + [b])[..|bars|] == bars;
  }

  lemma {:induction false} FlattenCons(b: Bar, bars: seq<Bar>)
    ensures Flatten([b] + bars) == b.pieces + Flatten(bars)
    decreases |bars|
  {
    if bars == [] {
      assert [b] + bars == [] + [b];
    } else {
      var front := bars[..|bars| - 1];
      var last := bars[|bars| - 1];
      assert [b] + bars == ([b] + front) + [last];
      assert bars == front + [last];
      FlattenCons(b, front);
      FlattenAppend([b] + front, last);
      FlattenAppend(front, last);
    }
  }

  /** A plan of non-empty bars has at least as many pieces as bars. */
  lemma {:induction false} FlattenLength(bars: seq<Bar>)
    requires forall j :: 0 <= j < |bars| ==> |bars[j].pieces| > 0
    ensures |Flatten(bars)| >= |bars|
    decreases |bars|
  {
    if bars != [] {
      FlattenLength(bars[..|bars| - 1]);
    }
  }

  lemma FilledAppend(pieces: seq<int>, x: int, stock: int)
    requires Filled(pieces, stock)
    requires pieces != [] ==> x <= stock - Sum(pieces)
    ensures Filled(pieces + [x], stock)
  {
    assert (pieces + [x])[..|pieces|] == pieces;
  }

  /** The state of the packing loop after the first i pieces: the closed
      bars and the open bar hold exactly those pieces, `room` is what is left
      of the open bar, and the open bar is non-empty once a piece was seen. */
  predicate Packed(pieces: seq<int>, i: nat, stock: int, bars: seq<Bar>, current: seq<int>, room: int)
  {
    && i <= |pieces|
    && room == stock - Sum(current)
    && Flatten(bars) + current == pieces[..i]
    && (i > 0 ==> current != [])
    && Filled(current, stock)
    && Chained(bars, stock)
    && (bars != [] ==> current != [] && current[0] > stock - bars[|bars| - 1].used)
  }

  /** A piece that fits is appended to the open bar (co.py:60-62). */
  lemma PlaceInOpenBar(pieces: seq<int>, i: nat, stock: int, bars: seq<Bar>, current: seq<int>, room: int)
    requires Packed(pieces, i, stock, bars, current, room) && i < |pieces|
    requires pieces[i] <= room
    ensures Packed(pieces, i + 1, stock, bars, current + [pieces[i]], room - pieces[i])
  {
    assert pieces[..i + 1] == pieces[..i] + [pieces[i]];
    FilledAppend(current, pieces[i], stock);
    SumAppend(current, pieces[i]);
  }

  /** A piece that does not fit closes the open bar and seeds a new one
      (co.py:63-67). */
  lemma StartNewBar(pieces: seq<int>, i: nat, stock: int, bars: seq<Bar>, current: seq<int>, room: int)
    requires Packed(pieces, i, stock, bars, current, room) && i < |pieces|
    requires pieces[i] > room && current != []
    ensures Packed(pieces, i + 1, stock, bars + [Bar(current, stock - room)], [pieces[i]], stock - pieces[i])
  {
    var piece := pieces[i];
    SumSingle(piece);
    CloseBar(bars, current, stock);
    assert pieces[..i + 1] == pieces[..i] + [piece];
  }

  /** The first piece when it does not fit even an empty bar: the empty
      open bar is not recorded, the piece seeds a bar of its own (co.py:64-67). */
  lemma SeedFirstBar(pieces: seq<int>, stock: int, bars: seq<Bar>, room: int)
    requires Packed(pieces, 0, stock, bars, [], room) && 0 < |pieces|
    ensures Packed(pieces, 1, stock, bars, [pieces[0]], stock - pieces[0])
  {
    SumSingle(pieces[0]);
    assert pieces[..1] == [pieces[0]];
  }

  lemma SumSingle(x: int)
    ensures Sum([x]) == x
  {
    assert [x][..0] == [];
  }

  /** The loop of co.py:55-70 over a sorted piece list. */
  method PackSorted(pieces: seq<int>, stock: int) returns (bars: seq<Bar>)
    ensures IsGreedyPlan(pieces, stock, bars)
  {
    bars := [];
    var current: seq<int> := [];
    var room := stock;
    for i := 0 to |pieces|
      invariant Packed(pieces, i, stock, bars, current, room)
    {
      var piece := pieces[i];
      if piece <= room {
        PlaceInOpenBar(pieces, i, stock, bars, current, room);
        current := current + [piece];
        room := room - piece;
      } else {
        if current != [] {
          StartNewBar(pieces, i, stock, bars, current, room);
          bars := bars + [Bar(current, stock - room)];
        } else {
          SeedFirstBar(pieces, stock, bars, room);
        }
        current := [piece];
        room := stock - piece;
      }
    }
    FinishPlan(pieces, stock, bars, current, room);
    if current != [] {
      bars := bars + [Bar(current, stock - room)];
    }
  }

  /** After the last piece the open bar, if any, is recorded (co.py:69-70)
      and the bars form the plan of the whole list. */
  lemma FinishPlan(pieces: seq<int>, stock: int, bars: seq<Bar>, current: seq<int>, room: int)
    requires Packed(pieces, |pieces|, stock, bars, current, room)
    ensures current != [] ==> IsGreedyPlan(pieces, stock, bars + [Bar(current, stock - room)])
    ensures current == [] ==> IsGreedyPlan(pieces, stock, bars)
  {
    assert pieces[..|pieces|] == pieces;
    if current != [] {
      CloseBar(bars, current, stock);
    }
  }

  /** Closing the open bar, recorded with `stock - room` as used. */
  lemma CloseBar(bars: seq<Bar>, current: seq<int>, stock: int)
    requires Chained(bars, stock) && Filled(current, stock) && current != []
    requires bars != [] ==> current[0] > stock - bars[|bars| - 1].used
    ensures Chained(bars + [Bar(current, Sum(current))], stock)
    ensures Flatten(bars + [Bar(current, Sum(current))]) == Flatten(bars) + current
  {
    ChainedAppend(bars, Bar(current, Sum(current)), stock);
    FlattenAppend(bars, Bar(current, Sum(current)));
  }

  /** Dropping the first bar of a plan leaves a plan of the remaining pieces. */
  lemma GreedyPlanTail(s: seq<int>, stock: int, bars: seq<Bar>)
    requires IsGreedyPlan(s, stock, bars) && bars != []
    ensures |bars[0].pieces| <= |s|
    ensures s[..|bars[0].pieces|] == bars[0].pieces
    ensures IsGreedyPlan(s[|bars[0].pieces|..], stock, bars[1..])
  {
    assert bars == [bars[0]] + bars[1..];
    FlattenCons(bars[0], bars[1..]);
    var tail := bars[1..];
    assert forall j :: 0 < j < |tail| ==> tail[j] == bars[j + 1] && tail[j - 1] == bars[j];
  }

  /** How many leading pieces of s fit one after another into `room`. */
  function Fill(s: seq<int>, room: int): nat
  {
    if s == [] || s[0] > room then 0 else 1 + Fill(s[1..], room - s[0])
  }

  /** In a plan, the piece after the first bar (if any) starts the second
      bar, and it did not fit into the first bar's leftover. */
  lemma NextBarStart(s: seq<int>, stock: int, bars: seq<Bar>)
    requires IsGreedyPlan(s, stock, bars) && bars != []
    requires |bars[0].pieces| < |s|
    ensures |bars| > 1 && bars[1].pieces[0] == s[|bars[0].pieces|]
    ensures s[|bars[0].pieces|] > stock - Sum(bars[0].pieces)
  {
    GreedyPlanTail(s, stock, bars);
    var rest := bars[1..];
    assert Flatten(rest) == s[|bars[0].pieces|..];
    assert rest == [rest[0]] + rest[1..];
    FlattenCons(rest[0], rest[1..]);
    assert rest[0] == bars[1];
  }

  /** A bar that starts at s[0], fills its first m pieces and cannot take the
      next one holds exactly the pieces that Fill counts, counting from any
      position j of it. */
  lemma {:induction false} FillCountsBar(s: seq<int>, stock: int, m: nat, j: nat)
    requires 1 <= j <= m <= |s|
    requires Filled(s[..m], stock)
    requires m < |s| ==> s[m] > stock - Sum(s[..m])
    ensures Fill(s[j..], stock - Sum(s[..j])) == m - j
    decreases m - j
  {
    if j < m {
      FilledAt(s[..m], stock, j);
      assert s[..m][..j] == s[..j];
      assert s[..j + 1] == s[..j] + [s[j]];
      SumAppend(s[..j], s[j]);
      assert s[j..][1..] == s[j + 1..];
      FillCountsBar(s, stock, m, j + 1);
    }
  }

  /** The first bar of any plan of s holds s[0] and then as many pieces as fit. */
  lemma FirstBarSize(s: seq<int>, stock: int, bars: seq<Bar>)
    requires IsGreedyPlan(s, stock, bars) && bars != []
    ensures |bars[0].pieces| == 1 + Fill(s[1..], stock - s[0])
  {
    GreedyPlanTail(s, stock, bars);
    var m := |bars[0].pieces|;
    assert GreedyBar(bars[0], stock);
    if m < |s| {
      NextBarStart(s, stock, bars);
    }
    FillCountsBar(s, stock, m, 1);
    assert s[..1] == [s[0]];
    SumSingle(s[0]);
  }

  /** Sequential packing is deterministic: a piece list has one plan only. */
  lemma {:induction false} GreedyPlanUnique(s: seq<int>, stock: int, a: seq<Bar>, b: seq<Bar>)
    requires IsGreedyPlan(s, stock, a) && IsGreedyPlan(s, stock, b)
    ensures a == b
    decreases |s|
  {
    if a == [] || b == [] {
      FlattenLength(a);
      FlattenLength(b);
    } else {
      GreedyPlanTail(s, stock, a);
      GreedyPlanTail(s, stock, b);
      FirstBarSize(s, stock, a);
      FirstBarSize(s, stock, b);
      var m := |a[0].pieces|;
      assert GreedyBar(a[0], stock) && GreedyBar(b[0], stock);
      assert a[0] == b[0];
      GreedyPlanUnique(s[m..], stock, a[1..], b[1..]);
      assert a == [a[0]] + a[1..] && b == [b[0]] + b[1..];
    }
  }

  /** Flattening distributes over concatenation of plans. */
  lemma {:induction false} FlattenConcat(a: seq<Bar>, b: seq<Bar>)
    ensures Flatten(a + b) == Flatten(a) + Flatten(b)
    decreases |b|
  {
    if b == [] {
      assert a + b == a;
    } else {
      var front := b[..|b| - 1];
      var last := b[|b| - 1];
      assert a + b == (a + front) + [last];
      assert b == front + [last];
      FlattenConcat(a, front);
      FlattenAppend(a + front, last);
      FlattenAppend(front, last);
    }
  }

  /** Bar j is the chunk of the flattened plan that starts after the pieces
      of the bars before it. */
  lemma BarIsChunk(bars: seq<Bar>, j: nat)
    requires j < |bars|
    ensures |Flatten(bars[..j])| + |bars[j].pieces| <= |Flatten(bars)|
    ensures forall k :: 0 <= k < |bars[j].pieces| ==>
              bars[j].pieces[k] == Flatten(bars)[|Flatten(bars[..j])| + k]
  {
    assert bars == bars[..j] + [bars[j]] + bars[j + 1..];
    FlattenConcat(bars[..j] + [bars[j]], bars[j + 1..]);
    FlattenAppend(bars[..j], bars[j]);
  }

  /** A bar that starts with a piece no longer than the stock never ends
      over the stock: every recorded used length is at most `stock`, so what
      is left of the bar is never negative. */
  lemma {:induction false} FilledWithinStock(pieces: seq<int>, stock: int)
    requires Filled(pieces, stock) && pieces != [] && pieces[0] <= stock
    ensures Sum(pieces) <= stock
    decreases |pieces|
  {
    var front := pieces[..|pieces| - 1];
    SumAppend(front, pieces[|pieces| - 1]);
    assert front + [pieces[|pieces| - 1]] == pieces;
    if |pieces| == 1 {
      assert front == [];
    } else {
      FilledWithinStock(front, stock);
    }
  }

  /** Bounds: when no piece is longer than the stock, every bar's used length
      lies in the stock length, and is non-negative when no piece is. */
  lemma PlanWithinStock(s: seq<int>, stock: int, bars: seq<Bar>)
    requires IsGreedyPlan(s, stock, bars)
    requires forall k :: 0 <= k < |s| ==> s[k] <= stock
    ensures forall j :: 0 <= j < |bars| ==> bars[j].used <= stock
    ensures (forall k :: 0 <= k < |s| ==> s[k] >= 0) ==>
              forall j :: 0 <= j < |bars| ==> 0 <= bars[j].used <= stock
  {
    forall j | 0 <= j < |bars| ensures bars[j].used <= stock
      ensures (forall k :: 0 <= k < |s| ==> s[k] >= 0) ==> bars[j].used >= 0
    {
      BarIsChunk(bars, j);
      assert GreedyBar(bars[j], stock);
      FilledWithinStock(bars[j].pieces, stock);
      if forall k :: 0 <= k < |s| ==> s[k] >= 0 {
        SumNonNegative(bars[j].pieces);
      }
    }
  }

  /** After the first piece of a bar, with no negative pieces, every piece
      is at most the stock length minus the bar's first piece. */
  lemma LaterPiecesFit(pieces: seq<int>, stock: int)
    requires Filled(pieces, stock) && pieces != []
    requires forall k :: 0 <= k < |pieces| ==> pieces[k] >= 0
    ensures forall k :: 1 <= k < |pieces| ==> pieces[k] <= stock - pieces[0]
  {
    forall k | 1 <= k < |pieces| ensures pieces[k] <= stock - pieces[0] {
      FilledAt(pieces, stock, k);
      var before := pieces[..k];
      assert before == [pieces[0]] + before[1..];
      SumCons(pieces[0], before[1..]);
      SumNonNegative(before[1..]);
    }
  }

  /** A piece longer than the stock raises no error: with no negative pieces
      it is cut as a bar of its own, whose used length exceeds the stock
      (co.py:63-67). */
  lemma OversizePieceAlone(s: seq<int>, stock: int, bars: seq<Bar>, j: nat, k: nat)
    requires IsGreedyPlan(s, stock, bars)
    requires forall i :: 0 <= i < |s| ==> s[i] >= 0
    requires j < |bars| && k < |bars[j].pieces| && bars[j].pieces[k] > stock
    ensures bars[j].pieces == [bars[j].pieces[k]]
    ensures bars[j].used > stock
  {
    var p := bars[j].pieces;
    BarIsChunk(bars, j);
    assert GreedyBar(bars[j], stock);
    LaterPiecesFit(p, stock);
    assert k == 0;
    assert |p| == 1;
    assert p == [p[0]];
    SumSingle(p[0]);
  }

  /** Ordering: when the list is sorted in descending order, so is every
      bar, and each bar's last piece is at least the next bar's first. */
  lemma BarsOrdered(s: seq<int>, stock: int, bars: seq<Bar>)
    requires IsGreedyPlan(s, stock, bars) && Descending(s)
    ensures forall j :: 0 <= j < |bars| ==> Descending(bars[j].pieces)
    ensures forall j :: 0 < j < |bars| ==>
              bars[j - 1].pieces[|bars[j - 1].pieces| - 1] >= bars[j].pieces[0]
  {
    forall j | 0 <= j < |bars| ensures Descending(bars[j].pieces) {
      BarIsChunk(bars, j);
    }
    forall j | 0 < j < |bars|
      ensures bars[j - 1].pieces[|bars[j - 1].pieces| - 1] >= bars[j].pieces[0]
    {
      BarIsChunk(bars, j - 1);
      BarIsChunk(bars, j);
      assert bars[..j] == bars[..j - 1] + [bars[j - 1]];
      FlattenAppend(bars[..j - 1], bars[j - 1]);
      assert GreedyBar(bars[j - 1], stock) && GreedyBar(bars[j], stock);
    }
  }

  /** The worked plan: stock 6000 and the sorted pieces 4000, 3000, 2500,
      1500 give the bars [4000], [3000, 2500] and [1500], and no other plan. */
  lemma WorkedExample(bars: seq<Bar>)
    ensures IsGreedyPlan([4000, 3000, 2500, 1500], 6000, bars) <==>
            bars == [Bar([4000], 4000), Bar([3000, 2500], 5500), Bar([1500], 1500)]
  {
    var plan := [Bar([4000], 4000), Bar([3000, 2500], 5500), Bar([1500], 1500)];
    SumSingle(4000);
    SumSingle(3000);
    SumSingle(1500);
    SumAppend([3000], 2500);
    assert [3000] + [2500] == [3000, 2500];
    assert [3000, 2500][..1] == [3000];
    assert Filled([3000, 2500], 6000);
    FlattenCons(plan[2], []);
    FlattenCons(plan[1], [plan[2]]);
    FlattenCons(plan[0], [plan[1], plan[2]]);
    assert [plan[2]] == [plan[2]] + [] && plan == [plan[0]] + [plan[1], plan[2]];
    assert Flatten(plan) == [4000, 3000, 2500, 1500];
    assert Chained(plan, 6000);
    if IsGreedyPlan([4000, 3000, 2500, 1500], 6000, bars) {
      GreedyPlanUnique([4000, 3000, 2500, 1500], 6000, bars, plan);
    }
  }

  /** Only the first piece of a bar is checked against the previous bar's
      leftover: stock 10 and pieces 6, 5, 4 give [6] and [5, 4], although
      4 would have fitted into the 4 left over from the first bar. */
  lemma LaterPieceCouldFitEarlierBar()
    ensures IsGreedyPlan([6, 5, 4], 10, [Bar([6], 6), Bar([5, 4], 9)])
    ensures 4 <= 10 - 6
  {
    var plan := [Bar([6], 6), Bar([5, 4], 9)];
    SumSingle(6);
    SumSingle(5);
    SumAppend([5], 4);
    assert [5] + [4] == [5, 4];
    assert [5, 4][..1] == [5];
    assert plan[..1][..0] == [];
    assert Flatten(plan) == [6, 5, 4];
  }
}
