/** Pair matching: upper-line fragments in a left column, lower-line fragments
    shuffled in a right column; the player connects an upper item to its lower
    item with a select-then-commit pair of taps. Items are kept in payload
    order; the boxes the layout writes onto them are the parallel sequence
    `boxes`, and the shuffled lower column is a sequence of item indices. */
module PoetryConnect {
  import opened Common
  import opened Grid
  import Shuffle

  /** Horizontal space between the two columns. */
  const ColGap: nat := 24

  /** An item of the payload: its id and its role ("upper" or anything else). */
  datatype Item = Item(id: int, kind: string)

  predicate IsUpper(it: Item)
  {
    it.kind == "upper"
  }

  /** The box `_buildPositions` writes onto an item. */
  datatype Box = Box(x: int, y: int, width: int, height: int)

  /** Item height, column width and item gap. */
  datatype Metrics = Metrics(itemH: nat, colW: nat, gap: nat)

  // ---------------------------------------------------------------------------
  // Layout
  // ---------------------------------------------------------------------------

  /** The indices of the upper (`upper`) or the lower (`!upper`) items, in payload order. */
  function Column(items: seq<Item>, upper: bool): (c: seq<nat>)
    ensures forall k :: 0 <= k < |c| ==> c[k] < |items| && IsUpper(items[c[k]]) == upper
    ensures forall k, l :: 0 <= k < l < |c| ==> c[k] < c[l]
    ensures forall i :: 0 <= i < |items| && IsUpper(items[i]) == upper ==> i in c
  {
    if items == [] then []
    else
      var n := |items| - 1;
      var rest := Column(items[..n], upper);
      assert forall k :: 0 <= k < |rest| ==> items[..n][rest[k]] == items[rest[k]];
      assert forall i :: 0 <= i < n ==> items[..n][i] == items[i];
      rest + (if IsUpper(items[n]) == upper then [n] else [])
  }

  /** The number of upper items (the `upperCount` of `tapItem`). */
  function UpperCount(items: seq<Item>): nat
  {
    |Column(items, true)|
  }

  /** Item sizes chosen from the number of upper items. */
  function MetricsFor(count: nat): (m: Metrics)
    ensures count <= 3 ==> m == Metrics(48, 160, 8)
    ensures 3 < count <= 5 ==> m == Metrics(40, 150, 8)
    ensures 5 < count ==> m == Metrics(34, 130, 6)
  {
    var itemH := if count <= 3 then 48 else if count <= 5 then 40 else 34;
    var colW := if count <= 3 then 160 else if count <= 5 then 150 else 130;
    var gap := if count <= 5 then 8 else 6;
    Metrics(itemH, colW, gap)
  }

  /** The box of the `a`-th upper item. */
  function UpperBox(a: nat, m: Metrics): Box
  {
    Box(0, Origin(a, m.itemH, m.gap), m.colW, m.itemH)
  }

  /** The box of the `b`-th item of the shuffled lower column. */
  function LowerBox(b: nat, m: Metrics): Box
  {
    Box(m.colW + ColGap, Origin(b, m.itemH, m.gap), m.colW, m.itemH)
  }

  /** `boxes` is the layout of `items` with the lower column in the order `order`
      (a permutation of the lower items, without repetitions). */
  ghost predicate LaidOut(items: seq<Item>, boxes: seq<Box>, order: seq<nat>, m: Metrics)
  {
    && |boxes| == |items|
    && m == MetricsFor(UpperCount(items))
    && multiset(order) == multiset(Column(items, false))
    && NoDup(order)
    && (forall a :: 0 <= a < |Column(items, true)| ==> boxes[Column(items, true)[a]] == UpperBox(a, m))
    && (forall b :: 0 <= b < |order| ==> order[b] < |boxes| && boxes[order[b]] == LowerBox(b, m))
  }

  /** The payload-order split of `_buildPositions`. */
  method SplitColumns(items: seq<Item>) returns (upper: seq<nat>, lower: seq<nat>)
    ensures upper == Column(items, true) && lower == Column(items, false)
  {
    upper, lower := [], [];
    var i := 0;
    while i < |items|
      invariant 0 <= i <= |items|
      invariant upper == Column(items[..i], true) && lower == Column(items[..i], false)
    {
      assert items[..i + 1][..i] == items[..i];
      if IsUpper(items[i]) {
        upper := upper + [i];
      } else {
        lower := lower + [i];
      }
      i := i + 1;
    }
    assert items[..i] == items;
  }

  /** `_buildPositions`, with the random swap partners of the lower column's
      Fisher-Yates shuffle supplied by the caller. */
  method BuildPositions(items: seq<Item>, swaps: seq<nat>) returns (boxes: seq<Box>, order: seq<nat>, m: Metrics)
    requires Shuffle.IsSwapSequence(swaps, |Column(items, false)|)
    ensures LaidOut(items, boxes, order, m)
    ensures order == Shuffle.FisherYates(Column(items, false), swaps, |Column(items, false)| - 1)
  {
    var upper, lower := SplitColumns(items);
    ColumnNoDup(items, true);
    ColumnNoDup(items, false);
    order := ShuffleColumn(items, lower, swaps);
    boxes, m := PlaceColumns(items, upper, order);
  }

  /** A column names each item once. */
  lemma ColumnNoDup(items: seq<Item>, upper: bool)
    ensures NoDup(Column(items, upper))
  {
  }

  /** The two placement loops, after the metrics are chosen. */
  method PlaceColumns(items: seq<Item>, upper: seq<nat>, order: seq<nat>) returns (boxes: seq<Box>, m: Metrics)
    requires upper == Column(items, true) && NoDup(upper)
    requires multiset(order) == multiset(Column(items, false)) && NoDup(order)
    ensures LaidOut(items, boxes, order, m)
  {
    OrderIsLower(items, order);
    m := MetricsFor(|upper|);
    var blank := seq(|items|, _ => Box(0, 0, 0, 0));
    var placed := PlaceUpper(blank, upper, items, m);
    boxes := PlaceLower(placed, order, items, m);
    ColumnsLaidOut(items, placed, boxes, order, m);
  }

  /** The two placement loops together lay out the items. */
  lemma ColumnsLaidOut(items: seq<Item>, placed: seq<Box>, boxes: seq<Box>, order: seq<nat>, m: Metrics)
    requires |placed| == |boxes| == |items| && m == MetricsFor(UpperCount(items))
    requires multiset(order) == multiset(Column(items, false)) && NoDup(order)
    requires forall a :: 0 <= a < |Column(items, true)| ==> placed[Column(items, true)[a]] == UpperBox(a, m)
    requires forall i :: 0 <= i < |items| && IsUpper(items[i]) ==> boxes[i] == placed[i]
    requires forall b :: 0 <= b < |order| ==> order[b] < |boxes| && boxes[order[b]] == LowerBox(b, m)
    ensures LaidOut(items, boxes, order, m)
  {
    var upper := Column(items, true);
    assert forall a :: 0 <= a < |upper| ==> boxes[upper[a]] == placed[upper[a]];
  }

  /** The Fisher-Yates shuffle of the lower column, on a copy in an array. */
  method ShuffleColumn(items: seq<Item>, lower: seq<nat>, swaps: seq<nat>) returns (order: seq<nat>)
    requires lower == Column(items, false) && NoDup(lower)
    requires Shuffle.IsSwapSequence(swaps, |Column(items, false)|)
    ensures order == Shuffle.FisherYates(Column(items, false), swaps, |Column(items, false)| - 1)
    ensures multiset(order) == multiset(Column(items, false)) && NoDup(order)
  {
    var arr := new nat[|lower|](k requires 0 <= k < |lower| => lower[k]);
    assert arr[..] == lower;
    Shuffle.ShuffleInPlace(arr, swaps);
    order := arr[..];
    Shuffle.FisherYatesKeepsNoDup(lower, swaps, |lower| - 1);
  }

  /** A permutation of the lower column holds only lower items. */
  lemma OrderIsLower(items: seq<Item>, order: seq<nat>)
    requires multiset(order) == multiset(Column(items, false))
    ensures forall b :: 0 <= b < |order| ==> order[b] < |items| && !IsUpper(items[order[b]])
  {
    forall b | 0 <= b < |order|
      ensures order[b] < |items| && !IsUpper(items[order[b]])
    {
      assert order[b] in multiset(Column(items, false));
      var k :| 0 <= k < |Column(items, false)| && Column(items, false)[k] == order[b];
    }
  }

  /** The loop over the upper column: the `a`-th upper item goes at `(0, y)`. */
  method PlaceUpper(boxes0: seq<Box>, upper: seq<nat>, items: seq<Item>, m: Metrics) returns (boxes: seq<Box>)
    requires |boxes0| == |items| && NoDup(upper)
    requires forall a :: 0 <= a < |upper| ==> upper[a] < |items| && IsUpper(items[upper[a]])
    ensures |boxes| == |items|
    ensures forall a :: 0 <= a < |upper| ==> boxes[upper[a]] == UpperBox(a, m)
    ensures forall i :: 0 <= i < |items| && !IsUpper(items[i]) ==> boxes[i] == boxes0[i]
  {
    boxes := boxes0;
    var y := 0;
    var a := 0;
    while a < |upper|
      invariant 0 <= a <= |upper| && |boxes| == |items|
      invariant y == Origin(a, m.itemH, m.gap)
      invariant forall a' :: 0 <= a' < a ==> boxes[upper[a']] == UpperBox(a', m)
      invariant forall i :: 0 <= i < |items| && !IsUpper(items[i]) ==> boxes[i] == boxes0[i]
    {
      assert forall a' :: 0 <= a' < a ==> upper[a'] != upper[a];
      OriginNext(a, m.itemH, m.gap);
      boxes := boxes[upper[a] := Box(0, y, m.colW, m.itemH)];
      y := y + m.itemH + m.gap;
      a := a + 1;
    }
  }

  /** The loop over the shuffled lower column: the `b`-th goes at `(colW + 24, y)`. */
  method PlaceLower(boxes0: seq<Box>, order: seq<nat>, items: seq<Item>, m: Metrics)
    returns (boxes: seq<Box>)
    requires |boxes0| == |items| && NoDup(order)
    requires forall b :: 0 <= b < |order| ==> order[b] < |items| && !IsUpper(items[order[b]])
    ensures |boxes| == |items|
    ensures forall b :: 0 <= b < |order| ==> order[b] < |boxes| && boxes[order[b]] == LowerBox(b, m)
    ensures forall i :: 0 <= i < |items| && IsUpper(items[i]) ==> boxes[i] == boxes0[i]
  {
    boxes := boxes0;
    var y := 0;
    var b := 0;
    while b < |order|
      invariant 0 <= b <= |order| && |boxes| == |items|
      invariant y == Origin(b, m.itemH, m.gap)
      invariant forall b' :: 0 <= b' < b ==> boxes[order[b']] == LowerBox(b', m)
      invariant forall i :: 0 <= i < |items| && IsUpper(items[i]) ==> boxes[i] == boxes0[i]
    {
      assert forall b' :: 0 <= b' < b ==> order[b'] != order[b];
      OriginNext(b, m.itemH, m.gap);
      boxes := boxes[order[b] := Box(m.colW + ColGap, y, m.colW, m.itemH)];
      y := y + m.itemH + m.gap;
      b := b + 1;
    }
  }

  /** The point lies in the closed box. */
  predicate HitBox(b: Box, px: real, py: real)
  {
    b.x as real <= px <= (b.x + b.width) as real && b.y as real <= py <= (b.y + b.height) as real
  }

  /** No point lies in the boxes of two different items. */
  lemma {:induction false} HitIsUnique(items: seq<Item>, boxes: seq<Box>, order: seq<nat>, m: Metrics,
                                       i: nat, j: nat, px: real, py: real)
    requires LaidOut(items, boxes, order, m)
    requires i < |items| && j < |items| && HitBox(boxes[i], px, py) && HitBox(boxes[j], px, py)
    ensures i == j
  {
    var upper := Column(items, true);
    var lower := Column(items, false);
    assert m.gap > 0;
    if IsUpper(items[i]) && IsUpper(items[j]) {
      var a :| 0 <= a < |upper| && upper[a] == i;
      var a' :| 0 <= a' < |upper| && upper[a'] == j;
      SpansDisjoint(py, a, a', m.itemH, m.gap);
    } else if !IsUpper(items[i]) && !IsUpper(items[j]) {
      var b := LowerRank(items, boxes, order, m, i);
      var b' := LowerRank(items, boxes, order, m, j);
      SpansDisjoint(py, b, b', m.itemH, m.gap);
    } else {
      var b := LowerRank(items, boxes, order, m, if IsUpper(items[i]) then j else i);
      assert false;
    }
  }

  /** Where a lower item sits in the shuffled column. */
  lemma LowerRank(items: seq<Item>, boxes: seq<Box>, order: seq<nat>, m: Metrics, i: nat) returns (b: nat)
    requires LaidOut(items, boxes, order, m)
    requires i < |items| && !IsUpper(items[i])
    ensures b < |order| && order[b] == i && boxes[i] == LowerBox(b, m)
  {
    assert i in Column(items, false);
    assert i in multiset(order);
    b :| 0 <= b < |order| && order[b] == i;
  }

  /** `getItemByPoint(x, y)`: the index of the first item, in payload order,
      whose box contains the point. */
  method ItemByPoint(boxes: seq<Box>, px: real, py: real) returns (hit: Option<nat>)
    ensures hit.Some? ==> hit.value < |boxes| && HitBox(boxes[hit.value], px, py)
    ensures hit.Some? ==> forall j :: 0 <= j < hit.value ==> !HitBox(boxes[j], px, py)
    ensures hit.None? ==> forall j :: 0 <= j < |boxes| ==> !HitBox(boxes[j], px, py)
  {
    var i := 0;
    while i < |boxes|
      invariant 0 <= i <= |boxes|
      invariant forall j :: 0 <= j < i ==> !HitBox(boxes[j], px, py)
    {
      if HitBox(boxes[i], px, py) {
        return Some(i);
      }
      i := i + 1;
    }
    return None;
  }

  // ---------------------------------------------------------------------------
  // Taps
  // ---------------------------------------------------------------------------

  /** The state taps change: committed connections `(fromId, toId)`, the
      pending selection, completion and the wrong-attempt count. */
  datatype Progress = Progress(connections: seq<(int, int)>, selectedId: Option<int>, isComplete: bool, wrongCount: nat)

  /** The `action` a tap reports. */
  datatype TapAction = Already | Select | Clear | Connect(isComplete: bool) | Wrong

  /** `id` is an end of some committed connection. */
  predicate Connected(conns: seq<(int, int)>, id: int)
  {
    exists k :: 0 <= k < |conns| && (conns[k].0 == id || conns[k].1 == id)
  }

  /** `(a, b)` is a declared pair, in either order. */
  predicate IsDeclaredPair(pairs: seq<(int, int)>, a: int, b: int)
  {
    exists k :: 0 <= k < |pairs| && ((pairs[k].0 == a && pairs[k].1 == b) || (pairs[k].0 == b && pairs[k].1 == a))
  }

  /** `tapItem(id)`. */
  function TapStep(upperCount: nat, pairs: seq<(int, int)>, p: Progress, id: int): (Progress, TapAction)
  {
    if Connected(p.connections, id) then (p, Already)
    else if p.selectedId.None? then (p.(selectedId := Some(id)), Select)
    else if p.selectedId.value == id then (p.(selectedId := None), Clear)
    else
      var fromId := p.selectedId.value;
      if IsDeclaredPair(pairs, fromId, id) then
        var conns := p.connections + [(fromId, id)];
        var complete := |conns| >= upperCount;
        (Progress(conns, None, complete, p.wrongCount), Connect(complete))
      else
        (p.(selectedId := None, wrongCount := p.wrongCount + 1), Wrong)
  }

  /** What every reachable state satisfies: the pending selection is not
      connected, every connection is a declared pair of two different ids, no
      id is an end of two connections, and the puzzle is complete exactly when
      some connection was made and there are as many as upper items. */
  predicate ProgressValid(upperCount: nat, pairs: seq<(int, int)>, p: Progress)
  {
    && (p.selectedId.Some? ==> !Connected(p.connections, p.selectedId.value))
    && (forall k :: 0 <= k < |p.connections| ==>
          IsDeclaredPair(pairs, p.connections[k].0, p.connections[k].1) && p.connections[k].0 != p.connections[k].1)
    && (forall k, l :: 0 <= k < l < |p.connections| ==>
          p.connections[k].0 != p.connections[l].0 && p.connections[k].0 != p.connections[l].1 &&
          p.connections[k].1 != p.connections[l].0 && p.connections[k].1 != p.connections[l].1)
    && (p.isComplete <==> |p.connections| > 0 && |p.connections| >= upperCount)
  }

  /** The state of a fresh puzzle. */
  const Start: Progress := Progress([], None, false, 0)

  lemma StartValid(upperCount: nat, pairs: seq<(int, int)>)
    ensures ProgressValid(upperCount, pairs, Start)
  {
  }

  /** Taps keep the invariant. */
  lemma TapKeepsValid(upperCount: nat, pairs: seq<(int, int)>, p: Progress, id: int)
    requires ProgressValid(upperCount, pairs, p)
    ensures ProgressValid(upperCount, pairs, TapStep(upperCount, pairs, p, id).0)
  {
    if !Connected(p.connections, id) && p.selectedId.Some? && p.selectedId.value != id
       && IsDeclaredPair(pairs, p.selectedId.value, id) {
      var q := TapStep(upperCount, pairs, p, id).0;
      var n := |p.connections|;
      assert q.connections == p.connections + [(p.selectedId.value, id)];
      forall k | 0 <= k < n
        ensures q.connections[k] == p.connections[k]
        ensures p.connections[k].0 != id && p.connections[k].1 != id
        ensures p.connections[k].0 != p.selectedId.value && p.connections[k].1 != p.selectedId.value
      {
      }
    }
  }

  /** A tap on a connected id reports `already` and changes nothing. */
  lemma TapAlready(upperCount: nat, pairs: seq<(int, int)>, p: Progress, id: int)
    requires Connected(p.connections, id)
    ensures TapStep(upperCount, pairs, p, id) == (p, Already)
  {
  }

  /** With nothing pending, a tap on a free id selects it; a second tap on the
      pending id clears it; nothing else changes. */
  lemma TapSelectClear(upperCount: nat, pairs: seq<(int, int)>, p: Progress, id: int)
    requires !Connected(p.connections, id)
    ensures p.selectedId.None? ==> TapStep(upperCount, pairs, p, id) == (p.(selectedId := Some(id)), Select)
    ensures p.selectedId == Some(id) ==> TapStep(upperCount, pairs, p, id) == (p.(selectedId := None), Clear)
  {
  }

  /** A tap on a different free id always clears the pending selection; it
      commits a connection exactly when the two ids are a declared pair, and
      otherwise counts one wrong attempt and leaves the connections alone. */
  lemma TapResolves(upperCount: nat, pairs: seq<(int, int)>, p: Progress, id: int)
    requires !Connected(p.connections, id) && p.selectedId.Some? && p.selectedId.value != id
    ensures TapStep(upperCount, pairs, p, id).0.selectedId.None?
    ensures TapStep(upperCount, pairs, p, id).1.Connect? <==> IsDeclaredPair(pairs, p.selectedId.value, id)
    ensures IsDeclaredPair(pairs, p.selectedId.value, id) ==>
              var q := TapStep(upperCount, pairs, p, id).0;
              && q.connections == p.connections + [(p.selectedId.value, id)]
              && q.isComplete == (|q.connections| >= upperCount)
              && q.wrongCount == p.wrongCount
              && TapStep(upperCount, pairs, p, id).1 == Connect(q.isComplete)
    ensures !IsDeclaredPair(pairs, p.selectedId.value, id) ==>
              TapStep(upperCount, pairs, p, id) == (p.(selectedId := None, wrongCount := p.wrongCount + 1), Wrong)
  {
  }

  /** Selecting a free id and then tapping its declared partner connects them;
      tapping a non-partner instead leaves both free to be selected again. */
  lemma SelectThenTap(upperCount: nat, pairs: seq<(int, int)>, p: Progress, a: int, b: int)
    requires ProgressValid(upperCount, pairs, p) && p.selectedId.None?
    requires !Connected(p.connections, a) && !Connected(p.connections, b) && a != b
    ensures var q := TapStep(upperCount, pairs, TapStep(upperCount, pairs, p, a).0, b);
            && (IsDeclaredPair(pairs, a, b) ==> q.1.Connect? && q.0.connections == p.connections + [(a, b)])
            && (!IsDeclaredPair(pairs, a, b) ==>
                  q.1 == Wrong && q.0.connections == p.connections && q.0.selectedId.None?
                  && !Connected(q.0.connections, a) && !Connected(q.0.connections, b))
  {
    var p1 := TapStep(upperCount, pairs, p, a).0;
    assert p1 == p.(selectedId := Some(a));
    TapResolves(upperCount, pairs, p1, b);
  }

  /** The loop over the connections at the start of `tapItem`. */
  method FindConnected(conns: seq<(int, int)>, id: int) returns (found: bool)
    ensures found == Connected(conns, id)
  {
    var ci := 0;
    while ci < |conns|
      invariant 0 <= ci <= |conns|
      invariant forall k :: 0 <= k < ci ==> conns[k].0 != id && conns[k].1 != id
    {
      if conns[ci].0 == id || conns[ci].1 == id {
        return true;
      }
      ci := ci + 1;
    }
    return false;
  }

  /** The loop over the declared pairs. */
  method FindPair(pairs: seq<(int, int)>, fromId: int, id: int) returns (valid: bool)
    ensures valid == IsDeclaredPair(pairs, fromId, id)
  {
    valid := false;
    var pi := 0;
    while pi < |pairs|
      invariant 0 <= pi <= |pairs|
      invariant !valid
      invariant forall k :: 0 <= k < pi ==>
                  !((pairs[k].0 == fromId && pairs[k].1 == id) || (pairs[k].0 == id && pairs[k].1 == fromId))
    {
      var a, b := pairs[pi].0, pairs[pi].1;
      if (a == fromId && b == id) || (a == id && b == fromId) {
        valid := true;
        break;
      }
      pi := pi + 1;
    }
  }

  /** The loop counting the upper items. */
  method CountUpper(items: seq<Item>) returns (upperCount: nat)
    ensures upperCount == UpperCount(items)
  {
    upperCount := 0;
    var ui := 0;
    while ui < |items|
      invariant 0 <= ui <= |items|
      invariant upperCount == |Column(items[..ui], true)|
    {
      assert items[..ui + 1][..ui] == items[..ui];
      if IsUpper(items[ui]) {
        upperCount := upperCount + 1;
      }
      ui := ui + 1;
    }
    assert items[..ui] == items;
  }

  /** The body of `tapItem` on the payload and the current progress. */
  method TapOnItems(items: seq<Item>, pairs: seq<(int, int)>, p: Progress, id: int) returns (q: Progress, action: TapAction)
    ensures (q, action) == TapStep(UpperCount(items), pairs, p, id)
  {
    var already := FindConnected(p.connections, id);
    if already {
      return p, Already;
    }
    if p.selectedId.None? {
      return p.(selectedId := Some(id)), Select;
    }
    if p.selectedId.value == id {
      return p.(selectedId := None), Clear;
    }
    var fromId := p.selectedId.value;
    var valid := FindPair(pairs, fromId, id);
    if valid {
      var conns := p.connections + [(fromId, id)];
      var upperCount := CountUpper(items);
      var complete := |conns| >= upperCount;
      return Progress(conns, None, complete, p.wrongCount), Connect(complete);
    }
    return p.(selectedId := None, wrongCount := p.wrongCount + 1), Wrong;
  }

  // ---------------------------------------------------------------------------
  // Scoring
  // ---------------------------------------------------------------------------

  /** `calcScore(elapsedSec)`: 100 less 0.6 points per second used and 10 per
      wrong attempt, never below 10. */
  function CalcScore(wrongCount: nat, elapsedSec: real): int
  {
    Max(10, 100 - Floor(elapsedSec * 0.6) - wrongCount * 10)
  }

  /** The score is at least 10, at most 100 when no time ran backwards, and
      more time or more wrong attempts never raise it. */
  lemma CalcScoreBounds(w1: nat, w2: nat, e1: real, e2: real)
    requires w1 <= w2 && e1 <= e2
    ensures 10 <= CalcScore(w2, e2) <= CalcScore(w1, e1)
    ensures e1 >= 0.0 ==> CalcScore(w1, e1) <= 100
    ensures CalcScore(0, 0.0) == 100
  {
    FloorMonotone(e1 * 0.6, e2 * 0.6);
    if e1 >= 0.0 {
      FloorMonotone(0.0, e1 * 0.6);
    }
  }

  /** `calcFinalScore(remainingSec, totalSec)`: the score for the time used. */
  function FinalScore(wrongCount: nat, remainingSec: real, totalSec: real): (s: int)
    ensures s == CalcScore(wrongCount, totalSec - remainingSec)
    ensures s >= 10
    ensures remainingSec <= totalSec ==> s <= 100
  {
    CalcScoreBounds(wrongCount, wrongCount, totalSec - remainingSec, totalSec - remainingSec);
    CalcScore(wrongCount, totalSec - remainingSec)
  }

  datatype Breakdown = Breakdown(
    totalScore: int, baseScore: int, timePenalty: int, errorPenalty: int,
    elapsedSec: real, wrongCount: nat)

  /** `getScoreBreakdown(remainingSec, totalSec)`. */
  function ScoreBreakdown(wrongCount: nat, remainingSec: real, totalSec: real): (b: Breakdown)
    ensures b.totalScore == FinalScore(wrongCount, remainingSec, totalSec)
    ensures b.totalScore == Max(10, b.baseScore - b.timePenalty - b.errorPenalty)
    ensures b.baseScore == 100 && b.errorPenalty == 10 * wrongCount && b.wrongCount == wrongCount
    ensures b.elapsedSec == totalSec - remainingSec
    ensures b.timePenalty as real <= b.elapsedSec * 0.6 < b.timePenalty as real + 1.0
  {
    var elapsed := totalSec - remainingSec;
    Breakdown(CalcScore(wrongCount, elapsed), 100, Floor(elapsed * 0.6), wrongCount * 10, elapsed, wrongCount)
  }

  // ---------------------------------------------------------------------------
  // The puzzle object
  // ---------------------------------------------------------------------------

  /** One pair-matching puzzle: payload, layout and the player's progress. */
  class PoetryConnectLogic {
    var difficulty: string
    var items: seq<Item>
    var pairs: seq<(int, int)>
    /** The geometry `_buildPositions` writes onto `items[i]`. */
    var boxes: seq<Box>
    var itemH: nat
    var colW: nat
    var itemGap: nat
    /** The shuffled lower column, as item indices (local to `_buildPositions`). */
    ghost var lowerOrder: seq<nat>
    var connections: seq<(int, int)>
    var selectedId: Option<int>
    var isComplete: bool
    var score: int
    var wrongCount: nat

    ghost predicate Valid()
      reads this
    {
      && LaidOut(items, boxes, lowerOrder, Metrics(itemH, colW, itemGap))
      && ProgressValid(UpperCount(items), pairs, State())
    }

    /** The fields taps change. */
    function State(): Progress
      reads this
    {
      Progress(connections, selectedId, isComplete, wrongCount)
    }

    /** `new PoetryConnectLogic(options)` once `items` and `pairs` are known to be present. */
    constructor (difficulty: string, items: seq<Item>, pairs: seq<(int, int)>, swaps: seq<nat>)
      requires Shuffle.IsSwapSequence(swaps, |Column(items, false)|)
      ensures Valid()
      ensures this.difficulty == (if difficulty == "" then "easy" else difficulty)
      ensures this.items == items && this.pairs == pairs
      ensures lowerOrder == Shuffle.FisherYates(Column(items, false), swaps, |Column(items, false)| - 1)
      ensures State() == Start && score == 0
    {
      this.difficulty := if difficulty == "" then "easy" else difficulty;
      this.items := items;
      this.pairs := pairs;
      connections := [];
      selectedId := None;
      isComplete := false;
      score := 0;
      wrongCount := 0;
      var b, order, m := BuildPositions(items, swaps);
      boxes := b;
      lowerOrder := order;
      itemH, colW, itemGap := m.itemH, m.colW, m.gap;
    }

    /** `tapItem(id)`. */
    method TapItem(id: int) returns (action: TapAction)
      requires Valid()
      modifies this
      ensures Valid()
      ensures items == old(items) && pairs == old(pairs) && boxes == old(boxes) && lowerOrder == old(lowerOrder)
      ensures itemH == old(itemH) && colW == old(colW) && itemGap == old(itemGap)
      ensures difficulty == old(difficulty) && score == old(score)
      ensures (State(), action) == TapStep(UpperCount(items), pairs, old(State()), id)
    {
      TapKeepsValid(UpperCount(items), pairs, State(), id);
      var q;
      q, action := TapOnItems(items, pairs, State(), id);
      connections, selectedId, isComplete, wrongCount := q.connections, q.selectedId, q.isComplete, q.wrongCount;
    }

    /** `getItemByPoint(x, y)`: the index of the item whose box contains the
        point; no other item's box does. */
    method GetItemByPoint(px: real, py: real) returns (hit: Option<nat>)
      requires Valid()
      ensures hit.Some? ==> hit.value < |items| && HitBox(boxes[hit.value], px, py)
      ensures hit.Some? ==> forall j :: 0 <= j < |items| && HitBox(boxes[j], px, py) ==> j == hit.value
      ensures hit.None? ==> forall j :: 0 <= j < |items| ==> !HitBox(boxes[j], px, py)
    {
      hit := ItemByPoint(boxes, px, py);
      if hit.Some? {
        forall j | 0 <= j < |items| && HitBox(boxes[j], px, py)
          ensures j == hit.value
        {
          HitIsUnique(items, boxes, lowerOrder, Metrics(itemH, colW, itemGap), j, hit.value, px, py);
        }
      }
    }

    /** `calcFinalScore(remainingSec, totalSec)` for this puzzle's wrong attempts. */
    method CalcFinalScore(remainingSec: real, totalSec: real) returns (s: int)
      ensures s == CalcScore(wrongCount, totalSec - remainingSec)
      ensures s >= 10 && (remainingSec <= totalSec ==> s <= 100)
    {
      s := FinalScore(wrongCount, remainingSec, totalSec);
    }
  }

  /** The throwing part of `new PoetryConnectLogic(options)`: without `items`
      or `pairs` no puzzle is built (an empty list is present). */
  method NewPoetryConnect(difficulty: string, items: Option<seq<Item>>, pairs: Option<seq<(int, int)>>, swaps: seq<nat>)
    returns (r: Result<PoetryConnectLogic, string>)
    requires items.Some? ==> Shuffle.IsSwapSequence(swaps, |Column(items.value, false)|)
    ensures r.Failure? <==> items.None? || pairs.None?
    ensures r.Success? ==> fresh(r.value) && r.value.Valid() && r.value.State() == Start && r.value.score == 0
    ensures r.Success? ==> r.value.items == items.value && r.value.pairs == pairs.value
    ensures r.Success? ==> r.value.difficulty == (if difficulty == "" then "easy" else difficulty)
  {
    if items.None? || pairs.None? {
      return Failure("PoetryConnectLogic: items and pairs are required");
    }
    var logic := new PoetryConnectLogic(difficulty, items.value, pairs.value, swaps);
    return Success(logic);
  }
}
