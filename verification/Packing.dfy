/**
 Packing cards into one group box: the slot search inside its frame. The three named
 groups and the group of unplaced devices run the same search over different frames, so
 it is modelled once.
 */
module Packing {
  import opened Common
  import opened Layout

  datatype Rect = Rect(x: real, y: real, w: real, h: real)

  function Card(p: Point): Rect {
    Rect(p.x, p.y, CARD_WIDTH, CARD_HEIGHT)
  }

  predicate Apart(a: Rect, b: Rect) {
    a.x + a.w <= b.x || b.x + b.w <= a.x || a.y + a.h <= b.y || b.y + b.h <= a.y
  }

  predicate Within(inner: Rect, outer: Rect) {
    && outer.x <= inner.x && inner.x + inner.w <= outer.x + outer.w
    && outer.y <= inner.y && inner.y + inner.h <= outer.y + outer.h
  }

  function Abs(r: real): real { if r < 0.0 then -r else r }

  function MaxReal(a: real, b: real): real { if a < b then b else a }

  function MaxInt(a: int, b: int): int { if a < b then b else a }

  /******* Frames and their slots *******/

  /** Where a group's cards may go: one centred column, or a centred grid under a header. */
  datatype Frame =
    | Column(x: real, y: real, w: real)
    | Grid(x: real, y: real, w: real, header: real, columns: nat)

  predicate Roomy(f: Frame) {
    && f.w >= 238.0
    && (f.Grid? ==> f.header >= 100.0 && f.columns >= 1 && f.columns as real * 230.0 - 20.0 <= f.w)
  }

  function SlotAt(f: Frame, slot: nat): Point
    requires Roomy(f)
  {
    match f
    case Column(x, y, w) =>
      Point(x + (w - 210.0) / 2.0, y + 72.0 + slot as real * 116.0)
    case Grid(x, y, w, header, columns) =>
      Point(x + (w - columns as real * 210.0 - (columns - 1) as real * 20.0) / 2.0 + (slot % columns) as real * 230.0,
            y + header + (slot / columns) as real * 116.0)
  }

  /** Slots of a column are centred, one below the other. */
  lemma ColumnSlot(x: real, y: real, w: real, slot: nat)
    requires Roomy(Column(x, y, w))
    ensures var card := Card(SlotAt(Column(x, y, w), slot));
            card.x - x == x + w - (card.x + card.w) && card.y == y + 72.0 + 116.0 * slot as real
  {
  }

  /** Slots of a grid fill its rows from the left, with equal margins at both ends of a row. */
  lemma GridSlot(f: Frame, row: nat, column: nat, left: real)
    requires Roomy(f) && f.Grid? && column < f.columns
    requires left - f.x == f.x + f.w - (left + 230.0 * f.columns as real - 20.0)
    ensures SlotAt(f, row * f.columns + column) == Point(left + 230.0 * column as real, f.y + f.header + 116.0 * row as real)
  {
    RowAndColumn(row, column, f.columns);
  }

  lemma RowAndColumn(row: nat, column: nat, columns: nat)
    requires column < columns
    ensures (row * columns + column) / columns == row && (row * columns + column) % columns == column
  {
    var n := row * columns + column;
    assert n == n / columns * columns + n % columns;
    RowsDiffer(row, column, n / columns, n % columns, columns);
    RowsDiffer(n / columns, n % columns, row, column, columns);
  }

  lemma {:induction false} RowsDiffer(row: nat, column: nat, other: nat, place: nat, columns: nat)
    requires column < columns
    ensures row < other ==> row * columns + column < other * columns + place
  {
    if row < other {
      OneMoreRow(other - 1, columns);
      RowsDiffer(row, column, other - 1, columns, columns);
    }
  }

  lemma OneMoreRow(row: nat, columns: nat)
    ensures (row + 1) * columns == row * columns + columns
  {
  }

  function PinTop(f: Frame): real {
    f.y + (if f.Column? then 68.0 else f.header)
  }

  /** Twelve clear of the sides, and below the title. */
  ghost predicate InStrip(f: Frame, card: Rect) {
    && card.x - f.x >= 12.0 && f.x + f.w - (card.x + card.w) >= 12.0
    && card.y - f.y >= match f case Column(_, _, _) => 68.0 case Grid(_, _, _, header, _) => header
  }

  /** A saved position counts only in the group it was saved for, and only inside the box. */
  predicate Pinned(f: Frame, key: GroupKey, d: Device)
    ensures Pinned(f, key, d) <==> d.layoutGroup == Some(key) && d.saved.Some? && InStrip(f, Card(d.saved.value))
  {
    && d.layoutGroup == Some(key)
    && d.saved.Some?
    && d.saved.value.x >= f.x + 12.0
    && d.saved.value.x + 210.0 <= f.x + f.w - 12.0
    && d.saved.value.y >= PinTop(f)
  }

  /** Less than eight apart on both axes. */
  predicate Near(a: Point, b: Point)
    ensures Near(a, b) <==> !Apart(Rect(a.x - 4.0, a.y - 4.0, 218.0, 104.0), Rect(b.x - 4.0, b.y - 4.0, 218.0, 104.0))
  {
    Abs(a.x - b.x) < 218.0 && Abs(a.y - b.y) < 104.0
  }

  predicate Clash(p: Point, used: seq<Point>) {
    exists u :: u in used && Near(u, p)
  }

  /** Past some slot every later one is below all the cards in use: the search ends. */
  lemma {:induction false} EventuallyFree(f: Frame, used: seq<Point>) returns (bound: nat)
    requires Roomy(f)
    ensures forall k :: bound <= k ==> !Clash(SlotAt(f, k), used)
  {
    if used == [] {
      bound := 0;
    } else {
      var rest := EventuallyFree(f, used[1..]);
      var rows: nat := MaxInt(0, (used[0].y - f.y + 104.0).Floor + 1);
      var mine := if f.Column? then rows else rows * f.columns;
      bound := MaxInt(rest, mine);
      forall k: nat | bound <= k
        ensures !Clash(SlotAt(f, k), used)
      {
        SlotBelow(f, rows, k);
        assert !Near(used[0], SlotAt(f, k));
        assert forall u :: u in used ==> u == used[0] || u in used[1..];
      }
    }
  }

  lemma SlotBelow(f: Frame, rows: nat, slot: nat)
    requires Roomy(f)
    requires slot >= if f.Column? then rows else rows * f.columns
    ensures SlotAt(f, slot).y >= f.y + rows as real
  {
  }

  /** The first free slot at or after `from`. */
  method FindSlot(f: Frame, used: seq<Point>, from: nat) returns (slot: nat)
    requires Roomy(f)
    ensures slot >= from
    ensures !Clash(SlotAt(f, slot), used)
    ensures forall k :: from <= k < slot ==> Clash(SlotAt(f, k), used)
  {
    ghost var bound := EventuallyFree(f, used);
    slot := from;
    while Clash(SlotAt(f, slot), used)
      invariant slot >= from
      invariant forall k :: from <= k < slot ==> Clash(SlotAt(f, k), used)
      decreases bound - slot
    {
      slot := slot + 1;
    }
  }

  /******* One group *******/

  /** Card `i` is where the placing rule puts it: pinned, or in the first slot of the
      whole frame that clears every pinned card and every card placed before it. */
  ghost predicate PlacedByRule(f: Frame, key: GroupKey, shown: seq<Device>, placed: seq<Point>, i: nat)
    requires Roomy(f) && i < |shown| && i < |placed| <= |shown|
  {
    if Pinned(f, key, shown[i]) then placed[i] == shown[i].saved.value
    else exists slot: nat :: FirstFreeSlot(f, key, shown, placed, i, slot)
  }

  /** A card the search for card `i` has to keep clear of. */
  ghost predicate Standing(f: Frame, key: GroupKey, shown: seq<Device>, placed: seq<Point>, i: nat, p: Point)
    requires i <= |placed| <= |shown|
  {
    || (exists m :: 0 <= m < |shown| && Pinned(f, key, shown[m]) && shown[m].saved.value == p)
    || (exists m :: 0 <= m < i && placed[m] == p)
  }

  ghost predicate Blocked(f: Frame, key: GroupKey, shown: seq<Device>, placed: seq<Point>, i: nat, slot: nat)
    requires Roomy(f) && i <= |placed| <= |shown|
  {
    exists p :: Standing(f, key, shown, placed, i, p) && Near(p, SlotAt(f, slot))
  }

  ghost predicate FirstFreeSlot(f: Frame, key: GroupKey, shown: seq<Device>, placed: seq<Point>, i: nat, slot: nat)
    requires Roomy(f) && i < |placed| <= |shown|
  {
    && placed[i] == SlotAt(f, slot)
    && !Blocked(f, key, shown, placed, i, slot)
    && forall k: nat :: k < slot ==> Blocked(f, key, shown, placed, i, k)
  }

  ghost predicate UsedIsStanding(f: Frame, key: GroupKey, shown: seq<Device>, placed: seq<Point>, used: seq<Point>)
    requires |placed| <= |shown|
  {
    forall p :: p in used <==> Standing(f, key, shown, placed, |placed|, p)
  }

  function PinnedPoints(f: Frame, key: GroupKey, shown: seq<Device>): (points: seq<Point>)
    ensures forall p :: p in points <==>
              exists m :: 0 <= m < |shown| && Pinned(f, key, shown[m]) && shown[m].saved.value == p
  {
    if shown == [] then []
    else
      var n := |shown| - 1;
      var rest := PinnedPoints(f, key, shown[..n]);
      var points := rest + (if Pinned(f, key, shown[n]) then [shown[n].saved.value] else []);
      assert forall p :: p in points ==> exists m :: 0 <= m < |shown| && Pinned(f, key, shown[m]) && shown[m].saved.value == p by {
        forall p | p in points
          ensures exists m :: 0 <= m < |shown| && Pinned(f, key, shown[m]) && shown[m].saved.value == p
        {
          if p in rest {
            var m :| 0 <= m < n && Pinned(f, key, shown[..n][m]) && shown[..n][m].saved.value == p;
            assert shown[m] == shown[..n][m];
          } else {
            assert Pinned(f, key, shown[n]) && shown[n].saved.value == p;
          }
        }
      }
      assert forall m :: 0 <= m < n && Pinned(f, key, shown[m]) ==> shown[m].saved.value in points by {
        forall m | 0 <= m < n && Pinned(f, key, shown[m])
          ensures shown[m].saved.value in points
        {
          assert shown[..n][m] == shown[m];
        }
      }
      points
  }

  const FOOT := 120.0

  /** Place the shown cards one by one and grow the box to hold them. `spare` is the room
      kept for an expand or collapse control. */
  method FillFrame(f: Frame, key: GroupKey, shown: seq<Device>, spare: real, minHeight: real)
    returns (placed: seq<Point>, height: real)
    requires Roomy(f) && spare >= 0.0
    ensures |placed| == |shown|
    ensures forall i :: 0 <= i < |shown| ==> PlacedByRule(f, key, shown, placed, i)
    ensures forall i :: 0 <= i < |shown| ==> placed[i].y - f.y + FOOT + spare <= height
    ensures height >= minHeight
    ensures height == minHeight || exists i :: 0 <= i < |shown| && height == placed[i].y - f.y + FOOT + spare
  {
    placed, height := [], minHeight;
    var used := PinnedPoints(f, key, shown);
    assert UsedIsStanding(f, key, shown, placed, used);
    hide Roomy, SlotAt, Clash, Pinned, PlacedByRule, UsedIsStanding;
    var slot := 0;
    while |placed| < |shown|
      invariant |placed| <= |shown|
      invariant UsedIsStanding(f, key, shown, placed, used)
      invariant forall k: nat :: k < slot ==> Clash(SlotAt(f, k), used)
      invariant forall i :: 0 <= i < |placed| ==> PlacedByRule(f, key, shown, placed, i)
      invariant forall i :: 0 <= i < |placed| ==> placed[i].y - f.y + FOOT + spare <= height
      invariant height >= minHeight
      invariant height == minHeight || exists i :: 0 <= i < |placed| && height == placed[i].y - f.y + FOOT + spare
    {
      var i := |placed|;
      ghost var before := placed;
      var p: Point;
      if Pinned(f, key, shown[i]) {
        PinnedIsSaved(f, key, shown[i]);
        p := shown[i].saved.value;
        PinnedStep(f, key, shown, before, used, p);
      } else {
        slot := FindSlot(f, used, slot);
        p := SlotAt(f, slot);
        AutoStep(f, key, shown, before, used, slot);
        ClashesGrow(f, used, slot);
        used := used + [p];
        slot := slot + 1;
      }
      placed := placed + [p];
      height := MaxReal(height, p.y - f.y + FOOT + spare);
      assert placed[i] == p;
      assert forall m :: 0 <= m < i ==> placed[m] == before[m];
    }
  }

  lemma PinnedIsSaved(f: Frame, key: GroupKey, d: Device)
    requires Pinned(f, key, d)
    ensures d.saved.Some?
  {
  }

  lemma ClashesGrow(f: Frame, used: seq<Point>, slot: nat)
    requires Roomy(f) && forall k: nat :: k < slot ==> Clash(SlotAt(f, k), used)
    ensures forall k: nat :: k < slot + 1 ==> Clash(SlotAt(f, k), used + [SlotAt(f, slot)])
  {
    var p := SlotAt(f, slot);
    assert Near(p, p) && p in used + [p];
    hide SlotAt, Near;
  }

  lemma RuleIsStable(f: Frame, key: GroupKey, shown: seq<Device>, placed: seq<Point>, p: Point, i: nat)
    requires Roomy(f) && i < |placed| < |shown|
    requires PlacedByRule(f, key, shown, placed, i)
    ensures PlacedByRule(f, key, shown, placed + [p], i)
  {
    if !Pinned(f, key, shown[i]) {
      var slot: nat :| FirstFreeSlot(f, key, shown, placed, i, slot);
      SameStanding(f, key, shown, placed, p, i);
      SameBlocking(f, key, shown, placed, placed + [p], i);
      assert FirstFreeSlot(f, key, shown, placed + [p], i, slot);
    }
  }

  lemma SameStanding(f: Frame, key: GroupKey, shown: seq<Device>, placed: seq<Point>, p: Point, i: nat)
    requires i <= |placed| < |shown|
    ensures forall q :: Standing(f, key, shown, placed, i, q) <==> Standing(f, key, shown, placed + [p], i, q)
  {
    assert forall m :: 0 <= m < i ==> (placed + [p])[m] == placed[m];
  }

  lemma SameBlocking(f: Frame, key: GroupKey, shown: seq<Device>, a: seq<Point>, b: seq<Point>, i: nat)
    requires Roomy(f) && i <= |a| <= |shown| && i <= |b| <= |shown|
    requires forall q :: Standing(f, key, shown, a, i, q) <==> Standing(f, key, shown, b, i, q)
    ensures forall k: nat :: Blocked(f, key, shown, a, i, k) <==> Blocked(f, key, shown, b, i, k)
  {
  }

  lemma ClashIsBlocking(f: Frame, key: GroupKey, shown: seq<Device>, placed: seq<Point>, used: seq<Point>, i: nat)
    requires Roomy(f) && i <= |placed| <= |shown|
    requires forall p :: p in used <==> Standing(f, key, shown, placed, i, p)
    ensures forall k: nat :: Clash(SlotAt(f, k), used) <==> Blocked(f, key, shown, placed, i, k)
  {
  }

  lemma AutoStep(f: Frame, key: GroupKey, shown: seq<Device>, placed: seq<Point>, used: seq<Point>, slot: nat)
    requires Roomy(f) && |placed| < |shown| && !Pinned(f, key, shown[|placed|])
    requires UsedIsStanding(f, key, shown, placed, used)
    requires !Clash(SlotAt(f, slot), used)
    requires forall k: nat :: k < slot ==> Clash(SlotAt(f, k), used)
    requires forall i :: 0 <= i < |placed| ==> PlacedByRule(f, key, shown, placed, i)
    ensures var longer := placed + [SlotAt(f, slot)];
            && (forall i :: 0 <= i < |longer| ==> PlacedByRule(f, key, shown, longer, i))
            && UsedIsStanding(f, key, shown, longer, used + [SlotAt(f, slot)])
  {
    var p, n := SlotAt(f, slot), |placed|;
    var longer := placed + [p];
    forall i | 0 <= i < n
      ensures PlacedByRule(f, key, shown, longer, i)
    {
      RuleIsStable(f, key, shown, placed, p, i);
    }
    SameStanding(f, key, shown, placed, p, n);
    ClashIsBlocking(f, key, shown, longer, used, n);
    assert FirstFreeSlot(f, key, shown, longer, n, slot);
    StandingGrows(f, key, shown, placed, p);
  }

  lemma StandingGrows(f: Frame, key: GroupKey, shown: seq<Device>, placed: seq<Point>, p: Point)
    requires |placed| < |shown|
    ensures forall q :: Standing(f, key, shown, placed + [p], |placed| + 1, q) <==>
              Standing(f, key, shown, placed, |placed|, q) || q == p
  {
    forall q
      ensures Standing(f, key, shown, placed + [p], |placed| + 1, q) <==>
              Standing(f, key, shown, placed, |placed|, q) || q == p
    {
      PlacedGrows(placed, p, q);
    }
  }

  lemma PlacedGrows(placed: seq<Point>, p: Point, q: Point)
    ensures (exists m :: 0 <= m < |placed| + 1 && (placed + [p])[m] == q) <==>
            (exists m :: 0 <= m < |placed| && placed[m] == q) || q == p
  {
    var longer, n := placed + [p], |placed|;
    assert longer[n] == p;
    if exists m :: 0 <= m < n && placed[m] == q {
      var m :| 0 <= m < n && placed[m] == q;
      assert longer[m] == q;
    }
    if exists m :: 0 <= m < n + 1 && longer[m] == q {
      var m :| 0 <= m < n + 1 && longer[m] == q;
      assert m == n || placed[m] == q;
    }
  }

  lemma PinnedStep(f: Frame, key: GroupKey, shown: seq<Device>, placed: seq<Point>, used: seq<Point>, p: Point)
    requires Roomy(f) && |placed| < |shown| && Pinned(f, key, shown[|placed|])
    requires p == shown[|placed|].saved.value
    requires UsedIsStanding(f, key, shown, placed, used)
    requires forall i :: 0 <= i < |placed| ==> PlacedByRule(f, key, shown, placed, i)
    ensures forall i :: 0 <= i < |placed| + 1 ==> PlacedByRule(f, key, shown, placed + [p], i)
    ensures UsedIsStanding(f, key, shown, placed + [p], used)
  {
    forall i | 0 <= i < |placed|
      ensures PlacedByRule(f, key, shown, placed + [p], i)
    {
      RuleIsStable(f, key, shown, placed, p, i);
    }
    StandingGrows(f, key, shown, placed, p);
  }

  /** What the rule buys: cards stay in the frame, and two cards come near each other
      only when the user pinned both. */
  lemma RuleKeepsCardsApart(f: Frame, key: GroupKey, shown: seq<Device>, placed: seq<Point>, i: nat, j: nat)
    requires Roomy(f) && i < j < |placed| == |shown|
    requires PlacedByRule(f, key, shown, placed, i) && PlacedByRule(f, key, shown, placed, j)
    ensures Apart(Card(placed[i]), Card(placed[j])) || (Pinned(f, key, shown[i]) && Pinned(f, key, shown[j]))
  {
    if !Pinned(f, key, shown[j]) {
      assert Standing(f, key, shown, placed, j, placed[i]);
      AutoClearsStanding(f, key, shown, placed, j, placed[i]);
    } else if !Pinned(f, key, shown[i]) {
      assert Standing(f, key, shown, placed, i, placed[j]);
      AutoClearsStanding(f, key, shown, placed, i, placed[j]);
    }
  }

  lemma AutoClearsStanding(f: Frame, key: GroupKey, shown: seq<Device>, placed: seq<Point>, i: nat, p: Point)
    requires Roomy(f) && i < |placed| <= |shown| && !Pinned(f, key, shown[i])
    requires PlacedByRule(f, key, shown, placed, i)
    requires Standing(f, key, shown, placed, i, p)
    ensures Apart(Card(placed[i]), Card(p)) && Apart(Card(p), Card(placed[i]))
  {
  }

  lemma RuleKeepsCardsInside(f: Frame, key: GroupKey, shown: seq<Device>, placed: seq<Point>, i: nat)
    requires Roomy(f) && i < |placed| == |shown|
    requires PlacedByRule(f, key, shown, placed, i)
    ensures f.x <= placed[i].x && placed[i].x + 210.0 <= f.x + f.w && PinTop(f) <= placed[i].y
  {
  }
}
