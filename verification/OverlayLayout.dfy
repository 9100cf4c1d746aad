/** An accepted move keeps the order of the items, the gaps between them and the fit of the canvas. */
module OverlayLayout {
  import opened Options
  import opened JsonValues
  import opened JsonPaths
  import opened OverlayKnobs
  import opened OverlayMoves
  import opened OverlayFit
  import opened OverlayChanges

  /** How many lines each item of a sequence takes. */
  type Heights = nat -> int

  predicate IsItem(tree: Json, place: Place, i: nat) {
    LineAt(tree, (place.0, place.1, i)).Some?
  }

  function LineOf(tree: Json, place: Place, i: nat): int
    requires IsItem(tree, place, i)
  {
    LineAt(tree, (place.0, place.1, i)).value
  }

  /** The items take at least a line each and do not overlap. */
  ghost predicate Disjoint(tree: Json, place: Place, height: Heights) {
    && (forall i: nat | IsItem(tree, place, i) :: height(i) >= 1)
    && forall i: nat, j: nat | IsItem(tree, place, i) && IsItem(tree, place, j) && i != j ::
         LineOf(tree, place, i) + height(i) <= LineOf(tree, place, j)
             || LineOf(tree, place, j) + height(j) <= LineOf(tree, place, i)
  }

  /** The second item is the next one below the first. */
  ghost predicate Follows(tree: Json, place: Place, i: nat, j: nat) {
    && IsItem(tree, place, i) && IsItem(tree, place, j) && LineOf(tree, place, i) < LineOf(tree, place, j)
    && forall k: nat | IsItem(tree, place, k) ::
         LineOf(tree, place, k) <= LineOf(tree, place, i) || LineOf(tree, place, k) >= LineOf(tree, place, j)
  }

  predicate MovesItem(seat: Seat, place: Place, i: nat) {
    seat.rendering == place.0 && seat.operation == place.1 && seat.item == i
  }

  /** How much the moves change an item's own height. */
  function GrowthOf(moves: seq<Move>, place: Place, i: nat): int {
    if moves == [] then 0
    else
      var last := moves[|moves| - 1];
      GrowthOf(moves[..|moves| - 1], place, i) + if MovesItem(last.seat, place, i) then last.delta else 0
  }

  /** The next item moves as far as this one, and by what this one grows. */
  lemma {:induction false} NextShifts(root: Json, extentOf: Extent, moves: seq<Move>, place: Place, height: Heights,
                                      i: nat, j: nat)
    requires LayoutAt(root, extentOf, place.0, place.1).Some? && Disjoint(root, place, height)
    requires Follows(root, place, i, j)
    requires forall k | 0 <= k < |moves| :: IsSeat(root, moves[k].seat)
    ensures ShiftOf(root, extentOf, moves, (place.0, place.1, j)) ==
            ShiftOf(root, extentOf, moves, (place.0, place.1, i)) + GrowthOf(moves, place, i)
  {
    if moves != [] {
      var n := |moves| - 1;
      NextShifts(root, extentOf, moves[..n], place, height, i, j);
      OneShifts(root, extentOf, moves[n], place, height, i, j);
    }
  }

  lemma {:induction false} OneShifts(root: Json, extentOf: Extent, move: Move, place: Place, height: Heights, i: nat,
                                     j: nat)
    requires LayoutAt(root, extentOf, place.0, place.1).Some? && Disjoint(root, place, height)
    requires Follows(root, place, i, j)
    requires IsSeat(root, move.seat)
    ensures Pushes(root, extentOf, move.seat, (place.0, place.1, j)) <==>
            Pushes(root, extentOf, move.seat, (place.0, place.1, i)) || MovesItem(move.seat, place, i)
    ensures !(Pushes(root, extentOf, move.seat, (place.0, place.1, i)) && MovesItem(move.seat, place, i))
  {
    hide LayoutAt, LinePath, SeatPath;
    if move.seat.rendering == place.0 && move.seat.operation == place.1 {
      assert IsItem(root, place, move.seat.item) && LineOf(root, place, move.seat.item) == move.seat.line;
    }
  }

  /** Gaps between neighbouring items do not change. */
  lemma {:induction false} GapKept(root: Json, extentOf: Extent, moves: seq<Move>, place: Place, height: Heights,
                                   tree: Json, i: nat, j: nat)
    requires LayoutAt(root, extentOf, place.0, place.1).Some? && Disjoint(root, place, height)
    requires Follows(root, place, i, j)
    requires AreMoves(root, moves) && forall key: Key :: LineAt(tree, key) == ShiftedLine(root, extentOf, moves, key)
    ensures IsItem(tree, place, i) && IsItem(tree, place, j)
    ensures LineOf(tree, place, j) - (LineOf(tree, place, i) + height(i) + GrowthOf(moves, place, i)) ==
            LineOf(root, place, j) - (LineOf(root, place, i) + height(i))
  {
    hide LineAt, LayoutAt, GrowthOf, ShiftOf, Disjoint, Follows;
    NextShifts(root, extentOf, moves, place, height, i, j);
    BothItems(root, place, i, j);
  }

  lemma BothItems(root: Json, place: Place, i: nat, j: nat)
    requires Follows(root, place, i, j)
    ensures IsItem(root, place, i) && IsItem(root, place, j)
  {
  }

  /** Every item but the first has one right above it. */
  lemma {:induction false} LastAbove(root: Json, place: Place, height: Heights, i: nat, j: nat, count: nat)
    returns (k: nat)
    requires Disjoint(root, place, height) && IsItem(root, place, i) && IsItem(root, place, j)
    requires LineOf(root, place, i) < LineOf(root, place, j)
    requires forall m: nat | IsItem(root, place, m) :: m < count
    ensures Follows(root, place, k, j) && LineOf(root, place, i) <= LineOf(root, place, k)
  {
    hide LineAt;
    k := i;
    var n: nat := 0;
    while n < count
      invariant n <= count && IsItem(root, place, k)
      invariant LineOf(root, place, i) <= LineOf(root, place, k) < LineOf(root, place, j)
      invariant forall m: nat | IsItem(root, place, m) && m < n ::
                  LineOf(root, place, m) <= LineOf(root, place, k) || LineOf(root, place, m) >= LineOf(root, place, j)
    {
      if IsItem(root, place, n) && LineOf(root, place, k) < LineOf(root, place, n) < LineOf(root, place, j) {
        k := n;
      }
      n := n + 1;
    }
  }

  /** Items keep their order and stay apart, whatever lies between them. */
  lemma {:induction false} OrderKept(root: Json, extentOf: Extent, moves: seq<Move>, place: Place, height: Heights,
                                     tree: Json, i: nat, j: nat)
    requires LayoutAt(root, extentOf, place.0, place.1).Some? && Disjoint(root, place, height) && AreMoves(root, moves)
    requires forall key: Key :: LineAt(tree, key) == ShiftedLine(root, extentOf, moves, key)
    requires forall k: nat | IsItem(root, place, k) :: height(k) + GrowthOf(moves, place, k) >= 1
    requires IsItem(root, place, i) && IsItem(root, place, j) && LineOf(root, place, i) < LineOf(root, place, j)
    ensures IsItem(tree, place, i) && IsItem(tree, place, j)
    ensures LineOf(tree, place, i) + height(i) + GrowthOf(moves, place, i) <= LineOf(tree, place, j)
    decreases LineOf(root, place, j) - LineOf(root, place, i)
  {
    hide LineAt, LayoutAt, GrowthOf, ShiftOf, ItemCount;
    forall m: nat | IsItem(root, place, m) ensures m < ItemCount(root, place.0, place.1) {
      LineIsCounted(root, (place.0, place.1, m));
    }
    var k := LastAbove(root, place, height, i, j, ItemCount(root, place.0, place.1));
    GapKept(root, extentOf, moves, place, height, tree, k, j);
    if k != i {
      OrderKept(root, extentOf, moves, place, height, tree, i, k);
    }
  }

  function Grown(height: Heights, moves: seq<Move>, place: Place): Heights {
    (k: nat) => height(k) + GrowthOf(moves, place, k)
  }

  /** Moved items still take lines of their own. */
  lemma {:induction false} StaysDisjoint(root: Json, extentOf: Extent, moves: seq<Move>, place: Place,
                                         height: Heights, tree: Json)
    requires LayoutAt(root, extentOf, place.0, place.1).Some? && Disjoint(root, place, height) && AreMoves(root, moves)
    requires forall key: Key :: LineAt(tree, key) == ShiftedLine(root, extentOf, moves, key)
    requires forall k: nat | IsItem(root, place, k) :: height(k) + GrowthOf(moves, place, k) >= 1
    ensures Disjoint(tree, place, Grown(height, moves, place))
  {
    hide LineAt, LayoutAt, GrowthOf, ShiftOf;
    var grown := Grown(height, moves, place);
    forall i: nat | IsItem(tree, place, i) ensures IsItem(root, place, i) {
      assert LineAt(tree, (place.0, place.1, i)) == ShiftedLine(root, extentOf, moves, (place.0, place.1, i));
    }
    forall i: nat, j: nat | IsItem(tree, place, i) && IsItem(tree, place, j) && i != j
      ensures LineOf(tree, place, i) + grown(i) <= LineOf(tree, place, j)
                || LineOf(tree, place, j) + grown(j) <= LineOf(tree, place, i) {
      if LineOf(root, place, i) < LineOf(root, place, j) {
        OrderKept(root, extentOf, moves, place, height, tree, i, j);
      } else {
        OrderKept(root, extentOf, moves, place, height, tree, j, i);
      }
    }
  }

  /** The extent of the moved generator rendered with 8192 lines more than it had, or than one. */
  predicate MeasuredOnSpareCanvas(moved: Json, extentOf: Extent, place: Place, canvas: int, extent: Option<int>) {
    var gen := Get(moved, SequencePath(place.0, place.1));
    if gen.None? || !gen.value.Object? then extent.None?
    else extent == extentOf(Object(gen.value.fields["lines" := Int(if canvas > 1 then canvas + 8192 else 8193)]))
  }

  lemma MeasuresOnSpareCanvas(moved: Json, extentOf: Extent, place: Place, canvas: int)
    ensures MeasuredOnSpareCanvas(moved, extentOf, place, canvas, MovedExtent(moved, extentOf, place, canvas))
  {
  }

  /** The fitted canvas holds what was moved; an exact canvas stays exact, and kept slack stays the same. */
  lemma {:induction false} CanvasHolds(root: Json, extentOf: Extent, moves: seq<Move>, keepSlack: bool, moved: Json,
                                       tree: Json, place: Place)
    requires Touched(root, extentOf, moves, place.0, place.1) && MovedTo(root, extentOf, moves, keepSlack, moved, tree)
    ensures
      var layout := LayoutAt(root, extentOf, place.0, place.1).value;
      var canvas, extent := CanvasAt(tree, place.0, place.1), MovedExtent(moved, extentOf, place, layout.canvas);
      && MeasuredOnSpareCanvas(moved, extentOf, place, layout.canvas, extent)
      && canvas.Some? && extent.Some? && canvas.value >= extent.value && canvas.value >= 1
      && (layout.canvas == layout.extent ==> canvas.value == extent.value)
      && (!keepSlack && layout.canvas != layout.extent ==> canvas.value == Larger(layout.canvas, extent.value))
      && (keepSlack ==> canvas.value - extent.value == layout.canvas - layout.extent)
  {
    hide LineAt, CanvasAt, LayoutAt, ShiftOf, SeatPath, MovedExtent, Written, MeasuredOnSpareCanvas;
    assert IsFitted(root, moved, tree, extentOf, keepSlack, place);
    MeasuresOnSpareCanvas(moved, extentOf, place, LayoutAt(root, extentOf, place.0, place.1).value.canvas);
  }

  // ---- Extents ----------------------------------------------------------------------------------

  /** How much the moves grow the sequence. */
  function Total(moves: seq<Move>, place: Place): int {
    if moves == [] then 0
    else
      var last := moves[|moves| - 1];
      Total(moves[..|moves| - 1], place)
      + if last.seat.rendering == place.0 && last.seat.operation == place.1 then last.delta else 0
  }

  /** The last line an item takes. */
  function LastLine(tree: Json, place: Place, height: Heights, i: nat): int
    requires IsItem(tree, place, i)
  {
    LineOf(tree, place, i) + height(i) - 1
  }

  ghost predicate IsBottom(tree: Json, place: Place, b: nat) {
    IsItem(tree, place, b) && forall i: nat | IsItem(tree, place, i) :: LineOf(tree, place, i) <= LineOf(tree, place, b)
  }

  /** The extent is the last line any item takes. */
  ghost predicate Reaches(tree: Json, place: Place, height: Heights, extent: int) {
    && (exists b: nat :: IsItem(tree, place, b) && LastLine(tree, place, height, b) == extent)
    && forall i: nat | IsItem(tree, place, i) :: LastLine(tree, place, height, i) <= extent
  }

  /** Every move of the sequence pushes the bottom item or grows it. */
  lemma {:induction false} BottomShifts(root: Json, extentOf: Extent, moves: seq<Move>, place: Place, height: Heights,
                                        b: nat)
    requires LayoutAt(root, extentOf, place.0, place.1).Some? && Disjoint(root, place, height)
    requires IsBottom(root, place, b)
    requires forall k | 0 <= k < |moves| :: IsSeat(root, moves[k].seat)
    ensures ShiftOf(root, extentOf, moves, (place.0, place.1, b)) + GrowthOf(moves, place, b) == Total(moves, place)
  {
    hide LayoutAt, LinePath, SeatPath;
    if moves != [] {
      var n := |moves| - 1;
      BottomShifts(root, extentOf, moves[..n], place, height, b);
      var seat := moves[n].seat;
      if seat.rendering == place.0 && seat.operation == place.1 {
        assert IsItem(root, place, seat.item) && LineOf(root, place, seat.item) == seat.line;
      }
    }
  }

  /** The last line moves by exactly what the moves add up to. */
  lemma {:induction false} ExtentMoves(root: Json, extentOf: Extent, moves: seq<Move>, place: Place, height: Heights,
                                       tree: Json, extent: int)
    requires LayoutAt(root, extentOf, place.0, place.1).Some? && Disjoint(root, place, height) && AreMoves(root, moves)
    requires forall key: Key :: LineAt(tree, key) == ShiftedLine(root, extentOf, moves, key)
    requires forall k: nat | IsItem(root, place, k) :: height(k) + GrowthOf(moves, place, k) >= 1
    requires Reaches(root, place, height, extent)
    ensures Reaches(tree, place, Grown(height, moves, place), extent + Total(moves, place))
  {
    hide LineAt, LayoutAt, GrowthOf, ShiftOf, IsSeat, SamePlace, Total;
    var grown := Grown(height, moves, place);
    var b: nat :| IsItem(root, place, b) && LastLine(root, place, height, b) == extent;
    forall i: nat | IsItem(root, place, i) ensures LineOf(root, place, i) <= LineOf(root, place, b) {
      assert LastLine(root, place, height, i) <= extent;
    }
    BottomShifts(root, extentOf, moves, place, height, b);
    assert LineAt(tree, (place.0, place.1, b)) == ShiftedLine(root, extentOf, moves, (place.0, place.1, b));
    assert LastLine(tree, place, grown, b) == extent + Total(moves, place);
    forall i: nat | IsItem(tree, place, i) ensures LastLine(tree, place, grown, i) <= LastLine(tree, place, grown, b) {
      assert LineAt(tree, (place.0, place.1, i)) == ShiftedLine(root, extentOf, moves, (place.0, place.1, i));
      if i != b {
        OrderKept(root, extentOf, moves, place, height, tree, i, b);
      }
    }
  }

  lemma {:induction false} ReachesOnce(tree: Json, place: Place, height: Heights, extent: int, other: int)
    requires Reaches(tree, place, height, extent) && Reaches(tree, place, height, other)
    ensures extent == other
  {
    hide IsItem;
    var b: nat :| IsItem(tree, place, b) && LastLine(tree, place, height, b) == extent;
    var c: nat :| IsItem(tree, place, c) && LastLine(tree, place, height, c) == other;
    assert LastLine(tree, place, height, b) <= other && LastLine(tree, place, height, c) <= extent;
  }

  lemma {:induction false} SameReach(moved: Json, tree: Json, place: Place, height: Heights, extent: int)
    requires forall key: Key :: LineAt(tree, key) == LineAt(moved, key)
    requires Reaches(moved, place, height, extent)
    ensures Reaches(tree, place, height, extent)
  {
    hide LineAt;
    assert forall i: nat :: IsItem(tree, place, i) <==> IsItem(moved, place, i);
    assert forall i: nat | IsItem(tree, place, i) :: LineOf(tree, place, i) == LineOf(moved, place, i);
    var b: nat :| IsItem(moved, place, b) && LastLine(moved, place, height, b) == extent;
    assert LastLine(tree, place, height, b) == extent;
    forall i: nat | IsItem(tree, place, i) ensures LastLine(tree, place, height, i) <= extent {
      assert LastLine(tree, place, height, i) == LastLine(moved, place, height, i);
    }
  }

  // ---- The whole layout -------------------------------------------------------------------------

  /** The saved layout: items on positive lines, apart, and the saved extent their last line. */
  ghost predicate LaysOut(root: Json, extentOf: Extent, place: Place, height: Heights) {
    && LayoutAt(root, extentOf, place.0, place.1).Some? && Disjoint(root, place, height)
    && (forall i: nat | IsItem(root, place, i) :: LineOf(root, place, i) >= 1)
    && Reaches(root, place, height, LayoutAt(root, extentOf, place.0, place.1).value.extent)
  }

  /** The same items in the same order. */
  ghost predicate SameItems(root: Json, tree: Json, place: Place) {
    && (forall i: nat :: IsItem(tree, place, i) <==> IsItem(root, place, i))
    && forall i: nat, j: nat | IsItem(root, place, i) && IsItem(root, place, j) ::
         LineOf(tree, place, i) < LineOf(tree, place, j) <==> LineOf(root, place, i) < LineOf(root, place, j)
  }

  /** The same gap between each item and the next one below. */
  ghost predicate SameGaps(root: Json, tree: Json, place: Place, height: Heights, grown: Heights) {
    forall i: nat, j: nat | Follows(root, place, i, j) && IsItem(tree, place, i) && IsItem(tree, place, j) ::
      LineOf(tree, place, j) - LastLine(tree, place, grown, i) ==
          LineOf(root, place, j) - LastLine(root, place, height, i)
  }

  /** Every item on positive lines, within the canvas. */
  ghost predicate Inside(tree: Json, place: Place, height: Heights, canvas: int) {
    forall i: nat | IsItem(tree, place, i) :: 1 <= LineOf(tree, place, i) <= LastLine(tree, place, height, i) <= canvas
  }

  lemma {:induction false} ItemsKept(root: Json, extentOf: Extent, moves: seq<Move>, place: Place, tree: Json, i: nat)
    requires forall key: Key :: LineAt(tree, key) == ShiftedLine(root, extentOf, moves, key)
    ensures IsItem(tree, place, i) <==> IsItem(root, place, i)
    ensures IsItem(root, place, i) && LineOf(root, place, i) >= 1 && !LineDrops(root, extentOf, moves) ==>
              LineOf(tree, place, i) >= 1
  {
    hide LineAt, ShiftOf;
    assert LineAt(tree, (place.0, place.1, i)) == ShiftedLine(root, extentOf, moves, (place.0, place.1, i));
  }

  lemma {:induction false} SameOrder(root: Json, extentOf: Extent, moves: seq<Move>, place: Place, height: Heights,
                                     tree: Json, i: nat, j: nat)
    requires LayoutAt(root, extentOf, place.0, place.1).Some? && Disjoint(root, place, height) && AreMoves(root, moves)
    requires forall key: Key :: LineAt(tree, key) == ShiftedLine(root, extentOf, moves, key)
    requires forall k: nat | IsItem(root, place, k) :: height(k) + GrowthOf(moves, place, k) >= 1
    requires IsItem(root, place, i) && IsItem(root, place, j)
    ensures IsItem(tree, place, i) && IsItem(tree, place, j)
    ensures LineOf(tree, place, i) < LineOf(tree, place, j) <==> LineOf(root, place, i) < LineOf(root, place, j)
  {
    hide LineAt, LayoutAt, GrowthOf, ShiftOf, AreMoves, Disjoint;
    ItemsKept(root, extentOf, moves, place, tree, i);
    ItemsKept(root, extentOf, moves, place, tree, j);
    if LineOf(root, place, i) < LineOf(root, place, j) {
      OrderKept(root, extentOf, moves, place, height, tree, i, j);
    } else if LineOf(root, place, j) < LineOf(root, place, i) {
      OrderKept(root, extentOf, moves, place, height, tree, j, i);
    } else {
      LinesDiffer(root, place, height, i, j);
    }
  }

  lemma LinesDiffer(root: Json, place: Place, height: Heights, i: nat, j: nat)
    requires Disjoint(root, place, height) && IsItem(root, place, i) && IsItem(root, place, j)
    ensures LineOf(root, place, i) == LineOf(root, place, j) ==> i == j
  {
  }

  lemma {:induction false} ItemsStay(root: Json, extentOf: Extent, moves: seq<Move>, place: Place, height: Heights,
                                     tree: Json)
    requires LayoutAt(root, extentOf, place.0, place.1).Some? && Disjoint(root, place, height) && AreMoves(root, moves)
    requires forall key: Key :: LineAt(tree, key) == ShiftedLine(root, extentOf, moves, key)
    requires forall k: nat | IsItem(root, place, k) :: height(k) + GrowthOf(moves, place, k) >= 1
    ensures SameItems(root, tree, place)
  {
    hide LineAt, LayoutAt, GrowthOf, ShiftOf, AreMoves, Disjoint, LineOf, IsItem, LineDrops;
    forall i: nat ensures IsItem(tree, place, i) <==> IsItem(root, place, i) {
      ItemsKept(root, extentOf, moves, place, tree, i);
    }
    forall i: nat, j: nat | IsItem(root, place, i) && IsItem(root, place, j)
      ensures LineOf(tree, place, i) < LineOf(tree, place, j) <==> LineOf(root, place, i) < LineOf(root, place, j) {
      SameOrder(root, extentOf, moves, place, height, tree, i, j);
    }
  }

  lemma {:induction false} GapsStay(root: Json, extentOf: Extent, moves: seq<Move>, place: Place, height: Heights,
                                    tree: Json)
    requires LayoutAt(root, extentOf, place.0, place.1).Some? && Disjoint(root, place, height) && AreMoves(root, moves)
    requires forall key: Key :: LineAt(tree, key) == ShiftedLine(root, extentOf, moves, key)
    ensures SameGaps(root, tree, place, height, Grown(height, moves, place))
  {
    hide LineAt, LayoutAt, GrowthOf, ShiftOf, AreMoves, Disjoint, IsItem, LineOf;
    var grown := Grown(height, moves, place);
    forall i: nat, j: nat | Follows(root, place, i, j) && IsItem(tree, place, i) && IsItem(tree, place, j)
      ensures LineOf(tree, place, j) - LastLine(tree, place, grown, i) ==
                LineOf(root, place, j) - LastLine(root, place, height, i) {
      GapKept(root, extentOf, moves, place, height, tree, i, j);
    }
  }

  /** No line of an accepted move drops below one, and no item ends below the extent. */
  lemma {:induction false} StaysInside(root: Json, extentOf: Extent, moves: seq<Move>, place: Place, height: Heights,
                                       tree: Json, extent: int, canvas: int)
    requires !LineDrops(root, extentOf, moves)
    requires forall key: Key :: LineAt(tree, key) == ShiftedLine(root, extentOf, moves, key)
    requires forall i: nat | IsItem(root, place, i) :: LineOf(root, place, i) >= 1
    requires forall k: nat | IsItem(root, place, k) :: height(k) + GrowthOf(moves, place, k) >= 1
    requires Reaches(tree, place, Grown(height, moves, place), extent) && extent <= canvas
    ensures Inside(tree, place, Grown(height, moves, place), canvas)
  {
    hide LineAt, GrowthOf, ShiftOf, LineDrops, IsItem, LineOf;
    var grown := Grown(height, moves, place);
    forall i: nat | IsItem(tree, place, i)
      ensures 1 <= LineOf(tree, place, i) <= LastLine(tree, place, grown, i) <= canvas {
      ItemsKept(root, extentOf, moves, place, tree, i);
      assert LastLine(tree, place, grown, i) <= extent;
    }
  }

  /**
   An accepted move, when a rendered extent is the last line of any item: the items keep their order and
   gaps on positive lines, the extent grows by what the moves add up to, every item ends within the canvas,
   and a canvas that was exact, or whose slack is kept, grows by exactly as much.
   */
  lemma {:induction false} LayoutKept(root: Json, extentOf: Extent, moves: seq<Move>, keepSlack: bool, moved: Json,
                                      tree: Json, place: Place, height: Heights)
    requires AreMoves(root, moves) && !LineDrops(root, extentOf, moves)
    requires MovedTo(root, extentOf, moves, keepSlack, moved, tree)
    requires Touched(root, extentOf, moves, place.0, place.1) && LaysOut(root, extentOf, place, height)
    requires forall k: nat | IsItem(root, place, k) :: height(k) + GrowthOf(moves, place, k) >= 1
    requires
      var extent := MovedExtent(moved, extentOf, place, LayoutAt(root, extentOf, place.0, place.1).value.canvas);
      extent.Some? ==> Reaches(moved, place, Grown(height, moves, place), extent.value)
    ensures
      var layout, grown, canvas := LayoutAt(root, extentOf, place.0, place.1).value, Total(moves, place),
          CanvasAt(tree, place.0, place.1);
      && canvas.Some? && Inside(tree, place, Grown(height, moves, place), canvas.value)
      && Reaches(tree, place, Grown(height, moves, place), layout.extent + grown)
      && (layout.canvas == layout.extent || keepSlack ==> canvas.value == layout.canvas + grown)
      && (layout.canvas != layout.extent && !keepSlack ==> canvas.value == Larger(layout.canvas, layout.extent + grown))
    ensures SameItems(root, tree, place) && SameGaps(root, tree, place, height, Grown(height, moves, place))
    ensures Disjoint(tree, place, Grown(height, moves, place))
  {
    hide LineAt, CanvasAt, LayoutAt, GrowthOf, ShiftOf, SeatPath, SequencePath, MovedExtent, AreMoves, Total, LineDrops,
      Disjoint, SameItems, SameGaps, Inside, Reaches, Written, FittedCanvas;
    var layout, heights := LayoutAt(root, extentOf, place.0, place.1).value, Grown(height, moves, place);
    CanvasHolds(root, extentOf, moves, keepSlack, moved, tree, place);
    ExtentMoves(root, extentOf, moves, place, height, tree, layout.extent);
    SameReach(moved, tree, place, heights, MovedExtent(moved, extentOf, place, layout.canvas).value);
    ReachesOnce(tree, place, heights, layout.extent + Total(moves, place),
                MovedExtent(moved, extentOf, place, layout.canvas).value);
    StaysInside(root, extentOf, moves, place, height, tree, layout.extent + Total(moves, place),
                CanvasAt(tree, place.0, place.1).value);
    ItemsStay(root, extentOf, moves, place, height, tree);
    GapsStay(root, extentOf, moves, place, height, tree);
    StaysDisjoint(root, extentOf, moves, place, height, tree);
  }
}
