/** Fitting the canvas after a move, and the whole move (src/reprobit/classic_donor_retune_candidates.py). */
module OverlayFit {
  import opened Options
  import opened JsonValues
  import opened JsonPaths
  import opened OverlayKnobs
  import opened OverlayMoves
  import opened Sorting

  type Place = (nat, nat)

  // ---- Canvases -----------------------------------------------------------------------------

  function Larger(left: int, right: int): int {
    if left < right then right else left
  }

  /** A generator with another canvas. */
  function WithCanvas(gen: Json, canvas: int): Json {
    if gen.Object? then Object(gen.fields["lines" := Int(canvas)]) else gen
  }

  /** The extent the moved items need, measured on a canvas that cannot cut them off. */
  function MovedExtent(moved: Json, extentOf: Extent, place: Place, canvas: int): Option<int> {
    var gen := Get(moved, SequencePath(place.0, place.1));
    if gen.None? || !gen.value.Object? then None
    else extentOf(WithCanvas(gen.value, Larger(canvas, 1) + 8192))
  }

  /** The canvas for a moved extent. */
  function Fitted(layout: Layout, extent: int, keepSlack: bool): (canvas: Option<int>)
    ensures canvas.Some? ==> canvas.value >= extent && canvas.value >= 1
    ensures canvas.Some? && keepSlack ==> canvas.value - extent == layout.canvas - layout.extent
    ensures canvas.Some? && !keepSlack ==> canvas.value == extent || (canvas.value == layout.canvas != layout.extent)
    ensures canvas.None? <==> (keepSlack && layout.canvas < layout.extent)
                              || (if keepSlack then extent + layout.canvas - layout.extent
                                  else if layout.canvas == layout.extent then extent
                                      else Larger(layout.canvas, extent)) < 1
  {
    var canvas :=
      if keepSlack then extent + layout.canvas - layout.extent
      else if layout.canvas == layout.extent then extent else Larger(layout.canvas, extent);
    if (keepSlack && layout.canvas < layout.extent) || canvas < 1 then None else Some(canvas)
  }

  function FittedCanvas(root: Json, moved: Json, extentOf: Extent, keepSlack: bool, place: Place): Option<int> {
    var layout := LayoutAt(root, extentOf, place.0, place.1);
    if layout.None? then None
    else
      var extent := MovedExtent(moved, extentOf, place, layout.value.canvas);
      if extent.None? then None else Fitted(layout.value, extent.value, keepSlack)
  }

  function CanvasChange(place: Place, canvas: int, fitted: int): Change {
    Change(CanvasPath(place.0, place.1), Int(canvas), Int(fitted), Derived)
  }

  /** The change of one canvas; nothing when it keeps its size. */
  function CanvasChangeAt(root: Json, moved: Json, extentOf: Extent, keepSlack: bool, place: Place): seq<Change> {
    var layout, fitted := LayoutAt(root, extentOf, place.0, place.1),
        FittedCanvas(root, moved, extentOf, keepSlack, place);
    if layout.None? || fitted.None? || layout.value.canvas == fitted.value then []
    else [CanvasChange(place, layout.value.canvas, fitted.value)]
  }

  function CanvasChanges(root: Json, moved: Json, extentOf: Extent, keepSlack: bool, places: seq<Place>): seq<Change> {
    if places == [] then []
    else
      CanvasChanges(root, moved, extentOf, keepSlack, places[..|places| - 1])
      + CanvasChangeAt(root, moved, extentOf, keepSlack, places[|places| - 1])
  }

  predicate PlaceBefore(left: Place, right: Place) {
    left.0 < right.0 || (left.0 == right.0 && left.1 < right.1)
  }

  lemma PlaceBeforeIsOrder()
    ensures StrictOrder(PlaceBefore)
  {
  }

  /** The generator of a sequence is the moved one with the fitted canvas. */
  predicate IsFitted(root: Json, moved: Json, tree: Json, extentOf: Extent, keepSlack: bool, place: Place) {
    var gen, canvas := Get(moved, SequencePath(place.0, place.1)),
        FittedCanvas(root, moved, extentOf, keepSlack, place);
    gen.Some? && canvas.Some? && Get(tree, SequencePath(place.0, place.1)) == Some(WithCanvas(gen.value, canvas.value))
  }

  /** Only the canvases of the listed sequences differ, and they are fitted. */
  ghost predicate Fit(root: Json, moved: Json, tree: Json, extentOf: Extent, keepSlack: bool, places: seq<Place>) {
    && (forall place: Place :: CanvasAt(tree, place.0, place.1) ==
          if place in places then FittedCanvas(root, moved, extentOf, keepSlack, place)
              else CanvasAt(moved, place.0, place.1))
    && (forall place: Place | place in places :: IsFitted(root, moved, tree, extentOf, keepSlack, place))
    && (forall place: Place | place !in places ::
        Get(tree, SequencePath(place.0, place.1)) == Get(moved, SequencePath(place.0, place.1)))
    && (forall key: Key :: LineAt(tree, key) == LineAt(moved, key))
    && forall seat: Seat :: Get(tree, SeatPath(seat)) == Get(moved, SeatPath(seat))
  }

  lemma {:induction false} PutCanvasAside(tree: Json, place: Place, canvas: Json, path: Path)
    requires Get(tree, CanvasPath(place.0, place.1)).Some? && Parted(CanvasPath(place.0, place.1), path)
    ensures Get(Put(tree, CanvasPath(place.0, place.1), canvas), path) == Get(tree, path)
  {
    var from := CanvasPath(place.0, place.1);
    var k :| 0 <= k < |from| && k < |path| && from[k] != path[k];
    GetAside(tree, from, canvas, path, k);
  }

  lemma {:induction false} SequencesPart(place: Place, other: Place)
    requires place != other
    ensures Parted(CanvasPath(place.0, place.1), SequencePath(other.0, other.1))
  {
    PathShape(place.0, place.1, 0);
    PartedAt(CanvasPath(place.0, place.1), SequencePath(other.0, other.1), if place.0 != other.0 then 2 else 4);
  }

  lemma {:induction false} PartedBack(path: Path, other: Path)
    requires Parted(path, other)
    ensures Parted(other, path)
  {
    var k :| 0 <= k < |path| && k < |other| && path[k] != other[k];
    PartedAt(path, other, k);
  }

  /** The trees differ in the canvas of one sequence. */
  ghost predicate OnlyCanvas(tree: Json, changed: Json, place: Place, canvas: int) {
    && CanvasAt(changed, place.0, place.1) == Some(canvas)
    && Get(tree, SequencePath(place.0, place.1)).Some?
    && Get(changed, SequencePath(place.0, place.1)) ==
         Some(WithCanvas(Get(tree, SequencePath(place.0, place.1)).value, canvas))
    && (forall other: Place | other != place :: CanvasAt(changed, other.0, other.1) == CanvasAt(tree, other.0, other.1))
    && (forall other: Place | other != place ::
        Get(changed, SequencePath(other.0, other.1)) == Get(tree, SequencePath(other.0, other.1)))
    && (forall key: Key :: LineAt(changed, key) == LineAt(tree, key))
    && forall seat: Seat :: Get(changed, SeatPath(seat)) == Get(tree, SeatPath(seat))
  }

  /** Writing the canvas changes that field of the generator alone. */
  lemma {:induction false} PutsCanvas(tree: Json, place: Place, canvas: int)
    requires CanvasAt(tree, place.0, place.1).Some?
    ensures Get(tree, SequencePath(place.0, place.1)).Some?
    ensures Get(Put(tree, CanvasPath(place.0, place.1), Int(canvas)), SequencePath(place.0, place.1)) ==
            Some(WithCanvas(Get(tree, SequencePath(place.0, place.1)).value, canvas))
  {
    hide SequencePath;
    var path, rest := SequencePath(place.0, place.1), [Name("lines")];
    GetJoined(tree, path, rest);
    PutJoined(tree, path, rest, Int(canvas));
    assert rest[1..] == [];
  }

  /** Writing the canvas that is there changes nothing. */
  lemma {:induction false} CanvasIsThere(tree: Json, place: Place, canvas: int)
    requires CanvasAt(tree, place.0, place.1) == Some(canvas)
    ensures var gen := Get(tree, SequencePath(place.0, place.1));
            gen.Some? && WithCanvas(gen.value, canvas) == gen.value
  {
    hide SequencePath;
    var path, rest := SequencePath(place.0, place.1), [Name("lines")];
    GetJoined(tree, path, rest);
    assert rest[1..] == [];
    var gen := Get(tree, path).value;
    assert Child(gen, rest[0]) == Some(Int(canvas));
    assert gen.fields["lines" := Int(canvas)] == gen.fields;
  }

  lemma {:induction false} PutsOnlyCanvas(tree: Json, place: Place, canvas: int)
    requires CanvasAt(tree, place.0, place.1).Some?
    ensures OnlyCanvas(tree, Put(tree, CanvasPath(place.0, place.1), Int(canvas)), place, canvas)
  {
    hide CanvasPath, LinePath, SeatPath, SequencePath, Parted;
    var changed := Put(tree, CanvasPath(place.0, place.1), Int(canvas));
    PutsCanvas(tree, place, canvas);
    forall other: Place | other != place
      ensures CanvasAt(changed, other.0, other.1) == CanvasAt(tree, other.0, other.1)
      ensures Get(changed, SequencePath(other.0, other.1)) == Get(tree, SequencePath(other.0, other.1)) {
      CanvasesPart(place.0, place.1, other.0, other.1);
      PutCanvasAside(tree, place, Int(canvas), CanvasPath(other.0, other.1));
      SequencesPart(place, other);
      PutCanvasAside(tree, place, Int(canvas), SequencePath(other.0, other.1));
    }
    forall key: Key ensures LineAt(changed, key) == LineAt(tree, key) {
      CanvasPartsFromLine(key, place.0, place.1);
      PartedBack(LinePath(key.0, key.1, key.2), CanvasPath(place.0, place.1));
      PutCanvasAside(tree, place, Int(canvas), LinePath(key.0, key.1, key.2));
    }
    forall seat: Seat ensures Get(changed, SeatPath(seat)) == Get(tree, SeatPath(seat)) {
      CanvasPartsFromSeat(seat, place.0, place.1);
      PartedBack(SeatPath(seat), CanvasPath(place.0, place.1));
      PutCanvasAside(tree, place, Int(canvas), SeatPath(seat));
    }
  }

  lemma FitAt(root: Json, moved: Json, tree: Json, extentOf: Extent, keepSlack: bool, places: seq<Place>, place: Place)
    requires Fit(root, moved, tree, extentOf, keepSlack, places)
    ensures if place in places then IsFitted(root, moved, tree, extentOf, keepSlack, place)
            else Get(tree, SequencePath(place.0, place.1)) == Get(moved, SequencePath(place.0, place.1))
  {
  }

  lemma OnlyCanvasAt(tree: Json, changed: Json, place: Place, canvas: int, other: Place)
    requires OnlyCanvas(tree, changed, place, canvas)
    ensures
      var gen := Get(tree, SequencePath(other.0, other.1));
      if other == place then gen.Some?
          && Get(changed, SequencePath(other.0, other.1)) == Some(WithCanvas(gen.value, canvas))
      else Get(changed, SequencePath(other.0, other.1)) == gen
  {
  }

  lemma {:induction false} StaysFitted(root: Json, moved: Json, tree: Json, changed: Json, extentOf: Extent,
                                       keepSlack: bool, places: seq<Place>, place: Place)
    requires Fit(root, moved, tree, extentOf, keepSlack, places) && place !in places
    requires FittedCanvas(root, moved, extentOf, keepSlack, place).Some?
    requires OnlyCanvas(tree, changed, place, FittedCanvas(root, moved, extentOf, keepSlack, place).value)
    ensures forall other: Place | other in places + [place] ::
              IsFitted(root, moved, changed, extentOf, keepSlack, other)
  {
    hide FittedCanvas, SequencePath, WithCanvas, Fit, OnlyCanvas;
    forall other: Place | other in places + [place]
      ensures IsFitted(root, moved, changed, extentOf, keepSlack, other) {
      FitAt(root, moved, tree, extentOf, keepSlack, places, other);
      OnlyCanvasAt(tree, changed, place, FittedCanvas(root, moved, extentOf, keepSlack, place).value, other);
    }
  }

  /** Writing one fitted canvas. */
  lemma {:induction false} FitsOneMore(root: Json, moved: Json, tree: Json, changed: Json, extentOf: Extent,
                                       keepSlack: bool, places: seq<Place>, place: Place)
    requires Fit(root, moved, tree, extentOf, keepSlack, places)
    requires FittedCanvas(root, moved, extentOf, keepSlack, place).Some?
    requires place !in places
    requires OnlyCanvas(tree, changed, place, FittedCanvas(root, moved, extentOf, keepSlack, place).value)
    ensures Fit(root, moved, changed, extentOf, keepSlack, places + [place])
  {
    hide FittedCanvas, CanvasAt, LineAt, SeatPath, SequencePath, WithCanvas, IsFitted;
    StaysFitted(root, moved, tree, changed, extentOf, keepSlack, places, place);
  }

  lemma {:induction false} FitsAsIs(root: Json, moved: Json, tree: Json, extentOf: Extent, keepSlack: bool,
                                    places: seq<Place>, place: Place)
    requires Fit(root, moved, tree, extentOf, keepSlack, places) && place !in places
    requires FittedCanvas(root, moved, extentOf, keepSlack, place) == CanvasAt(moved, place.0, place.1) != None
    ensures Fit(root, moved, tree, extentOf, keepSlack, places + [place])
  {
    hide FittedCanvas, CanvasAt, LineAt, SeatPath, SequencePath, WithCanvas;
    CanvasIsThere(moved, place, CanvasAt(moved, place.0, place.1).value);
  }

  /** The state of the canvas loop after the listed sequences. */
  ghost predicate Fitting(root: Json, moved: Json, tree: Json, extentOf: Extent, keepSlack: bool, prior: seq<Change>,
                          changes: seq<Change>, places: seq<Place>) {
    && Fit(root, moved, tree, extentOf, keepSlack, places)
    && changes == prior + CanvasChanges(root, moved, extentOf, keepSlack, places) && Apply(root, changes) == Some(tree)
  }

  lemma FittingStarts(root: Json, moved: Json, extentOf: Extent, keepSlack: bool, prior: seq<Change>)
    requires Apply(root, prior) == Some(moved)
    ensures Fitting(root, moved, moved, extentOf, keepSlack, prior, prior, [])
  {
  }

  /** This sequence is next: not yet fitted, with a known layout. */
  ghost predicate Next(root: Json, moved: Json, extentOf: Extent, keepSlack: bool, places: seq<Place>, place: Place) {
    && place !in places && LayoutAt(root, extentOf, place.0, place.1).Some?
    && FittedCanvas(root, moved, extentOf, keepSlack, place).Some?
    && CanvasAt(moved, place.0, place.1) == CanvasAt(root, place.0, place.1)
  }

  lemma {:induction false} CanvasChangesGrow(root: Json, moved: Json, extentOf: Extent, keepSlack: bool,
                                             places: seq<Place>, place: Place)
    ensures CanvasChanges(root, moved, extentOf, keepSlack, places + [place]) ==
            CanvasChanges(root, moved, extentOf, keepSlack, places)
                + CanvasChangeAt(root, moved, extentOf, keepSlack, place)
  {
    hide CanvasChangeAt;
    assert (places + [place])[..|places|] == places;
  }

  lemma {:induction false} FittingPasses(root: Json, moved: Json, tree: Json, extentOf: Extent, keepSlack: bool,
                                         prior: seq<Change>, changes: seq<Change>, places: seq<Place>, place: Place)
    requires Fitting(root, moved, tree, extentOf, keepSlack, prior, changes, places)
    requires Next(root, moved, extentOf, keepSlack, places, place)
    requires LayoutAt(root, extentOf, place.0, place.1).value.canvas ==
               FittedCanvas(root, moved, extentOf, keepSlack, place).value
    ensures Fitting(root, moved, tree, extentOf, keepSlack, prior, changes, places + [place])
  {
    hide Fit, Apply, FittedCanvas, LayoutAt, CanvasPath, CanvasAt, CanvasChanges;
    StillThere(root, moved, tree, extentOf, keepSlack, places, place);
    CanvasChangesGrow(root, moved, extentOf, keepSlack, places, place);
    FitsAsIs(root, moved, tree, extentOf, keepSlack, places, place);
    assert CanvasChanges(root, moved, extentOf, keepSlack, places) + [] ==
        CanvasChanges(root, moved, extentOf, keepSlack, places);
  }

  lemma {:induction false} FittingWrites(root: Json, moved: Json, tree: Json, extentOf: Extent, keepSlack: bool,
                                         prior: seq<Change>, changes: seq<Change>, places: seq<Place>, place: Place)
    requires Fitting(root, moved, tree, extentOf, keepSlack, prior, changes, places)
    requires Next(root, moved, extentOf, keepSlack, places, place)
    requires LayoutAt(root, extentOf, place.0, place.1).value.canvas !=
               FittedCanvas(root, moved, extentOf, keepSlack, place).value
    ensures Get(tree, CanvasPath(place.0, place.1)).Some?
    ensures
      var canvas, fitted := LayoutAt(root, extentOf, place.0, place.1).value.canvas,
          FittedCanvas(root, moved, extentOf, keepSlack, place).value;
      Fitting(root, moved, Put(tree, CanvasPath(place.0, place.1), Int(fitted)), extentOf, keepSlack, prior,
              changes + [CanvasChange(place, canvas, fitted)], places + [place])
  {
    hide Fit, Apply, FittedCanvas, LayoutAt, CanvasPath, OnlyCanvas, CanvasChanges;
    var canvas, fitted := LayoutAt(root, extentOf, place.0, place.1).value.canvas,
        FittedCanvas(root, moved, extentOf, keepSlack, place).value;
    var change := CanvasChange(place, canvas, fitted);
    StillThere(root, moved, tree, extentOf, keepSlack, places, place);
    CanvasChangesGrow(root, moved, extentOf, keepSlack, places, place);
    PutsOnlyCanvas(tree, place, fitted);
    FitsOneMore(root, moved, tree, Put(tree, CanvasPath(place.0, place.1), Int(fitted)), extentOf, keepSlack, places,
                place);
    ApplyOneMore(root, changes, change);
    assert changes + [change] == prior + (CanvasChanges(root, moved, extentOf, keepSlack, places) + [change]);
  }

  /** The third loop: fit the canvas of every touched sequence. */
  method FitCanvases(root: Json, extentOf: Extent, moved: Json, prior: seq<Change>, touched: set<Place>,
                     keepSlack: bool)
    returns (tree: Json, changes: seq<Change>, ok: bool, ghost places: seq<Place>)
    requires Apply(root, prior) == Some(moved)
    requires forall place: Place :: CanvasAt(moved, place.0, place.1) == CanvasAt(root, place.0, place.1)
    requires forall place: Place | place in touched :: LayoutAt(root, extentOf, place.0, place.1).Some?
    ensures Ascending(places, PlaceBefore) && forall place: Place :: place in places <==> place in touched
    ensures ok <==>
              forall place: Place | place in touched :: FittedCanvas(root, moved, extentOf, keepSlack, place).Some?
    ensures ok ==> Fitting(root, moved, tree, extentOf, keepSlack, prior, changes, places)
  {
    hide Fitting, Apply, CanvasPath, SequencePath, FittedCanvas, LayoutAt, CanvasAt, StrictOrder;
    PlaceBeforeIsOrder();
    var list := Sorted(touched, PlaceBefore);
    places := list;
    tree, changes, ok := moved, prior, true;
    FittingStarts(root, moved, extentOf, keepSlack, prior);
    for i := 0 to |list|
      invariant Fitting(root, moved, tree, extentOf, keepSlack, prior, changes, list[..i])
      invariant forall k | 0 <= k < i :: FittedCanvas(root, moved, extentOf, keepSlack, list[k]).Some?
    {
      var place := list[i];
      assert list[..i + 1] == list[..i] + [place] && place !in list[..i] && place in touched;
      var canvas := LayoutAt(root, extentOf, place.0, place.1).value.canvas;
      FittingReads(root, moved, tree, extentOf, keepSlack, prior, changes, list[..i], place);
      var fitted := FittedCanvas(root, tree, extentOf, keepSlack, place);
      if fitted.None? {
        ok := false;
        return;
      }
      if fitted.value == canvas {
        FittingPasses(root, moved, tree, extentOf, keepSlack, prior, changes, list[..i], place);
      } else {
        FittingWrites(root, moved, tree, extentOf, keepSlack, prior, changes, list[..i], place);
        tree := Put(tree, CanvasPath(place.0, place.1), Int(fitted.value));
        changes := changes + [CanvasChange(place, canvas, fitted.value)];
      }
    }
    assert list[..|list|] == list;
  }

  lemma {:induction false} FittingReads(root: Json, moved: Json, tree: Json, extentOf: Extent, keepSlack: bool,
                                        prior: seq<Change>, changes: seq<Change>, places: seq<Place>, place: Place)
    requires Fitting(root, moved, tree, extentOf, keepSlack, prior, changes, places) && place !in places
    requires LayoutAt(root, extentOf, place.0, place.1).Some?
    requires CanvasAt(moved, place.0, place.1) == CanvasAt(root, place.0, place.1)
    ensures FittedCanvas(root, tree, extentOf, keepSlack, place) ==
              FittedCanvas(root, moved, extentOf, keepSlack, place)
  {
    hide Fit, Apply, FittedCanvas, LayoutAt;
    StillThere(root, moved, tree, extentOf, keepSlack, places, place);
  }

  /** A sequence not fitted yet still reads as after the line moves. */
  lemma StillThere(root: Json, moved: Json, tree: Json, extentOf: Extent, keepSlack: bool, places: seq<Place>,
                   place: Place)
    requires Fit(root, moved, tree, extentOf, keepSlack, places) && place !in places
    requires CanvasAt(moved, place.0, place.1) == CanvasAt(root, place.0, place.1)
    requires LayoutAt(root, extentOf, place.0, place.1).Some?
    ensures FittedCanvas(root, tree, extentOf, keepSlack, place) ==
              FittedCanvas(root, moved, extentOf, keepSlack, place)
    ensures Get(tree, CanvasPath(place.0, place.1)) ==
              Some(Int(LayoutAt(root, extentOf, place.0, place.1).value.canvas))
    ensures CanvasAt(moved, place.0, place.1) == Some(LayoutAt(root, extentOf, place.0, place.1).value.canvas)
  {
  }
}
