/** What a move records, and that it can be undone (src/reprobit/classic_donor_retune_candidates.py). */
module OverlayChanges {
  import opened Options
  import opened JsonValues
  import opened JsonPaths
  import opened OverlayKnobs
  import opened OverlayMoves
  import opened OverlayFit
  import opened Sorting

  // ---- Change paths -----------------------------------------------------------------------------

  ghost predicate AllParted(changes: seq<Change>) {
    forall a, b | 0 <= a < b < |changes| :: Parted(changes[a].path, changes[b].path)
  }

  lemma {:induction false} PartedJoin(left: seq<Change>, right: seq<Change>)
    requires AllParted(left) && AllParted(right)
    requires forall a, b | a in left && b in right :: Parted(a.path, b.path)
    ensures AllParted(left + right)
  {
    hide Parted;
    var all := left + right;
    forall a, b | 0 <= a < b < |all| ensures Parted(all[a].path, all[b].path) {
      assert a < |left| ==> all[a] in left;
      assert b >= |left| ==> all[b] in right;
    }
  }

  /** A change whose path no later change crosses shows in the result. */
  lemma {:induction false} ApplyShows(saved: Json, changes: seq<Change>, k: nat)
    requires Apply(saved, changes).Some? && AllParted(changes) && k < |changes|
    ensures Get(Apply(saved, changes).value, changes[k].path) == Some(changes[k].after)
  {
    hide Parted;
    var n := |changes| - 1;
    if k < n {
      ApplyShows(saved, changes[..n], k);
      assert Parted(changes[k].path, changes[n].path);
      PutAside(Apply(saved, changes[..n]).value, changes[n], changes[k].path);
    }
  }

  lemma {:induction false} PutAside(tree: Json, change: Change, path: Path)
    requires Get(tree, change.path).Some? && Parted(path, change.path)
    ensures Get(Put(tree, change.path, change.after), path) == Get(tree, path)
  {
    var k :| 0 <= k < |path| && k < |change.path| && path[k] != change.path[k];
    GetAside(tree, change.path, change.after, path, k);
  }

  predicate IsInts(change: Change) {
    change.before.Int? && change.after.Int?
  }

  /** A derived line change of one of the items. */
  ghost predicate IsLineChange(change: Change, keys: seq<Key>) {
    change.kind.Derived? && IsInts(change) && exists key: Key ::
        key in keys && change.path == LinePath(key.0, key.1, key.2)
  }

  /** A derived canvas change of one of the sequences. */
  ghost predicate IsCanvasChange(change: Change, places: seq<Place>) {
    change.kind.Derived? && IsInts(change) && exists place: Place ::
        place in places && change.path == CanvasPath(place.0, place.1)
  }

  lemma {:induction false} KnobsPart(root: Json, moves: seq<Move>)
    requires AreMoves(root, moves)
    ensures AllParted(KnobChanges(moves))
  {
    hide Parted, SeatPath;
    forall a, b | 0 <= a < b < |moves| ensures Parted(KnobChanges(moves)[a].path, KnobChanges(moves)[b].path) {
      SeatsPart(moves[a].seat, moves[b].seat);
    }
  }

  lemma {:induction false} LineChangesPart(root: Json, shifts: map<Key, int>, keys: seq<Key>)
    requires Ascending(keys, KeyBefore) && forall key: Key | key in keys :: LineAt(root, key).Some?
    ensures AllParted(LineChanges(root, shifts, keys))
    ensures forall change | change in LineChanges(root, shifts, keys) :: IsLineChange(change, keys)
  {
    hide Parted, LinePath, LineAt;
    var changes := LineChanges(root, shifts, keys);
    forall a, b | 0 <= a < b < |keys| ensures Parted(changes[a].path, changes[b].path) {
      LinesPart(keys[a], keys[b]);
    }
    forall change | change in changes ensures IsLineChange(change, keys) {
      var k :| 0 <= k < |keys| && changes[k] == change;
      assert keys[k] in keys;
    }
  }

  lemma {:induction false} CanvasChangesPart(root: Json, moved: Json, extentOf: Extent, keepSlack: bool,
                                             places: seq<Place>)
    requires Ascending(places, PlaceBefore)
    ensures AllParted(CanvasChanges(root, moved, extentOf, keepSlack, places))
    ensures forall change | change in CanvasChanges(root, moved, extentOf, keepSlack, places) ::
              IsCanvasChange(change, places)
  {
    hide Parted, CanvasPath, LayoutAt, FittedCanvas;
    if places != [] {
      var n := |places| - 1;
      CanvasChangesPart(root, moved, extentOf, keepSlack, places[..n]);
      var earlier, last := CanvasChanges(root, moved, extentOf, keepSlack, places[..n]),
          CanvasChangeAt(root, moved, extentOf, keepSlack, places[n]);
      forall change | change in earlier
        ensures IsCanvasChange(change, places) && Parted(change.path, CanvasPath(places[n].0, places[n].1)) {
        assert IsCanvasChange(change, places[..n]);
        var place: Place :| place in places[..n] && change.path == CanvasPath(place.0, place.1);
        CanvasesPart(place.0, place.1, places[n].0, places[n].1);
      }
      PartedJoin(earlier, last);
    }
  }

  /** Knob changes first, then line and canvas changes; no path crosses another. */
  ghost predicate Recorded(moves: seq<Move>, changes: seq<Change>, keys: seq<Key>, places: seq<Place>) {
    && |changes| >= |moves| && changes[..|moves|] == KnobChanges(moves)
    && (forall k | |moves| <= k < |changes| :: IsLineChange(changes[k], keys) || IsCanvasChange(changes[k], places))
    && AllParted(changes)
  }

  lemma {:induction false} ChangesAreRecorded(root: Json, moves: seq<Move>, lines: seq<Change>, canvases: seq<Change>,
                                              keys: seq<Key>, places: seq<Place>)
    requires AreMoves(root, moves) && AllParted(lines) && AllParted(canvases)
    requires forall change | change in lines :: IsLineChange(change, keys)
    requires forall change | change in canvases :: IsCanvasChange(change, places)
    ensures Recorded(moves, KnobChanges(moves) + lines + canvases, keys, places)
  {
    hide Parted, AllParted, LinePath, CanvasPath, SeatPath;
    var knobs := KnobChanges(moves);
    KnobsPart(root, moves);
    forall a, b | a in knobs && b in lines ensures Parted(a.path, b.path) {
      var k :| 0 <= k < |knobs| && knobs[k] == a;
      var key: Key :| key in keys && b.path == LinePath(key.0, key.1, key.2);
      LinePartsFromSeat(moves[k].seat, key);
    }
    PartedJoin(knobs, lines);
    forall a, b | a in knobs + lines && b in canvases ensures Parted(a.path, b.path) {
      var place: Place :| place in places && b.path == CanvasPath(place.0, place.1);
      if a in knobs {
        var k :| 0 <= k < |knobs| && knobs[k] == a;
        CanvasPartsFromSeat(moves[k].seat, place.0, place.1);
      } else {
        var key: Key :| key in keys && a.path == LinePath(key.0, key.1, key.2);
        CanvasPartsFromLine(key, place.0, place.1);
      }
    }
    PartedJoin(knobs + lines, canvases);
    var changes := knobs + lines + canvases;
    forall k | |moves| <= k < |changes| ensures IsLineChange(changes[k], keys) || IsCanvasChange(changes[k], places) {
      assert changes[k] in lines || changes[k] in canvases;
    }
  }

  // ---- The whole move ---------------------------------------------------------------------------

  /** Where an item's line goes. */
  function ShiftedLine(root: Json, extentOf: Extent, moves: seq<Move>, key: Key): Option<int> {
    if LineAt(root, key).None? then None else Some(LineAt(root, key).value + ShiftOf(root, extentOf, moves, key))
  }

  /** The items the moves push, in order. */
  ghost predicate ArePushed(root: Json, extentOf: Extent, moves: seq<Move>, keys: seq<Key>) {
    && Ascending(keys, KeyBefore) && (forall key: Key | key in keys :: LineAt(root, key).Some?)
    && forall key: Key :: key in keys <==> ShiftOf(root, extentOf, moves, key) != 0
  }

  function PushChanges(root: Json, extentOf: Extent, moves: seq<Move>, keys: seq<Key>): seq<Change>
    requires forall key: Key | key in keys :: LineAt(root, key).Some?
  {
    seq(|keys|, k requires 0 <= k < |keys| => LineChange(root, keys[k], ShiftOf(root, extentOf, moves, keys[k])))
  }

  /** The touched sequences, in order. */
  ghost predicate AreTouched(root: Json, extentOf: Extent, moves: seq<Move>, places: seq<Place>) {
    Ascending(places, PlaceBefore) && forall place: Place ::
        place in places <==> Touched(root, extentOf, moves, place.0, place.1)
  }

  /** The saved tree with the moved knobs, then the pushed lines, and nothing else written. */
  ghost predicate Written(root: Json, extentOf: Extent, moves: seq<Move>, tree: Json) {
    exists keys :: ArePushed(root, extentOf, moves, keys)
                   && Apply(root, KnobChanges(moves) + PushChanges(root, extentOf, moves, keys)) == Some(tree)
  }

  /** Knobs and lines have moved; canvases have not. */
  ghost predicate Laid(root: Json, extentOf: Extent, moves: seq<Move>, tree: Json) {
    && Written(root, extentOf, moves, tree)
    && (forall key: Key :: LineAt(tree, key) == ShiftedLine(root, extentOf, moves, key))
    && (forall place: Place :: CanvasAt(tree, place.0, place.1) == CanvasAt(root, place.0, place.1))
    && forall k | 0 <= k < |moves| ::
         Get(tree, SeatPath(moves[k].seat)) == Some(Int(moves[k].seat.value + moves[k].delta))
  }

  /** A pushed line would drop below one. */
  ghost predicate LineDrops(root: Json, extentOf: Extent, moves: seq<Move>) {
    exists key: Key ::
        LineAt(root, key).Some? && ShiftOf(root, extentOf, moves, key) != 0
            && ShiftedLine(root, extentOf, moves, key).value < 1
  }

  /** A touched sequence has no canvas for its moved items. */
  ghost predicate CanvasFails(root: Json, extentOf: Extent, moves: seq<Move>, keepSlack: bool, moved: Json) {
    exists place: Place ::
        Touched(root, extentOf, moves, place.0, place.1) && FittedCanvas(root, moved, extentOf, keepSlack, place).None?
  }

  /** The tree after the moves: lines and knobs as in `moved`, and touched canvases fitted. */
  ghost predicate MovedTo(root: Json, extentOf: Extent, moves: seq<Move>, keepSlack: bool, moved: Json, tree: Json) {
    && Laid(root, extentOf, moves, moved)
    && (forall place: Place ::
          if Touched(root, extentOf, moves, place.0, place.1)
              then IsFitted(root, moved, tree, extentOf, keepSlack, place)
          else Get(tree, SequencePath(place.0, place.1)) == Get(moved, SequencePath(place.0, place.1)))
    && (forall key: Key :: LineAt(tree, key) == ShiftedLine(root, extentOf, moves, key))
    && (forall k | 0 <= k < |moves| ::
        Get(tree, SeatPath(moves[k].seat)) == Some(Int(moves[k].seat.value + moves[k].delta)))
    && forall place: Place :: CanvasAt(tree, place.0, place.1) ==
         if Touched(root, extentOf, moves, place.0, place.1)
             then FittedCanvas(root, moved, extentOf, keepSlack, place) else CanvasAt(root, place.0, place.1)
  }

  /** The recorded changes: the knobs, the pushed lines and the fitted canvases, each in order. */
  ghost predicate Lists(root: Json, extentOf: Extent, moves: seq<Move>, keepSlack: bool, moved: Json,
                        changes: seq<Change>, keys: seq<Key>, places: seq<Place>) {
    && ArePushed(root, extentOf, moves, keys) && AreTouched(root, extentOf, moves, places)
    && changes == KnobChanges(moves) + PushChanges(root, extentOf, moves, keys)
                  + CanvasChanges(root, moved, extentOf, keepSlack, places)
    && Recorded(moves, changes, keys, places)
  }

  /** Those changes turn the saved tree into this one. */
  ghost predicate Changes(root: Json, extentOf: Extent, moves: seq<Move>, keepSlack: bool, moved: Json, tree: Json,
                          changes: seq<Change>) {
    && Apply(root, changes) == Some(tree)
    && exists keys, places :: Lists(root, extentOf, moves, keepSlack, moved, changes, keys, places)
  }

  lemma {:induction false} PushedIsUnique(root: Json, extentOf: Extent, moves: seq<Move>, keys: seq<Key>,
                                          others: seq<Key>)
    requires ArePushed(root, extentOf, moves, keys) && ArePushed(root, extentOf, moves, others)
    ensures keys == others
  {
    hide LineAt, ShiftOf;
    KeyBeforeIsOrder();
    AscendingIsUnique(keys, others, KeyBefore);
  }

  lemma {:induction false} TouchedIsUnique(root: Json, extentOf: Extent, moves: seq<Move>, places: seq<Place>,
                                           others: seq<Place>)
    requires AreTouched(root, extentOf, moves, places) && AreTouched(root, extentOf, moves, others)
    ensures places == others
  {
    hide Touched;
    PlaceBeforeIsOrder();
    AscendingIsUnique(places, others, PlaceBefore);
  }

  lemma {:induction false} WrittenIsUnique(root: Json, extentOf: Extent, moves: seq<Move>, moved: Json, moved': Json)
    requires Written(root, extentOf, moves, moved) && Written(root, extentOf, moves, moved')
    ensures moved == moved'
  {
    hide Apply, LineAt, ShiftOf, KeyBefore, KnobChanges;
    var keys :| ArePushed(root, extentOf, moves, keys)
                && Apply(root, KnobChanges(moves) + PushChanges(root, extentOf, moves, keys)) == Some(moved);
    var keys' :| ArePushed(root, extentOf, moves, keys')
                 && Apply(root, KnobChanges(moves) + PushChanges(root, extentOf, moves, keys')) == Some(moved');
    PushedIsUnique(root, extentOf, moves, keys, keys');
  }

  /** The saved tree and the moves decide the moved tree and its change list. */
  lemma {:induction false} MoveIsDetermined(root: Json, extentOf: Extent, moves: seq<Move>, keepSlack: bool,
                                            moved: Json, tree: Json, changes: seq<Change>, moved': Json, tree': Json,
                                            changes': seq<Change>)
    requires Written(root, extentOf, moves, moved) && Changes(root, extentOf, moves, keepSlack, moved, tree, changes)
    requires Written(root, extentOf, moves, moved')
    requires Changes(root, extentOf, moves, keepSlack, moved', tree', changes')
    ensures moved == moved' && tree == tree' && changes == changes'
  {
    hide Apply, LineAt, ShiftOf, Recorded, KeyBefore, PlaceBefore, Touched, Written, KnobChanges, CanvasChanges;
    WrittenIsUnique(root, extentOf, moves, moved, moved');
    var keys, places :| Lists(root, extentOf, moves, keepSlack, moved, changes, keys, places);
    var keys', places' :| Lists(root, extentOf, moves, keepSlack, moved', changes', keys', places');
    PushedIsUnique(root, extentOf, moves, keys, keys');
    TouchedIsUnique(root, extentOf, moves, places, places');
  }

  lemma {:induction false} PushesAreShifts(root: Json, extentOf: Extent, moves: seq<Move>, shifts: map<Key, int>,
                                           keys: seq<Key>)
    requires Ascending(keys, KeyBefore) && forall key: Key | key in keys :: LineAt(root, key).Some?
    requires forall key: Key :: key in keys <==> ShiftIn(shifts, key) != 0
    requires forall key: Key :: ShiftIn(shifts, key) == ShiftOf(root, extentOf, moves, key)
    ensures ArePushed(root, extentOf, moves, keys)
    ensures PushChanges(root, extentOf, moves, keys) == LineChanges(root, shifts, keys)
  {
    hide LineAt, ShiftOf;
  }

  lemma {:induction false} LinesAreLaid(root: Json, extentOf: Extent, moves: seq<Move>, moved: Json,
                                        changes: seq<Change>, shifts: map<Key, int>, keys: seq<Key>)
    requires AreMoves(root, moves) && Ascending(keys, KeyBefore)
    requires Shifting(root, moved, KnobChanges(moves), changes, shifts, keys)
    requires forall key: Key :: key in keys <==> ShiftIn(shifts, key) != 0
    requires forall key: Key :: ShiftIn(shifts, key) == ShiftOf(root, extentOf, moves, key)
    ensures Laid(root, extentOf, moves, moved)
  {
    hide Parted, SeatPath, LinePath, CanvasPath, LineAt, CanvasAt, ShiftOf, Apply, KeyBefore, LineChanges;
    KnobsShow(root, moves, moved, changes, shifts, keys);
    PushesAreShifts(root, extentOf, moves, shifts, keys);
    assert Written(root, extentOf, moves, moved);
    forall key: Key ensures LineAt(moved, key) == ShiftedLine(root, extentOf, moves, key) {
      assert key !in keys ==> ShiftIn(shifts, key) == 0;
    }
  }

  lemma {:induction false} KnobsShow(root: Json, moves: seq<Move>, moved: Json, changes: seq<Change>, shifts: map<Key,
                                     int>, keys: seq<Key>)
    requires AreMoves(root, moves) && Ascending(keys, KeyBefore)
    requires Shifting(root, moved, KnobChanges(moves), changes, shifts, keys)
    ensures forall k | 0 <= k < |moves| ::
              Get(moved, SeatPath(moves[k].seat)) == Some(Int(moves[k].seat.value + moves[k].delta))
  {
    hide Parted, SeatPath, LinePath, CanvasPath, LineAt, CanvasAt, Apply, KeyBefore, LineChanges, LinesMoved,
        IsLineChange, IsCanvasChange;
    LineChangesPart(root, shifts, keys);
    var lines := LineChanges(root, shifts, keys);
    ChangesAreRecorded(root, moves, lines, [], keys, []);
    assert KnobChanges(moves) + lines + [] == changes;
    forall k | 0 <= k < |moves|
      ensures Get(moved, SeatPath(moves[k].seat)) == Some(Int(moves[k].seat.value + moves[k].delta)) {
      ApplyShows(root, changes, k);
      assert changes[k] == KnobChanges(moves)[k];
    }
  }

  /** `_apply_overlay_moves`. */
  method ApplyMoves(root: Json, extentOf: Extent, moves: seq<Move>, keepSlack: bool)
    returns (result: Option<(Json, seq<Change>)>, ghost moved: Json)
    requires AreMoves(root, moves)
    ensures result.Some? ==> MovedTo(root, extentOf, moves, keepSlack, moved, result.value.0)
    ensures result.Some? ==> Changes(root, extentOf, moves, keepSlack, moved, result.value.0, result.value.1)
    ensures result.Some? <==> !LineDrops(root, extentOf, moves) && !CanvasFails(root, extentOf, moves, keepSlack, moved)
    ensures !LineDrops(root, extentOf, moves) ==> Laid(root, extentOf, moves, moved)
  {
    hide Shifting, Fitting, FittedCanvas, LineAt, CanvasAt, LayoutAt, ShiftOf, Apply, Laid, KeyBefore, PlaceBefore,
        SameLayout;
    var knobbed, knobs, shifts, touched := MoveKnobs(root, extentOf, moves);
    var laid, lined, ok, keys := ShiftLines(root, knobbed, knobs, shifts);
    moved := laid;
    DropsAreShifts(root, extentOf, moves, shifts);
    if !ok {
      return None, moved;
    }
    LinesAreLaid(root, extentOf, moves, laid, lined, shifts, keys);
    LaidReads(root, extentOf, moves, laid, lined, knobs, shifts, keys);
    var tree, changes, fits, places := FitCanvases(root, extentOf, laid, lined, touched, keepSlack);
    if !fits {
      return None, moved;
    }
    EndsMoved(root, extentOf, moves, keepSlack, laid, tree, knobs, lined, changes, shifts, keys, places);
    result := Some((tree, changes));
  }

  lemma {:induction false} DropsAreShifts(root: Json, extentOf: Extent, moves: seq<Move>, shifts: map<Key, int>)
    requires forall key: Key :: ShiftIn(shifts, key) == ShiftOf(root, extentOf, moves, key)
    requires forall key: Key | key in shifts :: LineAt(root, key).Some?
    ensures LineDrops(root, extentOf, moves) <==>
            !forall key: Key | key in shifts && ShiftIn(shifts, key) != 0 ::
                LineAt(root, key).value + ShiftIn(shifts, key) >= 1
  {
    hide LineAt, ShiftOf;
    if LineDrops(root, extentOf, moves) {
      var key: Key :| LineAt(root, key).Some? && ShiftOf(root, extentOf, moves, key) != 0
          && ShiftedLine(root, extentOf, moves, key).value < 1;
      assert key in shifts;
    }
  }

  lemma LaidReads(root: Json, extentOf: Extent, moves: seq<Move>, laid: Json, lined: seq<Change>, knobs: seq<Change>,
                  shifts: map<Key, int>, keys: seq<Key>)
    requires Shifting(root, laid, knobs, lined, shifts, keys)
    ensures Apply(root, lined) == Some(laid)
    ensures forall place: Place :: CanvasAt(laid, place.0, place.1) == CanvasAt(root, place.0, place.1)
  {
  }

  lemma {:induction false} EndsMoved(root: Json, extentOf: Extent, moves: seq<Move>, keepSlack: bool, laid: Json,
                                     tree: Json, knobs: seq<Change>, lined: seq<Change>, changes: seq<Change>,
                                     shifts: map<Key, int>, keys: seq<Key>, places: seq<Place>)
    requires AreMoves(root, moves) && knobs == KnobChanges(moves) && Laid(root, extentOf, moves, laid)
    requires Shifting(root, laid, knobs, lined, shifts, keys) && Ascending(keys, KeyBefore)
    requires forall key: Key :: key in keys <==> ShiftIn(shifts, key) != 0
    requires forall key: Key :: ShiftIn(shifts, key) == ShiftOf(root, extentOf, moves, key)
    requires Fitting(root, laid, tree, extentOf, keepSlack, lined, changes, places)
    requires AreTouched(root, extentOf, moves, places)
    ensures MovedTo(root, extentOf, moves, keepSlack, laid, tree)
    ensures Changes(root, extentOf, moves, keepSlack, laid, tree, changes)
  {
    hide FittedCanvas, LineAt, CanvasAt, LayoutAt, ShiftOf, Apply, KeyBefore, PlaceBefore, Touched, SeatPath,
        SequencePath, Recorded, AllParted, IsLineChange, IsCanvasChange, Written, IsFitted, PushChanges, LineChanges,
        CanvasChanges;
    PushesAreShifts(root, extentOf, moves, shifts, keys);
    LineChangesPart(root, shifts, keys);
    CanvasChangesPart(root, laid, extentOf, keepSlack, places);
    ChangesAreRecorded(root, moves, LineChanges(root, shifts, keys),
                       CanvasChanges(root, laid, extentOf, keepSlack, places), keys, places);
    assert Lists(root, extentOf, moves, keepSlack, laid, changes, keys, places);
  }
}
