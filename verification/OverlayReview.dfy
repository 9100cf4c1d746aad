/**
 What the gate and the undoing promise together: a candidate that passes both differs from the saved tree only
 in knobs and layout, or by one carrier (src/reprobit/classic_donor_retune_materialization.py).
 */
module OverlayReview {
  import opened Options
  import opened JsonValues
  import opened JsonPaths
  import opened OverlayKnobs
  import opened OverlayMoves
  import opened OverlayGate
  import RetuneShell

  // ---- Paths ------------------------------------------------------------------------------

  /** A count or height of a sequence item, or the count of a member. */
  ghost predicate IsKnobPlace(path: Path) {
    exists r: nat, o: nat, i: nat, m: nat ::
      || path == ItemPath(r, o, i) + [Name("count")] || path == ItemPath(r, o, i) + [Name("n")]
      || path == ItemPath(r, o, i) + [Name("members"), At(m), Name("count")]
  }

  /** The line of a sequence item, or the canvas of a sequence. */
  ghost predicate IsLayoutPlace(path: Path) {
    || (exists r: nat, o: nat, i: nat :: path == LinePath(r, o, i))
    || (exists r: nat, o: nat :: path == CanvasPath(r, o))
  }

  lemma {:induction false} ItemPathShape(path: Path)
    requires IsItemPath(path)
    ensures path == ItemPath(path[2].index, path[4].index, path[7].index) + path[8..]
  {
  }

  lemma {:induction false} KnobPaths(path: Path)
    ensures IsKnobPath(path) <==> IsKnobPlace(path)
  {
    if IsKnobPath(path) {
      ItemPathShape(path);
      var r, o, i := path[2].index, path[4].index, path[7].index;
      var m := if |path| == 11 then path[9].index else 0;
      if |path| == 9 {
        assert path[8..] == [path[8]];
      } else {
        assert path[8..] == [Name("members"), At(m), Name("count")];
      }
      assert || path == ItemPath(r, o, i) + [Name("count")] || path == ItemPath(r, o, i) + [Name("n")]
             || path == ItemPath(r, o, i) + [Name("members"), At(m), Name("count")];
    }
  }

  lemma {:induction false} LayoutPaths(path: Path)
    ensures IsLayoutPath(path) <==> IsLayoutPlace(path)
  {
    if IsLayoutPath(path) {
      if |path| == 9 {
        ItemPathShape(path);
        assert path[8..] == [path[8]];
        assert path == LinePath(path[2].index, path[4].index, path[7].index);
      } else {
        assert path == CanvasPath(path[2].index, path[4].index);
      }
    }
    if r: nat, o: nat, i: nat :| path == LinePath(r, o, i) {
      PathShape(r, o, i);
    }
    if r: nat, o: nat :| path == CanvasPath(r, o) {
      PathShape(r, o, 0);
    }
  }

  predicate IsLeaf(path: Path) {
    IsKnobPath(path) || IsLayoutPath(path)
  }

  /** Different knobs and layout fields are at paths that part. */
  lemma {:induction false} LeavesPart(path: Path, other: Path)
    requires IsLeaf(path) && IsLeaf(other) && path != other
    ensures Parted(path, other)
  {
    if |path| == |other| {
      var k :| 0 <= k < |path| && path[k] != other[k];
      PartedAt(path, other, k);
    } else if |path| == 7 || |other| == 7 {
      PartedAt(path, other, 6);
    } else {
      PartedAt(path, other, 8);
    }
  }

  // ---- Undoing ------------------------------------------------------------------------------

  predicate AreReplacements(changes: seq<Change>) {
    forall k | 0 <= k < |changes| :: !changes[k].kind.Insert? && IsLeaf(changes[k].path)
  }

  lemma {:induction false} PutLeaves(value: Json, path: Path, replacement: Json, other: Path)
    requires Get(value, path).Some? && Parted(path, other)
    ensures Get(Put(value, path, replacement), other) == Get(value, other)
  {
    var k :| 0 <= k < |path| && k < |other| && path[k] != other[k];
    GetAside(value, path, replacement, other, k);
  }

  /** Undoing leaves every path that parts from the changed ones. */
  lemma {:induction false} UndoLeaves(codec: Codec, value: Json, changes: seq<Change>, path: Path)
    requires AreReplacements(changes) && UndoAll(codec, value, changes).Some?
    requires forall k | 0 <= k < |changes| :: Parted(changes[k].path, path)
    ensures Get(UndoAll(codec, value, changes).value, path) == Get(value, path)
    decreases |changes|
  {
    hide Parted, IsLeaf;
    if changes != [] {
      var n := |changes| - 1;
      PutLeaves(value, changes[n].path, changes[n].before, path);
      UndoLeaves(codec, UndoChange(codec, value, changes[n]).value, changes[..n], path);
    }
  }

  /** Undoing finds each change's new value and puts its old one back. */
  lemma {:induction false} UndoShows(codec: Codec, value: Json, changes: seq<Change>, k: nat)
    requires AreReplacements(changes) && DistinctPaths(changes) && UndoAll(codec, value, changes).Some? && k < |changes|
    ensures Get(value, changes[k].path).Some? && PythonEqual(Get(value, changes[k].path).value, changes[k].after)
    ensures Get(UndoAll(codec, value, changes).value, changes[k].path) == Some(changes[k].before)
    decreases |changes|
  {
    hide Parted, IsLeaf, PythonEqual;
    var n := |changes| - 1;
    var undone := UndoChange(codec, value, changes[n]).value;
    if k < n {
      LeavesPart(changes[n].path, changes[k].path);
      PutLeaves(value, changes[n].path, changes[n].before, changes[k].path);
      UndoShows(codec, undone, changes[..n], k);
    } else {
      forall j | 0 <= j < n ensures Parted(changes[..n][j].path, changes[n].path) {
        LeavesPart(changes[j].path, changes[n].path);
      }
      UndoLeaves(codec, undone, changes[..n], changes[n].path);
    }
  }

  // ---- Kinds --------------------------------------------------------------------------------

  lemma {:induction false} KindMember(changes: seq<Change>, kind: Kind, change: Change)
    ensures change in OfKind(changes, kind) <==> change in changes && change.kind == kind
  {
    if changes != [] {
      var n := |changes| - 1;
      KindMember(changes[..n], kind, change);
      assert changes == changes[..n] + [changes[n]];
    }
  }

  /** How far the knobs of a list move together. */
  function KnobMovement(changes: seq<Change>): nat {
    if changes == [] then 0
    else
      var last := changes[|changes| - 1];
      KnobMovement(changes[..|changes| - 1])
      + if last.kind.Knob? && AreInts(last) then RetuneShell.Abs(last.after.number - last.before.number) else 0
  }

  function CountKind(changes: seq<Change>, kind: Kind): nat {
    if changes == [] then 0
    else CountKind(changes[..|changes| - 1], kind) + if changes[|changes| - 1].kind == kind then 1 else 0
  }

  lemma {:induction false} KindsCounted(changes: seq<Change>, kind: Kind)
    ensures |OfKind(changes, kind)| == CountKind(changes, kind)
  {
    if changes != [] { KindsCounted(changes[..|changes| - 1], kind); }
  }

  lemma {:induction false} MovementCounted(changes: seq<Change>)
    requires forall k | 0 <= k < |OfKind(changes, Knob)| :: AreInts(OfKind(changes, Knob)[k])
    ensures Movement(OfKind(changes, Knob)) == KnobMovement(changes)
  {
    if changes != [] {
      var n := |changes| - 1;
      var earlier, all := OfKind(changes[..n], Knob), OfKind(changes, Knob);
      assert all == earlier + if changes[n].kind.Knob? then [changes[n]] else [];
      assert forall k | 0 <= k < |earlier| :: earlier[k] == all[k];
      MovementCounted(changes[..n]);
      if changes[n].kind.Knob? {
        assert all[..|earlier|] == earlier && all[|earlier|] == changes[n];
      } else {
        assert all == earlier;
      }
    }
  }

  // ---- What a review accepts --------------------------------------------------------------------

  /** Each change replaces an integer at a knob or layout place by the integer recorded for it. */
  ghost predicate Replaces(root: Json, tree: Json, change: Change) {
    && change.before.Int? && change.after.Int?
    && (if change.kind.Knob? then IsKnobPlace(change.path) else change.kind.Derived? && IsLayoutPlace(change.path))
    && Get(root, change.path) == Some(change.before)
    && Get(tree, change.path).Some? && PythonEqual(Get(tree, change.path).value, change.after)
  }

  /** One or two knobs moved this far together; everything else is as saved, but for the recorded layout. */
  ghost predicate OnlyMoves(root: Json, tree: Json, changes: seq<Change>, distance: nat) {
    && (forall k | 0 <= k < |changes| :: Replaces(root, tree, changes[k]))
    && 1 <= CountKind(changes, Knob) <= 2 && KnobMovement(changes) == distance <= 64
    && forall path: Path | (forall k | 0 <= k < |changes| :: Parted(changes[k].path, path)) ::
         Get(tree, path) == Get(root, path)
  }

  /** A declaration run of this length at one end of a file. */
  predicate IsRunAtBoundary(operation: Json, count: int) {
    && operation.Object? && operation.fields.Keys == {"anchor", "gen", "id", "op"}
    && Field(operation, "op") == Some(Text("insert"))
    && (|| Field(operation.fields["anchor"], "at") == Some(Text("end"))
        || Field(operation.fields["anchor"], "at") == Some(Text("start")))
    && Field(operation.fields["gen"], "k") == Some(Text("seq"))
    && (var lines := Field(operation.fields["gen"], "lines"); lines.Some? && PythonEqual(lines.value, Int(count)))
    && var items := Field(operation.fields["gen"], "items");
    && items.Some? && items.value.Array? && |items.value.items| == 1
    && Field(items.value.items[0], "k") == Some(Text("fwd_run"))
    && var run := Field(items.value.items[0], "count");
    run.Some? && PythonEqual(run.value, Int(count))
  }

  /** One run was appended to the operations of a rendering, and nothing else differs. */
  ghost predicate OnlyInserts(root: Json, tree: Json, distance: nat) {
    exists r: nat, items: seq<Json>, operation: Json, declared: Json ::
      && Get(root, OperationsPath(r)) == Some(Array(items))
      && tree == Put(root, OperationsPath(r), Array(items + [operation]))
      && PythonEqual(operation, declared) && IsRunAtBoundary(declared, distance) && distance <= 500
  }

  lemma EqualNumbers(value: Json, n: int)
    ensures EqualsInt(value, n) <==> PythonEqual(value, Int(n))
  {
  }

  lemma {:induction false} CarrierIsRun(operation: Json, count: int)
    requires IsCarrier(operation, count)
    ensures IsRunAtBoundary(operation, count)
  {
    hide PythonEqual, EqualsInt;
    var lines, items := FieldOf(operation.fields["gen"], "lines"), FieldOf(operation.fields["gen"], "items");
    EqualNumbers(lines.value, count);
    EqualNumbers(FieldOf(items.value.items[0], "count").value, count);
  }

  /** The gate's lists speak of every change. */
  lemma {:induction false} GateOfMoves(codec: Codec, candidate: Candidate)
    requires PassesGate(codec, candidate) && forall change | change in candidate.changes :: !change.kind.Insert?
    ensures forall k | 0 <= k < |candidate.changes| ::
              && AreInts(candidate.changes[k])
              && if candidate.changes[k].kind.Knob? then IsKnobPath(candidate.changes[k].path)
                 else IsLayoutPath(candidate.changes[k].path)
    ensures 1 <= CountKind(candidate.changes, Knob) <= 2 && KnobMovement(candidate.changes) == candidate.distance
  {
    hide IsKnobPath, IsLayoutPath, Movement, OfKind;
    var changes := candidate.changes;
    var knobs, derived, inserts := OfKind(changes, Knob), OfKind(changes, Derived), OfKind(changes, Insert);
    assert inserts == [] by {
      if inserts != [] {
        KindMember(changes, Insert, inserts[0]);
      }
    }
    forall k | 0 <= k < |changes|
      ensures AreInts(changes[k])
      ensures if changes[k].kind.Knob? then IsKnobPath(changes[k].path) else IsLayoutPath(changes[k].path) {
      assert changes[k] in changes;
      KindMember(changes, Knob, changes[k]);
      KindMember(changes, Derived, changes[k]);
    }
    KindsCounted(changes, Knob);
    MovementCounted(changes);
  }

  lemma {:induction false} ReviewedMoves(codec: Codec, candidate: Candidate, root: Json)
    requires PassesGate(codec, candidate) && Saved(codec, candidate) == Some(root)
    requires forall change | change in candidate.changes :: !change.kind.Insert?
    ensures OnlyMoves(root, candidate.tree, candidate.changes, candidate.distance)
  {
    hide PassesGate, IsKnobPath, IsLayoutPath, UndoAll, IsKnobPlace, IsLayoutPlace, PythonEqual, Parted;
    GateOfMoves(codec, candidate);
    var changes := candidate.changes;
    forall k | 0 <= k < |changes| ensures !changes[k].kind.Insert? && IsLeaf(changes[k].path) {
      assert changes[k] in changes;
    }
    forall k | 0 <= k < |changes| ensures Replaces(root, candidate.tree, changes[k]) {
      KnobPaths(changes[k].path);
      LayoutPaths(changes[k].path);
      UndoShows(codec, candidate.tree, changes, k);
      assert changes[k] in changes;
    }
    forall path: Path | (forall k | 0 <= k < |changes| :: Parted(changes[k].path, path))
      ensures Get(candidate.tree, path) == Get(root, path) {
      UndoLeaves(codec, candidate.tree, changes, path);
    }
  }

  lemma {:induction false} KindsTotal(changes: seq<Change>)
    ensures |changes| == CountKind(changes, Knob) + CountKind(changes, Derived) + CountKind(changes, Insert)
  {
    if changes != [] { KindsTotal(changes[..|changes| - 1]); }
  }

  /** Removing the last operation is undone by appending it. */
  lemma {:induction false} RemovedWasLast(codec: Codec, value: Json, change: Change, root: Json, distance: nat)
    requires RemoveInserted(codec, value, change) == Some(root) && InsertsCarrier(codec, change, distance)
    requires distance <= 500
    ensures OnlyInserts(root, value, distance)
  {
    hide PythonEqual, IsCarrier, IsRunAtBoundary;
    var r := change.path[2].index;
    var path := OperationsPath(r);
    assert change.path[..4] == path;
    var all, declared := Get(value, path).value.items, codec.decode(change.after.text).value;
    var n := |all| - 1;
    var items, operation := all[..n], all[n];
    assert items + [operation] == all;
    PutBack(value, path, Array(items));
    CarrierIsRun(declared, distance);
    assert Get(root, OperationsPath(r)) == Some(Array(items))
           && value == Put(root, OperationsPath(r), Array(items + [operation]))
           && PythonEqual(operation, declared) && IsRunAtBoundary(declared, distance);
  }

  lemma {:induction false} GateOfInsert(codec: Codec, candidate: Candidate, change: Change)
    requires PassesGate(codec, candidate) && change in candidate.changes && change.kind.Insert?
    ensures candidate.changes == [change] && InsertsCarrier(codec, change, candidate.distance)
  {
    hide OfKind, InsertsCarrier;
    var changes := candidate.changes;
    KindMember(changes, Insert, change);
    KindsCounted(changes, Knob);
    KindsCounted(changes, Derived);
    KindsCounted(changes, Insert);
    KindsTotal(changes);
    assert |changes| == 1;
  }

  lemma {:induction false} ReviewedInsert(codec: Codec, candidate: Candidate, root: Json, change: Change)
    requires PassesGate(codec, candidate) && Saved(codec, candidate) == Some(root)
    requires change in candidate.changes && change.kind.Insert?
    ensures OnlyInserts(root, candidate.tree, candidate.distance)
  {
    hide PassesGate, InsertsCarrier, RemoveInserted, OnlyInserts;
    GateOfInsert(codec, candidate, change);
    assert [change][..0] == [];
    assert UndoAll(codec, candidate.tree, [change]) == UndoChange(codec, candidate.tree, change);
    RemovedWasLast(codec, candidate.tree, change, root, candidate.distance);
  }

  /** A candidate that passes the gate and undoes to the saved tree only moves knobs and layout, or appends one run. */
  lemma {:induction false} ReviewAccepts(codec: Codec, candidate: Candidate, root: Json)
    requires PassesGate(codec, candidate) && Saved(codec, candidate) == Some(root)
    ensures OnlyMoves(root, candidate.tree, candidate.changes, candidate.distance)
            || OnlyInserts(root, candidate.tree, candidate.distance)
    ensures candidate.distance >= 1
  {
    hide PassesGate, UndoAll, OnlyMoves, OnlyInserts;
    if change :| change in candidate.changes && change.kind.Insert? {
      ReviewedInsert(codec, candidate, root, change);
    } else {
      ReviewedMoves(codec, candidate, root);
    }
  }
}
