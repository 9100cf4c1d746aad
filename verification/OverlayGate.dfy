/** The gate on overlay candidates, and their undoing (src/reprobit/classic_donor_retune_materialization.py). */
module OverlayGate {
  import opened Options
  import opened JsonValues
  import opened JsonPaths
  import opened RetuneShell

  const MAX_RETUNE_RADIUS := 64
  const MAX_INSERTED_RUN_COUNT := 500

  /** Canonical JSON text and its reader. */
  datatype Codec = Codec(encode: Json -> string, decode: string -> Option<Json>)

  /** Values without floats are read back as they were written. */
  ghost predicate RoundTrips(codec: Codec) {
    forall value | FloatFree(value) :: codec.decode(codec.encode(value)) == Some(value)
  }

  /** A proposed tree, how far it is from the saved one, and every intended change. */
  datatype Candidate = Candidate(tree: Json, distance: nat, changes: seq<Change>)

  function OfKind(changes: seq<Change>, kind: Kind): seq<Change> {
    if changes == [] then []
    else
      var last := changes[|changes| - 1];
      OfKind(changes[..|changes| - 1], kind) + if last.kind == kind then [last] else []
  }

  // ---- The gate -----------------------------------------------------------------------------

  predicate IsItemPath(path: Path) {
    && |path| >= 8 && path[0] == Name("parameters") && path[1] == Name("renderings") && path[2].At?
    && path[3] == Name("operations") && path[4].At? && path[5] == Name("gen") && path[6] == Name("items") && path[7].At?
  }

  predicate IsKnobPath(path: Path) {
    && IsItemPath(path)
    && ((|path| == 9 && path[8] in {Name("count"), Name("n")})
        || (|path| == 11 && path[8] == Name("members") && path[9].At? && path[10] == Name("count")))
  }

  predicate IsLayoutPath(path: Path) {
    || (IsItemPath(path) && |path| == 9 && path[8] == Name("line"))
    || (|path| == 7 && path[0] == Name("parameters") && path[1] == Name("renderings") && path[2].At?
        && path[3] == Name("operations") && path[4].At? && path[5] == Name("gen") && path[6] == Name("lines"))
  }

  predicate AreInts(change: Change) {
    change.before.Int? && change.after.Int?
  }

  function Movement(knobs: seq<Change>): nat
    requires forall k | 0 <= k < |knobs| :: AreInts(knobs[k])
  {
    if knobs == [] then 0
    else
      assert AreInts(knobs[|knobs| - 1]);
      var last := knobs[|knobs| - 1];
      Movement(knobs[..|knobs| - 1]) + Abs(last.after.number - last.before.number)
  }

  function FieldOf(value: Json, name: string): Option<Json> {
    Child(value, Name(name))
  }

  predicate Holds(value: Json, name: string, n: int) {
    FieldOf(value, name).Some? && EqualsInt(FieldOf(value, name).value, n)
  }

  /** One boundary-anchored forward-declaration run of this length. */
  predicate IsCarrier(operation: Json, count: int) {
    && operation.Object? && operation.fields.Keys == {"anchor", "gen", "id", "op"}
    && operation.fields["op"] == Text("insert")
    && FieldOf(operation.fields["anchor"], "at") in {Some(Text("end")), Some(Text("start"))}
    && FieldOf(operation.fields["gen"], "k") == Some(Text("seq")) && Holds(operation.fields["gen"], "lines", count)
    && var items := FieldOf(operation.fields["gen"], "items");
    && items.Some? && items.value.Array? && |items.value.items| == 1
    && FieldOf(items.value.items[0], "k") == Some(Text("fwd_run")) && Holds(items.value.items[0], "count", count)
  }

  /** `_require_inserted_carrier`. */
  predicate InsertsCarrier(codec: Codec, change: Change, distance: int) {
    && change.after.Text? && codec.decode(change.after.text).Some?
    && IsCarrier(codec.decode(change.after.text).value, distance)
  }

  /** `_require_overlay_candidate_shape`. */
  predicate PassesGate(codec: Codec, candidate: Candidate) {
    var knobs, derived, inserts := OfKind(candidate.changes, Knob), OfKind(candidate.changes, Derived),
        OfKind(candidate.changes, Insert);
    if inserts != [] then
      knobs == [] && derived == [] && |inserts| == 1 && InsertsCarrier(codec, inserts[0], candidate.distance)
    else
      && 1 <= |knobs| <= 2
      && (forall k | 0 <= k < |knobs| :: AreInts(knobs[k]) && IsKnobPath(knobs[k].path))
      && Movement(knobs) == candidate.distance
      && forall k | 0 <= k < |derived| :: AreInts(derived[k]) && IsLayoutPath(derived[k].path)
  }

  // ---- Undoing ------------------------------------------------------------------------------

  function OperationsPath(rendering: nat): Path {
    [Name("parameters"), Name("renderings"), At(rendering), Name("operations")]
  }

  /** `_remove_inserted_operation`: only the declared operation, and only from the end. */
  function RemoveInserted(codec: Codec, value: Json, change: Change): Option<Json> {
    if |change.path| != 5 || !change.path[2].At? || change.path[..4] != OperationsPath(change.path[2].index)
        || !change.path[4].At?
       || change.before != Text("") || !change.after.Text?
    then None
    else
      var operations, declared := Get(value, change.path[..4]), codec.decode(change.after.text);
      if operations.None? || !operations.value.Array? || change.path[4].index + 1 != |operations.value.items| then None
      else if declared.None? || !PythonEqual(operations.value.items[change.path[4].index], declared.value) then None
      else Some(Put(value, change.path[..4], Array(operations.value.items[..change.path[4].index])))
  }

  function UndoChange(codec: Codec, value: Json, change: Change): Option<Json> {
    if change.kind.Insert? then RemoveInserted(codec, value, change)
    else ReplacePath(value, change.path, change.after, change.before)
  }

  /** All changes undone from the last. */
  function UndoAll(codec: Codec, value: Json, changes: seq<Change>): Option<Json>
    decreases |changes|
  {
    if changes == [] then Some(value)
    else
      var undone := UndoChange(codec, value, changes[|changes| - 1]);
      if undone.None? then None else UndoAll(codec, undone.value, changes[..|changes| - 1])
  }

  predicate IsScalar(value: Json) {
    value.Int? || value.Text?
  }

  predicate DistinctPaths(changes: seq<Change>) {
    forall a, b | 0 <= a < b < |changes| :: changes[a].path != changes[b].path
  }

  /** What `_saved_intervention` demands before it undoes anything, and of every change. */
  predicate Undoable(candidate: Candidate) {
    var farthest := if exists change ::
        change in candidate.changes && change.kind.Insert? then MAX_INSERTED_RUN_COUNT else MAX_RETUNE_RADIUS;
    && 1 <= candidate.distance <= farthest
    && candidate.changes != [] && DistinctPaths(candidate.changes)
    && forall change | change in candidate.changes :: IsScalar(change.before) && IsScalar(change.after)
  }

  function Saved(codec: Codec, candidate: Candidate): Option<Json> {
    if Undoable(candidate) then UndoAll(codec, candidate.tree, candidate.changes) else None
  }

  /** The undo loop, with its check of each change. */
  method SavedIntervention(codec: Codec, candidate: Candidate) returns (saved: Option<Json>)
    ensures saved == Saved(codec, candidate)
  {
    hide UndoChange, DistinctPaths;
    var changes := candidate.changes;
    var farthest := if exists change ::
        change in changes && change.kind.Insert? then MAX_INSERTED_RUN_COUNT else MAX_RETUNE_RADIUS;
    if !(1 <= candidate.distance <= farthest) || changes == [] || !DistinctPaths(changes) {
      return None;
    }
    var value := candidate.tree;
    assert changes[..|changes|] == changes;
    for k := |changes| downto 0
      invariant UndoAll(codec, candidate.tree, changes) == UndoAll(codec, value, changes[..k])
      invariant forall j | k <= j < |changes| :: IsScalar(changes[j].before) && IsScalar(changes[j].after)
    {
      assert changes[..k + 1][..k] == changes[..k] && changes[..k + 1][k] == changes[k];
      if !IsScalar(changes[k].before) || !IsScalar(changes[k].after) {
        assert changes[k] in changes;
        return None;
      }
      var undone := UndoChange(codec, value, changes[k]);
      if undone.None? {
        return None;
      }
      value := undone.value;
    }
    saved := Some(value);
  }

  lemma {:induction false} UndoAllIsUndo(codec: Codec, value: Json, changes: seq<Change>)
    requires forall change | change in changes :: !change.kind.Insert?
    ensures UndoAll(codec, value, changes) == Undo(value, changes)
    decreases |changes|
  {
    if changes != [] {
      var n := |changes| - 1;
      assert changes[n] in changes;
      var undone := UndoChange(codec, value, changes[n]);
      if undone.Some? {
        UndoAllIsUndo(codec, undone.value, changes[..n]);
      }
    }
  }
}
