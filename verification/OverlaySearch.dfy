/** Enumerating overlay candidates (src/reprobit/classic_donor_retune_candidates.py). */
module OverlaySearch {
  import opened Options
  import opened JsonValues
  import opened JsonPaths
  import opened OverlayKnobs
  import opened OverlayMoves
  import opened OverlayFit
  import opened OverlayChanges
  import opened OverlayGate
  import RetuneShell

  const SEAT_WINDOW := 32

  /** A carrier source: how many tokens it has, and the digest of a seat with some tokens before and after it. */
  datatype Source = Source(tokens: nat, digest: (nat, nat, nat) -> string)

  /** Something to try: moving knobs, or inserting a carrier at the end of the first rendering. */
  datatype Proposal = Moving(moves: seq<Move>, distance: nat) | Inserting(operation: Json, count: nat)

  // ---- Moves ----------------------------------------------------------------------------------

  function Travel(moves: seq<Move>): nat {
    if moves == [] then 0 else Travel(moves[..|moves| - 1]) + RetuneShell.Abs(moves[|moves| - 1].delta)
  }

  ghost predicate IsGoodMove(root: Json, proposal: Proposal, radius: nat) {
    && proposal.Moving? && AreMoves(root, proposal.moves)
    && 1 <= |proposal.moves| <= 2 && Travel(proposal.moves) == proposal.distance && 1 <= proposal.distance <= radius
  }

  ghost predicate AllGood(root: Json, proposals: seq<Proposal>, radius: nat) {
    forall proposal | proposal in proposals :: IsGoodMove(root, proposal, radius)
  }

  lemma {:induction false} GoodJoin(root: Json, left: seq<Proposal>, right: seq<Proposal>, radius: nat)
    requires AllGood(root, left, radius) && AllGood(root, right, radius)
    ensures AllGood(root, left + right, radius)
  {
    hide IsGoodMove;
  }

  lemma NoneIsGood(root: Json, radius: nat)
    ensures AllGood(root, [], radius)
  {
  }

  function SingleMove(seat: Seat, delta: int, distance: nat): seq<Proposal> {
    if seat.minimum <= seat.value + delta <= seat.maximum then [Moving([Move(seat, delta)], distance)] else []
  }

  /** Every seat, one step down and one step up. */
  function SingleMoves(seats: seq<Seat>, distance: nat): seq<Proposal> {
    if seats == [] then []
    else
      var last := seats[|seats| - 1];
      SingleMoves(seats[..|seats| - 1], distance) + SingleMove(last, 0 - distance, distance)
          + SingleMove(last, distance, distance)
  }

  /** Both knobs moved to a state of the shell. */
  function ShellMoves(first: Seat, second: Seat, states: seq<RetuneShell.State>, distance: nat): seq<Proposal> {
    if states == [] then []
    else
      var last := states[|states| - 1];
      ShellMoves(first, second, states[..|states| - 1], distance)
      + if last.0 == first.value || last.1 == second.value then []
        else [Moving([Move(first, last.0 - first.value), Move(second, last.1 - second.value)], distance)]
  }

  function PairMoves(first: Seat, second: Seat, distance: nat): seq<Proposal> {
    if first.rendering != second.rendering then []
    else
      var within := (state: RetuneShell.State) =>
        first.minimum <= state.0 <= first.maximum && second.minimum <= state.1 <= second.maximum;
      ShellMoves(first, second, RetuneShell.Shell((first.value, second.value), distance, within), distance)
  }

  /** Every pair of seats of one rendering, from these two on. */
  function PairsFrom(seats: seq<Seat>, i: nat, j: nat, distance: nat): seq<Proposal>
    requires i < j
    decreases |seats| - i, |seats| - j
  {
    if i >= |seats| then []
    else if j >= |seats| then PairsFrom(seats, i + 1, i + 2, distance)
    else PairMoves(seats[i], seats[j], distance) + PairsFrom(seats, i, j + 1, distance)
  }

  lemma {:induction false} SinglesAreGood(root: Json, seats: seq<Seat>, distance: nat, radius: nat)
    requires (forall seat | seat in seats :: IsSeat(root, seat)) && 1 <= distance <= radius
    ensures AllGood(root, SingleMoves(seats, distance), radius)
  {
    hide IsSeat;
    if seats != [] {
      var n := |seats| - 1;
      SinglesAreGood(root, seats[..n], distance, radius);
      SingleIsGood(root, seats[n], 0 - distance, distance, radius);
      SingleIsGood(root, seats[n], distance, distance, radius);
    }
  }

  lemma {:induction false} SingleIsGood(root: Json, seat: Seat, delta: int, distance: nat, radius: nat)
    requires IsSeat(root, seat) && RetuneShell.Abs(delta) == distance && 1 <= distance <= radius
    ensures AllGood(root, SingleMove(seat, delta, distance), radius)
  {
    hide IsSeat;
    assert Travel([Move(seat, delta)]) == distance by {
      assert [Move(seat, delta)][..0] == [];
    }
  }

  lemma {:induction false} ShellMovesAreGood(root: Json, first: Seat, second: Seat, states: seq<RetuneShell.State>,
                                             distance: nat, radius: nat)
    requires IsSeat(root, first) && IsSeat(root, second) && !SamePlace(first, second) && 1 <= distance <= radius
    requires forall state | state in states :: RetuneShell.Distance((first.value, second.value), state) == distance
    ensures AllGood(root, ShellMoves(first, second, states, distance), radius)
  {
    hide IsSeat, SamePlace;
    if states != [] {
      var last := states[|states| - 1];
      ShellMovesAreGood(root, first, second, states[..|states| - 1], distance, radius);
      PairTravel(first, second, last);
      assert last in states;
    }
  }

  lemma {:induction false} PairTravel(first: Seat, second: Seat, state: RetuneShell.State)
    ensures Travel([Move(first, state.0 - first.value), Move(second, state.1 - second.value)]) ==
            RetuneShell.Distance((first.value, second.value), state)
  {
    var one, two := Move(first, state.0 - first.value), Move(second, state.1 - second.value);
    assert [one, two][..1] == [one] && [one][..0] == [];
    assert Travel([one]) == RetuneShell.Abs(one.delta);
  }

  lemma {:induction false} PairsAreGood(root: Json, seats: seq<Seat>, i: nat, j: nat, distance: nat, radius: nat)
    requires i < j && 1 <= distance <= radius && ApartSeats(seats) && forall seat | seat in seats :: IsSeat(root, seat)
    ensures AllGood(root, PairsFrom(seats, i, j, distance), radius)
    decreases |seats| - i, |seats| - j
  {
    hide IsSeat, SamePlace, AllGood, PairMoves;
    NoneIsGood(root, radius);
    if i < |seats| {
      if j >= |seats| {
        PairsAreGood(root, seats, i + 1, i + 2, distance, radius);
      } else {
        PairsAreGood(root, seats, i, j + 1, distance, radius);
        PairIsGood(root, seats[i], seats[j], distance, radius);
        GoodJoin(root, PairMoves(seats[i], seats[j], distance), PairsFrom(seats, i, j + 1, distance), radius);
      }
    }
  }

  lemma {:induction false} PairIsGood(root: Json, first: Seat, second: Seat, distance: nat, radius: nat)
    requires IsSeat(root, first) && IsSeat(root, second) && !SamePlace(first, second) && 1 <= distance <= radius
    ensures AllGood(root, PairMoves(first, second, distance), radius)
  {
    hide IsSeat, SamePlace, IsGoodMove;
    if first.rendering == second.rendering {
      var within := (state: RetuneShell.State) =>
        first.minimum <= state.0 <= first.maximum && second.minimum <= state.1 <= second.maximum;
      ShellMovesAreGood(root, first, second, RetuneShell.Shell((first.value, second.value), distance, within),
                        distance, radius);
    }
  }

  // ---- A moved candidate ------------------------------------------------------------------------

  lemma {:induction false} KindsSplit(changes: seq<Change>, n: nat)
    requires n <= |changes|
    requires forall k | 0 <= k < |changes| :: changes[k].kind == if k < n then Knob else Derived
    ensures OfKind(changes, Knob) == changes[..n] && OfKind(changes, Derived) == changes[n..]
    ensures OfKind(changes, Insert) == []
  {
    if changes != [] {
      var m := |changes| - 1;
      KindsSplit(changes[..m], if n <= m then n else m);
      assert changes[..m] + [changes[m]] == changes;
      if n <= m {
        assert changes[..m][..n] == changes[..n] && changes[..m][n..] + [changes[m]] == changes[n..];
      } else {
        assert changes[..n] == changes && changes[..m][..m] == changes[..m] && changes[n..] == []
            && changes[..m][m..] == [];
      }
    }
  }

  lemma {:induction false} MovementIsTravel(moves: seq<Move>)
    ensures forall k | 0 <= k < |moves| :: AreInts(KnobChanges(moves)[k])
    ensures Movement(KnobChanges(moves)) == Travel(moves)
  {
    if moves != [] {
      var n := |moves| - 1;
      MovementIsTravel(moves[..n]);
      assert KnobChanges(moves)[..n] == KnobChanges(moves[..n]);
      assert KnobChanges(moves)[n] == KnobChange(moves[n]);
    }
  }

  lemma {:induction false} SeatPathIsKnob(seat: Seat)
    requires IsKnobKey(seat)
    ensures IsKnobPath(SeatPath(seat)) && SeatPath(seat)[0] == Name("parameters")
  {
    SeatShape(seat);
    assert SeatPath(seat)[..6] == SequencePath(seat.rendering, seat.operation);
  }

  lemma {:induction false} LayoutPaths(key: Key, place: Place)
    ensures IsLayoutPath(LinePath(key.0, key.1, key.2)) && LinePath(key.0, key.1, key.2)[0] == Name("parameters")
    ensures IsLayoutPath(CanvasPath(place.0, place.1)) && CanvasPath(place.0, place.1)[0] == Name("parameters")
  {
    PathShape(key.0, key.1, key.2);
    PathShape(place.0, place.1, 0);
    assert LinePath(key.0, key.1, key.2)[..6] == SequencePath(key.0, key.1);
    assert CanvasPath(place.0, place.1)[..6] == SequencePath(place.0, place.1);
  }

  /** What every recorded change looks like. */
  predicate WellRecorded(change: Change, knob: bool) {
    && AreInts(change) && |change.path| >= 2 && change.path[0] == Name("parameters")
    && if knob then change.kind.Knob? && IsKnobPath(change.path) else change.kind.Derived? && IsLayoutPath(change.path)
  }

  lemma {:induction false} RecordedIsWell(root: Json, moves: seq<Move>, changes: seq<Change>, keys: seq<Key>,
                                          places: seq<Place>, k: nat)
    requires AreMoves(root, moves) && Recorded(moves, changes, keys, places) && k < |changes|
    ensures WellRecorded(changes[k], k < |moves|)
  {
    hide SeatPath, LinePath, CanvasPath, AllParted, IsKnobPath, IsLayoutPath;
    if k < |moves| {
      assert changes[k] == changes[..|moves|][k] == KnobChanges(moves)[k];
      SeatPathIsKnob(moves[k].seat);
      SeatShape(moves[k].seat);
    } else if IsLineChange(changes[k], keys) {
      var key: Key :| key in keys && changes[k].path == LinePath(key.0, key.1, key.2);
      LayoutPaths(key, (0, 0));
      PathShape(key.0, key.1, key.2);
    } else {
      var place: Place :| place in places && changes[k].path == CanvasPath(place.0, place.1);
      LayoutPaths((0, 0, 0), place);
      PathShape(place.0, place.1, 0);
    }
  }

  lemma {:induction false} PartedPathsDiffer(changes: seq<Change>)
    requires AllParted(changes)
    ensures DistinctPaths(changes)
  {
    forall a, b | 0 <= a < b < |changes| ensures changes[a].path != changes[b].path {
      assert Parted(changes[a].path, changes[b].path);
    }
  }

  lemma {:induction false} AreRecorded(root: Json, extentOf: Extent, moves: seq<Move>, moved: Json, tree: Json,
                                       changes: seq<Change>)
    returns (keys: seq<Key>, places: seq<Place>)
    requires Changes(root, extentOf, moves, false, moved, tree, changes)
    ensures Apply(root, changes) == Some(tree) && Recorded(moves, changes, keys, places)
  {
    keys, places :| Lists(root, extentOf, moves, false, moved, changes, keys, places);
  }

  /** The changes by kind: the knobs, and then the layout that follows. */
  lemma {:induction false} RecordedByKind(root: Json, moves: seq<Move>, changes: seq<Change>, keys: seq<Key>,
                                          places: seq<Place>)
    requires AreMoves(root, moves) && Recorded(moves, changes, keys, places)
    ensures |moves| <= |changes| && OfKind(changes, Knob) == changes[..|moves|] == KnobChanges(moves)
    ensures OfKind(changes, Derived) == changes[|moves|..] && OfKind(changes, Insert) == []
    ensures forall k | 0 <= k < |changes| :: WellRecorded(changes[k], k < |moves|)
  {
    hide IsKnobPath, IsLayoutPath, SeatPath, AllParted, IsSeat, OfKind, IsLineChange, IsCanvasChange;
    forall k | 0 <= k < |changes| ensures WellRecorded(changes[k], k < |moves|) {
      RecordedIsWell(root, moves, changes, keys, places, k);
    }
    KindsSplit(changes, |moves|);
  }

  /** A moved candidate passes the gate. */
  lemma {:induction false} MovePasses(root: Json, extentOf: Extent, codec: Codec, moves: seq<Move>, distance: nat,
                                      moved: Json, tree: Json, changes: seq<Change>)
    requires AreMoves(root, moves) && 1 <= |moves| <= 2 && Travel(moves) == distance
    requires Changes(root, extentOf, moves, false, moved, tree, changes)
    ensures PassesGate(codec, Candidate(tree, distance, changes))
  {
    hide Apply, IsKnobPath, IsLayoutPath, AreMoves, Changes, Recorded, OfKind, KnobChanges;
    var keys, places := AreRecorded(root, extentOf, moves, moved, tree, changes);
    RecordedByKind(root, moves, changes, keys, places);
    MovementIsTravel(moves);
  }

  /** Undoing a moved candidate gives the saved tree back. */
  lemma {:induction false} MoveUndoes(root: Json, extentOf: Extent, codec: Codec, moves: seq<Move>, distance: nat,
                                      moved: Json, tree: Json, changes: seq<Change>)
    requires AreMoves(root, moves) && 1 <= |moves| && 1 <= distance <= MAX_RETUNE_RADIUS
    requires Changes(root, extentOf, moves, false, moved, tree, changes)
    ensures Saved(codec, Candidate(tree, distance, changes)) == Some(root)
  {
    hide Apply, IsKnobPath, IsLayoutPath, SeatPath, AllParted, IsSeat, UndoAll, Undo, Changes;
    var keys, places := AreRecorded(root, extentOf, moves, moved, tree, changes);
    forall k | 0 <= k < |changes| ensures WellRecorded(changes[k], k < |moves|) {
      RecordedIsWell(root, moves, changes, keys, places, k);
    }
    forall change | change in changes
      ensures AreInts(change) && !change.kind.Insert? && |change.path| >= 2 && change.path[0] == Name("parameters") {
      var k :| 0 <= k < |changes| && changes[k] == change;
      assert WellRecorded(changes[k], k < |moves|);
    }
    PartedPathsDiffer(changes);
    UndoAllIsUndo(codec, tree, changes);
    UndoRestores(root, changes);
  }

  // ---- An inserted carrier --------------------------------------------------------------------------

  const CARRIER_PREFIX := "op_rbit_carrier_"

  /** `_boundary_anchor`: the file boundary, witnessed by the nearest tokens. */
  function Anchor(source: Source, placement: string): Option<Json> {
    var window := if source.tokens < SEAT_WINDOW then source.tokens else SEAT_WINDOW;
    if window < 1 then None
    else if placement == "end" then
      var anchor := map["a" := Int(0), "at" := Text("end"), "ctx" := Text(source.digest(source.tokens, window, 0))];
      Some(Object(if window != SEAT_WINDOW then anchor["b" := Int(window)] else anchor))
    else
      var anchor := map["at" := Text("start"), "b" := Int(0), "ctx" := Text(source.digest(0, 0, window))];
      Some(Object(if window != SEAT_WINDOW then anchor["a" := Int(window)] else anchor))
  }

  function CarrierRun(count: nat): Json {
    Object(map["count" := Int(count), "first" := Int(0), "k" := Text("fwd_run"), "line" := Int(1),
               "stem" := Text("RbCarrierRun"), "width" := Int(3)])
  }

  function CarrierGen(count: nat): Json {
    Object(map["items" := Array([CarrierRun(count)]), "k" := Text("seq"), "lines" := Int(count)])
  }

  /** `inserted_run_operation`, at an anchor. */
  function Carrier(anchor: Json, placement: string, count: nat): Json {
    Object(map["anchor" := anchor, "gen" := CarrierGen(count), "id" := Text(CARRIER_PREFIX + placement), "op" :=
               Text("insert")])
  }

  /** The operations of the first rendering, when it names a source and has an array of them. */
  function FirstOperations(root: Json): Option<(string, seq<Json>)> {
    var renderings := Renderings(root);
    if renderings.None? || renderings.value == [] then None
    else
      var path, operations := Field(renderings.value[0], "path"), Field(renderings.value[0], "operations");
      if path.None? || !path.value.Text? || operations.None? || !operations.value.Array? then None
      else Some((path.value.text, operations.value.items))
  }

  predicate IsInserted(operation: Json) {
    var id := Field(operation, "id");
    id.Some? && id.value.Text? && CARRIER_PREFIX <= id.value.text
  }

  function Insertion(source: Source, placement: string, count: nat): seq<Proposal> {
    var anchor := Anchor(source, placement);
    if anchor.None? then [] else [Inserting(Carrier(anchor.value, placement, count), count)]
  }

  /** `_overlay_insertion_candidates`: at the end, then at the start, unless a carrier is already there. */
  function Insertions(root: Json, carriers: Option<map<string, Source>>, count: nat): seq<Proposal> {
    var first := FirstOperations(root);
    if carriers.None? || first.None? || first.value.0 !in carriers.value
       || (exists i :: 0 <= i < |first.value.1| && IsInserted(first.value.1[i]))
    then []
    else
      var source := carriers.value[first.value.0];
      Insertion(source, "end", count) + Insertion(source, "start", count)
  }

  function InsertCandidate(root: Json, codec: Codec, operation: Json, count: nat): Option<Candidate> {
    var operations := Get(root, OperationsPath(0));
    if operations.None? || !operations.value.Array? then None
    else
      var items := operations.value.items;
      Some(Candidate(Put(root, OperationsPath(0), Array(items + [operation])), count,
                     [Change(OperationsPath(0) + [At(|items|)], Text(""), Text(codec.encode(operation)), Insert)]))
  }

  ghost predicate IsGoodInsert(root: Json, proposal: Proposal) {
    && proposal.Inserting? && IsCarrier(proposal.operation, proposal.count) && FloatFree(proposal.operation)
         && 1 <= proposal.count <= MAX_INSERTED_RUN_COUNT
    && Get(root, OperationsPath(0)).Some? && Get(root, OperationsPath(0)).value.Array?
  }

  lemma AnchorIsPlain(source: Source, placement: string)
    requires placement in {"end", "start"} && Anchor(source, placement).Some?
    ensures FloatFree(Anchor(source, placement).value)
    ensures FieldOf(Anchor(source, placement).value, "at") == Some(Text(placement))
  {
  }

  lemma RunIsPlain(count: nat)
    ensures FloatFree(CarrierRun(count)) && FieldOf(CarrierRun(count), "k") == Some(Text("fwd_run"))
    ensures Holds(CarrierRun(count), "count", count)
  {
  }

  lemma {:induction false} GenIsPlain(count: nat)
    ensures FloatFree(CarrierGen(count)) && FieldOf(CarrierGen(count), "k") == Some(Text("seq"))
    ensures Holds(CarrierGen(count), "lines", count)
    ensures FieldOf(CarrierGen(count), "items") == Some(Array([CarrierRun(count)]))
  {
    hide CarrierRun;
    RunIsPlain(count);
    assert FloatFree(Array([CarrierRun(count)]));
  }

  lemma {:induction false} CarrierIsPlain(anchor: Json, placement: string, count: nat)
    requires FloatFree(anchor)
    ensures FloatFree(Carrier(anchor, placement, count))
  {
    hide CarrierGen;
    GenIsPlain(count);
  }

  lemma {:induction false} CarrierHasShape(anchor: Json, placement: string, count: nat)
    requires FieldOf(anchor, "at") in {Some(Text("end")), Some(Text("start"))}
    ensures IsCarrier(Carrier(anchor, placement, count), count)
  {
    hide CarrierRun, CarrierGen, Holds, FloatFree;
    RunIsPlain(count);
    GenIsPlain(count);
    assert Carrier(anchor, placement, count).fields.Keys == {"anchor", "gen", "id", "op"};
  }

  lemma {:induction false} CarrierIsCarrier(source: Source, placement: string, count: nat)
    requires placement in {"end", "start"} && Anchor(source, placement).Some?
    ensures IsCarrier(Carrier(Anchor(source, placement).value, placement, count), count)
    ensures FloatFree(Carrier(Anchor(source, placement).value, placement, count))
  {
    hide Anchor, Carrier, IsCarrier, FloatFree;
    AnchorIsPlain(source, placement);
    CarrierIsPlain(Anchor(source, placement).value, placement, count);
    CarrierHasShape(Anchor(source, placement).value, placement, count);
  }

  lemma {:induction false} InsertionsAreGood(root: Json, carriers: Option<map<string, Source>>, count: nat)
    requires 1 <= count <= MAX_INSERTED_RUN_COUNT
    ensures forall proposal | proposal in Insertions(root, carriers, count) :: IsGoodInsert(root, proposal)
  {
    hide IsCarrier, Carrier, Anchor, FloatFree;
    if Insertions(root, carriers, count) != [] {
      var start := [Name("parameters"), Name("renderings")];
      Down(root, start, At(0));
      Down(root, start + [At(0)], Name("operations"));
      assert start + [At(0)] + [Name("operations")] == OperationsPath(0);
      var source := carriers.value[FirstOperations(root).value.0];
      if Anchor(source, "end").Some? {
        CarrierIsCarrier(source, "end", count);
      }
      if Anchor(source, "start").Some? {
        CarrierIsCarrier(source, "start", count);
      }
    }
  }

  lemma {:induction false} OneInsert(change: Change)
    requires change.kind.Insert?
    ensures OfKind([change], Insert) == [change] && OfKind([change], Knob) == [] && OfKind([change], Derived) == []
  {
    assert [change][..0] == [];
  }

  /** Removing an inserted operation restores the operations. */
  lemma {:induction false} RemovesInserted(root: Json, codec: Codec, items: seq<Json>, operation: Json)
    requires RoundTrips(codec) && FloatFree(operation) && Get(root, OperationsPath(0)) == Some(Array(items))
    ensures
      var change := Change(OperationsPath(0) + [At(|items|)], Text(""), Text(codec.encode(operation)), Insert);
      RemoveInserted(codec, Put(root, OperationsPath(0), Array(items + [operation])), change) == Some(root)
  {
    var path := OperationsPath(0) + [At(|items|)];
    assert path[..4] == OperationsPath(0) && (items + [operation])[..|items|] == items;
    PythonEqualToItself(operation);
    PutBack(root, OperationsPath(0), Array(items + [operation]));
  }

  /** An inserted carrier passes the gate, and undoing it gives the saved tree back. */
  lemma {:induction false} InsertIsGood(root: Json, codec: Codec, proposal: Proposal)
    requires IsGoodInsert(root, proposal) && RoundTrips(codec)
    ensures
      var candidate := InsertCandidate(root, codec, proposal.operation, proposal.count);
      candidate.Some? && PassesGate(codec, candidate.value) && Saved(codec, candidate.value) == Some(root)
  {
    hide IsCarrier, OfKind, RemoveInserted, OperationsPath;
    var candidate := InsertCandidate(root, codec, proposal.operation, proposal.count).value;
    var change := candidate.changes[0];
    OneInsert(change);
    RemovesInserted(root, codec, Get(root, OperationsPath(0)).value.items, proposal.operation);
    assert change in candidate.changes && change.kind.Insert?;
    UndoesOne(codec, candidate.tree, change);
    assert candidate.changes == [change];
  }

  lemma {:induction false} UndoesOne(codec: Codec, value: Json, change: Change)
    ensures UndoAll(codec, value, [change]) == UndoChange(codec, value, change)
  {
    assert [change][..0] == [];
  }

  // ---- The enumeration ------------------------------------------------------------------------------

  ghost predicate IsGood(root: Json, proposal: Proposal, radius: nat) {
    IsGoodMove(root, proposal, radius) || IsGoodInsert(root, proposal)
  }

  /** Per distance, every one-knob move and then the insertions of that length. */
  function Tiers(root: Json, seats: seq<Seat>, carriers: Option<map<string, Source>>, radius: nat): seq<Proposal> {
    if radius == 0 then []
    else Tiers(root, seats, carriers, radius - 1) + SingleMoves(seats, radius) + Insertions(root, carriers, radius)
  }

  /** Two-knob moves, nearest first. */
  function PairTiers(seats: seq<Seat>, radius: nat): seq<Proposal> {
    if radius < 2 then [] else PairTiers(seats, radius - 1) + PairsFrom(seats, 0, 1, radius)
  }

  /** Longer insertions, beyond the radius. */
  function LongInsertions(root: Json, carriers: Option<map<string, Source>>, radius: nat, longest: nat): seq<Proposal> {
    if longest <= radius then []
        else LongInsertions(root, carriers, radius, longest - 1) + Insertions(root, carriers, longest)
  }

  /** Everything the enumeration tries, in its order. */
  function Proposals(root: Json, seats: seq<Seat>, carriers: Option<map<string, Source>>, radius: nat): seq<Proposal> {
    Tiers(root, seats, carriers, radius) + PairTiers(seats, radius)
        + LongInsertions(root, carriers, radius, MAX_INSERTED_RUN_COUNT)
  }

  ghost predicate AllTried(root: Json, proposals: seq<Proposal>, radius: nat) {
    forall proposal | proposal in proposals :: IsGood(root, proposal, radius)
  }

  lemma {:induction false} TriedJoin(root: Json, left: seq<Proposal>, right: seq<Proposal>, radius: nat)
    requires AllTried(root, left, radius) && AllTried(root, right, radius)
    ensures AllTried(root, left + right, radius)
  {
    hide IsGood;
  }

  lemma {:induction false} MovesAreTried(root: Json, proposals: seq<Proposal>, near: nat, radius: nat)
    requires AllGood(root, proposals, near) && near <= radius
    ensures AllTried(root, proposals, radius)
  {
    hide AreMoves, Travel;
    forall proposal | proposal in proposals ensures IsGood(root, proposal, radius) {
      assert IsGoodMove(root, proposal, near);
    }
  }

  lemma {:induction false} InsertionsAreTried(root: Json, carriers: Option<map<string, Source>>, count: nat,
                                              radius: nat)
    requires 1 <= count <= MAX_INSERTED_RUN_COUNT
    ensures AllTried(root, Insertions(root, carriers, count), radius)
  {
    hide Insertions, IsGoodInsert;
    InsertionsAreGood(root, carriers, count);
  }

  lemma {:induction false} TiersAreTried(root: Json, seats: seq<Seat>, carriers: Option<map<string, Source>>,
                                         near: nat, radius: nat)
    requires (forall seat | seat in seats :: IsSeat(root, seat)) && near <= radius <= MAX_INSERTED_RUN_COUNT
    ensures AllTried(root, Tiers(root, seats, carriers, near), radius)
  {
    hide AllTried, AllGood, IsSeat, SingleMoves, Insertions;
    if near == 0 {
      NothingTried(root, radius);
    } else {
      TiersAreTried(root, seats, carriers, near - 1, radius);
      SinglesAreGood(root, seats, near, near);
      MovesAreTried(root, SingleMoves(seats, near), near, radius);
      InsertionsAreTried(root, carriers, near, radius);
      TriedJoin(root, Tiers(root, seats, carriers, near - 1), SingleMoves(seats, near), radius);
      TriedJoin(root, Tiers(root, seats, carriers, near - 1) + SingleMoves(seats, near),
                Insertions(root, carriers, near), radius);
    }
  }

  lemma NothingTried(root: Json, radius: nat)
    ensures AllTried(root, [], radius)
  {
  }

  lemma {:induction false} PairTiersAreTried(root: Json, seats: seq<Seat>, near: nat, radius: nat)
    requires (forall seat | seat in seats :: IsSeat(root, seat)) && ApartSeats(seats) && near <= radius
    ensures AllTried(root, PairTiers(seats, near), radius)
  {
    hide AllTried, AllGood, IsSeat, PairsFrom, ApartSeats;
    if near < 2 {
      NothingTried(root, radius);
    } else {
      PairTiersAreTried(root, seats, near - 1, radius);
      PairsAreGood(root, seats, 0, 1, near, near);
      MovesAreTried(root, PairsFrom(seats, 0, 1, near), near, radius);
      TriedJoin(root, PairTiers(seats, near - 1), PairsFrom(seats, 0, 1, near), radius);
    }
  }

  lemma {:induction false} LongInsertionsAreTried(root: Json, carriers: Option<map<string, Source>>, radius: nat,
                                                  longest: nat)
    requires longest <= MAX_INSERTED_RUN_COUNT
    ensures AllTried(root, LongInsertions(root, carriers, radius, longest), radius)
  {
    hide AllTried, Insertions;
    if longest <= radius {
      NothingTried(root, radius);
    } else {
      LongInsertionsAreTried(root, carriers, radius, longest - 1);
      InsertionsAreTried(root, carriers, longest, radius);
      TriedJoin(root, LongInsertions(root, carriers, radius, longest - 1), Insertions(root, carriers, longest), radius);
    }
  }

  lemma {:induction false} ProposalsAreTried(root: Json, carriers: Option<map<string, Source>>, radius: nat)
    requires KnobSeats(root).Some? && radius <= MAX_RETUNE_RADIUS
    ensures AllTried(root, Proposals(root, KnobSeats(root).value, carriers, radius), radius)
  {
    hide AllTried, IsSeat, Tiers, PairTiers, LongInsertions, KnobSeats, ApartSeats;
    var seats := KnobSeats(root).value;
    SeatsAreKnobs(root);
    TiersAreTried(root, seats, carriers, radius, radius);
    PairTiersAreTried(root, seats, radius, radius);
    LongInsertionsAreTried(root, carriers, radius, MAX_INSERTED_RUN_COUNT);
    TriedJoin(root, Tiers(root, seats, carriers, radius), PairTiers(seats, radius), radius);
    TriedJoin(root, Tiers(root, seats, carriers, radius) + PairTiers(seats, radius),
              LongInsertions(root, carriers, radius, MAX_INSERTED_RUN_COUNT), radius);
  }

  /** A candidate is offered for a proposal, or the moved layout is impossible. */
  ghost predicate Decides(root: Json, extentOf: Extent, codec: Codec, proposal: Proposal, outcome: Option<Candidate>) {
    match proposal
    case Moving(moves, distance) =>
      if outcome.Some? then
        && outcome.value.distance == distance
        && exists moved :: MovedTo(root, extentOf, moves, false, moved, outcome.value.tree)
                           && Changes(root, extentOf, moves, false, moved, outcome.value.tree, outcome.value.changes)
      else
        LineDrops(root, extentOf, moves)
        || exists moved :: Laid(root, extentOf, moves, moved) && CanvasFails(root, extentOf, moves, false, moved)
    case Inserting(operation, count) => outcome == InsertCandidate(root, codec, operation, count)
  }

  /** The candidate passes the gate, and undoing it gives the saved tree back. */
  predicate Reviewable(root: Json, codec: Codec, candidate: Candidate) {
    PassesGate(codec, candidate) && Saved(codec, candidate) == Some(root)
  }

  method Decide(root: Json, extentOf: Extent, codec: Codec, proposal: Proposal, ghost radius: nat)
    returns (outcome: Option<Candidate>)
    requires IsGood(root, proposal, radius) && radius <= MAX_RETUNE_RADIUS && RoundTrips(codec)
    ensures Decides(root, extentOf, codec, proposal, outcome)
    ensures outcome.Some? ==> Reviewable(root, codec, outcome.value)
  {
    hide AreMoves, Changes, MovedTo, LineDrops, CanvasFails, Laid, PassesGate, Saved, InsertCandidate, Travel;
    if proposal.Moving? {
      var result, moved := ApplyMoves(root, extentOf, proposal.moves, false);
      if result.None? {
        return None;
      }
      MovePasses(root, extentOf, codec, proposal.moves, proposal.distance, moved, result.value.0, result.value.1);
      MoveUndoes(root, extentOf, codec, proposal.moves, proposal.distance, moved, result.value.0, result.value.1);
      outcome := Some(Candidate(result.value.0, proposal.distance, result.value.1));
      assert MovedTo(root, extentOf, proposal.moves, false, moved, outcome.value.tree);
    } else {
      InsertIsGood(root, codec, proposal);
      outcome := InsertCandidate(root, codec, proposal.operation, proposal.count);
    }
  }

  function Offered(outcomes: seq<Option<Candidate>>): seq<Candidate> {
    if outcomes == [] then []
    else
      var last := outcomes[|outcomes| - 1];
      Offered(outcomes[..|outcomes| - 1]) + if last.Some? then [last.value] else []
  }

  /**
   `_overlay_candidates`: the proposals are decided in order until the limit is reached, and every
   candidate offered passes the gate and undoes to the saved tree.
   */
  method EnumerateOverlay(root: Json, extentOf: Extent, codec: Codec, carriers: Option<map<string, Source>>,
                          radius: nat, limit: nat)
    returns (candidates: Option<seq<Candidate>>, ghost outcomes: seq<Option<Candidate>>)
    requires RoundTrips(codec) && radius <= MAX_RETUNE_RADIUS && limit >= 1
    ensures candidates.Some? <==> KnobSeats(root).Some?
    ensures candidates.Some? ==>
              var proposals := Proposals(root, KnobSeats(root).value, carriers, radius);
              && |outcomes| <= |proposals| && candidates.value == Offered(outcomes)
              && (forall k | 0 <= k < |outcomes| :: Decides(root, extentOf, codec, proposals[k], outcomes[k]))
              && |candidates.value| <= limit && (|candidates.value| == limit || |outcomes| == |proposals|)
    ensures candidates.Some? ==> forall candidate | candidate in candidates.value :: Reviewable(root, codec, candidate)
  {
    hide KnobSeats, Proposals, IsGood, Decides, Reviewable;
    outcomes := [];
    var seats := KnobSeats(root);
    if seats.None? {
      return None, [];
    }
    var proposals := Proposals(root, seats.value, carriers, radius);
    ProposalsAreTried(root, carriers, radius);
    var found: seq<Candidate> := [];
    for k := 0 to |proposals|
      invariant |outcomes| == k && found == Offered(outcomes) && |found| < limit
      invariant forall j | 0 <= j < k :: Decides(root, extentOf, codec, proposals[j], outcomes[j])
      invariant forall candidate | candidate in found :: Reviewable(root, codec, candidate)
    {
      assert proposals[k] in proposals;
      var outcome := Decide(root, extentOf, codec, proposals[k], radius);
      assert (outcomes + [outcome])[..k] == outcomes;
      outcomes := outcomes + [outcome];
      if outcome.Some? {
        found := found + [outcome.value];
        if |found| == limit {
          return Some(found), outcomes;
        }
      }
    }
    candidates := Some(found);
  }
}
