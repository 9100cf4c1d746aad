/** Moving knobs while keeping the line layout (src/reprobit/classic_donor_retune_candidates.py). */
module OverlayMoves {
  import opened Options
  import opened JsonValues
  import opened JsonPaths
  import opened OverlayKnobs
  import opened Sorting

  datatype Move = Move(seat: Seat, delta: int)

  datatype Layout = Layout(canvas: int, extent: int)

  /** A sequence item: rendering, operation, item. */
  type Key = (nat, nat, nat)

  /** The rendered extent of a generator, unless it cannot render. */
  type Extent = Json -> Option<int>

  function IntAt(tree: Json, path: Path): Option<int> {
    var found := Get(tree, path);
    if found.Some? && found.value.Int? then Some(found.value.number) else None
  }

  function LineAt(tree: Json, key: Key): Option<int> {
    IntAt(tree, LinePath(key.0, key.1, key.2))
  }

  function CanvasAt(tree: Json, r: nat, o: nat): Option<int> {
    IntAt(tree, CanvasPath(r, o))
  }

  /** `_sequence_layouts`: the layout of one sequence, when it has an integer canvas and renders. */
  function LayoutAt(tree: Json, extentOf: Extent, r: nat, o: nat): Option<Layout> {
    var gen, canvas := Get(tree, SequencePath(r, o)), CanvasAt(tree, r, o);
    if gen.None? || Field(gen.value, "k") != Some(Text("seq")) || canvas.None? then None
    else
      var extent := extentOf(gen.value);
      if extent.None? then None else Some(Layout(canvas.value, extent.value))
  }

  // ---- Paths that part ----------------------------------------------------------------------

  predicate Parted(path: Path, other: Path) {
    exists k :: 0 <= k < |path| && k < |other| && path[k] != other[k]
  }

  lemma PartedAt(path: Path, other: Path, k: nat)
    requires k < |path| && k < |other| && path[k] != other[k]
    ensures Parted(path, other) && Parted(other, path)
  {
  }

  /** Replacements elsewhere do not show at this path. */
  lemma {:induction false} ApplyAside(saved: Json, changes: seq<Change>, path: Path)
    requires Apply(saved, changes).Some? && forall change | change in changes :: Parted(change.path, path)
    ensures Get(Apply(saved, changes).value, path) == Get(saved, path)
  {
    if changes != [] {
      var last, earlier := changes[|changes| - 1], changes[..|changes| - 1];
      ApplyAside(saved, earlier, path);
      assert last in changes;
      var k :| 0 <= k < |last.path| && k < |path| && last.path[k] != path[k];
      GetAside(Apply(saved, earlier).value, last.path, last.after, path, k);
    }
  }

  lemma {:induction false} ApplyOneMore(saved: Json, changes: seq<Change>, change: Change)
    requires Apply(saved, changes).Some? && Get(Apply(saved, changes).value, change.path) == Some(change.before)
    ensures Apply(saved, changes + [change]) == Some(Put(Apply(saved, changes).value, change.path, change.after))
  {
    assert (changes + [change])[..|changes|] == changes;
  }

  lemma PathShape(r: nat, o: nat, i: nat)
    ensures |CanvasPath(r, o)| == 7 && |LinePath(r, o, i)| == 9
    ensures CanvasPath(r, o)[2] == At(r) && CanvasPath(r, o)[4] == At(o) && CanvasPath(r, o)[6] == Name("lines")
    ensures LinePath(r, o, i)[2] == At(r) && LinePath(r, o, i)[4] == At(o) && LinePath(r, o, i)[6] == Name("items")
    ensures LinePath(r, o, i)[7] == At(i) && LinePath(r, o, i)[8] == Name("line")
  {
  }

  lemma SeatShape(seat: Seat)
    ensures |SeatPath(seat)| == if seat.member.None? then 9 else 11
    ensures SeatPath(seat)[2] == At(seat.rendering) && SeatPath(seat)[4] == At(seat.operation)
    ensures SeatPath(seat)[6] == Name("items") && SeatPath(seat)[7] == At(seat.item)
    ensures SeatPath(seat)[8] == if seat.member.None? then Name(seat.key) else Name("members")
    ensures seat.member.Some? ==> SeatPath(seat)[9] == At(seat.member.value) && SeatPath(seat)[10] == Name("count")
  {
  }

  predicate IsKnobKey(seat: Seat) {
    seat.member.None? ==> seat.key in {"count", "n"}
  }

  lemma {:induction false} LinePartsFromSeat(seat: Seat, key: Key)
    requires IsKnobKey(seat)
    ensures Parted(SeatPath(seat), LinePath(key.0, key.1, key.2))
  {
    SeatShape(seat);
    PathShape(key.0, key.1, key.2);
    PartedAt(SeatPath(seat), LinePath(key.0, key.1, key.2), 8);
  }

  lemma {:induction false} CanvasPartsFromSeat(seat: Seat, r: nat, o: nat)
    ensures Parted(SeatPath(seat), CanvasPath(r, o))
  {
    SeatShape(seat);
    PathShape(r, o, 0);
    PartedAt(SeatPath(seat), CanvasPath(r, o), 6);
  }

  lemma {:induction false} CanvasPartsFromLine(key: Key, r: nat, o: nat)
    ensures Parted(LinePath(key.0, key.1, key.2), CanvasPath(r, o))
  {
    PathShape(key.0, key.1, key.2);
    PathShape(r, o, 0);
    PartedAt(LinePath(key.0, key.1, key.2), CanvasPath(r, o), 6);
  }

  lemma {:induction false} LinesPart(key: Key, other: Key)
    requires key != other
    ensures Parted(LinePath(key.0, key.1, key.2), LinePath(other.0, other.1, other.2))
  {
    PathShape(key.0, key.1, key.2);
    PathShape(other.0, other.1, other.2);
    PartedAt(LinePath(key.0, key.1, key.2), LinePath(other.0, other.1, other.2), if key.0 != other.0 then 2
             else if key.1 != other.1 then 4 else 7);
  }

  lemma {:induction false} CanvasesPart(r: nat, o: nat, s: nat, p: nat)
    requires r != s || o != p
    ensures Parted(CanvasPath(r, o), CanvasPath(s, p))
  {
    PathShape(r, o, 0);
    PathShape(s, p, 0);
    PartedAt(CanvasPath(r, o), CanvasPath(s, p), if r != s then 2 else 4);
  }

  lemma {:induction false} SeatsPart(seat: Seat, other: Seat)
    requires !SamePlace(seat, other) && IsKnobKey(seat) && IsKnobKey(other)
    ensures Parted(SeatPath(seat), SeatPath(other))
  {
    SeatShape(seat);
    SeatShape(other);
    PartedAt(SeatPath(seat), SeatPath(other),
             if seat.rendering != other.rendering then 2
             else if seat.operation != other.operation then 4
             else if seat.item != other.item then 7
             else if seat.member.None? || other.member.None? then 8 else 9);
  }

  // ---- Knobs ----------------------------------------------------------------------------------

  /** The moved seat pushes this item: a later line of the same sequence, whose layout is known. */
  predicate Pushes(root: Json, extentOf: Extent, seat: Seat, key: Key) {
    && seat.rendering == key.0 && seat.operation == key.1 && seat.item != key.2
    && LayoutAt(root, extentOf, key.0, key.1).Some?
    && LineAt(root, key).Some? && LineAt(root, key).value > seat.line
  }

  /** How far the moves push an item. */
  function ShiftOf(root: Json, extentOf: Extent, moves: seq<Move>, key: Key): int {
    if moves == [] then 0
    else
      var last := moves[|moves| - 1];
      ShiftOf(root, extentOf, moves[..|moves| - 1], key) + if Pushes(root, extentOf, last.seat, key) then last.delta
          else 0
  }

  /** The sequence has an integer canvas and renders. */
  predicate IsLaidOut(tree: Json, extentOf: Extent, r: nat, o: nat) {
    var gen, canvas := Get(tree, SequencePath(r, o)), Get(tree, SequencePath(r, o) + [Name("lines")]);
    && Get(tree, SequencePath(r, o) + [Name("k")]) == Some(Text("seq"))
    && canvas.Some? && canvas.value.Int? && gen.Some? && extentOf(gen.value).Some?
  }

  /** A layout is known exactly for a sequence with an integer canvas that renders, and holds both. */
  lemma {:induction false} LayoutIs(tree: Json, extentOf: Extent, r: nat, o: nat)
    ensures LayoutAt(tree, extentOf, r, o).Some? <==> IsLaidOut(tree, extentOf, r, o)
    ensures IsLaidOut(tree, extentOf, r, o) ==>
              LayoutAt(tree, extentOf, r, o).value ==
              Layout(Get(tree, SequencePath(r, o) + [Name("lines")]).value.number,
                     extentOf(Get(tree, SequencePath(r, o)).value).value)
  {
    Down(tree, SequencePath(r, o), Name("k"));
  }

  /** One move pushes the later items of its own sequence, when it is laid out, and nothing else. */
  lemma {:induction false} ShiftOfOne(root: Json, extentOf: Extent, move: Move, key: Key)
    ensures
      var line := Get(root, ItemPath(key.0, key.1, key.2) + [Name("line")]);
      ShiftOf(root, extentOf, [move], key) ==
      if move.seat.rendering == key.0 && move.seat.operation == key.1 && move.seat.item != key.2
         && IsLaidOut(root, extentOf, key.0, key.1) && line.Some? && line.value.Int?
              && line.value.number > move.seat.line
      then move.delta else 0
  {
    hide LayoutAt, IsLaidOut;
    assert [move][..0] == [];
    LayoutIs(root, extentOf, key.0, key.1);
  }

  /** Moves push independently of each other. */
  lemma {:induction false} ShiftsAdd(root: Json, extentOf: Extent, moves: seq<Move>, more: seq<Move>, key: Key)
    ensures ShiftOf(root, extentOf, moves + more, key) ==
            ShiftOf(root, extentOf, moves, key) + ShiftOf(root, extentOf, more, key)
  {
    hide Pushes;
    if more == [] {
      assert moves + more == moves;
    } else {
      var n := |more| - 1;
      assert (moves + more)[..|moves| + n] == moves + more[..n];
      ShiftsAdd(root, extentOf, moves, more[..n], key);
    }
  }

  function ShiftIn(shifts: map<Key, int>, key: Key): int {
    if key in shifts then shifts[key] else 0
  }

  predicate AreMoves(root: Json, moves: seq<Move>) {
    && (forall k | 0 <= k < |moves| :: IsSeat(root, moves[k].seat))
    && forall k, m | 0 <= k < m < |moves| :: !SamePlace(moves[k].seat, moves[m].seat)
  }

  function KnobChange(move: Move): Change {
    Change(SeatPath(move.seat), Int(move.seat.value), Int(move.seat.value + move.delta), Knob)
  }

  function KnobChanges(moves: seq<Move>): seq<Change> {
    seq(|moves|, k requires 0 <= k < |moves| => KnobChange(moves[k]))
  }

  /** The first knob changes do not show at a path that parts from theirs. */
  lemma {:induction false} KnobsAside(root: Json, moves: seq<Move>, n: nat, path: Path)
    requires n <= |moves| && Apply(root, KnobChanges(moves)[..n]).Some?
    requires forall k | 0 <= k < n :: Parted(SeatPath(moves[k].seat), path)
    ensures Get(Apply(root, KnobChanges(moves)[..n]).value, path) == Get(root, path)
  {
    var changes := KnobChanges(moves)[..n];
    forall change | change in changes ensures Parted(change.path, path) {
      var k :| 0 <= k < n && changes[k] == change;
    }
    ApplyAside(root, changes, path);
  }

  /** What the layout reads is as it was. */
  ghost predicate SameLayout(root: Json, tree: Json) {
    && (forall key: Key :: LineAt(tree, key) == LineAt(root, key))
    && forall r: nat, o: nat :: CanvasAt(tree, r, o) == CanvasAt(root, r, o)
  }

  lemma {:induction false} KnobsLeaveLayout(root: Json, moves: seq<Move>, n: nat)
    requires AreMoves(root, moves) && n <= |moves| && Apply(root, KnobChanges(moves)[..n]).Some?
    ensures SameLayout(root, Apply(root, KnobChanges(moves)[..n]).value)
  {
    hide Parted, SeatPath, LinePath, CanvasPath;
    forall key: Key ensures LineAt(Apply(root, KnobChanges(moves)[..n]).value, key) == LineAt(root, key) {
      forall k | 0 <= k < n ensures Parted(SeatPath(moves[k].seat), LinePath(key.0, key.1, key.2)) {
        LinePartsFromSeat(moves[k].seat, key);
      }
      KnobsAside(root, moves, n, LinePath(key.0, key.1, key.2));
    }
    forall r: nat, o: nat ensures CanvasAt(Apply(root, KnobChanges(moves)[..n]).value, r, o) == CanvasAt(root, r, o) {
      forall k | 0 <= k < n ensures Parted(SeatPath(moves[k].seat), CanvasPath(r, o)) {
        CanvasPartsFromSeat(moves[k].seat, r, o);
      }
      KnobsAside(root, moves, n, CanvasPath(r, o));
    }
  }

  /** The next knob still has its saved value. */
  lemma {:induction false} NextKnobWaits(root: Json, moves: seq<Move>, n: nat)
    requires AreMoves(root, moves) && n < |moves| && Apply(root, KnobChanges(moves)[..n]).Some?
    ensures Get(Apply(root, KnobChanges(moves)[..n]).value, SeatPath(moves[n].seat)) == Some(Int(moves[n].seat.value))
  {
    hide Parted, SeatPath;
    forall k | 0 <= k < n ensures Parted(SeatPath(moves[k].seat), SeatPath(moves[n].seat)) {
      SeatsPart(moves[k].seat, moves[n].seat);
    }
    KnobsAside(root, moves, n, SeatPath(moves[n].seat));
  }

  // ---- Shifts -----------------------------------------------------------------------------------

  function ItemCount(tree: Json, r: nat, o: nat): nat {
    var items := Get(tree, SequencePath(r, o) + [Name("items")]);
    if items.Some? && items.value.Array? then |items.value.items| else 0
  }

  lemma {:induction false} LineIsCounted(tree: Json, key: Key)
    requires LineAt(tree, key).Some?
    ensures key.2 < ItemCount(tree, key.0, key.1)
  {
    var path := SequencePath(key.0, key.1) + [Name("items")];
    Down(tree, path, At(key.2));
    assert path + [At(key.2)] == ItemPath(key.0, key.1, key.2);
    Down(tree, ItemPath(key.0, key.1, key.2), Name("line"));
  }

  /** The item loop: every later item of the sequence moves with the knob. */
  method PushItems(root: Json, extentOf: Extent, tree: Json, move: Move, shifts: map<Key, int>)
    returns (pushed: map<Key, int>)
    requires SameLayout(root, tree) && LayoutAt(root, extentOf, move.seat.rendering, move.seat.operation).Some?
    requires forall key: Key | key in shifts :: LineAt(root, key).Some?
    ensures forall key: Key ::
              ShiftIn(pushed, key) == ShiftIn(shifts, key) + if Pushes(root, extentOf, move.seat, key) then move.delta
                  else 0
    ensures forall key: Key | key in pushed :: LineAt(root, key).Some?
  {
    var r, o := move.seat.rendering, move.seat.operation;
    pushed := shifts;
    for i := 0 to ItemCount(tree, r, o)
      invariant forall key: Key ::
                  ShiftIn(pushed, key) == ShiftIn(shifts, key) + if Pushes(root, extentOf, move.seat, key)
                      && key.2 < i then move.delta else 0
      invariant forall key: Key | key in pushed :: LineAt(root, key).Some?
    {
      var key: Key := (r, o, i);
      var line := LineAt(tree, key);
      assert line == LineAt(root, key);
      if i != move.seat.item && line.Some? && line.value > move.seat.line {
        pushed := pushed[key := ShiftIn(pushed, key) + move.delta];
      }
    }
    forall key: Key | Pushes(root, extentOf, move.seat, key) ensures key.2 < ItemCount(tree, r, o) {
      LineIsCounted(tree, key);
    }
  }

  /** Some move changes a sequence whose layout is known. */
  predicate Touched(root: Json, extentOf: Extent, moves: seq<Move>, r: nat, o: nat) {
    LayoutAt(root, extentOf, r, o).Some? && exists k ::
        0 <= k < |moves| && moves[k].seat.rendering == r && moves[k].seat.operation == o
  }

  /** The first loop of `_apply_overlay_moves`. */
  method MoveKnobs(root: Json, extentOf: Extent, moves: seq<Move>)
    returns (tree: Json, changes: seq<Change>, shifts: map<Key, int>, touched: set<(nat, nat)>)
    requires AreMoves(root, moves)
    ensures changes == KnobChanges(moves) && Apply(root, changes) == Some(tree) && SameLayout(root, tree)
    ensures forall key: Key :: ShiftIn(shifts, key) == ShiftOf(root, extentOf, moves, key)
    ensures forall key: Key | key in shifts :: LineAt(root, key).Some?
    ensures forall r: nat, o: nat :: (r, o) in touched <==> Touched(root, extentOf, moves, r, o)
  {
    hide Pushes, SeatPath, LineAt, CanvasAt, LayoutAt, SameLayout, Apply, Touched, IsSeat;
    tree, changes, shifts, touched := root, [], map[], {};
    ghost var all := KnobChanges(moves);
    NothingMovedYet(root, extentOf);
    for k := 0 to |moves|
      invariant changes == all[..k] && Apply(root, changes) == Some(tree)
      invariant forall key: Key :: ShiftIn(shifts, key) == ShiftOf(root, extentOf, moves[..k], key)
      invariant forall key: Key | key in shifts :: LineAt(root, key).Some?
      invariant forall r: nat, o: nat :: (r, o) in touched <==> Touched(root, extentOf, moves[..k], r, o)
    {
      var move := moves[k];
      var r, o := move.seat.rendering, move.seat.operation;
      assert moves[..k + 1][..k] == moves[..k] && moves[..k + 1][k] == move;
      NextKnobWaits(root, moves, k);
      ApplyOneMore(root, changes, KnobChange(move));
      tree := Put(tree, SeatPath(move.seat), Int(move.seat.value + move.delta));
      changes := changes + [KnobChange(move)];
      assert changes == all[..k + 1];
      KnobsLeaveLayout(root, moves, k + 1);
      TouchesOneMore(root, extentOf, moves, k);
      if LayoutAt(root, extentOf, r, o).Some? {
        shifts := PushItems(root, extentOf, tree, move, shifts);
        touched := touched + {(r, o)};
      } else {
        UnknownPushesNothing(root, extentOf, move.seat);
      }
    }
    assert all[..|moves|] == all && moves[..|moves|] == moves;
    KnobsLeaveLayout(root, moves, |moves|);
  }

  lemma NothingMovedYet(root: Json, extentOf: Extent)
    ensures Apply(root, []) == Some(root) && forall r: nat, o: nat :: !Touched(root, extentOf, [], r, o)
  {
  }

  lemma UnknownPushesNothing(root: Json, extentOf: Extent, seat: Seat)
    requires LayoutAt(root, extentOf, seat.rendering, seat.operation).None?
    ensures forall key: Key :: !Pushes(root, extentOf, seat, key)
  {
  }

  lemma {:induction false} TouchesOneMore(root: Json, extentOf: Extent, moves: seq<Move>, k: nat)
    requires k < |moves|
    ensures forall r: nat, o: nat :: Touched(root, extentOf, moves[..k + 1], r, o) <==>
              Touched(root, extentOf, moves[..k], r, o)
              || (LayoutAt(root, extentOf, r, o).Some? && moves[k].seat.rendering == r && moves[k].seat.operation == o)
  {
    forall r: nat, o: nat ensures Touched(root, extentOf, moves[..k + 1], r, o) <==>
              Touched(root, extentOf, moves[..k], r, o)
              || (LayoutAt(root, extentOf, r, o).Some? && moves[k].seat.rendering == r
                  && moves[k].seat.operation == o) {
      assert moves[..k + 1] == moves[..k] + [moves[k]];
      assert forall j | 0 <= j < k :: moves[..k + 1][j] == moves[..k][j];
    }
  }

  // ---- Lines --------------------------------------------------------------------------------------

  predicate KeyBefore(left: Key, right: Key) {
    left.0 < right.0 || (left.0 == right.0 && (left.1 < right.1 || (left.1 == right.1 && left.2 < right.2)))
  }

  lemma KeyBeforeIsOrder()
    ensures StrictOrder(KeyBefore)
  {
  }

  /** Pushing one item's line. */
  function LineChange(root: Json, key: Key, shift: int): Change
    requires LineAt(root, key).Some?
  {
    var line := LineAt(root, key).value;
    Change(LinePath(key.0, key.1, key.2), Int(line), Int(line + shift), Derived)
  }

  function LineChanges(root: Json, shifts: map<Key, int>, keys: seq<Key>): seq<Change>
    requires forall key: Key | key in keys :: LineAt(root, key).Some?
  {
    seq(|keys|, k requires 0 <= k < |keys| => LineChange(root, keys[k], ShiftIn(shifts, keys[k])))
  }

  function MovedLine(root: Json, shifts: map<Key, int>, key: Key): Option<int> {
    if LineAt(root, key).None? then None else Some(LineAt(root, key).value + ShiftIn(shifts, key))
  }

  /** Lines of the listed items have moved; other lines and all canvases have not. */
  ghost predicate LinesMoved(root: Json, tree: Json, shifts: map<Key, int>, keys: seq<Key>) {
    && (forall key: Key :: LineAt(tree, key) == if key in keys then MovedLine(root, shifts, key) else LineAt(root, key))
    && forall r: nat, o: nat :: CanvasAt(tree, r, o) == CanvasAt(root, r, o)
  }

  lemma {:induction false} PutLineAside(tree: Json, key: Key, line: Json, path: Path)
    requires Get(tree, LinePath(key.0, key.1, key.2)).Some? && Parted(LinePath(key.0, key.1, key.2), path)
    ensures Get(Put(tree, LinePath(key.0, key.1, key.2), line), path) == Get(tree, path)
  {
    var from := LinePath(key.0, key.1, key.2);
    var k :| 0 <= k < |from| && k < |path| && from[k] != path[k];
    GetAside(tree, from, line, path, k);
  }

  /** Writing one line moves that line alone. */
  lemma {:induction false} LineMoves(root: Json, tree: Json, shifts: map<Key, int>, keys: seq<Key>, key: Key)
    requires LinesMoved(root, tree, shifts, keys) && LineAt(root, key).Some? && key !in keys
    ensures
      var moved := Put(tree, LinePath(key.0, key.1, key.2), Int(LineAt(root, key).value + ShiftIn(shifts, key)));
      LinesMoved(root, moved, shifts, keys + [key])
  {
    hide LinePath, CanvasPath, Parted;
    var line := Int(LineAt(root, key).value + ShiftIn(shifts, key));
    var moved := Put(tree, LinePath(key.0, key.1, key.2), line);
    forall other: Key
      ensures LineAt(moved, other) == if other in keys + [key] then MovedLine(root, shifts, other)
                else LineAt(root, other) {
      if other != key {
        LinesPart(key, other);
        PutLineAside(tree, key, line, LinePath(other.0, other.1, other.2));
      }
    }
    forall r: nat, o: nat ensures CanvasAt(moved, r, o) == CanvasAt(root, r, o) {
      CanvasPartsFromLine(key, r, o);
      PutLineAside(tree, key, line, CanvasPath(r, o));
    }
  }

  /** The state of the line loop after the listed items. */
  ghost predicate Shifting(root: Json, tree: Json, knobs: seq<Change>, changes: seq<Change>, shifts: map<Key, int>,
                           keys: seq<Key>) {
    && (forall key: Key | key in keys :: LineAt(root, key).Some?)
    && changes == knobs + LineChanges(root, shifts, keys) && Apply(root, changes) == Some(tree)
    && LinesMoved(root, tree, shifts, keys)
  }

  lemma ShiftingStarts(root: Json, start: Json, knobs: seq<Change>, shifts: map<Key, int>)
    requires Apply(root, knobs) == Some(start) && SameLayout(root, start)
    ensures Shifting(root, start, knobs, knobs, shifts, [])
  {
  }

  lemma {:induction false} ShiftingWrites(root: Json, tree: Json, knobs: seq<Change>, changes: seq<Change>,
                                          shifts: map<Key, int>, keys: seq<Key>, key: Key)
    requires Shifting(root, tree, knobs, changes, shifts, keys) && LineAt(root, key).Some? && key !in keys
    ensures LineAt(tree, key) == LineAt(root, key) && Get(tree, LinePath(key.0, key.1, key.2)).Some?
    ensures
      var line := LineAt(root, key).value + ShiftIn(shifts, key);
      Shifting(root, Put(tree, LinePath(key.0, key.1, key.2), Int(line)), knobs,
               changes + [LineChange(root, key, ShiftIn(shifts, key))], shifts, keys + [key])
  {
    hide Apply, LineAt, LinesMoved, LinePath;
    var change := LineChange(root, key, ShiftIn(shifts, key));
    LineWaits(root, tree, shifts, keys, key);
    ApplyOneMore(root, changes, change);
    LineMoves(root, tree, shifts, keys, key);
    assert LineChanges(root, shifts, keys + [key]) == LineChanges(root, shifts, keys) + [change];
    assert changes + [change] == knobs + (LineChanges(root, shifts, keys) + [change]);
  }

  /** The items of the list so far that move, in order. */
  ghost predicate Chosen(list: seq<Key>, shifts: map<Key, int>, keys: seq<Key>) {
    && Ascending(keys, KeyBefore)
    && forall key: Key :: key in keys <==> key in list && ShiftIn(shifts, key) != 0
  }

  lemma NoneChosen(shifts: map<Key, int>)
    ensures Chosen([], shifts, [])
  {
  }

  lemma {:induction false} ChoosesOneMore(list: seq<Key>, i: nat, shifts: map<Key, int>, keys: seq<Key>)
    requires Ascending(list, KeyBefore) && i < |list| && Chosen(list[..i], shifts, keys)
    ensures list[i] !in keys
    ensures Chosen(list[..i + 1], shifts, if ShiftIn(shifts, list[i]) != 0 then keys + [list[i]] else keys)
  {
    assert list[..i + 1] == list[..i] + [list[i]];
    assert forall k | 0 <= k < |keys| :: keys[k] in keys;
    assert forall k | 0 <= k < i :: KeyBefore(list[k], list[i]);
  }

  lemma {:induction false} AllChosen(list: seq<Key>, shifts: map<Key, int>, keys: seq<Key>)
    requires Chosen(list, shifts, keys) && forall key: Key :: key in list <==> key in shifts
    ensures Ascending(keys, KeyBefore) && forall key: Key :: key in keys <==> ShiftIn(shifts, key) != 0
  {
  }

  /** The second loop: write the shifted lines, unless one would drop below one. */
  method ShiftLines(root: Json, start: Json, knobs: seq<Change>, shifts: map<Key, int>)
    returns (tree: Json, changes: seq<Change>, ok: bool, ghost keys: seq<Key>)
    requires Apply(root, knobs) == Some(start) && SameLayout(root, start)
    requires forall key: Key | key in shifts :: LineAt(root, key).Some?
    ensures ok ==> Ascending(keys, KeyBefore) && forall key: Key :: key in keys <==> ShiftIn(shifts, key) != 0
    ensures ok ==> Shifting(root, tree, knobs, changes, shifts, keys)
    ensures ok <==>
              forall key: Key | key in shifts && ShiftIn(shifts, key) != 0 ::
                  LineAt(root, key).value + ShiftIn(shifts, key) >= 1
  {
    hide LineAt, LinePath, Shifting, Apply, StrictOrder, LineChange, Chosen, KeyBefore, SameLayout;
    KeyBeforeIsOrder();
    var list := Sorted(shifts.Keys, KeyBefore);
    keys := [];
    tree, changes, ok := start, knobs, true;
    ShiftingStarts(root, start, knobs, shifts);
    NoneChosen(shifts);
    for i := 0 to |list|
      invariant Shifting(root, tree, knobs, changes, shifts, keys) && Chosen(list[..i], shifts, keys)
      invariant forall k | 0 <= k < i && ShiftIn(shifts, list[k]) != 0 ::
                  LineAt(root, list[k]).value + ShiftIn(shifts, list[k]) >= 1
    {
      var key := list[i];
      assert key in shifts;
      ChoosesOneMore(list, i, shifts, keys);
      if ShiftIn(shifts, key) != 0 {
        ShiftingWrites(root, tree, knobs, changes, shifts, keys, key);
        var line := LineAt(tree, key).value;
        if line + ShiftIn(shifts, key) < 1 {
          ok := false;
          return;
        }
        changes := changes + [LineChange(root, key, ShiftIn(shifts, key))];
        tree := Put(tree, LinePath(key.0, key.1, key.2), Int(line + ShiftIn(shifts, key)));
        keys := keys + [key];
      }
    }
    assert list[..|list|] == list;
    AllChosen(list, shifts, keys);
  }

  lemma LineWaits(root: Json, tree: Json, shifts: map<Key, int>, keys: seq<Key>, key: Key)
    requires LinesMoved(root, tree, shifts, keys) && key !in keys && LineAt(root, key).Some?
    ensures LineAt(tree, key) == LineAt(root, key)
    ensures Get(tree, LinePath(key.0, key.1, key.2)) == Some(Int(LineAt(root, key).value))
  {
  }
}
