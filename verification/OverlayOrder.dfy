/** What the overlay enumeration tries, and in which order (src/reprobit/classic_donor_retune_candidates.py). */
module OverlayOrder {
  import opened Options
  import opened JsonValues
  import opened JsonPaths
  import opened OverlayKnobs
  import opened OverlayMoves
  import opened OverlayGate
  import opened OverlaySearch
  import opened OverlaySeats
  import opened RetuneShell
  import Sorting

  // ---- What is tried --------------------------------------------------------------------------

  predicate InBounds(move: Move) {
    move.seat.minimum <= move.seat.value + move.delta <= move.seat.maximum
  }

  /** One knob moved this far, within its bounds. */
  predicate IsSingle(seats: seq<Seat>, distance: nat, proposal: Proposal) {
    && proposal.Moving? && proposal.distance == distance && |proposal.moves| == 1 && proposal.moves[0].seat in seats
    && InBounds(proposal.moves[0]) && Abs(proposal.moves[0].delta) == distance
  }

  /** Both knobs of one rendering moved, this far together, each within its bounds. */
  predicate IsPairOf(first: Seat, second: Seat, distance: nat, proposal: Proposal) {
    && proposal.Moving? && proposal.distance == distance && |proposal.moves| == 2
    && proposal.moves[0].seat == first && proposal.moves[1].seat == second && first.rendering == second.rendering
    && proposal.moves[0].delta != 0 && proposal.moves[1].delta != 0
    && InBounds(proposal.moves[0]) && InBounds(proposal.moves[1])
    && Abs(proposal.moves[0].delta) + Abs(proposal.moves[1].delta) == distance
  }

  /** Two seats, the first listed before the second and not before these two. */
  ghost predicate IsPairFrom(seats: seq<Seat>, i: nat, j: nat, distance: nat, proposal: Proposal) {
    exists a, b ::
        0 <= a < b < |seats| && (i < a || (i == a && j <= b)) && IsPairOf(seats[a], seats[b], distance, proposal)
  }

  predicate IsInsertion(root: Json, carriers: Option<map<string, Source>>, proposal: Proposal) {
    proposal.Inserting? && proposal in Insertions(root, carriers, proposal.count)
  }

  // ---- The order ------------------------------------------------------------------------------

  type Rank = (int, int, int, int, int, int)

  predicate Sooner(left: Rank, right: Rank) {
    left.0 < right.0 || (left.0 == right.0 &&
    (left.1 < right.1 || (left.1 == right.1 &&
    (left.2 < right.2 || (left.2 == right.2 &&
    (left.3 < right.3 || (left.3 == right.3 &&
    (left.4 < right.4 || (left.4 == right.4 && left.5 < right.5)))))))))
  }

  ghost function SeatIndex(seats: seq<Seat>, seat: Seat): int {
    if seat in seats then var k :| 0 <= k < |seats| && seats[k] == seat; k else -1
  }

  /** The end of the file comes before its start. */
  function PlacementRank(operation: Json): int {
    if Field(operation, "id") == Some(Text(CARRIER_PREFIX + "end")) then 0 else 1
  }

  /**
   Near proposals by distance, in each tier the single moves by seat and down before up, then the insertions;
   after them pairs by distance, seats and states; at last the longer insertions by length.
   */
  ghost function RankOf(seats: seq<Seat>, radius: nat, proposal: Proposal): Rank {
    match proposal
    case Moving(moves, distance) =>
      if |moves| == 1 then (0, distance, 0, SeatIndex(seats, moves[0].seat), moves[0].delta, 0)
      else if |moves| == 2 then
        (1, distance, SeatIndex(seats, moves[0].seat), SeatIndex(seats, moves[1].seat), moves[0].delta, moves[1].delta)
      else (3, 0, 0, 0, 0, 0)
    case Inserting(operation, count) =>
      if count <= radius then (0, count, 1, PlacementRank(operation), 0, 0)
          else (2, count, PlacementRank(operation), 0, 0, 0)
  }

  ghost predicate Ranked(seats: seq<Seat>, radius: nat, proposals: seq<Proposal>) {
    forall a, b | 0 <= a < b < |proposals| ::
        Sooner(RankOf(seats, radius, proposals[a]), RankOf(seats, radius, proposals[b]))
  }

  lemma {:induction false} RankedJoin(seats: seq<Seat>, radius: nat, left: seq<Proposal>, right: seq<Proposal>)
    requires Ranked(seats, radius, left) && Ranked(seats, radius, right)
    requires forall a, b | a in left && b in right :: Sooner(RankOf(seats, radius, a), RankOf(seats, radius, b))
    ensures Ranked(seats, radius, left + right)
  {
    hide RankOf, Sooner;
    var all := left + right;
    forall a, b | 0 <= a < b < |all| ensures Sooner(RankOf(seats, radius, all[a]), RankOf(seats, radius, all[b])) {
      assert a < |left| ==> all[a] in left;
      assert b >= |left| ==> all[b] in right;
    }
  }

  lemma {:induction false} SeatHasIndex(seats: seq<Seat>, k: nat)
    requires ApartSeats(seats) && k < |seats|
    ensures SeatIndex(seats, seats[k]) == k
  {
    var found := SeatIndex(seats, seats[k]);
    assert SamePlace(seats[k], seats[found]) && SamePlace(seats[found], seats[k]);
  }

  // ---- Single moves ---------------------------------------------------------------------------

  lemma {:induction false} SingleIsExact(seat: Seat, distance: nat, proposal: Proposal)
    requires distance >= 1
    ensures proposal in SingleMove(seat, 0 - distance, distance) + SingleMove(seat, distance, distance) <==>
            IsSingle([seat], distance, proposal)
  {
    if IsSingle([seat], distance, proposal) {
      assert proposal == Moving([Move(seat, proposal.moves[0].delta)], distance);
    }
  }

  lemma {:induction false} SinglesAreExact(seats: seq<Seat>, distance: nat, proposal: Proposal)
    requires distance >= 1
    ensures proposal in SingleMoves(seats, distance) <==> IsSingle(seats, distance, proposal)
  {
    hide SingleMove;
    if seats != [] {
      var n := |seats| - 1;
      SinglesAreExact(seats[..n], distance, proposal);
      SingleIsExact(seats[n], distance, proposal);
      assert seats == seats[..n] + [seats[n]];
    }
  }

  lemma {:induction false} SinglesAreRanked(seats: seq<Seat>, n: nat, distance: nat, radius: nat)
    requires ApartSeats(seats) && n <= |seats| && 1 <= distance
    ensures Ranked(seats, radius, SingleMoves(seats[..n], distance))
  {
    hide Sooner, SamePlace, RankOf, SingleMove;
    if n == 0 {
      NoneIsRanked(seats, radius);
    } else {
      var last := seats[n - 1];
      assert seats[..n][..n - 1] == seats[..n - 1] && seats[..n][n - 1] == last;
      SinglesAreRanked(seats, n - 1, distance, radius);
      var earlier, down, up := SingleMoves(seats[..n - 1], distance), SingleMove(last, 0 - distance, distance),
          SingleMove(last, distance, distance);
      SeatRanked(seats, n - 1, distance, radius);
      forall a, b | a in earlier && b in down + up
        ensures Sooner(RankOf(seats, radius, a), RankOf(seats, radius, b)) {
        LaterSeat(seats, n - 1, distance, radius, a, b);
      }
      RankedJoin(seats, radius, earlier, down + up);
      assert earlier + down + up == earlier + (down + up);
    }
  }

  lemma {:induction false} LaterSeat(seats: seq<Seat>, n: nat, distance: nat, radius: nat, a: Proposal, b: Proposal)
    requires ApartSeats(seats) && n < |seats| && 1 <= distance && a in SingleMoves(seats[..n], distance)
    requires b in SingleMove(seats[n], 0 - distance, distance) + SingleMove(seats[n], distance, distance)
    ensures Sooner(RankOf(seats, radius, a), RankOf(seats, radius, b))
  {
    hide Sooner, SamePlace, SingleMoves, ApartSeats;
    SinglesAreExact(seats[..n], distance, a);
    var k :| 0 <= k < n && seats[k] == a.moves[0].seat;
    SeatHasIndex(seats, k);
    SeatHasIndex(seats, n);
    SoonerSeat(RankOf(seats, radius, a), RankOf(seats, radius, b));
  }

  lemma SoonerSeat(left: Rank, right: Rank)
    requires left.0 == right.0 && left.1 == right.1 && left.2 == right.2 && left.3 < right.3
    ensures Sooner(left, right)
  {
  }

  lemma SeatRanked(seats: seq<Seat>, k: nat, distance: nat, radius: nat)
    requires k < |seats| && 1 <= distance
    ensures Ranked(seats, radius,
                   SingleMove(seats[k], 0 - distance, distance) + SingleMove(seats[k], distance, distance))
  {
  }

  // ---- Pairs ----------------------------------------------------------------------------------

  function PairMove(first: Seat, second: Seat, state: State, distance: nat): Proposal {
    Moving([Move(first, state.0 - first.value), Move(second, state.1 - second.value)], distance)
  }

  lemma {:induction false} ShellMovesAreExact(first: Seat, second: Seat, states: seq<State>, distance: nat,
                                              proposal: Proposal)
    ensures proposal in ShellMoves(first, second, states, distance) <==>
            exists state: State :: state in states && state.0 != first.value && state.1 != second.value
                                   && proposal == PairMove(first, second, state, distance)
  {
    if states != [] {
      var n := |states| - 1;
      ShellMovesAreExact(first, second, states[..n], distance, proposal);
      assert states == states[..n] + [states[n]];
    }
  }

  lemma {:induction false} ShellMovesAreRanked(seats: seq<Seat>, first: Seat, second: Seat, states: seq<State>,
                                               distance: nat, radius: nat)
    requires Sorting.Ascending(states, RetuneShell.Before)
    ensures Ranked(seats, radius, ShellMoves(first, second, states, distance))
  {
    if states != [] {
      var n := |states| - 1;
      var last := states[n];
      ShellMovesAreRanked(seats, first, second, states[..n], distance, radius);
      var earlier := ShellMoves(first, second, states[..n], distance);
      var added := if last.0 == first.value
          || last.1 == second.value then [] else [PairMove(first, second, last, distance)];
      forall a, b | a in earlier && b in added ensures Sooner(RankOf(seats, radius, a), RankOf(seats, radius, b)) {
        ShellMovesAreExact(first, second, states[..n], distance, a);
        var state: State :| state in states[..n] && a == PairMove(first, second, state, distance);
        assert RetuneShell.Before(state, last);
      }
      RankedJoin(seats, radius, earlier, added);
    }
  }

  predicate Within(first: Seat, second: Seat, state: State) {
    first.minimum <= state.0 <= first.maximum && second.minimum <= state.1 <= second.maximum
  }

  lemma PairMoveIsPair(first: Seat, second: Seat, state: State, distance: nat)
    ensures IsPairOf(first, second, distance, PairMove(first, second, state, distance)) <==>
            first.rendering == second.rendering && state.0 != first.value && state.1 != second.value
            && Within(first, second, state) && Distance((first.value, second.value), state) == distance
  {
  }

  lemma {:induction false} PairIsPairMove(first: Seat, second: Seat, distance: nat, proposal: Proposal)
    returns (state: State)
    requires IsPairOf(first, second, distance, proposal)
    ensures proposal == PairMove(first, second, state, distance)
  {
    state := (first.value + proposal.moves[0].delta, second.value + proposal.moves[1].delta);
    assert proposal.moves == [proposal.moves[0], proposal.moves[1]];
  }

  lemma InItsShell(saved: State, distance: nat, accept: State -> bool, state: State)
    requires InShell(saved, distance, accept, state)
    ensures state in Shell(saved, distance, accept)
  {
  }

  lemma NoPairAcross(first: Seat, second: Seat, distance: nat, proposal: Proposal)
    ensures IsPairOf(first, second, distance, proposal) ==> first.rendering == second.rendering
  {
  }

  lemma {:induction false} PairIsExact(first: Seat, second: Seat, distance: nat, proposal: Proposal)
    ensures proposal in PairMoves(first, second, distance) <==> IsPairOf(first, second, distance, proposal)
  {
    hide IsPairOf, PairMove, ShellMoves, Distance;
    if first.rendering == second.rendering {
      var within := (state: State) =>
        first.minimum <= state.0 <= first.maximum && second.minimum <= state.1 <= second.maximum;
      ShellMovesAreExact(first, second, Shell((first.value, second.value), distance, within), distance, proposal);
      if proposal in PairMoves(first, second, distance) {
        var state: State :| state in Shell((first.value, second.value), distance, within)
                            && state.0 != first.value && state.1 != second.value
                                 && proposal == PairMove(first, second, state, distance);
        PairMoveIsPair(first, second, state, distance);
      }
      if IsPairOf(first, second, distance, proposal) {
        var state := PairIsPairMove(first, second, distance, proposal);
        PairMoveIsPair(first, second, state, distance);
        InItsShell((first.value, second.value), distance, within, state);
      }
    } else {
      NoPairAcross(first, second, distance, proposal);
    }
  }

  lemma {:induction false} PairIsRanked(seats: seq<Seat>, first: Seat, second: Seat, distance: nat, radius: nat)
    ensures Ranked(seats, radius, PairMoves(first, second, distance))
  {
    if first.rendering == second.rendering {
      var within := (state: State) =>
        first.minimum <= state.0 <= first.maximum && second.minimum <= state.1 <= second.maximum;
      ShellMovesAreRanked(seats, first, second, Shell((first.value, second.value), distance, within), distance, radius);
    }
  }

  lemma {:induction false} NextRow(seats: seq<Seat>, i: nat, j: nat, distance: nat, proposal: Proposal)
    requires i < j && j >= |seats|
    ensures IsPairFrom(seats, i, j, distance, proposal) <==> IsPairFrom(seats, i + 1, i + 2, distance, proposal)
  {
    hide IsPairOf;
  }

  lemma {:induction false} NextPair(seats: seq<Seat>, i: nat, j: nat, distance: nat, proposal: Proposal)
    requires i < j < |seats|
    ensures IsPairFrom(seats, i, j, distance, proposal) <==>
            IsPairOf(seats[i], seats[j], distance, proposal) || IsPairFrom(seats, i, j + 1, distance, proposal)
  {
    hide IsPairOf;
  }

  lemma NoPairLeft(seats: seq<Seat>, i: nat, j: nat, distance: nat, proposal: Proposal)
    requires i >= |seats|
    ensures !IsPairFrom(seats, i, j, distance, proposal)
  {
  }

  lemma {:induction false} PairsAreExact(seats: seq<Seat>, i: nat, j: nat, distance: nat, proposal: Proposal)
    requires i < j
    ensures proposal in PairsFrom(seats, i, j, distance) <==> IsPairFrom(seats, i, j, distance, proposal)
    decreases |seats| - i, |seats| - j
  {
    hide IsPairOf, PairMoves, IsPairFrom;
    if i >= |seats| {
      NoPairLeft(seats, i, j, distance, proposal);
    } else if j >= |seats| {
      PairsAreExact(seats, i + 1, i + 2, distance, proposal);
      NextRow(seats, i, j, distance, proposal);
    } else {
      PairsAreExact(seats, i, j + 1, distance, proposal);
      PairIsExact(seats[i], seats[j], distance, proposal);
      NextPair(seats, i, j, distance, proposal);
    }
  }

  lemma {:induction false} PairsAreRanked(seats: seq<Seat>, i: nat, j: nat, distance: nat, radius: nat)
    requires i < j && ApartSeats(seats)
    ensures Ranked(seats, radius, PairsFrom(seats, i, j, distance))
    decreases |seats| - i, |seats| - j
  {
    hide PairMoves, Sooner, SamePlace;
    if i < |seats| {
      if j >= |seats| {
        PairsAreRanked(seats, i + 1, i + 2, distance, radius);
      } else {
        PairsAreRanked(seats, i, j + 1, distance, radius);
        PairIsRanked(seats, seats[i], seats[j], distance, radius);
        var these, rest := PairMoves(seats[i], seats[j], distance), PairsFrom(seats, i, j + 1, distance);
        forall a, b | a in these && b in rest ensures Sooner(RankOf(seats, radius, a), RankOf(seats, radius, b)) {
          LaterPair(seats, i, j, distance, radius, a, b);
        }
        RankedJoin(seats, radius, these, rest);
      }
    }
  }

  lemma {:induction false} LaterPair(seats: seq<Seat>, i: nat, j: nat, distance: nat, radius: nat, a: Proposal,
                                     b: Proposal)
    requires i < j < |seats| && ApartSeats(seats)
    requires a in PairMoves(seats[i], seats[j], distance) && b in PairsFrom(seats, i, j + 1, distance)
    ensures Sooner(RankOf(seats, radius, a), RankOf(seats, radius, b))
  {
    hide PairMoves, PairsFrom, SamePlace;
    PairIsExact(seats[i], seats[j], distance, a);
    PairsAreExact(seats, i, j + 1, distance, b);
    var c, d :| 0 <= c < d < |seats| && (i < c || (i == c && j + 1 <= d)) && IsPairOf(seats[c], seats[d], distance, b);
    SeatHasIndex(seats, i);
    SeatHasIndex(seats, j);
    SeatHasIndex(seats, c);
    SeatHasIndex(seats, d);
  }

  // ---- Insertions -----------------------------------------------------------------------------

  lemma InsertionHasCount(root: Json, carriers: Option<map<string, Source>>, count: nat, proposal: Proposal)
    requires proposal in Insertions(root, carriers, count)
    ensures proposal.Inserting? && proposal.count == count
  {
  }

  lemma {:induction false} CarrierRank(anchor: Json, count: nat)
    ensures PlacementRank(Carrier(anchor, "end", count)) == 0 && PlacementRank(Carrier(anchor, "start", count)) == 1
  {
    assert (CARRIER_PREFIX + "end")[|CARRIER_PREFIX|] == 'e' && (CARRIER_PREFIX + "start")[|CARRIER_PREFIX|] == 's';
  }

  lemma {:induction false} InsertionsAreRanked(root: Json, carriers: Option<map<string, Source>>, seats: seq<Seat>,
                                               count: nat, radius: nat)
    ensures Ranked(seats, radius, Insertions(root, carriers, count))
  {
    hide Carrier, Anchor, PlacementRank;
    if Insertions(root, carriers, count) != [] {
      var source := carriers.value[FirstOperations(root).value.0];
      if Anchor(source, "end").Some? {
        CarrierRank(Anchor(source, "end").value, count);
      }
      if Anchor(source, "start").Some? {
        CarrierRank(Anchor(source, "start").value, count);
      }
    }
  }

  // ---- Everything -----------------------------------------------------------------------------

  /** A single move or an insertion within the radius. */
  predicate IsNear(root: Json, seats: seq<Seat>, carriers: Option<map<string, Source>>, radius: nat,
                   proposal: Proposal) {
    || (proposal.Moving? && 1 <= proposal.distance <= radius && IsSingle(seats, proposal.distance, proposal))
    || (IsInsertion(root, carriers, proposal) && 1 <= proposal.count <= radius)
  }

  ghost predicate IsPair(seats: seq<Seat>, radius: nat, proposal: Proposal) {
    proposal.Moving? && 2 <= proposal.distance <= radius && IsPairFrom(seats, 0, 1, proposal.distance, proposal)
  }

  predicate IsLong(root: Json, carriers: Option<map<string, Source>>, radius: nat, longest: nat, proposal: Proposal) {
    IsInsertion(root, carriers, proposal) && radius < proposal.count <= longest
  }

  lemma {:induction false} TiersAreExact(root: Json, seats: seq<Seat>, carriers: Option<map<string, Source>>,
                                         radius: nat, proposal: Proposal)
    ensures proposal in Tiers(root, seats, carriers, radius) <==> IsNear(root, seats, carriers, radius, proposal)
  {
    hide SingleMoves, Insertions;
    if radius > 0 {
      TiersAreExact(root, seats, carriers, radius - 1, proposal);
      SinglesAreExact(seats, radius, proposal);
      if proposal in Insertions(root, carriers, radius) {
        InsertionHasCount(root, carriers, radius, proposal);
      }
    }
  }

  lemma {:induction false} TiersAreRanked(root: Json, seats: seq<Seat>, carriers: Option<map<string, Source>>,
                                          near: nat, radius: nat)
    requires near <= radius && ApartSeats(seats)
    ensures Ranked(seats, radius, Tiers(root, seats, carriers, near))
  {
    hide SingleMoves, Insertions, Ranked, SamePlace;
    NoneIsRanked(seats, radius);
    if near > 0 {
      TiersAreRanked(root, seats, carriers, near - 1, radius);
      assert seats[..|seats|] == seats;
      SinglesAreRanked(seats, |seats|, near, radius);
      InsertionsAreRanked(root, carriers, seats, near, radius);
      var earlier, singles, inserts := Tiers(root, seats, carriers, near - 1), SingleMoves(seats, near),
          Insertions(root, carriers, near);
      forall a, b | a in earlier && b in singles ensures Sooner(RankOf(seats, radius, a), RankOf(seats, radius, b)) {
        TiersAreExact(root, seats, carriers, near - 1, a);
        SinglesAreExact(seats, near, b);
      }
      RankedJoin(seats, radius, earlier, singles);
      forall a, b | a in earlier + singles && b in inserts
        ensures Sooner(RankOf(seats, radius, a), RankOf(seats, radius, b)) {
        TiersAreExact(root, seats, carriers, near - 1, a);
        SinglesAreExact(seats, near, a);
        InsertionHasCount(root, carriers, near, b);
      }
      RankedJoin(seats, radius, earlier + singles, inserts);
    }
  }

  lemma NoneIsRanked(seats: seq<Seat>, radius: nat)
    ensures Ranked(seats, radius, [])
  {
  }

  lemma {:induction false} PairHasDistance(seats: seq<Seat>, distance: nat, proposal: Proposal)
    requires IsPairFrom(seats, 0, 1, distance, proposal)
    ensures proposal.Moving? && |proposal.moves| == 2 && proposal.distance == distance
  {
  }

  lemma {:induction false} PairTiersAreExact(seats: seq<Seat>, radius: nat, proposal: Proposal)
    ensures proposal in PairTiers(seats, radius) <==> IsPair(seats, radius, proposal)
  {
    hide PairsFrom, IsPairFrom;
    if radius >= 2 {
      PairTiersAreExact(seats, radius - 1, proposal);
      PairsAreExact(seats, 0, 1, radius, proposal);
      if IsPairFrom(seats, 0, 1, radius, proposal) {
        PairHasDistance(seats, radius, proposal);
      }
    }
  }

  lemma {:induction false} PairTiersAreRanked(seats: seq<Seat>, near: nat, radius: nat)
    requires ApartSeats(seats)
    ensures Ranked(seats, radius, PairTiers(seats, near))
  {
    hide PairsFrom, IsPairFrom, Ranked, SamePlace;
    NoneIsRanked(seats, radius);
    if near >= 2 {
      PairTiersAreRanked(seats, near - 1, radius);
      PairsAreRanked(seats, 0, 1, near, radius);
      var earlier, pairs := PairTiers(seats, near - 1), PairsFrom(seats, 0, 1, near);
      forall a, b | a in earlier && b in pairs ensures Sooner(RankOf(seats, radius, a), RankOf(seats, radius, b)) {
        PairTiersAreExact(seats, near - 1, a);
        PairHasDistance(seats, a.distance, a);
        PairsAreExact(seats, 0, 1, near, b);
        PairHasDistance(seats, near, b);
      }
      RankedJoin(seats, radius, earlier, pairs);
    }
  }

  lemma {:induction false} LongInsertionsAreExact(root: Json, carriers: Option<map<string, Source>>, radius: nat,
                                                  longest: nat, proposal: Proposal)
    ensures proposal in LongInsertions(root, carriers, radius, longest) <==>
              IsLong(root, carriers, radius, longest, proposal)
  {
    hide Insertions;
    if longest > radius {
      LongInsertionsAreExact(root, carriers, radius, longest - 1, proposal);
      if proposal in Insertions(root, carriers, longest) {
        InsertionHasCount(root, carriers, longest, proposal);
      }
    }
  }

  lemma {:induction false} LongInsertionsAreRanked(root: Json, seats: seq<Seat>, carriers: Option<map<string,
                                                   Source>>, radius: nat, longest: nat)
    ensures Ranked(seats, radius, LongInsertions(root, carriers, radius, longest))
  {
    hide Insertions, Ranked;
    NoneIsRanked(seats, radius);
    if longest > radius {
      LongInsertionsAreRanked(root, seats, carriers, radius, longest - 1);
      InsertionsAreRanked(root, carriers, seats, longest, radius);
      var earlier, inserts := LongInsertions(root, carriers, radius, longest - 1), Insertions(root, carriers, longest);
      forall a, b | a in earlier && b in inserts ensures Sooner(RankOf(seats, radius, a), RankOf(seats, radius, b)) {
        LongInsertionsAreExact(root, carriers, radius, longest - 1, a);
        InsertionHasCount(root, carriers, longest, b);
      }
      RankedJoin(seats, radius, earlier, inserts);
    }
  }

  /** Exactly the admissible single moves, pairs and insertions are tried, each once, in ascending rank. */
  lemma {:induction false} ProposalsAreExact(root: Json, seats: seq<Seat>, carriers: Option<map<string, Source>>,
                                             radius: nat)
    requires ApartSeats(seats)
    ensures forall proposal :: proposal in Proposals(root, seats, carriers, radius) <==>
              || IsNear(root, seats, carriers, radius, proposal) || IsPair(seats, radius, proposal)
              || IsLong(root, carriers, radius, MAX_INSERTED_RUN_COUNT, proposal)
    ensures Ranked(seats, radius, Proposals(root, seats, carriers, radius))
  {
    hide Tiers, PairTiers, LongInsertions, IsNear, IsPair, IsLong, Ranked, ApartSeats;
    forall proposal
      ensures proposal in Proposals(root, seats, carriers, radius) <==>
              || IsNear(root, seats, carriers, radius, proposal) || IsPair(seats, radius, proposal)
              || IsLong(root, carriers, radius, MAX_INSERTED_RUN_COUNT, proposal) {
      TiersAreExact(root, seats, carriers, radius, proposal);
      PairTiersAreExact(seats, radius, proposal);
      LongInsertionsAreExact(root, carriers, radius, MAX_INSERTED_RUN_COUNT, proposal);
    }
    ProposalsAreRanked(root, seats, carriers, radius);
  }

  lemma {:induction false} ProposalsAreRanked(root: Json, seats: seq<Seat>, carriers: Option<map<string, Source>>,
                                              radius: nat)
    requires ApartSeats(seats)
    ensures Ranked(seats, radius, Proposals(root, seats, carriers, radius))
  {
    hide Tiers, PairTiers, LongInsertions, Insertions, Ranked, ApartSeats, IsPairFrom;
    TiersAreRanked(root, seats, carriers, radius, radius);
    PairTiersAreRanked(seats, radius, radius);
    LongInsertionsAreRanked(root, seats, carriers, radius, MAX_INSERTED_RUN_COUNT);
    var near, pairs, long := Tiers(root, seats, carriers, radius), PairTiers(seats, radius),
      LongInsertions(root, carriers, radius, MAX_INSERTED_RUN_COUNT);
    forall a, b | a in near && b in pairs ensures Sooner(RankOf(seats, radius, a), RankOf(seats, radius, b)) {
      TiersAreExact(root, seats, carriers, radius, a);
      PairTiersAreExact(seats, radius, b);
      PairHasDistance(seats, b.distance, b);
    }
    RankedJoin(seats, radius, near, pairs);
    forall a, b | a in near + pairs && b in long ensures Sooner(RankOf(seats, radius, a), RankOf(seats, radius, b)) {
      TiersAreExact(root, seats, carriers, radius, a);
      PairTiersAreExact(seats, radius, a);
      LongInsertionsAreExact(root, carriers, radius, MAX_INSERTED_RUN_COUNT, b);
      if a !in near {
        PairHasDistance(seats, a.distance, a);
      }
    }
    RankedJoin(seats, radius, near + pairs, long);
  }

  // ---- The moves of a tree ----------------------------------------------------------------------

  /** A knob of the tree moved by some amount to a value the knob may have. */
  predicate MovesKnob(root: Json, move: Move) {
    DescribesAt(root, move.seat) && move.delta != 0 && 1 <= move.seat.value + move.delta <= move.seat.maximum
  }

  /** The one- and two-knob moves tried, in terms of the tree: a pair is in one rendering, in the tree's order. */
  lemma {:induction false} MovesOfTree(root: Json, carriers: Option<map<string, Source>>, radius: nat,
                                       proposal: Proposal)
    requires KnobSeats(root).Some? && proposal.Moving?
    ensures proposal in Proposals(root, KnobSeats(root).value, carriers, radius) <==>
            || (&& |proposal.moves| == 1 && MovesKnob(root, proposal.moves[0])
                && Abs(proposal.moves[0].delta) == proposal.distance <= radius)
            || (&& |proposal.moves| == 2 && MovesKnob(root, proposal.moves[0]) && MovesKnob(root, proposal.moves[1])
                && SeatBefore(proposal.moves[0].seat, proposal.moves[1].seat)
                && proposal.moves[0].seat.rendering == proposal.moves[1].seat.rendering
                && Abs(proposal.moves[0].delta) + Abs(proposal.moves[1].delta) == proposal.distance <= radius)
  {
    hide KnobSeats, Proposals, IsPair, ApartSeats, InSeatOrder, IsSeat, HasSeat, OffersAt, DescribesAt;
    var seats := KnobSeats(root).value;
    SeatsAreKnobs(root);
    SeatsAreListed(root);
    ProposalsAreExact(root, seats, carriers, radius);
    if |proposal.moves| >= 1 {
      KnobMinimum(root, proposal.moves[0].seat);
    }
    if |proposal.moves| >= 2 {
      KnobMinimum(root, proposal.moves[1].seat);
    }
    PairInTreeOrder(seats, radius, proposal);
  }

  lemma KnobMinimum(root: Json, seat: Seat)
    ensures DescribesAt(root, seat) ==> seat.minimum == 1
  {
  }

  lemma {:induction false} PairInTreeOrder(seats: seq<Seat>, radius: nat, proposal: Proposal)
    requires InSeatOrder(seats) && proposal.Moving?
    ensures IsPair(seats, radius, proposal) <==>
            && |proposal.moves| == 2 && proposal.distance <= radius
            && proposal.moves[0].seat in seats && proposal.moves[1].seat in seats
            && SeatBefore(proposal.moves[0].seat, proposal.moves[1].seat)
            && IsPairOf(proposal.moves[0].seat, proposal.moves[1].seat, proposal.distance, proposal)
  {
    if IsPair(seats, radius, proposal) {
      var a, b :| 0 <= a < b < |seats| && IsPairOf(seats[a], seats[b], proposal.distance, proposal);
      assert SeatBefore(seats[a], seats[b]);
    } else if |proposal.moves| == 2 && proposal.moves[0].seat in seats && proposal.moves[1].seat in seats
              && SeatBefore(proposal.moves[0].seat, proposal.moves[1].seat) {
      var a :| 0 <= a < |seats| && seats[a] == proposal.moves[0].seat;
      var b :| 0 <= b < |seats| && seats[b] == proposal.moves[1].seat;
      assert a < b;
    }
  }

  // ---- The insertions of a tree -------------------------------------------------------------------

  /** An operation inserted by an earlier retune. */
  predicate IsCarrierId(operation: Json) {
    && operation.Object? && "id" in operation.fields && operation.fields["id"].Text?
    && "op_rbit_carrier_" <= operation.fields["id"].text
  }

  /** The first rendering names a source with tokens and has operations, none of them an inserted carrier. */
  predicate TakesCarrier(root: Json, carriers: Option<map<string, Source>>) {
    var path := Get(root, [Name("parameters"), Name("renderings"), At(0), Name("path")]);
    var operations := Get(root, [Name("parameters"), Name("renderings"), At(0), Name("operations")]);
    && carriers.Some? && path.Some? && path.value.Text? && path.value.text in carriers.value
    && carriers.value[path.value.text].tokens >= 1
    && operations.Some? && operations.value.Array?
    && forall i | 0 <= i < |operations.value.items| :: !IsCarrierId(operations.value.items[i])
  }

  /** A run of this many names at one end of the file, witnessed by the digest of the nearest tokens. */
  predicate InsertsRun(operation: Json, at: string, digest: string, window: nat, count: nat) {
    && Get(operation, [Name("id")]) == Some(Text("op_rbit_carrier_" + at))
    && Get(operation, [Name("op")]) == Some(Text("insert"))
    && Get(operation, [Name("anchor"), Name("at")]) == Some(Text(at))
    && Get(operation, [Name("anchor"), Name("ctx")]) == Some(Text(digest))
    && Get(operation, [Name("anchor"), Name(if at == "end" then "a" else "b")]) == Some(Int(0))
    && Get(operation, [Name("anchor"), Name(if at == "end" then "b" else "a")]) ==
       (if window == 32 then None else Some(Int(window)))
    && HoldsRun(operation, count)
  }

  predicate HoldsRun(operation: Json, count: nat) {
    && Get(operation, [Name("gen"), Name("k")]) == Some(Text("seq"))
    && Get(operation, [Name("gen"), Name("lines")]) == Some(Int(count))
    && Get(operation, [Name("gen"), Name("items"), At(0), Name("k")]) == Some(Text("fwd_run"))
    && Get(operation, [Name("gen"), Name("items"), At(0), Name("line")]) == Some(Int(1))
    && Get(operation, [Name("gen"), Name("items"), At(0), Name("count")]) == Some(Int(count))
    && Get(operation, [Name("gen"), Name("items"), At(0), Name("first")]) == Some(Int(0))
    && Get(operation, [Name("gen"), Name("items"), At(0), Name("stem")]) == Some(Text("RbCarrierRun"))
    && Get(operation, [Name("gen"), Name("items"), At(0), Name("width")]) == Some(Int(3))
    && Get(operation, [Name("gen"), Name("items"), At(1)]) == None
  }

  lemma {:induction false} GetOne(value: Json, part: Part)
    ensures Get(value, [part]) == Child(value, part)
  {
    Down(value, [], part);
    assert [] + [part] == [part];
  }

  lemma {:induction false} GetTwo(value: Json, first: Part, second: Part)
    ensures Get(value, [first, second]) ==
            if Child(value, first).None? then None else Child(Child(value, first).value, second)
  {
    GetOne(value, first);
    Down(value, [first], second);
    assert [first] + [second] == [first, second];
  }

  lemma {:induction false} GetFour(value: Json, first: Part, second: Part, third: Part, fourth: Part)
    requires Get(value, [first, second, third]).Some?
    ensures Get(value, [first, second, third, fourth]) == Child(Get(value, [first, second, third]).value, fourth)
  {
    Down(value, [first, second, third], fourth);
    assert [first, second, third] + [fourth] == [first, second, third, fourth];
  }

  lemma {:induction false} RunIsInserted(anchor: Json, at: string, digest: string, window: nat, count: nat)
    requires Child(anchor, Name("at")) == Some(Text(at)) && Child(anchor, Name("ctx")) == Some(Text(digest))
    requires Child(anchor, Name(if at == "end" then "a" else "b")) == Some(Int(0))
    requires Child(anchor, Name(if at == "end" then "b" else "a")) == if window == 32 then None else Some(Int(window))
    ensures InsertsRun(Carrier(anchor, at, count), at, digest, window, count)
  {
    hide HoldsRun, CarrierGen;
    var operation := Carrier(anchor, at, count);
    GetOne(operation, Name("id"));
    GetOne(operation, Name("op"));
    GetTwo(operation, Name("anchor"), Name("at"));
    GetTwo(operation, Name("anchor"), Name("ctx"));
    GetTwo(operation, Name("anchor"), Name(if at == "end" then "a" else "b"));
    GetTwo(operation, Name("anchor"), Name(if at == "end" then "b" else "a"));
    RunIsHeld(anchor, at, count);
  }

  lemma {:induction false} RunIsHeld(anchor: Json, at: string, count: nat)
    ensures HoldsRun(Carrier(anchor, at, count), count)
  {
    hide Get;
    var operation := Carrier(anchor, at, count);
    assert Child(operation, Name("gen")) == Some(CarrierGen(count));
    GetTwo(operation, Name("gen"), Name("k"));
    GetTwo(operation, Name("gen"), Name("lines"));
    GetTwo(operation, Name("gen"), Name("items"));
    assert [Name("gen"), Name("items")] + [At(0)] == [Name("gen"), Name("items"), At(0)];
    assert [Name("gen"), Name("items")] + [At(1)] == [Name("gen"), Name("items"), At(1)];
    Down(operation, [Name("gen"), Name("items")], At(0));
    Down(operation, [Name("gen"), Name("items")], At(1));
    GetFour(operation, Name("gen"), Name("items"), At(0), Name("k"));
    GetFour(operation, Name("gen"), Name("items"), At(0), Name("line"));
    GetFour(operation, Name("gen"), Name("items"), At(0), Name("count"));
    GetFour(operation, Name("gen"), Name("items"), At(0), Name("first"));
    GetFour(operation, Name("gen"), Name("items"), At(0), Name("stem"));
    GetFour(operation, Name("gen"), Name("items"), At(0), Name("width"));
  }

  lemma {:induction false} FirstIsThere(root: Json)
    ensures
      var path := Get(root, [Name("parameters"), Name("renderings"), At(0), Name("path")]);
      var operations := Get(root, [Name("parameters"), Name("renderings"), At(0), Name("operations")]);
      FirstOperations(root) ==
      if path.Some? && path.value.Text? && operations.Some? && operations.value.Array?
      then Some((path.value.text, operations.value.items)) else None
  {
    var start := [Name("parameters"), Name("renderings")];
    Down(root, start, At(0));
    Down(root, start + [At(0)], Name("path"));
    Down(root, start + [At(0)], Name("operations"));
    assert start + [At(0)] + [Name("path")] == [Name("parameters"), Name("renderings"), At(0), Name("path")];
    assert start + [At(0)] + [Name("operations")] ==
        [Name("parameters"), Name("renderings"), At(0), Name("operations")];
  }

  /** Insertions are proposed exactly for a rendering that takes one: at the end of the file, then at its start. */
  lemma {:induction false} InsertionsOfTree(root: Json, carriers: Option<map<string, Source>>, count: nat)
    ensures Insertions(root, carriers, count) != [] <==> TakesCarrier(root, carriers)
    ensures TakesCarrier(root, carriers) ==>
              var source :=
                  carriers.value[Get(root, [Name("parameters"), Name("renderings"), At(0), Name("path")]).value.text];
              var window := if source.tokens < 32 then source.tokens else 32;
              var proposals := Insertions(root, carriers, count);
              && |proposals| == 2
              && proposals[0].Inserting? && proposals[0].count == count
              && InsertsRun(proposals[0].operation, "end", source.digest(source.tokens, window, 0), window, count)
              && proposals[1].Inserting? && proposals[1].count == count
              && InsertsRun(proposals[1].operation, "start", source.digest(0, 0, window), window, count)
  {
    hide InsertsRun, Carrier, Get, FirstOperations;
    FirstIsThere(root);
    NoneIsCarrier(root);
    var first := FirstOperations(root);
    if TakesCarrier(root, carriers) {
      var source := carriers.value[first.value.0];
      var window := if source.tokens < 32 then source.tokens else 32;
      RunIsInserted(Anchor(source, "end").value, "end", source.digest(source.tokens, window, 0), window, count);
      RunIsInserted(Anchor(source, "start").value, "start", source.digest(0, 0, window), window, count);
    }
  }

  lemma NoneIsCarrier(root: Json)
    ensures FirstOperations(root).Some? ==>
              forall i | 0 <= i < |FirstOperations(root).value.1| ::
                IsInserted(FirstOperations(root).value.1[i]) <==> IsCarrierId(FirstOperations(root).value.1[i])
  {
  }
}
