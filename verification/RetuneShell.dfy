/** Nearby states of two integer knobs, by distance (src/reprobit/classic_donor_retune_candidates.py). */
module RetuneShell {
  import opened Sorting

  type State = (int, int)

  function Abs(x: int): nat {
    if x < 0 then -x else x
  }

  function Distance(saved: State, other: State): nat {
    Abs(other.0 - saved.0) + Abs(other.1 - saved.1)
  }

  predicate Before(left: State, right: State) {
    left.0 < right.0 || (left.0 == right.0 && left.1 < right.1)
  }

  lemma BeforeIsOrder()
    ensures StrictOrder(Before)
  {
  }

  // ---- One shell ---------------------------------------------------------------------

  function Kept(state: State, accept: State -> bool): seq<State> {
    if accept(state) then [state] else []
  }

  predicate InShell(saved: State, distance: nat, accept: State -> bool, state: State) {
    accept(state) && Distance(saved, state) == distance
  }

  /** The admissible states at this distance whose first knob moved by `delta`. */
  function Row(saved: State, distance: nat, delta: int, accept: State -> bool): (row: seq<State>)
    requires Abs(delta) <= distance
    ensures Ascending(row, Before)
    ensures forall state :: state in row <==> InShell(saved, distance, accept, state) && state.0 - saved.0 == delta
  {
    var remaining := distance - Abs(delta);
    var low, high := (saved.0 + delta, saved.1 - remaining), (saved.0 + delta, saved.1 + remaining);
    if remaining == 0 then Kept(low, accept) else Kept(low, accept) + Kept(high, accept)
  }

  /** The rows from `delta` on. */
  function ShellFrom(saved: State, distance: nat, delta: int, accept: State -> bool): (shell: seq<State>)
    requires 0 - distance <= delta <= distance + 1
    ensures Ascending(shell, Before)
    ensures forall state :: state in shell <==> InShell(saved, distance, accept, state) && state.0 - saved.0 >= delta
    decreases distance + 1 - delta
  {
    if delta > distance then []
    else
      var row, rest := Row(saved, distance, delta, accept), ShellFrom(saved, distance, delta + 1, accept);
      RowThenRest(saved, row, rest, delta);
      row + rest
  }

  lemma {:induction false} RowThenRest(saved: State, row: seq<State>, rest: seq<State>, delta: int)
    requires Ascending(row, Before) && Ascending(rest, Before)
    requires forall state | state in row :: state.0 - saved.0 == delta
    requires forall state | state in rest :: state.0 - saved.0 > delta
    ensures Ascending(row + rest, Before)
  {
    var all := row + rest;
    forall i, j | 0 <= i < j < |all| ensures Before(all[i], all[j]) {
      assert i < |row| ==> all[i] in row;
      assert j >= |row| ==> all[j] in rest;
    }
  }

  function Shell(saved: State, distance: nat, accept: State -> bool): seq<State> {
    ShellFrom(saved, distance, 0 - distance, accept)
  }

  /** `_manhattan_shell`: the states at exactly this distance, in ascending order. */
  method ManhattanShell(saved: State, distance: nat, accept: State -> bool) returns (shell: seq<State>)
    ensures shell == Shell(saved, distance, accept)
  {
    var found: set<State> := {};
    for delta := 0 - distance to distance + 1
      invariant forall state :: state in found <==>
                  InShell(saved, distance, accept, state) && 0 - distance <= state.0 - saved.0 < delta
    {
      var remaining := distance - Abs(delta);
      var low, high := (saved.0 + delta, saved.1 - remaining), (saved.0 + delta, saved.1 + remaining);
      if accept(low) {
        found := found + {low};
      }
      if remaining != 0 && accept(high) {
        found := found + {high};
      }
    }
    BeforeIsOrder();
    shell := Sorted(found, Before);
    AscendingIsUnique(shell, Shell(saved, distance, accept), Before);
  }

  // ---- The enumeration -----------------------------------------------------------------

  /** All shells up to the radius, nearest first. */
  function Nearby(saved: State, radius: nat, accept: State -> bool): seq<State> {
    if radius == 0 then [] else Nearby(saved, radius - 1, accept) + Shell(saved, radius, accept)
  }

  /** The loop of the two-knob enumerators: a limit keeps exactly a prefix. */
  method Enumerate(saved: State, radius: nat, limit: nat, accept: State -> bool) returns (candidates: seq<State>)
    requires limit >= 1
    ensures candidates <= Nearby(saved, radius, accept)
    ensures |candidates| <= limit && (|candidates| == limit || candidates == Nearby(saved, radius, accept))
  {
    hide Shell;
    candidates := [];
    for distance := 1 to radius + 1
      invariant candidates == Nearby(saved, distance - 1, accept) && |candidates| < limit
    {
      var shell := ManhattanShell(saved, distance, accept);
      assert Nearby(saved, distance, accept) == candidates + shell;
      NearbyGrows(saved, distance, radius, accept);
      ghost var before := candidates;
      for i := 0 to |shell|
        invariant candidates == before + shell[..i] && |candidates| < limit
      {
        assert before + shell[..i + 1] == before + shell[..i] + [shell[i]];
        assert before + shell[..i + 1] <= before + shell;
        candidates := candidates + [shell[i]];
        if |candidates| == limit {
          return;
        }
      }
      assert shell[..|shell|] == shell;
    }
  }

  lemma {:induction false} NearbyGrows(saved: State, distance: nat, radius: nat, accept: State -> bool)
    requires distance <= radius
    ensures Nearby(saved, distance, accept) <= Nearby(saved, radius, accept)
  {
    hide Shell;
    if distance < radius {
      NearbyGrows(saved, distance, radius - 1, accept);
    }
  }

  /** Nearer first, then ascending. */
  predicate Earlier(saved: State, left: State, right: State) {
    Distance(saved, left) < Distance(saved, right)
        || (Distance(saved, left) == Distance(saved, right) && Before(left, right))
  }

  predicate InOrder(saved: State, states: seq<State>) {
    forall i, j | 0 <= i < j < |states| :: Earlier(saved, states[i], states[j])
  }

  /** A shell comes after everything nearer. */
  lemma {:induction false} ShellComesLater(saved: State, near: seq<State>, shell: seq<State>, radius: nat)
    requires InOrder(saved, near) && Ascending(shell, Before)
    requires forall state | state in near :: Distance(saved, state) < radius
    requires forall state | state in shell :: Distance(saved, state) == radius
    ensures InOrder(saved, near + shell)
  {
    hide Distance, Before;
    var all := near + shell;
    forall i, j | 0 <= i < j < |all| ensures Earlier(saved, all[i], all[j]) {
      assert if i < |near| then all[i] in near else all[i] in shell;
      assert if j < |near| then all[j] in near else all[j] in shell;
    }
  }

  /** The enumeration lists exactly the admissible states within the radius, once each, never the saved one. */
  lemma {:induction false} NearbyIsExact(saved: State, radius: nat, accept: State -> bool)
    ensures forall state ::
              state in Nearby(saved, radius, accept) <==> accept(state) && 1 <= Distance(saved, state) <= radius
    ensures InOrder(saved, Nearby(saved, radius, accept))
    ensures saved !in Nearby(saved, radius, accept)
  {
    hide Before, InOrder;
    if radius > 0 {
      NearbyIsExact(saved, radius - 1, accept);
      ShellComesLater(saved, Nearby(saved, radius - 1, accept), Shell(saved, radius, accept), radius);
    } else {
      NoStates(saved);
    }
  }

  lemma NoStates(saved: State)
    ensures InOrder(saved, [])
  {
  }
}
