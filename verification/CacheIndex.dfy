/**
 The bounded, replaceable lookup index of one cache value: a list of at most sixteen
 record keys, most recent first, that may be lost or corrupted at any time.
 */
module CacheIndex {
  import opened Options

  const MAX_CANDIDATES: nat := 16

  predicate NoRepeats(keys: seq<string>) {
    forall i, j | 0 <= i < j < |keys| :: keys[i] != keys[j]
  }

  function Without(keys: seq<string>, key: string): seq<string> {
    if keys == [] then []
    else if keys[0] == key then Without(keys[1..], key)
    else [keys[0]] + Without(keys[1..], key)
  }

  function MoveToFront(keys: seq<string>, key: string): seq<string> {
    [key] + Without(keys, key)
  }

  function Bounded(keys: seq<string>): seq<string> {
    if |keys| <= MAX_CANDIDATES then keys else keys[..MAX_CANDIDATES]
  }

  /** What `_read_index` makes of the file: `None` is an absent or unreadable one. */
  function ReadIndex(stored: Option<seq<string>>): seq<string> {
    if stored.Some? && |stored.value| <= MAX_CANDIDATES && NoRepeats(stored.value) then stored.value else []
  }

  class IndexFile {
    var stored: Option<seq<string>>

    constructor ()
      ensures stored == None
    {
      stored := None;
    }

    /** `CacheLease.index_record` once it holds the index lock (src/reprobit/cache.py:892-912). */
    method IndexRecord(key: string)
      modifies this
      ensures stored == Some(Bounded(MoveToFront(ReadIndex(old(stored)), key)))
    {
      var existing := ReadIndex(stored);
      var keys := [key];
      for i := 0 to |existing|
        invariant keys + Without(existing[i..], key) == MoveToFront(existing, key)
      {
        assert existing[i..][1..] == existing[i + 1..];
        if existing[i] != key {
          assert keys + ([existing[i]] + Without(existing[i + 1..], key)) ==
                 keys + [existing[i]] + Without(existing[i + 1..], key);
          keys := keys + [existing[i]];
        }
      }
      assert keys == MoveToFront(existing, key) by {
        assert existing[|existing|..] == [];
        assert keys + [] == keys;
      }
      if |keys| > MAX_CANDIDATES {
        keys := keys[..MAX_CANDIDATES];
      }
      stored := Some(keys);
    }
  }

  // ---- Whole histories --------------------------------------------------

  /** `Lose` is any corruption, deletion or collection of the index file. */
  datatype Event = Update(key: string) | Lose

  /** The index file after a history of events. */
  function After(events: seq<Event>): Option<seq<string>> {
    if events == [] then None
    else
      var before := After(events[..|events| - 1]);
      match events[|events| - 1]
      case Update(key) => Some(Bounded(MoveToFront(ReadIndex(before), key)))
      case Lose => None
  }

  /** The keys indexed since the index was last lost, oldest first. */
  function SinceLoss(events: seq<Event>): seq<string> {
    if events == [] then []
    else
      var before := SinceLoss(events[..|events| - 1]);
      match events[|events| - 1]
      case Update(key) => before + [key]
      case Lose => []
  }

  /** The unbounded move-to-front list. */
  function History(updates: seq<string>): seq<string> {
    if updates == [] then []
    else MoveToFront(History(updates[..|updates| - 1]), updates[|updates| - 1])
  }

  /** One past the position of the last use of a key, or zero when it was never used. */
  function LastUse(updates: seq<string>, key: string): (n: nat)
    ensures n <= |updates|
    ensures n == 0 <==> key !in updates
    ensures n > 0 ==> updates[n - 1] == key && key !in updates[n..]
  {
    if updates == [] then 0
    else if updates[|updates| - 1] == key then |updates|
    else
      assert updates == updates[..|updates| - 1] + [updates[|updates| - 1]];
      LastUse(updates[..|updates| - 1], key)
  }

  /** Removing a key keeps the other keys in order. */
  lemma {:induction false} WithoutIs(keys: seq<string>, key: string)
    ensures forall k :: k in Without(keys, key) <==> k in keys && k != key
    ensures NoRepeats(keys) ==> NoRepeats(Without(keys, key))
  {
    if keys != [] {
      WithoutIs(keys[1..], key);
      assert keys == [keys[0]] + keys[1..];
      if NoRepeats(keys) {
        var rest := Without(keys[1..], key);
        forall i | 0 <= i < |rest| ensures rest[i] != keys[0] {
          assert rest[i] in keys[1..];
        }
      }
    }
  }

  /** Removing a key from the front part loses at most one place. */
  lemma {:induction false} WithoutFront(keys: seq<string>, key: string, n: nat)
    requires NoRepeats(keys) && n <= |keys|
    ensures Without(keys[..n], key) <= Without(keys, key)
    ensures |Without(keys[..n], key)| >= n - 1
    ensures key !in keys[..n] ==> |Without(keys[..n], key)| == n
    ensures |Without(keys, key)| <= |keys|
  {
    if keys != [] {
      if n == 0 {
        WithoutFront(keys[1..], key, 0);
      } else {
        assert keys[..n][1..] == keys[1..][..n - 1];
        WithoutFront(keys[1..], key, n - 1);
        if keys[0] == key {
          assert forall k | k in keys[1..] :: k != key;
          assert key !in keys[1..][..n - 1];
        } else {
          assert keys[..n] == [keys[0]] + keys[1..][..n - 1];
        }
      }
    }
  }

  lemma {:induction false} BoundedMove(keys: seq<string>, key: string)
    requires NoRepeats(keys)
    ensures Bounded(MoveToFront(Bounded(keys), key)) == Bounded(MoveToFront(keys, key))
  {
    if |keys| > MAX_CANDIDATES {
      WithoutFront(keys, key, MAX_CANDIDATES);
      hide Without, NoRepeats;
      var short, long := Without(keys[..MAX_CANDIDATES], key), Without(keys, key);
      assert |short| >= MAX_CANDIDATES - 1 && short == long[..|short|];
      assert short[..MAX_CANDIDATES - 1] == long[..MAX_CANDIDATES - 1];
      assert Bounded([key] + short) == [key] + short[..MAX_CANDIDATES - 1];
      assert Bounded([key] + long) == [key] + long[..MAX_CANDIDATES - 1];
    }
  }

  /** Last use of the keys that an update does not name is unchanged by it. */
  lemma {:induction false} WithoutOrder(keys: seq<string>, key: string, updates: seq<string>)
    requires forall i, j | 0 <= i < j < |keys| :: LastUse(updates, keys[i]) > LastUse(updates, keys[j])
    ensures forall i, j | 0 <= i < j < |Without(keys, key)| ::
              LastUse(updates, Without(keys, key)[i]) > LastUse(updates, Without(keys, key)[j])
  {
    if keys != [] {
      WithoutOrder(keys[1..], key, updates);
      WithoutIs(keys[1..], key);
      forall k | k in Without(keys[1..], key) ensures LastUse(updates, keys[0]) > LastUse(updates, k) {
        var j :| 0 <= j < |keys[1..]| && keys[1..][j] == k;
        assert keys[1 + j] == k;
      }
    }
  }

  /** The history holds each used key once, by decreasing last use. */
  lemma {:induction false} HistoryIsByLastUse(updates: seq<string>)
    ensures NoRepeats(History(updates))
    ensures forall key :: key in History(updates) <==> key in updates
    ensures forall i, j | 0 <= i < j < |History(updates)| ::
              LastUse(updates, History(updates)[i]) > LastUse(updates, History(updates)[j])
  {
    if updates != [] {
      var before, key := updates[..|updates| - 1], updates[|updates| - 1];
      HistoryIsByLastUse(before);
      WithoutIs(History(before), key);
      WithoutOrder(History(before), key, before);
      assert updates == before + [key] && History(updates) == [key] + Without(History(before), key);
      var rest := Without(History(before), key);
      hide Without, History;
      forall k | k in rest ensures LastUse(updates, k) == LastUse(before, k) < |updates| {
        assert k != key;
      }
      var all := [key] + rest;
      forall i, j | 0 <= i < j < |all| ensures LastUse(updates, all[i]) > LastUse(updates, all[j]) {
        assert all[j] in rest && (i > 0 ==> all[i] in rest);
      }
    }
  }

  /** At every moment the index is the front of the unbounded history since the last loss. */
  lemma {:induction false} IndexIsBoundedHistory(events: seq<Event>)
    ensures ReadIndex(After(events)) == Bounded(History(SinceLoss(events)))
    ensures NoRepeats(ReadIndex(After(events)))
    ensures After(events).Some? ==> ReadIndex(After(events)) == After(events).value
  {
    if events != [] {
      var before := events[..|events| - 1];
      IndexIsBoundedHistory(before);
      match events[|events| - 1]
      case Lose =>
      case Update(key) => UpdateKeepsFront(SinceLoss(before), key);
    }
  }

  lemma {:induction false} UpdateKeepsFront(updates: seq<string>, key: string)
    ensures
      var index := Bounded(MoveToFront(Bounded(History(updates)), key));
      && index == Bounded(History(updates + [key])) && |index| <= MAX_CANDIDATES && NoRepeats(index)
  {
    hide LastUse, Without;
    HistoryIsByLastUse(updates);
    HistoryIsByLastUse(updates + [key]);
    BoundedMove(History(updates), key);
    assert (updates + [key])[..|updates|] == updates;
  }
}
