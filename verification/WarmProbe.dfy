/**
 The warm-build probes: look at a bounded list of candidate records, re-resolve the trace
 each one kept, and return a record only when the recomputed key names one.

 A key stands for its preimage: canonical JSON and SHA-256 are taken as injective.
 */
module WarmProbe {
  import opened Options
  import opened Traces
  import opened JsonValues
  import opened IncludeResolution
  import opened IncludeWalk
  import opened DependencyHints
  import opened DonorHints

  // ---- The candidate loop -----------------------------------------------

  /** A record, found under its own key. */
  datatype Record<K> = Record(key: K, metadata: map<string, Json>)

  datatype Outcome<K, H, R> =
    | Hit(key: K, record: Record<K>, result: R, hint: H)
    | Changed(key: K, result: R, hint: H)
    | Missed

  type Cache<K> = map<K, Record<K>>

  /** Records are stored under their own key (checked by `_parse_record`). */
  predicate KeysMatch<K>(cache: Cache<K>) {
    forall key | key in cache :: cache[key].key == key
  }

  /** What a probe does with one candidate: parse its hint, resolve it now, recompute its key. */
  datatype Attempt<!K, !H, !R> = Attempt(read: Record<K> -> Option<(H, R)>, keyOf: R -> K)

  /** The record under the recomputed key; the candidate itself when the key did not change. */
  function Exact<K(==), H, R>(cache: Cache<K>, attempt: Attempt<K, H, R>, candidate: K): Option<Outcome<K, H, R>> {
    if candidate !in cache then None
    else
      var read := attempt.read(cache[candidate]);
      if read.None? then None
      else
        var key := attempt.keyOf(read.value.1);
        if cache[candidate].key == key then Some(Hit(key, cache[candidate], read.value.1, read.value.0))
        else if key in cache then Some(Hit(key, cache[key], read.value.1, read.value.0))
        else Some(Changed(key, read.value.1, read.value.0))
  }

  /** The first candidate with an outcome of the wanted kind. */
  function FirstHit<K(==), H, R>(cache: Cache<K>, attempt: Attempt<K, H, R>, candidates: seq<K>): Option<Outcome<K, H,
      R>> {
    if candidates == [] then None
    else
      var first := Exact(cache, attempt, candidates[0]);
      if first.Some? && first.value.Hit? then first else FirstHit(cache, attempt, candidates[1..])
  }

  function FirstUsable<K(==), H, R>(cache: Cache<K>, attempt: Attempt<K, H, R>, candidates: seq<K>): Option<Outcome<K,
      H, R>> {
    if candidates == [] then None
    else
      var first := Exact(cache, attempt, candidates[0]);
      if first.Some? then first else FirstUsable(cache, attempt, candidates[1..])
  }

  /** A hit anywhere wins over every miss; among misses the first usable one is reported. */
  function Probe<K(==), H, R>(cache: Cache<K>, attempt: Attempt<K, H, R>, candidates: seq<K>): Outcome<K, H, R> {
    var hit := FirstHit(cache, attempt, candidates);
    if hit.Some? then hit.value
    else
      var miss := FirstUsable(cache, attempt, candidates);
      if miss.Some? then miss.value else Missed
  }

  /** The loop of both probes (src/reprobit/classic_cache.py:397-437, 605-642). */
  method ProbeCandidates<K(==), H, R>(cache: Cache<K>, attempt: Attempt<K, H, R>, candidates: seq<K>)
    returns (outcome: Outcome<K, H, R>)
    ensures outcome == Probe(cache, attempt, candidates)
  {
    var bestMiss: Option<Outcome<K, H, R>> := None;
    for i := 0 to |candidates|
      invariant FirstHit(cache, attempt, candidates) == FirstHit(cache, attempt, candidates[i..])
      invariant FirstUsable(cache, attempt, candidates) ==
                if bestMiss.Some? then bestMiss else FirstUsable(cache, attempt, candidates[i..])
      invariant bestMiss.Some? ==> bestMiss.value.Changed?
    {
      assert candidates[i..][1..] == candidates[i + 1..];
      if candidates[i] in cache {
        var record := cache[candidates[i]];
        var read := attempt.read(record);
        if read.Some? {
          var (hint, result) := read.value;
          var key := attempt.keyOf(result);
          if record.key == key {
            return Hit(key, record, result, hint);
          }
          if key in cache {
            return Hit(key, cache[key], result, hint);
          }
          if bestMiss.None? {
            bestMiss := Some(Changed(key, result, hint));
          }
        }
      }
    }
    outcome := if bestMiss.Some? then bestMiss.value else Missed;
  }

  /** A probe hits exactly when some candidate, resolved now, has a key that names a record. */
  lemma {:induction false} HitsExactlyWhenNamed<K, H, R>(cache: Cache<K>, attempt: Attempt<K, H, R>, candidates: seq<K>)
    requires KeysMatch(cache)
    ensures FirstHit(cache, attempt, candidates).Some? <==>
            exists i :: 0 <= i < |candidates| && candidates[i] in cache
              && attempt.read(cache[candidates[i]]).Some?
              && attempt.keyOf(attempt.read(cache[candidates[i]]).value.1) in cache
    ensures
      var hit := FirstHit(cache, attempt, candidates);
      hit.Some? ==>
        && hit.value.Hit? && hit.value.key in cache && hit.value.record == cache[hit.value.key]
        && hit.value.record.key == hit.value.key == attempt.keyOf(hit.value.result)
        && exists i :: 0 <= i < |candidates| && candidates[i] in cache
             && attempt.read(cache[candidates[i]]) == Some((hit.value.hint, hit.value.result))
  {
    if candidates != [] {
      HitsExactlyWhenNamed(cache, attempt, candidates[1..]);
      assert candidates == [candidates[0]] + candidates[1..];
      assert forall i | 0 <= i < |candidates[1..]| :: candidates[1..][i] == candidates[i + 1];
      assert forall i | 0 < i < |candidates| :: candidates[i] == candidates[1..][i - 1];
    }
  }
}
