/**
 A warm hit is faithful: whenever a probe returns a record, the compiler run now would read
 exactly the files and digests that it read in the build that stored the record.
 */
module WarmFaithful {
  import opened Options
  import opened Traces
  import opened JsonValues
  import opened IncludeResolution
  import opened IncludeWalk
  import opened DependencyHints
  import opened DonorHints
  import opened WarmProbe

  datatype DonorReads = DonorReads(donorId: string, listed: seq<Resolved>)

  /** The recursive reads of a key; an unusable replay gets a nonce of its own. */
  datatype ReadSet =
    | CompilerReads(listed: seq<Resolved>)
    | ProjectedReads(donors: seq<DonorReads>)
    | Unusable(reason: string, nonce: string)

  /** The preimage of a producer key: the other material, and the recursive reads. */
  datatype Key<B> = Key(base: B, recursive: ReadSet)

  // ---- The compiler probe -------------------------------------------------

  /** Parse the hint of a record and re-resolve it (src/reprobit/classic_cache.py:401-415). */
  function CompilerAttempt<B>(paths: Paths, base: B, baseKey: string, invocation: Invocation, authority: Authority)
    : Attempt<Key<B>, CompilerHint, seq<Resolved>>
  {
    Attempt(
      (record: Record<Key<B>>) =>
        if "compiler_dependency_hint" !in record.metadata then None
        else
          var hint := ParseCompiler(record.metadata["compiler_dependency_hint"]);
          if hint.None? || hint.value.baseKey != baseKey then None
          else
            var listed := Resolve(paths, Trace(hint.value.workingDirectory, hint.value.sources), invocation, authority);
            if listed.None? then None else Some((hint.value, listed.value)),
      (listed: seq<Resolved>) => Key(base, CompilerReads(listed)))
  }

  // ---- The transform probe ------------------------------------------------

  datatype DonorContext = DonorContext(donorId: string, invocation: Invocation, authority: Authority)

  function ContextIds(contexts: seq<DonorContext>): seq<string> {
    seq(|contexts|, i requires 0 <= i < |contexts| => contexts[i].donorId)
  }

  /** A donor may read its private files only below its own working directory. */
  predicate InArena(paths: Paths, listed: seq<Resolved>, directory: string) {
    forall i | 0 <= i < |listed| :: listed[i].origin.DonorArena? ==> paths.within(listed[i].logicalPath, directory)
  }

  function ResolveDonor(paths: Paths, donor: DonorTrace, context: DonorContext): Option<seq<Resolved>> {
    var listed := Resolve(paths, Trace(donor.workingDirectory, donor.sources), context.invocation, context.authority);
    if listed.Some? && InArena(paths, listed.value, context.invocation.workingDirectory) then listed else None
  }

  function ResolveDonorList(paths: Paths, donors: seq<DonorTrace>,
                            contexts: seq<DonorContext>): (r: Option<seq<DonorReads>>)
    requires |donors| == |contexts|
    ensures r.Some? ==> |r.value| == |donors|
    ensures r.Some? ==> forall i | 0 <= i < |donors| ::
              r.value[i].donorId == donors[i].donorId
                  && ResolveDonor(paths, donors[i], contexts[i]) == Some(r.value[i].listed)
  {
    if donors == [] then Some([])
    else
      var n := |donors| - 1;
      var earlier := ResolveDonorList(paths, donors[..n], contexts[..n]);
      var listed := ResolveDonor(paths, donors[n], contexts[n]);
      if earlier.None? || listed.None? then None
      else Some(earlier.value + [DonorReads(donors[n].donorId, listed.value)])
  }

  /** `_resolve_donor_transform_dependencies` (src/reprobit/classic_cache.py:498-535). */
  function ResolveDonors(paths: Paths, donors: seq<DonorTrace>, contexts: seq<DonorContext>): Option<seq<DonorReads>> {
    if !CanonicalIds(paths.fold, IdsOf(donors)) || IdsOf(donors) != ContextIds(contexts) then None
    else ResolveDonorList(paths, donors, contexts)
  }

  function DonorAttempt<B>(paths: Paths, base: B, baseKey: string, contexts: seq<DonorContext>)
    : Attempt<Key<B>, DonorHint, seq<DonorReads>>
  {
    Attempt(
      (record: Record<Key<B>>) =>
        if "donor_transform_dependency_hint" !in record.metadata then None
        else
          var hint := ParseTransform(paths.fold, record.metadata["donor_transform_dependency_hint"]);
          if hint.None? || hint.value.baseKey != baseKey then None
          else
            var donors := ResolveDonors(paths, hint.value.donors, contexts);
            if donors.None? then None else Some((hint.value, donors.value)),
      (donors: seq<DonorReads>) => Key(base, ProjectedReads(donors)))
  }

  // ---- Hits -----------------------------------------------------------------

  /** A probe hits as soon as one candidate, resolved now, has the key of a record. */
  lemma {:induction false} NamedHits<K, H,
      R>(cache: Cache<K>, attempt: Attempt<K, H, R>, candidates: seq<K>, candidate: K, read: (H, R))
    requires KeysMatch(cache) && candidate in candidates && candidate in cache
    requires attempt.read(cache[candidate]) == Some(read) && attempt.keyOf(read.1) in cache
    ensures Probe(cache, attempt, candidates).Hit?
  {
    HitsExactlyWhenNamed(cache, attempt, candidates);
    var i :| 0 <= i < |candidates| && candidates[i] == candidate;
    assert attempt.read(cache[candidates[i]]).Some?;
  }

  lemma {:induction false} UnreadMisses<K, H, R>(cache: Cache<K>, attempt: Attempt<K, H, R>, candidates: seq<K>)
    requires forall i | 0 <= i < |candidates| && candidates[i] in cache :: attempt.read(cache[candidates[i]]).None?
    ensures Probe(cache, attempt, candidates) == Missed
  {
    if candidates != [] {
      UnreadMisses(cache, attempt, candidates[1..]);
      assert forall i | 0 <= i < |candidates[1..]| :: candidates[1..][i] == candidates[i + 1];
    }
  }

  /** An unchanged build hits: some candidate's hint resolves now to reads under which a record is stored. */
  lemma {:induction false} UnchangedCompilerHits<B>(paths: Paths, cache: Cache<Key<B>>, candidates: seq<Key<B>>,
                                                    base: B, baseKey: string, invocation: Invocation, now: Authority,
                                                        candidate: Key<B>, hint: CompilerHint, listed: seq<Resolved>)
    requires KeysMatch(cache) && candidate in candidates && candidate in cache
    requires "compiler_dependency_hint" in cache[candidate].metadata
    requires cache[candidate].metadata["compiler_dependency_hint"] == CompilerJson(hint)
    requires IsCompilerHint(hint) && hint.baseKey == baseKey
    requires Resolve(paths, Trace(hint.workingDirectory, hint.sources), invocation, now) == Some(listed)
    requires Key(base, CompilerReads(listed)) in cache
    ensures Probe(cache, CompilerAttempt(paths, base, baseKey, invocation, now), candidates).Hit?
  {
    hide Resolve, ParseCompiler, CompilerJson, IsCompilerHint;
    ParseCompilerJson(hint);
    NamedHits(cache, CompilerAttempt(paths, base, baseKey, invocation, now), candidates, candidate, (hint, listed));
  }

  /** Hints written for another base key are never used. */
  lemma {:induction false} OtherBaseMisses<B>(paths: Paths, cache: Cache<Key<B>>, candidates: seq<Key<B>>, base: B,
                                              baseKey: string, invocation: Invocation, now: Authority)
    requires forall i | 0 <= i < |candidates| && candidates[i] in cache ::
               !HintNames(cache[candidates[i]].metadata, "compiler_dependency_hint", baseKey)
    ensures Probe(cache, CompilerAttempt(paths, base, baseKey, invocation, now), candidates) == Missed
  {
    hide Resolve, ParsePaths, ParseTopology;
    UnreadMisses(cache, CompilerAttempt(paths, base, baseKey, invocation, now), candidates);
  }

  /** The document under this field carries this base key. */
  predicate HintNames(metadata: map<string, Json>, field: string, baseKey: string) {
    && field in metadata && metadata[field].Object? && "base_key" in metadata[field].fields
    && metadata[field].fields["base_key"] == Text(baseKey)
  }

  /** What one donor reads now: its trace resolves, and its private files lie below its own directory. */
  predicate DonorReadsNow(paths: Paths, donor: DonorTrace, context: DonorContext, now: DonorReads) {
    && now.donorId == donor.donorId == context.donorId
    && Resolve(paths, Trace(donor.workingDirectory, donor.sources), context.invocation, context.authority) ==
       Some(now.listed)
    && forall i | 0 <= i < |now.listed| && now.listed[i].origin.DonorArena? ::
         paths.within(now.listed[i].logicalPath, context.invocation.workingDirectory)
  }

  predicate AllDonorsReadNow(paths: Paths, donors: seq<DonorTrace>, contexts: seq<DonorContext>, now: seq<DonorReads>) {
    && |donors| == |contexts| == |now|
    && forall d | 0 <= d < |donors| :: DonorReadsNow(paths, donors[d], contexts[d], now[d])
  }

  /** The donors resolve exactly when each reads what is listed for it. */
  lemma {:induction false} DonorListExact(paths: Paths, donors: seq<DonorTrace>, contexts: seq<DonorContext>,
                                          now: seq<DonorReads>)
    requires |donors| == |contexts| && IdsOf(donors) == ContextIds(contexts)
    ensures ResolveDonorList(paths, donors, contexts) == Some(now) <==> AllDonorsReadNow(paths, donors, contexts, now)
  {
    hide Resolve;
    if donors != [] {
      var n := |donors| - 1;
      assert donors[n].donorId == IdsOf(donors)[n] == ContextIds(contexts)[n] == contexts[n].donorId;
      assert IdsOf(donors[..n]) == IdsOf(donors)[..n] == ContextIds(contexts)[..n] == ContextIds(contexts[..n]);
      if now != [] {
        DonorListExact(paths, donors[..n], contexts[..n], now[..|now| - 1]);
        assert now == now[..|now| - 1] + [now[|now| - 1]];
      }
      var earlier := ResolveDonorList(paths, donors[..n], contexts[..n]);
      if earlier.Some? && ResolveDonor(paths, donors[n], contexts[n]).Some? {
        DonorListExact(paths, donors[..n], contexts[..n], earlier.value);
      }
    }
  }

  /** An unchanged transform hits. */
  lemma {:induction false} UnchangedDonorsHit<B>(paths: Paths, cache: Cache<Key<B>>, candidates: seq<Key<B>>, base: B,
                                                 baseKey: string, contexts: seq<DonorContext>, candidate: Key<B>,
                                                 hint: DonorHint, now: seq<DonorReads>)
    requires KeysMatch(cache) && candidate in candidates && candidate in cache
    requires "donor_transform_dependency_hint" in cache[candidate].metadata
    requires cache[candidate].metadata["donor_transform_dependency_hint"] == TransformJson(hint)
    requires IsTransformHint(paths.fold, hint) && hint.baseKey == baseKey
    requires AllDonorsReadNow(paths, hint.donors, contexts, now) && Key(base, ProjectedReads(now)) in cache
    ensures Probe(cache, DonorAttempt(paths, base, baseKey, contexts), candidates).Hit?
  {
    hide Resolve, ParseTransform, TransformJson, CanonicalIds, AllDonors, DonorReadsNow;
    ParseTransformJson(paths.fold, hint);
    ChecksAreForm(paths.fold, hint);
    assert IdsOf(hint.donors) == ContextIds(contexts) by { SameIds(paths, hint.donors, contexts, now); }
    DonorListExact(paths, hint.donors, contexts, now);
    NamedHits(cache, DonorAttempt(paths, base, baseKey, contexts), candidates, candidate, (hint, now));
  }

  lemma SameIds(paths: Paths, donors: seq<DonorTrace>, contexts: seq<DonorContext>, now: seq<DonorReads>)
    requires AllDonorsReadNow(paths, donors, contexts, now)
    ensures IdsOf(donors) == ContextIds(contexts)
  {
  }

  lemma {:induction false} OtherBaseMissesDonors<B>(paths: Paths, cache: Cache<Key<B>>, candidates: seq<Key<B>>,
                                                    base: B, baseKey: string, contexts: seq<DonorContext>)
    requires forall i | 0 <= i < |candidates| && candidates[i] in cache ::
               !HintNames(cache[candidates[i]].metadata, "donor_transform_dependency_hint", baseKey)
    ensures Probe(cache, DonorAttempt(paths, base, baseKey, contexts), candidates) == Missed
  {
    hide Resolve, ParsePaths, ParseDonors, ResolveDonors;
    UnreadMisses(cache, DonorAttempt(paths, base, baseKey, contexts), candidates);
  }

  // ---- Faithfulness -------------------------------------------------------

  /** A complete walk over sealed files whose trace resolved to the listed reads. */
  ghost predicate WalkedTo(paths: Paths, walker: Walker, invocation: Invocation, authority: Authority,
                           directory: string, history: seq<Event>, listed: seq<Resolved>)
  {
    && Resolve(paths, Trace(directory, SourcesOf(history)), invocation, authority) == Some(listed)
    && CompilerSetting(paths, invocation).Some?
    && IsCompleteWalk(paths, walker, CompilerSetting(paths, invocation).value, authority.files, history)
  }

  /** The walk over these files is `history`, and it reads what is listed. */
  ghost predicate WouldReadExactly(paths: Paths, walker: Walker, invocation: Invocation, authority: Authority,
                                   history: seq<Event>, listed: seq<Resolved>)
  {
    && CompilerSetting(paths, invocation).Some?
    && Lists(listed, history)
    && IsCompleteWalk(paths, walker, CompilerSetting(paths, invocation).value, authority.files, history)
    && forall other | IsCompleteWalk(paths, walker, CompilerSetting(paths, invocation).value, authority.files, other) ::
         other == history
  }

  /** Equal reads, then and now, mean equal walks, then and now. */
  lemma {:induction false} SameReadsSameWalk(paths: Paths, walker: Walker, invocation: Invocation,
                          stored: Authority, directory: string, history: seq<Event>,
                          now: Authority, trace: Trace, listed: seq<Resolved>)
    requires CaseBlind(paths) && TriesTheRoots(walker)
    requires WalkedTo(paths, walker, invocation, stored, directory, history, listed)
    requires Resolve(paths, trace, invocation, now) == Some(listed)
    ensures WouldReadExactly(paths, walker, invocation, now, history, listed)
  {
    hide ResolveSources, ForcedIsRead, IsWalk, CompilerSetting, SettingOf;
    var compiler := CompilerSetting(paths, invocation).value;
    var earlier := SettingOf(paths, directory, invocation, stored).value;
    var setting := SettingOf(paths, trace.workingDirectory, invocation, now).value;
    ResolverSettingIsCompilers(paths, directory, invocation, stored);
    ResolverSettingIsCompilers(paths, trace.workingDirectory, invocation, now);
    var sources := SourcesOf(history);
    WalkReadsTheResolved(paths, walker, earlier, compiler, stored.files, history);
    assert trace.sources == sources by {
      assert forall i | 0 <= i < |sources| ::
          Source(listed[i].rawPath, listed[i].parent) == sources[i] == trace.sources[i];
    }
    WalkTransfers(paths, walker, compiler, stored.files, setting, now.files, history);
    forall other | IsCompleteWalk(paths, walker, compiler, now.files, other) ensures other == history {
      CompleteWalkIsUnique(paths, walker, compiler, now.files, history, other);
    }
  }

  /** The build that stored a record: its sealed files, its directory and its walk. */
  datatype StoredWalk = StoredWalk(authority: Authority, directory: string, history: seq<Event>)

  /** What the base material of a key fixes: the compiler, and the command it runs for itself or for one donor. */
  datatype Command<!B> = Command(walker: B -> Walker, invocation: B -> Invocation, donor: (B, string) -> Invocation)

  /** Every compiler record was stored by a complete walk under the command its own key records. */
  ghost predicate StoredByWalks<B>(paths: Paths, command: Command<B>, cache: Cache<Key<B>>,
                                   walks: Key<B> -> StoredWalk) {
    forall key: Key<B> | key in cache && key.recursive.CompilerReads? ::
      WalkedTo(paths, command.walker(key.base), command.invocation(key.base), walks(key).authority,
               walks(key).directory,
               walks(key).history, key.recursive.listed)
  }

  /**
   Whenever the compiler probe hits, the walk that stored the returned record is the walk over
   the current files, and there is no other.
   */
  lemma {:induction false} CompilerHitIsFaithful<B>(paths: Paths, command: Command<B>, cache: Cache<Key<B>>,
                                                    walks: Key<B> -> StoredWalk, candidates: seq<Key<B>>, base: B,
                                                    baseKey: string, now: Authority)
    requires CaseBlind(paths) && TriesTheRoots(command.walker(base)) && KeysMatch(cache)
    requires StoredByWalks(paths, command, cache, walks)
    requires Probe(cache, CompilerAttempt(paths, base, baseKey, command.invocation(base), now), candidates).Hit?
    ensures
      var hit := Probe(cache, CompilerAttempt(paths, base, baseKey, command.invocation(base), now), candidates);
      && hit.record.key == Key(base, CompilerReads(hit.result))
      && WouldReadExactly(paths, command.walker(base), command.invocation(base), now, walks(hit.record.key).history,
                          hit.result)
  {
    hide Resolve, ParseCompiler, WalkedTo, WouldReadExactly;
    var attempt := CompilerAttempt(paths, base, baseKey, command.invocation(base), now);
    HitsExactlyWhenNamed(cache, attempt, candidates);
    MissIsNoHit(cache, attempt, candidates);
    var hit := Probe(cache, attempt, candidates);
    var stored := walks(hit.record.key);
    SameReadsSameWalk(paths, command.walker(base), command.invocation(base), stored.authority, stored.directory,
                      stored.history,
                      now, Trace(hit.hint.workingDirectory, hit.hint.sources), hit.result);
  }

  lemma {:induction false} MissIsNoHit<K, H, R>(cache: Cache<K>, attempt: Attempt<K, H, R>, candidates: seq<K>)
    ensures FirstHit(cache, attempt, candidates).None? && FirstUsable(cache, attempt, candidates).Some? ==>
              FirstUsable(cache, attempt, candidates).value.Changed?
  {
    if candidates != [] { MissIsNoHit(cache, attempt, candidates[1..]); }
  }

  /** Every transform record was stored by complete walks, each under its donor's command in that key. */
  ghost predicate StoredByDonorWalks<B>(paths: Paths, command: Command<B>, cache: Cache<Key<B>>,
                                        walks: (Key<B>, string) -> StoredWalk) {
    forall key: Key<B>, d: nat | key in cache && key.recursive.ProjectedReads? && d < |key.recursive.donors| ::
      DonorWalkedTo(paths, command, key.base, key.recursive.donors[d], walks(key, key.recursive.donors[d].donorId))
  }

  ghost predicate DonorWalkedTo<B>(paths: Paths, command: Command<B>, base: B, donor: DonorReads, stored: StoredWalk) {
    WalkedTo(paths, command.walker(base), command.donor(base, donor.donorId), stored.authority, stored.directory,
             stored.history, donor.listed)
  }

  /** The same for the transform probe, donor by donor. */
  lemma {:induction false} DonorHitIsFaithful<B>(paths: Paths, command: Command<B>, cache: Cache<Key<B>>,
                                                 walks: (Key<B>, string) -> StoredWalk, candidates: seq<Key<B>>,
                                                 base: B, baseKey: string, contexts: seq<DonorContext>, d: nat)
    requires CaseBlind(paths) && TriesTheRoots(command.walker(base)) && KeysMatch(cache) && d < |contexts|
    requires StoredByDonorWalks(paths, command, cache, walks)
    requires forall c | 0 <= c < |contexts| :: contexts[c].invocation == command.donor(base, contexts[c].donorId)
    requires Probe(cache, DonorAttempt(paths, base, baseKey, contexts), candidates).Hit?
    ensures
      var hit := Probe(cache, DonorAttempt(paths, base, baseKey, contexts), candidates);
      && hit.record.key == Key(base, ProjectedReads(hit.result))
      && |hit.result| == |contexts| && hit.result[d].donorId == contexts[d].donorId
      && (forall i | 0 <= i < |hit.result[d].listed| && hit.result[d].listed[i].origin.DonorArena? ::
            paths.within(hit.result[d].listed[i].logicalPath, contexts[d].invocation.workingDirectory))
      && WouldReadExactly(paths, command.walker(base), contexts[d].invocation, contexts[d].authority,
                          walks(hit.record.key, contexts[d].donorId).history, hit.result[d].listed)
  {
    hide Resolve, ParseTransform, CanonicalIds, WalkedTo, WouldReadExactly;
    var attempt := DonorAttempt(paths, base, baseKey, contexts);
    HitsExactlyWhenNamed(cache, attempt, candidates);
    MissIsNoHit(cache, attempt, candidates);
    var hit := Probe(cache, attempt, candidates);
    assert ResolveDonors(paths, hit.hint.donors, contexts) == Some(hit.result);
    var donors := hit.hint.donors;
    assert IdsOf(donors)[d] == ContextIds(contexts)[d];
    assert ResolveDonor(paths, donors[d], contexts[d]) == Some(hit.result[d].listed);
    var key := hit.record.key;
    var stored := walks(key, contexts[d].donorId);
    assert key in cache && key.recursive.donors == hit.result;
    assert DonorWalkedTo(paths, command, base, key.recursive.donors[d], stored);
    SameReadsSameWalk(paths, command.walker(base), contexts[d].invocation, stored.authority, stored.directory,
                      stored.history,
                      contexts[d].authority, Trace(donors[d].workingDirectory, donors[d].sources),
                          hit.result[d].listed);
  }
}
