/**
 The removal loops of `gc()` as they run: what they leave on disk, and that every pass through
 them is a schedule of the cache protocol.
 */
module CacheSweep {
  import opened Options
  import opened CacheProtocol

  /** The records a collection keeps: not selected, or touched after the cutoff. */
  function Survivors(records: map<RecordKey, Record>, gc: Collection, recent: set<RecordKey>): map<RecordKey, Record> {
    map key | key in records && (!Selected(gc, key) || key in recent) :: records[key]
  }

  /** The blobs some surviving record names. */
  function Referenced(blobs: map<string, nat>, records: map<RecordKey, Record>): map<string, nat> {
    map digest | digest in blobs && digest in Digests(records) :: blobs[digest]
  }

  lemma {:induction false} ExecuteAppend(s: State, schedule: seq<(Actor, Event)>, a: Actor, e: Event)
    ensures Execute(s, schedule + [(a, e)]) ==
            if Execute(s, schedule).None? then None else Step(Execute(s, schedule).value, a, e)
  {
    assert (schedule + [(a, e)])[..|schedule|] == schedule;
  }

  /** One more record handled by the record loop is one step of the protocol. */
  lemma {:induction false} RecordStep(before: State, a: Actor, gc: Collection, recent: set<RecordKey>,
                   pending: set<RecordKey>, retained: map<RecordKey, Record>,
                   records: map<RecordKey, Record>, key: RecordKey)
    requires key in pending && key in records
    ensures
      var s := Become(before, a, GcRecords(gc, pending, retained)).(records := records);
      var keep := !Selected(gc, key) || key in recent;
      var retained' := if keep then retained[key := records[key]] else retained;
      var records' := if keep || gc.dryRun then records else records - {key};
      Step(s, a, SweepRecord(key, key in recent)) ==
      Some(Become(before, a, GcRecords(gc, pending - {key}, retained')).(records := records'))
  {
    var keep := !Selected(gc, key) || key in recent;
    var retained' := if keep then retained[key := records[key]] else retained;
    var p, q := GcRecords(gc, pending, retained), GcRecords(gc, pending - {key}, retained');
    assert before.phases[a := p][a := q] == before.phases[a := q];
  }

  /** One more blob handled by the blob loop is one step of the protocol. */
  lemma {:induction false} BlobStep(before: State, a: Actor, gc: Collection, referenced: set<string>,
                 unswept: set<string>, blobs: map<string, nat>, digest: string)
    requires digest in unswept
    ensures
      var s := Become(before, a, GcBlobs(gc, referenced, unswept)).(blobs := blobs);
      var blobs' := if gc.dryRun || digest in referenced then blobs else blobs - {digest};
      Step(s, a, SweepBlob(digest)) ==
      Some(Become(before, a, GcBlobs(gc, referenced, unswept - {digest})).(blobs := blobs'))
  {
    var p, q := GcBlobs(gc, referenced, unswept), GcBlobs(gc, referenced, unswept - {digest});
    assert before.phases[a := p][a := q] == before.phases[a := q];
  }

  /** Where the record loop stands once only `pending` is left to look at. */
  ghost predicate RecordsSwept(start: map<RecordKey, Record>, gc: Collection, recent: set<RecordKey>,
                               pending: set<RecordKey>, retained: map<RecordKey, Record>,
                               records: map<RecordKey, Record>)
  {
    var kept := Survivors(start, gc, recent);
    && pending <= start.Keys
    && retained == (map key | key in kept && key !in pending :: kept[key])
    && records == if gc.dryRun then start
                  else map key | key in start && (key in pending || key in kept) :: start[key]
  }

  lemma RecordsSweptNext(start: map<RecordKey, Record>, gc: Collection, recent: set<RecordKey>,
                         pending: set<RecordKey>, retained: map<RecordKey, Record>,
                         records: map<RecordKey, Record>, key: RecordKey)
    requires RecordsSwept(start, gc, recent, pending, retained, records) && key in pending
    ensures key in records && records[key] == start[key] && key !in retained
    ensures
      var keep := !Selected(gc, key) || key in recent;
      RecordsSwept(start, gc, recent, pending - {key},
                   if keep then retained[key := records[key]] else retained,
                   if keep || gc.dryRun then records else records - {key})
  {
  }

  /** Where the blob loop stands once only `unswept` is left to look at. */
  ghost predicate BlobsSwept(start: map<string, nat>, gc: Collection, referenced: set<string>,
                             unswept: set<string>, blobs: map<string, nat>)
  {
    && unswept <= start.Keys
    && blobs == if gc.dryRun then start
                else map digest | digest in start && (digest in unswept || digest in referenced) :: start[digest]
  }

  lemma BlobsSweptNext(start: map<string, nat>, gc: Collection, referenced: set<string>,
                       unswept: set<string>, blobs: map<string, nat>, digest: string)
    requires BlobsSwept(start, gc, referenced, unswept, blobs) && digest in unswept
    ensures BlobsSwept(start, gc, referenced, unswept - {digest},
                       if gc.dryRun || digest in referenced then blobs else blobs - {digest})
  {
  }

  lemma {:induction false} ExecuteAll(s: State, first: seq<(Actor, Event)>, second: seq<(Actor, Event)>)
    requires Execute(s, first).Some?
    ensures Execute(s, first + second) == Execute(Execute(s, first).value, second)
  {
    hide Step;
    if second == [] {
      assert first + second == first;
    } else {
      var last := |second| - 1;
      ExecuteAll(s, first, second[..last]);
      assert (first + second)[..|first| + last] == first + second[..last];
    }
  }

  lemma {:induction false} EndRecordsStep(before: State, a: Actor, gc: Collection, retained: map<RecordKey, Record>,
                       records: map<RecordKey, Record>)
    ensures Step(Become(before, a, GcRecords(gc, {}, retained)).(records := records), a, EndRecords) ==
            Some(Become(before, a, GcBlobs(gc, Digests(retained), before.blobs.Keys)).(records := records))
  {
    var p, q := GcRecords(gc, {}, retained), GcBlobs(gc, Digests(retained), before.blobs.Keys);
    assert before.phases[a := p][a := q] == before.phases[a := q];
  }

  lemma {:induction false} EndBlobsStep(before: State, a: Actor, gc: Collection, referenced: set<string>,
                                        listed: set<string>, records: map<RecordKey, Record>, blobs: map<string, nat>)
    ensures
      var middle := Become(before, a, GcBlobs(gc, referenced, listed)).(records := records);
      Step(Become(middle, a, GcBlobs(gc, referenced, {})).(blobs := blobs), a, EndBlobs) ==
      Some(Become(before, a, Leaving).(records := records, blobs := blobs))
  {
    var q, r := GcBlobs(gc, referenced, listed), GcBlobs(gc, referenced, {});
    assert before.phases[a := q][a := r][a := Leaving] == before.phases[a := Leaving];
  }

  /** The two loops, with the step between them and the step after them, are one schedule. */
  lemma {:induction false} JoinLoops(before: State, a: Actor, gc: Collection, retained: map<RecordKey, Record>,
                  records: map<RecordKey, Record>, blobs: map<string, nat>, blobs': map<string, nat>,
                  first: seq<(Actor, Event)>, second: seq<(Actor, Event)>)
    requires before.blobs == blobs
    requires Execute(before, first) == Some(Become(before, a, GcRecords(gc, {}, retained)).(records := records))
    requires
      var middle := Become(before, a, GcBlobs(gc, Digests(retained), blobs.Keys)).(records := records);
      Execute(middle, second) == Some(Become(middle, a, GcBlobs(gc, Digests(retained), {})).(blobs := blobs'))
    ensures Execute(before, first + [(a, EndRecords)] + second + [(a, EndBlobs)]) ==
            Some(Become(before, a, Leaving).(records := records, blobs := blobs'))
  {
    var middle := Become(before, a, GcBlobs(gc, Digests(retained), blobs.Keys)).(records := records);
    EndRecordsStep(before, a, gc, retained, records);
    ExecuteAppend(before, first, a, EndRecords);
    ExecuteAll(before, first + [(a, EndRecords)], second);
    EndBlobsStep(before, a, gc, Digests(retained), blobs.Keys, records, blobs');
    ExecuteAppend(before, first + [(a, EndRecords)] + second, a, EndBlobs);
  }

  /** One more step of a run. */
  lemma {:induction false} Then(schedule: seq<(Actor, Event)>, s: State, a: Actor, e: Event)
    returns (longer: seq<(Actor, Event)>, s': State)
    requires Execute(INITIAL, schedule) == Some(s) && Step(s, a, e).Some?
    ensures Execute(INITIAL, longer) == Some(s') && Step(s, a, e) == Some(s')
  {
    hide Step;
    ExecuteAppend(INITIAL, schedule, a, e);
    longer, s' := schedule + [(a, e)], Step(s, a, e).value;
  }

  lemma {:induction false} LeasesOpen() returns (schedule: seq<(Actor, Event)>, s: State)
    ensures Execute(INITIAL, schedule) == Some(s) && s.phases.Keys == {0} && s.gate == None
    ensures PhaseOf(s, 0) == Open(7) && s.markers == {7} && s.records == map[] && s.blobs == map[]
  {
    hide FailingStep, LeaseStep, CloseStep, CountStep, ProbeStep, SweepStep, GateStep, AbortStep, CrashStep, Execute;
    assert Execute(INITIAL, []) == Some(INITIAL) by { NoSteps(); }
    schedule, s := Then([], INITIAL, 0, TakeGateForLease);
    schedule, s := Then(schedule, s, 0, PublishMarker(7));
    schedule, s := Then(schedule, s, 0, LockMarker);
    schedule, s := Then(schedule, s, 0, OpenLease);
  }

  lemma NoSteps()
    ensures Execute(INITIAL, []) == Some(INITIAL)
  {
  }

  lemma {:induction false} LeasesCommit(key: RecordKey, record: Record)
    returns (schedule: seq<(Actor, Event)>, s: State)
    requires |record.outputs| == 1
    ensures Execute(INITIAL, schedule) == Some(s) && s.phases.Keys == {0} && s.gate == None
    ensures PhaseOf(s, 0) == Open(7) && s.markers == {7} && s.records == map[key := record]
  {
    hide OpeningStep, FailingStep, CloseStep, CountStep, ProbeStep, SweepStep, GateStep, AbortStep, CrashStep, Execute;
    schedule, s := LeasesOpen();
    schedule, s := Then(schedule, s, 0, StageBlob(record.outputs[0]));
    schedule, s := Then(schedule, s, 0, BeginPublish(key, record));
    schedule, s := Then(schedule, s, 0, ProbeBlob);
    schedule, s := Then(schedule, s, 0, CommitRecord);
  }

  lemma {:induction false} LeasesPublish(key: RecordKey, record: Record)
    returns (schedule: seq<(Actor, Event)>, s: State)
    requires |record.outputs| == 1
    ensures Execute(INITIAL, schedule) == Some(s) && s.phases.Keys == {0} && s.gate == None
    ensures s.markers == {} && s.records == map[key := record]
  {
    hide OpeningStep, FailingStep, LeaseStep, CountStep, ProbeStep, SweepStep, GateStep, AbortStep, CrashStep, Execute;
    schedule, s := LeasesCommit(key, record);
    schedule, s := Then(schedule, s, 0, Close);
    schedule, s := Then(schedule, s, 0, RemoveClosedMarker);
  }

  /** A lease can store any one-blob record and close, and any collection can then reach its removal loops. */
  lemma {:induction false} RemovalIsReachable(key: RecordKey, record: Record, gc: Collection)
    returns (schedule: seq<(Actor, Event)>, s: State)
    requires |record.outputs| == 1
    ensures Execute(INITIAL, schedule) == Some(s)
    ensures s.records == map[key := record] && PhaseOf(s, 1) == GcRecords(gc, {key}, map[])
  {
    hide OpeningStep, FailingStep, LeaseStep, CloseStep, ProbeStep, SweepStep, AbortStep, CrashStep, Execute;
    schedule, s := LeasesPublish(key, record);
    schedule, s := Then(schedule, s, 1, TakeGateForGc(gc));
    schedule, s := Then(schedule, s, 1, ListLeases);
    schedule, s := Then(schedule, s, 1, EndCount);
  }

  class Store {
    var records: map<RecordKey, Record>
    var blobs: map<string, nat>

    constructor ()
      ensures records == map[] && blobs == map[]
    {
      records, blobs := map[], map[];
    }

    /** The record loop (src/reprobit/cache.py:558-583). */
    method SweepRecords(gc: Collection, recent: set<RecordKey>, ghost before: State, ghost a: Actor)
      returns (retained: map<RecordKey, Record>, ghost steps: seq<(Actor, Event)>)
      requires before.records == records
      requires PhaseOf(before, a) == GcRecords(gc, records.Keys, map[])
      modifies this`records
      ensures retained == Survivors(old(records), gc, recent)
      ensures records == if gc.dryRun then old(records) else retained
      ensures forall key | key in retained :: key in old(records) && retained[key] == old(records)[key]
      ensures forall key | key in old(records) ::
                key in retained <==>
                  || key in recent
                  || (gc.family.Some?
                      && (key.implementation == gc.implementation || !(gc.family.value <= key.implementation)))
      ensures Execute(before, steps) == Some(Become(before, a, GcRecords(gc, {}, retained)).(records := records))
    {
      ghost var start := records;
      var pending := records.Keys;
      retained, steps := map[], [];
      assert before.phases[a := GcRecords(gc, pending, map[])] == before.phases;
      while pending != {}
        invariant RecordsSwept(start, gc, recent, pending, retained, records)
        invariant Execute(before, steps) ==
                    Some(Become(before, a, GcRecords(gc, pending, retained)).(records := records))
        decreases pending
      {
        var key :| key in pending;
        RecordsSweptNext(start, gc, recent, pending, retained, records, key);
        RecordStep(before, a, gc, recent, pending, retained, records, key);
        ExecuteAppend(before, steps, a, SweepRecord(key, key in recent));
        steps := steps + [(a, SweepRecord(key, key in recent))];
        pending := pending - {key};
        if !Selected(gc, key) || key in recent {
          retained := retained[key := records[key]];
        } else if !gc.dryRun {
          records := records - {key};
        }
      }
    }

    /** The blob loop (src/reprobit/cache.py:584-604). */
    method SweepBlobs(gc: Collection, retained: map<RecordKey, Record>, ghost before: State, ghost a: Actor)
      returns (ghost steps: seq<(Actor, Event)>)
      requires before.blobs == blobs
      requires PhaseOf(before, a) == GcBlobs(gc, Digests(retained), blobs.Keys)
      modifies this`blobs
      ensures blobs == if gc.dryRun then old(blobs) else Referenced(old(blobs), retained)
      ensures Execute(before, steps) == Some(Become(before, a, GcBlobs(gc, Digests(retained), {})).(blobs := blobs))
    {
      ghost var start := blobs;
      var referenced := Digests(retained);
      var unswept := blobs.Keys;
      steps := [];
      assert before.phases[a := GcBlobs(gc, referenced, unswept)] == before.phases;
      while unswept != {}
        invariant BlobsSwept(start, gc, referenced, unswept, blobs)
        invariant Execute(before, steps) == Some(Become(before, a, GcBlobs(gc, referenced, unswept)).(blobs := blobs))
        decreases unswept
      {
        var digest :| digest in unswept;
        BlobsSweptNext(start, gc, referenced, unswept, blobs, digest);
        BlobStep(before, a, gc, referenced, unswept, blobs, digest);
        ExecuteAppend(before, steps, a, SweepBlob(digest));
        steps := steps + [(a, SweepBlob(digest))];
        unswept := unswept - {digest};
        if digest !in referenced && !gc.dryRun {
          blobs := blobs - {digest};
        }
      }
    }

    /**
     Both loops: a record stays when the collection has a family and the record is of its own implementation
     or outside the family, and when it is recent; every other record goes.  Exactly the blobs that the remaining
     records name stay, a dry run changes nothing, and the pass is a schedule of the protocol.
     */
    method Sweep(gc: Collection, recent: set<RecordKey>, ghost before: State, ghost a: Actor)
      returns (ghost steps: seq<(Actor, Event)>)
      requires before.records == records && before.blobs == blobs
      requires PhaseOf(before, a) == GcRecords(gc, records.Keys, map[])
      modifies this
      ensures records.Keys <= old(records.Keys) && forall key | key in records :: records[key] == old(records)[key]
      ensures forall key | key in old(records) ::
                key in records <==>
                  || gc.dryRun || key in recent
                  || (gc.family.Some?
                      && (key.implementation == gc.implementation || !(gc.family.value <= key.implementation)))
      ensures blobs.Keys <= old(blobs.Keys) && forall digest | digest in blobs :: blobs[digest] == old(blobs)[digest]
      ensures forall digest | digest in old(blobs) ::
                digest in blobs <==>
                  gc.dryRun || exists key, output ::
                      key in records && output in records[key].outputs && output.digest == digest
      ensures Execute(before, steps) == Some(Become(before, a, Leaving).(records := records, blobs := blobs))
    {
      ghost var oldBlobs := blobs;
      var retained;
      ghost var first, second;
      retained, first := SweepRecords(gc, recent, before, a);
      ghost var middle := Become(before, a, GcBlobs(gc, Digests(retained), blobs.Keys)).(records := records);
      second := SweepBlobs(gc, retained, middle, a);
      steps := first + [(a, EndRecords)] + second + [(a, EndBlobs)];
      JoinLoops(before, a, gc, retained, records, oldBlobs, blobs, first, second);
    }
  }
}
