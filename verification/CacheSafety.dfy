/**
 Safety of the cache protocol over every schedule: no lease is open while a
 collection removes anything, every published record keeps all of its blobs, and
 an open lease pins the whole store.
 */
module CacheSafety {
  import opened Options
  import opened CacheProtocol

  predicate HoldsGate(phase: Phase) {
    match phase
    case LeaseGate | LeasePublished(_) | LeaseLocked(_) | LeaseFailed(_) => true
    case GcGate(_) | GcRecords(_, _, _) | GcBlobs(_, _, _) | Leaving => true
    case Counting(purpose, _, _, _) => purpose.ForGc?
    case _ => false
  }

  /** The lease whose lock this actor holds as its lease. */
  function LeaseOf(phase: Phase): Option<LeaseId> {
    match phase
    case LeaseLocked(id) => Some(id)
    case Open(id) => Some(id)
    case Publishing(id, _, _, _) => Some(id)
    case _ => None
  }

  /** The marker this actor created and has not yet disposed of. */
  function MarkerOf(phase: Phase): Option<LeaseId> {
    match phase
    case LeasePublished(id) => Some(id)
    case LeaseFailed(id) => Some(id)
    case Closing(id) => Some(id)
    case _ => LeaseOf(phase)
  }

  predicate InRemoval(phase: Phase) {
    phase.GcRecords? || phase.GcBlobs?
  }

  /** The lease can be used: it is past `lease()` and not yet closed. */
  predicate IsOpen(phase: Phase) {
    phase.Open? || phase.Publishing?
  }

  // ---- The invariant ----------------------------------------------------

  predicate RecordsComplete(records: map<RecordKey, Record>, blobs: map<string, nat>) {
    forall key | key in records :: Complete(blobs, records[key])
  }

  /** What holds of the files and locks alone. */
  predicate StoreInv(s: State) {
    && RecordsComplete(s.records, s.blobs)
    && s.markers <= s.issued
    && s.locks.Keys <= s.issued
  }

  /** The blobs probed so far by a publication are still there. */
  predicate ProbedBlobs(blobs: map<string, nat>, phase: Phase) {
    phase.Publishing? ==>
      && phase.probed <= |phase.record.outputs|
      && forall i | 0 <= i < phase.probed :: HasBlob(blobs, phase.record.outputs[i])
  }

  /** A collection knows every record that is still on disk. */
  predicate SweepCoversRecords(records: map<RecordKey, Record>, phase: Phase) {
    && (phase.GcRecords? && !phase.gc.dryRun ==>
          forall key | key in records ::
            key in phase.pending || (key in phase.retained && phase.retained[key] == records[key]))
    && (phase.GcBlobs? && !phase.gc.dryRun ==>
          forall key | key in records ::
            forall output | output in records[key].outputs :: output.digest in phase.referenced)
  }

  /** What holds of one actor in one phase. */
  predicate ActorInv(s: State, a: Actor, phase: Phase) {
    && (HoldsGate(phase) <==> s.gate == Some(a))
    && (LeaseOf(phase).Some? ==>
          LeaseOf(phase).value in s.locks && s.locks[LeaseOf(phase).value] == a && LeaseOf(phase).value in s.markers)
    && (MarkerOf(phase).Some? ==> MarkerOf(phase).value in s.issued)
    && (phase.Counting? ==>
          && phase.todo <= s.issued
          && (phase.probe.Held? ==> phase.probe.id in s.locks && s.locks[phase.probe.id] == a)
          && (!phase.probe.Between? ==> phase.probe.id in s.issued)
          && (phase.probe.Removing? ==> phase.purpose.ForGc?))
    && ProbedBlobs(s.blobs, phase)
    && SweepCoversRecords(s.records, phase)
  }

  /** A lease that a running collection has not yet counted is still on its list. */
  predicate Accounted(counter: Phase, id: LeaseId) {
    counter.Counting? && counter.purpose.ForGc? ==>
      && (counter.active > 0 || id in counter.todo || counter.probe == Opened(id))
      && counter.probe != Removing(id)
  }

  /** What holds between two different actors. */
  predicate PairInv(p: Phase, q: Phase) {
    && (MarkerOf(p).Some? ==> MarkerOf(p) != MarkerOf(q))
    && (LeaseOf(q).Some? ==> Accounted(p, LeaseOf(q).value) && !InRemoval(p))
  }

  ghost predicate Inv(s: State) {
    && StoreInv(s)
    && (forall a: Actor :: ActorInv(s, a, PhaseOf(s, a)))
    && (forall a: Actor, b: Actor :: a != b ==> PairInv(PhaseOf(s, a), PhaseOf(s, b)))
  }

  // ---- Every step keeps it ----------------------------------------------

  /** What a step of `a` may rely on about one other actor `b`. */
  predicate Known(s: State, a: Actor, b: Actor) {
    && a != b
    && StoreInv(s)
    && ActorInv(s, a, PhaseOf(s, a))
    && ActorInv(s, b, PhaseOf(s, b))
    && PairInv(PhaseOf(s, a), PhaseOf(s, b))
    && PairInv(PhaseOf(s, b), PhaseOf(s, a))
  }

  /** What a step of `a` has to re-establish about itself. */
  predicate SelfKept(s: State, a: Actor) {
    StoreInv(s) && ActorInv(s, a, PhaseOf(s, a))
  }

  /** What a step of `a` from `s` has to re-establish about `b`. */
  predicate OtherKept(s: State, s': State, a: Actor, b: Actor) {
    && PhaseOf(s', b) == PhaseOf(s, b)
    && ActorInv(s', b, PhaseOf(s, b))
    && PairInv(PhaseOf(s', a), PhaseOf(s, b))
    && PairInv(PhaseOf(s, b), PhaseOf(s', a))
  }

  lemma {:induction false} TakeGateForLeaseSelf(s: State, a: Actor)
    requires SelfKept(s, a) && OpeningStep(s, a, TakeGateForLease).Some?
    ensures SelfKept(OpeningStep(s, a, TakeGateForLease).value, a)
  {
    hide RecordsComplete;
  }

  lemma {:induction false} PublishMarkerSelf(s: State, a: Actor, id: LeaseId)
    requires SelfKept(s, a) && OpeningStep(s, a, PublishMarker(id)).Some?
    ensures SelfKept(OpeningStep(s, a, PublishMarker(id)).value, a)
  {
    hide RecordsComplete;
  }

  lemma {:induction false} LockMarkerSelf(s: State, a: Actor)
    requires SelfKept(s, a) && OpeningStep(s, a, LockMarker).Some?
    ensures SelfKept(OpeningStep(s, a, LockMarker).value, a)
  {
    hide RecordsComplete;
  }

  lemma {:induction false} OpenLeaseSelf(s: State, a: Actor)
    requires SelfKept(s, a) && OpeningStep(s, a, OpenLease).Some?
    ensures SelfKept(OpeningStep(s, a, OpenLease).value, a)
  {
    hide RecordsComplete;
  }

  lemma {:induction false} TakeGateForLeaseOther(s: State, a: Actor, b: Actor)
    requires Known(s, a, b) && OpeningStep(s, a, TakeGateForLease).Some?
    ensures OtherKept(s, OpeningStep(s, a, TakeGateForLease).value, a, b)
  {
    hide RecordsComplete, ProbedBlobs, SweepCoversRecords;
  }

  lemma {:induction false} PublishMarkerOther(s: State, a: Actor, b: Actor, id: LeaseId)
    requires Known(s, a, b) && OpeningStep(s, a, PublishMarker(id)).Some?
    ensures OtherKept(s, OpeningStep(s, a, PublishMarker(id)).value, a, b)
  {
    hide RecordsComplete, ProbedBlobs, SweepCoversRecords;
  }

  lemma {:induction false} LockMarkerOther(s: State, a: Actor, b: Actor)
    requires Known(s, a, b) && OpeningStep(s, a, LockMarker).Some?
    ensures OtherKept(s, OpeningStep(s, a, LockMarker).value, a, b)
  {
    hide RecordsComplete, ProbedBlobs, SweepCoversRecords;
  }

  lemma {:induction false} OpenLeaseOther(s: State, a: Actor, b: Actor)
    requires Known(s, a, b) && OpeningStep(s, a, OpenLease).Some?
    ensures OtherKept(s, OpeningStep(s, a, OpenLease).value, a, b)
  {
    hide RecordsComplete, ProbedBlobs, SweepCoversRecords;
  }

  lemma {:induction false} FailingSelf(s: State, a: Actor, e: Event)
    requires SelfKept(s, a) && FailingStep(s, a, e).Some?
    ensures SelfKept(FailingStep(s, a, e).value, a)
  {
    hide RecordsComplete;
  }

  lemma {:induction false} FailingOther(s: State, a: Actor, b: Actor, e: Event)
    requires Known(s, a, b) && FailingStep(s, a, e).Some?
    ensures OtherKept(s, FailingStep(s, a, e).value, a, b)
  {
    hide RecordsComplete, ProbedBlobs, SweepCoversRecords;
  }

  lemma StageBlobSelf(s: State, a: Actor, output: Output)
    requires SelfKept(s, a) && LeaseStep(s, a, StageBlob(output)).Some?
    ensures SelfKept(LeaseStep(s, a, StageBlob(output)).value, a)
  {
  }

  lemma BeginPublishSelf(s: State, a: Actor, key: RecordKey, record: Record)
    requires SelfKept(s, a) && LeaseStep(s, a, BeginPublish(key, record)).Some?
    ensures SelfKept(LeaseStep(s, a, BeginPublish(key, record)).value, a)
  {
  }

  lemma ProbeBlobSelf(s: State, a: Actor)
    requires SelfKept(s, a) && LeaseStep(s, a, ProbeBlob).Some?
    ensures SelfKept(LeaseStep(s, a, ProbeBlob).value, a)
  {
  }

  lemma CommitRecordSelf(s: State, a: Actor)
    requires SelfKept(s, a) && LeaseStep(s, a, CommitRecord).Some?
    ensures SelfKept(LeaseStep(s, a, CommitRecord).value, a)
  {
  }

  lemma StageBlobOther(s: State, a: Actor, b: Actor, output: Output)
    requires Known(s, a, b) && LeaseStep(s, a, StageBlob(output)).Some?
    ensures OtherKept(s, LeaseStep(s, a, StageBlob(output)).value, a, b)
  {
  }

  lemma BeginPublishOther(s: State, a: Actor, b: Actor, key: RecordKey, record: Record)
    requires Known(s, a, b) && LeaseStep(s, a, BeginPublish(key, record)).Some?
    ensures OtherKept(s, LeaseStep(s, a, BeginPublish(key, record)).value, a, b)
  {
  }

  lemma ProbeBlobOther(s: State, a: Actor, b: Actor)
    requires Known(s, a, b) && LeaseStep(s, a, ProbeBlob).Some?
    ensures OtherKept(s, LeaseStep(s, a, ProbeBlob).value, a, b)
  {
  }

  lemma CommitRecordOther(s: State, a: Actor, b: Actor)
    requires Known(s, a, b) && LeaseStep(s, a, CommitRecord).Some?
    ensures OtherKept(s, LeaseStep(s, a, CommitRecord).value, a, b)
  {
  }

  lemma {:induction false} CloseSelf(s: State, a: Actor, e: Event)
    requires SelfKept(s, a) && CloseStep(s, a, e).Some?
    ensures SelfKept(CloseStep(s, a, e).value, a)
  {
    hide RecordsComplete;
  }

  lemma {:induction false} CloseOther(s: State, a: Actor, b: Actor, e: Event)
    requires Known(s, a, b) && CloseStep(s, a, e).Some?
    ensures OtherKept(s, CloseStep(s, a, e).value, a, b)
  {
    hide RecordsComplete, ProbedBlobs, SweepCoversRecords;
  }

  lemma {:induction false} CountSelf(s: State, a: Actor, e: Event)
    requires SelfKept(s, a) && CountStep(s, a, e).Some?
    ensures SelfKept(CountStep(s, a, e).value, a)
  {
    hide RecordsComplete;
  }

  lemma {:induction false} CountOther(s: State, a: Actor, b: Actor, e: Event)
    requires Known(s, a, b) && CountStep(s, a, e).Some?
    ensures OtherKept(s, CountStep(s, a, e).value, a, b)
  {
    hide StoreInv, ProbedBlobs, SweepCoversRecords;
    PhasesDoNotMatter(s, CountStep(s, a, e).value, b, PhaseOf(s, b));
  }

  lemma {:induction false} TryMarkerSelf(s: State, a: Actor)
    requires SelfKept(s, a) && ProbeStep(s, a, TryMarker).Some?
    ensures SelfKept(ProbeStep(s, a, TryMarker).value, a)
  {
    hide RecordsComplete;
  }

  lemma {:induction false} UnlockMarkerSelf(s: State, a: Actor)
    requires SelfKept(s, a) && ProbeStep(s, a, UnlockMarker).Some?
    ensures SelfKept(ProbeStep(s, a, UnlockMarker).value, a)
  {
    hide RecordsComplete;
  }

  lemma {:induction false} RemoveStaleMarkerSelf(s: State, a: Actor)
    requires SelfKept(s, a) && ProbeStep(s, a, RemoveStaleMarker).Some?
    ensures SelfKept(ProbeStep(s, a, RemoveStaleMarker).value, a)
  {
    hide RecordsComplete;
  }

  lemma {:induction false} TryMarkerOther(s: State, a: Actor, b: Actor)
    requires Known(s, a, b) && ProbeStep(s, a, TryMarker).Some?
    ensures OtherKept(s, ProbeStep(s, a, TryMarker).value, a, b)
  {
    hide RecordsComplete, ProbedBlobs, SweepCoversRecords;
  }

  lemma {:induction false} UnlockMarkerOther(s: State, a: Actor, b: Actor)
    requires Known(s, a, b) && ProbeStep(s, a, UnlockMarker).Some?
    ensures OtherKept(s, ProbeStep(s, a, UnlockMarker).value, a, b)
  {
    hide RecordsComplete, ProbedBlobs, SweepCoversRecords;
  }

  lemma {:induction false} RemoveStaleMarkerOther(s: State, a: Actor, b: Actor)
    requires Known(s, a, b) && ProbeStep(s, a, RemoveStaleMarker).Some?
    ensures OtherKept(s, ProbeStep(s, a, RemoveStaleMarker).value, a, b)
  {
    hide RecordsComplete, ProbedBlobs, SweepCoversRecords;
  }

  lemma SweepRecordSelf(s: State, a: Actor, key: RecordKey, recent: bool)
    requires SelfKept(s, a) && SweepStep(s, a, SweepRecord(key, recent)).Some?
    ensures SelfKept(SweepStep(s, a, SweepRecord(key, recent)).value, a)
  {
  }

  lemma EndRecordsSelf(s: State, a: Actor)
    requires SelfKept(s, a) && SweepStep(s, a, EndRecords).Some?
    ensures SelfKept(SweepStep(s, a, EndRecords).value, a)
  {
  }

  lemma SweepBlobSelf(s: State, a: Actor, digest: string)
    requires SelfKept(s, a) && SweepStep(s, a, SweepBlob(digest)).Some?
    ensures SelfKept(SweepStep(s, a, SweepBlob(digest)).value, a)
  {
  }

  lemma EndBlobsSelf(s: State, a: Actor)
    requires SelfKept(s, a) && SweepStep(s, a, EndBlobs).Some?
    ensures SelfKept(SweepStep(s, a, EndBlobs).value, a)
  {
  }

  lemma SweepRecordOther(s: State, a: Actor, b: Actor, key: RecordKey, recent: bool)
    requires Known(s, a, b) && SweepStep(s, a, SweepRecord(key, recent)).Some?
    ensures OtherKept(s, SweepStep(s, a, SweepRecord(key, recent)).value, a, b)
  {
  }

  lemma EndRecordsOther(s: State, a: Actor, b: Actor)
    requires Known(s, a, b) && SweepStep(s, a, EndRecords).Some?
    ensures OtherKept(s, SweepStep(s, a, EndRecords).value, a, b)
  {
  }

  lemma SweepBlobOther(s: State, a: Actor, b: Actor, digest: string)
    requires Known(s, a, b) && SweepStep(s, a, SweepBlob(digest)).Some?
    ensures OtherKept(s, SweepStep(s, a, SweepBlob(digest)).value, a, b)
  {
  }

  lemma EndBlobsOther(s: State, a: Actor, b: Actor)
    requires Known(s, a, b) && SweepStep(s, a, EndBlobs).Some?
    ensures OtherKept(s, SweepStep(s, a, EndBlobs).value, a, b)
  {
  }

  lemma TakeGateForGcSelf(s: State, a: Actor, gc: Collection)
    requires SelfKept(s, a) && GateStep(s, a, TakeGateForGc(gc)).Some?
    ensures SelfKept(GateStep(s, a, TakeGateForGc(gc)).value, a)
  {
  }

  lemma EndCountSelf(s: State, a: Actor)
    requires SelfKept(s, a) && GateStep(s, a, EndCount).Some?
    ensures SelfKept(GateStep(s, a, EndCount).value, a)
  {
  }

  lemma ReleaseGateSelf(s: State, a: Actor)
    requires SelfKept(s, a) && GateStep(s, a, ReleaseGate).Some?
    ensures SelfKept(GateStep(s, a, ReleaseGate).value, a)
  {
  }

  lemma {:induction false} TakeGateForGcOther(s: State, a: Actor, b: Actor, gc: Collection)
    requires Known(s, a, b) && GateStep(s, a, TakeGateForGc(gc)).Some?
    ensures OtherKept(s, GateStep(s, a, TakeGateForGc(gc)).value, a, b)
  {
    hide RecordsComplete, ProbedBlobs, SweepCoversRecords;
  }

  lemma {:induction false} EndCountOther(s: State, a: Actor, b: Actor)
    requires Known(s, a, b) && GateStep(s, a, EndCount).Some?
    ensures OtherKept(s, GateStep(s, a, EndCount).value, a, b)
  {
    hide StoreInv, ActorInv;
    PhasesDoNotMatter(s, GateStep(s, a, EndCount).value, b, PhaseOf(s, b));
  }

  /** What holds of an actor depends on the files and locks only. */
  lemma PhasesDoNotMatter(s: State, s': State, b: Actor, phase: Phase)
    requires s' == s.(phases := s'.phases)
    ensures ActorInv(s', b, phase) == ActorInv(s, b, phase)
  {
  }

  lemma {:induction false} ReleaseGateOther(s: State, a: Actor, b: Actor)
    requires Known(s, a, b) && GateStep(s, a, ReleaseGate).Some?
    ensures OtherKept(s, GateStep(s, a, ReleaseGate).value, a, b)
  {
    hide RecordsComplete, ProbedBlobs, SweepCoversRecords;
  }

  lemma AbortSelf(s: State, a: Actor)
    requires SelfKept(s, a) && AbortStep(s, a).Some?
    ensures SelfKept(AbortStep(s, a).value, a)
  {
  }

  lemma {:induction false} AbortOther(s: State, a: Actor, b: Actor)
    requires Known(s, a, b) && AbortStep(s, a).Some?
    ensures OtherKept(s, AbortStep(s, a).value, a, b)
  {
    hide RecordsComplete, ProbedBlobs, SweepCoversRecords;
  }

  lemma CrashSelf(s: State, a: Actor)
    requires SelfKept(s, a)
    ensures SelfKept(CrashStep(s, a), a)
  {
  }

  lemma {:induction false} CrashOther(s: State, a: Actor, b: Actor)
    requires Known(s, a, b)
    ensures OtherKept(s, CrashStep(s, a), a, b)
  {
    hide RecordsComplete, ProbedBlobs, SweepCoversRecords;
  }

  lemma {:induction false} StepSelf(s: State, a: Actor, e: Event)
    requires SelfKept(s, a) && Step(s, a, e).Some?
    ensures SelfKept(Step(s, a, e).value, a)
  {
    hide SelfKept, OpeningStep, FailingStep, LeaseStep, CloseStep, CountStep, ProbeStep, SweepStep, GateStep,
        AbortStep, CrashStep;
    match e
    case Crash => CrashSelf(s, a);
    case Abort => AbortSelf(s, a);
    case TakeGateForLease => TakeGateForLeaseSelf(s, a);
    case PublishMarker(id) => PublishMarkerSelf(s, a, id);
    case LockMarker => LockMarkerSelf(s, a);
    case OpenLease => OpenLeaseSelf(s, a);
    case FailLease | RemoveFailedMarker => FailingSelf(s, a, e);
    case StageBlob(output) => StageBlobSelf(s, a, output);
    case BeginPublish(key, record) => BeginPublishSelf(s, a, key, record);
    case ProbeBlob => ProbeBlobSelf(s, a);
    case CommitRecord => CommitRecordSelf(s, a);
    case Close | RemoveClosedMarker => CloseSelf(s, a, e);
    case ListLeases | OpenMarker(_) => CountSelf(s, a, e);
    case TryMarker => TryMarkerSelf(s, a);
    case UnlockMarker => UnlockMarkerSelf(s, a);
    case RemoveStaleMarker => RemoveStaleMarkerSelf(s, a);
    case SweepRecord(key, recent) => SweepRecordSelf(s, a, key, recent);
    case EndRecords => EndRecordsSelf(s, a);
    case SweepBlob(digest) => SweepBlobSelf(s, a, digest);
    case EndBlobs => EndBlobsSelf(s, a);
    case TakeGateForGc(gc) => TakeGateForGcSelf(s, a, gc);
    case EndCount => EndCountSelf(s, a);
    case ReleaseGate => ReleaseGateSelf(s, a);
  }

  lemma {:induction false} StepOther(s: State, a: Actor, b: Actor, e: Event)
    requires Known(s, a, b) && Step(s, a, e).Some?
    ensures OtherKept(s, Step(s, a, e).value, a, b)
  {
    hide Known, OtherKept, OpeningStep, FailingStep, LeaseStep, CloseStep, CountStep, ProbeStep, SweepStep, GateStep,
        AbortStep, CrashStep;
    match e
    case Crash => CrashOther(s, a, b);
    case Abort => AbortOther(s, a, b);
    case TakeGateForLease => TakeGateForLeaseOther(s, a, b);
    case PublishMarker(id) => PublishMarkerOther(s, a, b, id);
    case LockMarker => LockMarkerOther(s, a, b);
    case OpenLease => OpenLeaseOther(s, a, b);
    case FailLease | RemoveFailedMarker => FailingOther(s, a, b, e);
    case StageBlob(output) => StageBlobOther(s, a, b, output);
    case BeginPublish(key, record) => BeginPublishOther(s, a, b, key, record);
    case ProbeBlob => ProbeBlobOther(s, a, b);
    case CommitRecord => CommitRecordOther(s, a, b);
    case Close | RemoveClosedMarker => CloseOther(s, a, b, e);
    case ListLeases | OpenMarker(_) => CountOther(s, a, b, e);
    case TryMarker => TryMarkerOther(s, a, b);
    case UnlockMarker => UnlockMarkerOther(s, a, b);
    case RemoveStaleMarker => RemoveStaleMarkerOther(s, a, b);
    case SweepRecord(key, recent) => SweepRecordOther(s, a, b, key, recent);
    case EndRecords => EndRecordsOther(s, a, b);
    case SweepBlob(digest) => SweepBlobOther(s, a, b, digest);
    case EndBlobs => EndBlobsOther(s, a, b);
    case TakeGateForGc(gc) => TakeGateForGcOther(s, a, b, gc);
    case EndCount => EndCountOther(s, a, b);
    case ReleaseGate => ReleaseGateOther(s, a, b);
  }

  lemma {:induction false} StepKeepsInv(s: State, a: Actor, e: Event)
    requires Inv(s) && Step(s, a, e).Some?
    ensures Inv(Step(s, a, e).value)
  {
    var s' := Step(s, a, e).value;
    assert SelfKept(s', a) by { StepSelf(s, a, e); }
    forall b: Actor | b != a ensures OtherKept(s, s', a, b) {
      StepOther(s, a, b, e);
    }
    InvFromParts(s, s', a);
  }

  lemma {:induction false} InvFromParts(s: State, s': State, a: Actor)
    requires Inv(s) && SelfKept(s', a)
    requires forall b: Actor | b != a :: OtherKept(s, s', a, b)
    ensures Inv(s')
  {
    forall b: Actor ensures ActorInv(s', b, PhaseOf(s', b)) {
      assert b != a ==> OtherKept(s, s', a, b);
    }
    forall b: Actor, c: Actor | b != c ensures PairInv(PhaseOf(s', b), PhaseOf(s', c)) {
      assert b != a ==> OtherKept(s, s', a, b);
      assert c != a ==> OtherKept(s, s', a, c);
    }
  }

  lemma {:induction false} ExecuteKeepsInv(s: State, schedule: seq<(Actor, Event)>)
    requires Inv(s) && Execute(s, schedule).Some?
    ensures Inv(Execute(s, schedule).value)
  {
    if schedule != [] {
      var last := |schedule| - 1;
      ExecuteKeepsInv(s, schedule[..last]);
      StepKeepsInv(Execute(s, schedule[..last]).value, schedule[last].0, schedule[last].1);
    }
  }

  // ---- Safety over whole runs -------------------------------------------

  /** While any actor is in a removal loop of `gc`, no lease is open anywhere. */
  lemma {:induction false} NoLeaseOpenDuringRemoval(schedule: seq<(Actor, Event)>, collector: Actor, other: Actor)
    requires Execute(INITIAL, schedule).Some?
    requires InRemoval(PhaseOf(Execute(INITIAL, schedule).value, collector))
    ensures !IsOpen(PhaseOf(Execute(INITIAL, schedule).value, other))
  {
    ExecuteKeepsInv(INITIAL, schedule);
  }

  /** Every published record of every implementation has all its blobs, crashes included. */
  lemma {:induction false} PublishedRecordsComplete(schedule: seq<(Actor, Event)>)
    requires Execute(INITIAL, schedule).Some?
    ensures
      var s := Execute(INITIAL, schedule).value;
      forall key, output | key in s.records && output in s.records[key].outputs ::
        output.digest in s.blobs && s.blobs[output.digest] == output.size
  {
    ExecuteKeepsInv(INITIAL, schedule);
  }

  /** At most one actor is inside the gate. */
  lemma {:induction false} GateIsExclusive(schedule: seq<(Actor, Event)>, a: Actor, b: Actor)
    requires Execute(INITIAL, schedule).Some?
    requires HoldsGate(PhaseOf(Execute(INITIAL, schedule).value, a))
    requires HoldsGate(PhaseOf(Execute(INITIAL, schedule).value, b))
    ensures a == b
  {
    ExecuteKeepsInv(INITIAL, schedule);
  }

  // ---- What a step can do to the rest ------------------------------------

  /** The collection this actor is running. */
  function CollectionOf(phase: Phase): Option<Collection> {
    match phase
    case GcGate(gc) => Some(gc)
    case GcRecords(gc, _, _) => Some(gc)
    case GcBlobs(gc, _, _) => Some(gc)
    case Counting(ForGc(gc), _, _, _) => Some(gc)
    case _ => None
  }

  predicate MayRemove(gc: Collection, key: RecordKey) {
    Selected(gc, key) && !gc.dryRun
  }

  predicate Spares(phase: Phase, key: RecordKey) {
    CollectionOf(phase).Some? ==> !MayRemove(CollectionOf(phase).value, key)
  }

  /** A collection started here is a dry run, or has a family and the record is not an obsolete member of it. */
  predicate EventSpares(e: Event, key: RecordKey) {
    e.TakeGateForGc? ==>
      || e.gc.dryRun
      || (e.gc.family.Some?
          && (key.implementation == e.gc.implementation || !(e.gc.family.value <= key.implementation)))
  }

  /** A step leaves other actors alone, and removes only inside a removal loop. */
  ghost predicate Affects(s: State, a: Actor, e: Event, s': State) {
    && (forall b: Actor | b != a :: PhaseOf(s', b) == PhaseOf(s, b))
    && (|| CollectionOf(PhaseOf(s', a)).None?
        || CollectionOf(PhaseOf(s', a)) == CollectionOf(PhaseOf(s, a))
        || (e.TakeGateForGc? && CollectionOf(PhaseOf(s', a)) == Some(e.gc)))
    && (forall key | key in s.records && !(PhaseOf(s, a).GcRecords? && MayRemove(PhaseOf(s, a).gc, key)) ::
          key in s'.records && s'.records[key] == s.records[key])
    && (!PhaseOf(s, a).GcBlobs? ==>
          forall digest | digest in s.blobs :: digest in s'.blobs && s'.blobs[digest] == s.blobs[digest])
  }

  lemma OpeningEffect(s: State, a: Actor, e: Event)
    requires OpeningStep(s, a, e).Some?
    ensures Affects(s, a, e, OpeningStep(s, a, e).value)
  {
  }

  lemma FailingEffect(s: State, a: Actor, e: Event)
    requires FailingStep(s, a, e).Some?
    ensures Affects(s, a, e, FailingStep(s, a, e).value)
  {
  }

  lemma LeaseUseEffect(s: State, a: Actor, e: Event)
    requires LeaseStep(s, a, e).Some?
    ensures Affects(s, a, e, LeaseStep(s, a, e).value)
  {
  }

  lemma CloseEffect(s: State, a: Actor, e: Event)
    requires CloseStep(s, a, e).Some?
    ensures Affects(s, a, e, CloseStep(s, a, e).value)
  {
  }

  lemma CountEffect(s: State, a: Actor, e: Event)
    requires CountStep(s, a, e).Some?
    ensures Affects(s, a, e, CountStep(s, a, e).value)
  {
  }

  lemma ProbeEffect(s: State, a: Actor, e: Event)
    requires ProbeStep(s, a, e).Some?
    ensures Affects(s, a, e, ProbeStep(s, a, e).value)
  {
  }

  lemma SweepEffect(s: State, a: Actor, e: Event)
    requires SweepStep(s, a, e).Some?
    ensures Affects(s, a, e, SweepStep(s, a, e).value)
  {
  }

  lemma GateEffect(s: State, a: Actor, e: Event)
    requires GateStep(s, a, e).Some?
    ensures Affects(s, a, e, GateStep(s, a, e).value)
  {
  }

  lemma AbortEffect(s: State, a: Actor)
    requires AbortStep(s, a).Some?
    ensures Affects(s, a, Abort, AbortStep(s, a).value)
  {
  }

  lemma CrashEffect(s: State, a: Actor)
    ensures Affects(s, a, Crash, CrashStep(s, a))
  {
  }

  lemma {:induction false} StepEffect(s: State, a: Actor, e: Event)
    requires Step(s, a, e).Some?
    ensures Affects(s, a, e, Step(s, a, e).value)
  {
    hide Affects, OpeningStep, FailingStep, LeaseStep, CloseStep, CountStep, ProbeStep, SweepStep, GateStep,
        AbortStep, CrashStep;
    match e
    case Crash => CrashEffect(s, a);
    case Abort => AbortEffect(s, a);
    case TakeGateForLease | PublishMarker(_) | LockMarker | OpenLease => OpeningEffect(s, a, e);
    case FailLease | RemoveFailedMarker => FailingEffect(s, a, e);
    case StageBlob(_) | BeginPublish(_, _) | ProbeBlob | CommitRecord => LeaseUseEffect(s, a, e);
    case Close | RemoveClosedMarker => CloseEffect(s, a, e);
    case ListLeases | OpenMarker(_) => CountEffect(s, a, e);
    case TryMarker | UnlockMarker | RemoveStaleMarker => ProbeEffect(s, a, e);
    case SweepRecord(_, _) | EndRecords | SweepBlob(_) | EndBlobs => SweepEffect(s, a, e);
    case TakeGateForGc(_) | EndCount | ReleaseGate => GateEffect(s, a, e);
  }

  // ---- An open lease pins the store --------------------------------------

  /** Nothing was removed or replaced on the way from `s` to `s'`. */
  predicate OnlyGrew(s: State, s': State) {
    && (forall key | key in s.records :: key in s'.records && s'.records[key] == s.records[key])
    && (forall digest | digest in s.blobs :: digest in s'.blobs && s'.blobs[digest] == s.blobs[digest])
  }

  lemma {:induction false} StepUnderLease(s: State, a: Actor, e: Event, holder: Actor)
    requires Inv(s) && Step(s, a, e).Some? && IsOpen(PhaseOf(s, holder))
    ensures OnlyGrew(s, Step(s, a, e).value)
  {
    hide Step, StoreInv, ActorInv;
    StepEffect(s, a, e);
    assert a != holder ==> PairInv(PhaseOf(s, a), PhaseOf(s, holder));
  }

  /**
   From the moment a lease is open until it closes, no record and no blob disappears or changes,
   whatever all other actors do: what `lookup` returned stays restorable.
   */
  lemma {:induction false} LeasePinsStore(schedule: seq<(Actor, Event)>, since: nat, holder: Actor)
    requires since <= |schedule|
    requires Execute(INITIAL, schedule).Some?
    requires forall n | since <= n <= |schedule| ::
               Execute(INITIAL, schedule[..n]).Some? && IsOpen(PhaseOf(Execute(INITIAL, schedule[..n]).value, holder))
    ensures OnlyGrew(Execute(INITIAL, schedule[..since]).value, Execute(INITIAL, schedule).value)
  {
    if since == |schedule| {
      assert schedule[..since] == schedule;
    } else {
      var last := |schedule| - 1;
      var prefix := schedule[..last];
      forall n | since <= n <= |prefix| ensures prefix[..n] == schedule[..n] {
      }
      LeasePinsStore(prefix, since, holder);
      ExecuteKeepsInv(INITIAL, prefix);
      assert IsOpen(PhaseOf(Execute(INITIAL, schedule[..last]).value, holder));
      StepUnderLease(Execute(INITIAL, prefix).value, schedule[last].0, schedule[last].1, holder);
    }
  }

  // ---- A collection removes only what it selects -------------------------

  lemma {:induction false} ScheduleSpares(schedule: seq<(Actor, Event)>, key: RecordKey, a: Actor)
    requires Execute(INITIAL, schedule).Some?
    requires forall i | 0 <= i < |schedule| :: EventSpares(schedule[i].1, key)
    ensures Spares(PhaseOf(Execute(INITIAL, schedule).value, a), key)
  {
    if schedule != [] {
      var last := |schedule| - 1;
      ScheduleSpares(schedule[..last], key, schedule[last].0);
      ScheduleSpares(schedule[..last], key, a);
      var s := Execute(INITIAL, schedule[..last]).value;
      StepEffect(s, schedule[last].0, schedule[last].1);
    }
  }

  /**
   A record outlives every run in which each started collection is a dry run or has a family, and the
   record is of the collection's own implementation or outside its family.
   */
  lemma {:induction false} UnselectedRecordSurvives(schedule: seq<(Actor, Event)>, published: nat, key: RecordKey)
    requires published <= |schedule| && Execute(INITIAL, schedule).Some?
    requires forall i | 0 <= i < |schedule| :: EventSpares(schedule[i].1, key)
    requires Execute(INITIAL, schedule[..published]).Some?
    requires key in Execute(INITIAL, schedule[..published]).value.records
    ensures key in Execute(INITIAL, schedule).value.records
    ensures Execute(INITIAL, schedule).value.records[key] ==
            Execute(INITIAL, schedule[..published]).value.records[key]
  {
    if published == |schedule| {
      assert schedule[..published] == schedule;
    } else {
      var last := |schedule| - 1;
      var prefix := schedule[..last];
      assert prefix[..published] == schedule[..published];
      UnselectedRecordSurvives(prefix, published, key);
      ScheduleSpares(prefix, key, schedule[last].0);
      StepEffect(Execute(INITIAL, prefix).value, schedule[last].0, schedule[last].1);
    }
  }
}
