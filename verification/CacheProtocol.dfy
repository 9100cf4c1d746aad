/**
 The incremental cache as a transition system.

 An actor is one `with lease()` body, one `gc()` call or one `status()` call.
 Every file operation and every lock operation is one step, actors interleave
 freely, and an actor may crash between any two of its steps.  A crash drops the
 actor's advisory locks; the files it wrote stay.
 */
module CacheProtocol {
  import opened Options

  type Actor = nat
  type LeaseId = nat

  /** One named output of a record, stored by content digest. */
  datatype Output = Output(name: string, digest: string, size: nat, executable: bool)

  /** Where a record lives: `records/<implementation>/<domain>/<key>.json`. */
  datatype RecordKey = RecordKey(implementation: string, domain: string, key: string)

  datatype Record = Record(createdNs: nat, outputs: seq<Output>, metadata: string)

  /** The arguments of one `gc()` call. */
  datatype Collection = Collection(implementation: string, family: Option<string>, dryRun: bool)

  /** Who is counting the leases: `status` does so without holding the gate. */
  datatype Purpose = ForStatus | ForGc(gc: Collection)

  /** How far the count got with the marker it is looking at. */
  datatype Probe = Between | Opened(id: LeaseId) | Held(id: LeaseId) | Removing(id: LeaseId)

  datatype Phase =
    | Idle
    // lease(), all but the last four under the gate
    | LeaseGate
    | LeasePublished(id: LeaseId)
    | LeaseLocked(id: LeaseId)
    | LeaseFailed(id: LeaseId)
    | Open(id: LeaseId)
    | Publishing(id: LeaseId, key: RecordKey, record: Record, probed: nat)
    | Closing(id: LeaseId)
    // _active_lease_count(), for gc under the gate
    | Counting(purpose: Purpose, todo: set<LeaseId>, active: nat, probe: Probe)
    // gc() under the gate
    | GcGate(gc: Collection)
    | GcRecords(gc: Collection, pending: set<RecordKey>, retained: map<RecordKey, Record>)
    | GcBlobs(gc: Collection, referenced: set<string>, unswept: set<string>)
    // the gate is still held and about to be released
    | Leaving

  datatype State = State(
    gate: Option<Actor>,
    phases: map<Actor, Phase>,
    markers: set<LeaseId>,
    locks: map<LeaseId, Actor>,
    issued: set<LeaseId>,
    records: map<RecordKey, Record>,
    blobs: map<string, nat>)

  datatype Event =
    | TakeGateForLease
    | PublishMarker(id: LeaseId)
    | LockMarker
    | OpenLease
    | FailLease
    | RemoveFailedMarker
    | StageBlob(output: Output)
    | BeginPublish(key: RecordKey, record: Record)
    | ProbeBlob
    | CommitRecord
    | Close
    | RemoveClosedMarker
    | TakeGateForGc(gc: Collection)
    | ListLeases
    | OpenMarker(id: LeaseId)
    | TryMarker
    | UnlockMarker
    | RemoveStaleMarker
    | EndCount
    | SweepRecord(key: RecordKey, recent: bool)
    | EndRecords
    | SweepBlob(digest: string)
    | EndBlobs
    | Abort
    | ReleaseGate
    | Crash

  const INITIAL := State(None, map[], {}, map[], {}, map[], map[])

  function PhaseOf(s: State, a: Actor): Phase {
    if a in s.phases then s.phases[a] else Idle
  }

  function Become(s: State, a: Actor, phase: Phase): State {
    s.(phases := s.phases[a := phase])
  }

  function Unlock(locks: map<LeaseId, Actor>, id: LeaseId): map<LeaseId, Actor> {
    locks - {id}
  }

  function DropLocks(locks: map<LeaseId, Actor>, a: Actor): map<LeaseId, Actor> {
    map id | id in locks && locks[id] != a :: locks[id]
  }

  /** A record that this collection may remove, age aside. */
  predicate Selected(gc: Collection, key: RecordKey) {
    gc.family.None? || (gc.family.value <= key.implementation && key.implementation != gc.implementation)
  }

  predicate HasBlob(blobs: map<string, nat>, output: Output) {
    output.digest in blobs && blobs[output.digest] == output.size
  }

  /** All blobs of a record are on disk with the recorded sizes. */
  predicate Complete(blobs: map<string, nat>, record: Record) {
    forall output | output in record.outputs :: HasBlob(blobs, output)
  }

  function Digests(retained: map<RecordKey, Record>): set<string> {
    set key, output | key in retained && output in retained[key].outputs :: output.digest
  }

  // ---- Steps of a lease -------------------------------------------------

  /** `lease()` up to the point where the gate is released (src/reprobit/cache.py:355-384). */
  function OpeningStep(s: State, a: Actor, e: Event): Option<State> {
    var p := PhaseOf(s, a);
    match e
    case TakeGateForLease =>
      if p.Idle? && s.gate.None? then Some(Become(s, a, LeaseGate).(gate := Some(a))) else None
    case PublishMarker(id) =>
      // The name is a fresh UUID.
      if !p.LeaseGate? || id in s.issued then None
      else Some(Become(s, a, LeasePublished(id)).(markers := s.markers + {id}, issued := s.issued + {id}))
    case LockMarker =>
      // A status probe may hold the lock right now: then the call fails.
      if !p.LeasePublished? then None
      else if p.id in s.locks || p.id !in s.markers then Some(Become(s, a, LeaseFailed(p.id)))
      else Some(Become(s, a, LeaseLocked(p.id)).(locks := s.locks[p.id := a]))
    case OpenLease =>
      if p.LeaseLocked? then Some(Become(s, a, Open(p.id)).(gate := None)) else None
    case _ => None
  }

  /** Leaving `lease()` by an exception, still under the gate (src/reprobit/cache.py:373-379). */
  function FailingStep(s: State, a: Actor, e: Event): Option<State> {
    var p := PhaseOf(s, a);
    match e
    case FailLease =>
      if p.LeaseGate? then Some(Become(s, a, Leaving))
      else if p.LeasePublished? then Some(Become(s, a, LeaseFailed(p.id)))
      else if p.LeaseLocked? then Some(Become(s, a, LeaseFailed(p.id)).(locks := Unlock(s.locks, p.id)))
      else None
    case RemoveFailedMarker =>
      if p.LeaseFailed? then Some(Become(s, a, Leaving).(markers := s.markers - {p.id})) else None
    case _ => None
  }

  /** What an open lease does (src/reprobit/cache.py:1079-1236). */
  function LeaseStep(s: State, a: Actor, e: Event): Option<State> {
    var p := PhaseOf(s, a);
    match e
    case StageBlob(output) =>
      // An existing blob is validated instead; a mismatch raises and changes nothing.
      if !p.Open? then None
      else if output.digest in s.blobs then Some(s)
      else Some(s.(blobs := s.blobs[output.digest := output.size]))
    case BeginPublish(key, record) =>
      if !p.Open? || record.outputs == [] then None
      else Some(Become(s, a, Publishing(p.id, key, record, 0)))
    case ProbeBlob =>
      if !p.Publishing? || p.probed >= |p.record.outputs| then None
      else if HasBlob(s.blobs, p.record.outputs[p.probed]) then
        Some(Become(s, a, p.(probed := p.probed + 1)))
      else Some(Become(s, a, Open(p.id)))
    case CommitRecord =>
      if !p.Publishing? || p.probed != |p.record.outputs| then None
      // An immutable name is never replaced: an equal record is returned, another is an error.
      else if p.key in s.records then Some(Become(s, a, Open(p.id)))
      else Some(Become(s, a, Open(p.id)).(records := s.records[p.key := p.record]))
    case _ => None
  }

  /** `CacheLease.close`: the lock first, then the marker (src/reprobit/cache.py:779-788). */
  function CloseStep(s: State, a: Actor, e: Event): Option<State> {
    var p := PhaseOf(s, a);
    match e
    case Close =>
      if p.Open? then Some(Become(s, a, Closing(p.id)).(locks := Unlock(s.locks, p.id))) else None
    case RemoveClosedMarker =>
      if p.Closing? then Some(Become(s, a, Idle).(markers := s.markers - {p.id})) else None
    case _ => None
  }

  // ---- Steps of the lease count -----------------------------------------

  /** `_active_lease_count` (src/reprobit/cache.py:425-459), for `status` and for `gc`. */
  function CountStep(s: State, a: Actor, e: Event): Option<State> {
    var p := PhaseOf(s, a);
    match e
    case ListLeases =>
      if p.Idle? then Some(Become(s, a, Counting(ForStatus, s.markers, 0, Between)))
      else if p.GcGate? then Some(Become(s, a, Counting(ForGc(p.gc), s.markers, 0, Between)))
      else None
    case OpenMarker(id) =>
      if !p.Counting? || !p.probe.Between? || id !in p.todo then None
      else Some(Become(s, a, p.(todo := p.todo - {id}, probe := if id in s.markers then Opened(id) else Between)))
    case _ => None
  }

  /** One marker of the count: lock it without waiting, unlock it, remove it when stale. */
  function ProbeStep(s: State, a: Actor, e: Event): Option<State> {
    var p := PhaseOf(s, a);
    match e
    case TryMarker =>
      if !p.Counting? || !p.probe.Opened? then None
      else if p.probe.id in s.locks then Some(Become(s, a, p.(active := p.active + 1, probe := Between)))
      else Some(Become(s, a, p.(probe := Held(p.probe.id))).(locks := s.locks[p.probe.id := a]))
    case UnlockMarker =>
      if !p.Counting? || !p.probe.Held? then None
      else
        var probe := if p.purpose.ForGc? && !p.purpose.gc.dryRun then Removing(p.probe.id) else Between;
        Some(Become(s, a, p.(probe := probe)).(locks := Unlock(s.locks, p.probe.id)))
    case RemoveStaleMarker =>
      if !p.Counting? || !p.probe.Removing? then None
      else Some(Become(s, a, p.(probe := Between)).(markers := s.markers - {p.probe.id}))
    case _ => None
  }

  // ---- Steps of a collection --------------------------------------------

  /** The removal loops of `gc` (src/reprobit/cache.py:558-604). */
  function SweepStep(s: State, a: Actor, e: Event): Option<State> {
    var p := PhaseOf(s, a);
    match e
    case SweepRecord(key, recent) =>
      if !p.GcRecords? || key !in p.pending || key !in s.records then None
      else if !Selected(p.gc, key) || recent then
        Some(Become(s, a, p.(pending := p.pending - {key}, retained := p.retained[key := s.records[key]])))
      else
        var next := Become(s, a, p.(pending := p.pending - {key}));
        Some(if p.gc.dryRun then next else next.(records := s.records - {key}))
    case EndRecords =>
      if !p.GcRecords? || p.pending != {} then None
      else Some(Become(s, a, GcBlobs(p.gc, Digests(p.retained), s.blobs.Keys)))
    case SweepBlob(digest) =>
      if !p.GcBlobs? || digest !in p.unswept then None
      else
        var next := Become(s, a, p.(unswept := p.unswept - {digest}));
        Some(if p.gc.dryRun || digest in p.referenced then next else next.(blobs := s.blobs - {digest}))
    case EndBlobs =>
      if p.GcBlobs? && p.unswept == {} then Some(Become(s, a, Leaving)) else None
    case _ => None
  }

  /** A collection enters the gate, goes on when its count found no lease, and leaves. */
  function GateStep(s: State, a: Actor, e: Event): Option<State> {
    var p := PhaseOf(s, a);
    match e
    case TakeGateForGc(gc) =>
      if p.Idle? && s.gate.None? then Some(Become(s, a, GcGate(gc)).(gate := Some(a))) else None
    case EndCount =>
      if !p.Counting? || !p.probe.Between? || p.todo != {} then None
      else if p.purpose.ForStatus? then Some(Become(s, a, Idle))
      else if p.active > 0 then Some(Become(s, a, Leaving))
      else Some(Become(s, a, GcRecords(p.purpose.gc, s.records.Keys, map[])))
    case ReleaseGate =>
      if p.Leaving? then Some(Become(s, a, Idle).(gate := None)) else None
    case _ => None
  }

  /** An exception inside `gc()` or `status()` closes a held marker and leaves. */
  function AbortStep(s: State, a: Actor): Option<State> {
    var p := PhaseOf(s, a);
    if p.GcGate? || p.GcRecords? || p.GcBlobs? then Some(Become(s, a, Leaving))
    else if !p.Counting? then None
    else
      var locks := if p.probe.Held? then Unlock(s.locks, p.probe.id) else s.locks;
      Some(Become(s, a, if p.purpose.ForStatus? then Idle else Leaving).(locks := locks))
  }

  function CrashStep(s: State, a: Actor): State {
    Become(s, a, Idle).(gate := if s.gate == Some(a) then None else s.gate,
                        locks := DropLocks(s.locks, a))
  }

  /** The state after actor `a` performs `e`, or `None` when `e` is not enabled. */
  function Step(s: State, a: Actor, e: Event): Option<State> {
    match e
    case Crash => Some(CrashStep(s, a))
    case Abort => AbortStep(s, a)
    case TakeGateForLease | PublishMarker(_) | LockMarker | OpenLease => OpeningStep(s, a, e)
    case FailLease | RemoveFailedMarker => FailingStep(s, a, e)
    case StageBlob(_) | BeginPublish(_, _) | ProbeBlob | CommitRecord => LeaseStep(s, a, e)
    case Close | RemoveClosedMarker => CloseStep(s, a, e)
    case ListLeases | OpenMarker(_) => CountStep(s, a, e)
    case TryMarker | UnlockMarker | RemoveStaleMarker => ProbeStep(s, a, e)
    case SweepRecord(_, _) | EndRecords | SweepBlob(_) | EndBlobs => SweepStep(s, a, e)
    case TakeGateForGc(_) | EndCount | ReleaseGate => GateStep(s, a, e)
  }

  /** The state after a whole schedule, or `None` when some step of it is not enabled. */
  function Execute(s: State, schedule: seq<(Actor, Event)>): Option<State> {
    if schedule == [] then Some(s)
    else
      var before := Execute(s, schedule[..|schedule| - 1]);
      if before.None? then None
      else Step(before.value, schedule[|schedule| - 1].0, schedule[|schedule| - 1].1)
  }
}
