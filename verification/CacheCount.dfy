/**
 What counting the leases finds: locks belong to live actors, so a count is the number of open leases, and
 markers that crashed leases left behind never block a collection.
 */
module CacheCount {
  import opened Options
  import opened CacheProtocol
  import opened CacheSafety
  import opened CacheSweep

  // ---- Locks are owned --------------------------------------------------------------

  /** The one marker lock that an actor in this phase holds. */
  function LockOf(phase: Phase): Option<LeaseId> {
    match phase
    case LeaseLocked(id) => Some(id)
    case Open(id) => Some(id)
    case Publishing(id, _, _, _) => Some(id)
    case Counting(_, _, _, Held(id)) => Some(id)
    case _ => None
  }

  predicate LocksOwned(s: State) {
    forall id | id in s.locks :: LockOf(PhaseOf(s, s.locks[id])) == Some(id)
  }

  lemma OpeningOwns(s: State, a: Actor, e: Event)
    requires LocksOwned(s) && OpeningStep(s, a, e).Some?
    ensures LocksOwned(OpeningStep(s, a, e).value)
  {
  }

  lemma FailingOwns(s: State, a: Actor, e: Event)
    requires LocksOwned(s) && FailingStep(s, a, e).Some?
    ensures LocksOwned(FailingStep(s, a, e).value)
  {
  }

  lemma LeaseUseOwns(s: State, a: Actor, e: Event)
    requires LocksOwned(s) && LeaseStep(s, a, e).Some?
    ensures LocksOwned(LeaseStep(s, a, e).value)
  {
  }

  lemma CloseOwns(s: State, a: Actor, e: Event)
    requires LocksOwned(s) && CloseStep(s, a, e).Some?
    ensures LocksOwned(CloseStep(s, a, e).value)
  {
  }

  lemma CountOwns(s: State, a: Actor, e: Event)
    requires LocksOwned(s) && CountStep(s, a, e).Some?
    ensures LocksOwned(CountStep(s, a, e).value)
  {
  }

  lemma ProbeOwns(s: State, a: Actor, e: Event)
    requires LocksOwned(s) && ProbeStep(s, a, e).Some?
    ensures LocksOwned(ProbeStep(s, a, e).value)
  {
  }

  lemma SweepOwns(s: State, a: Actor, e: Event)
    requires LocksOwned(s) && SweepStep(s, a, e).Some?
    ensures LocksOwned(SweepStep(s, a, e).value)
  {
  }

  lemma GateOwns(s: State, a: Actor, e: Event)
    requires LocksOwned(s) && GateStep(s, a, e).Some?
    ensures LocksOwned(GateStep(s, a, e).value)
  {
  }

  lemma AbortOwns(s: State, a: Actor)
    requires LocksOwned(s) && AbortStep(s, a).Some?
    ensures LocksOwned(AbortStep(s, a).value)
  {
  }

  lemma CrashOwns(s: State, a: Actor)
    requires LocksOwned(s)
    ensures LocksOwned(CrashStep(s, a))
  {
  }

  lemma {:induction false} StepOwns(s: State, a: Actor, e: Event)
    requires LocksOwned(s) && Step(s, a, e).Some?
    ensures LocksOwned(Step(s, a, e).value)
  {
    hide LocksOwned, OpeningStep, FailingStep, LeaseStep, CloseStep, CountStep, ProbeStep, SweepStep, GateStep,
      AbortStep, CrashStep;
    match e
    case Crash => CrashOwns(s, a);
    case Abort => AbortOwns(s, a);
    case TakeGateForLease | PublishMarker(_) | LockMarker | OpenLease => OpeningOwns(s, a, e);
    case FailLease | RemoveFailedMarker => FailingOwns(s, a, e);
    case StageBlob(_) | BeginPublish(_, _) | ProbeBlob | CommitRecord => LeaseUseOwns(s, a, e);
    case Close | RemoveClosedMarker => CloseOwns(s, a, e);
    case ListLeases | OpenMarker(_) => CountOwns(s, a, e);
    case TryMarker | UnlockMarker | RemoveStaleMarker => ProbeOwns(s, a, e);
    case SweepRecord(_, _) | EndRecords | SweepBlob(_) | EndBlobs => SweepOwns(s, a, e);
    case TakeGateForGc(_) | EndCount | ReleaseGate => GateOwns(s, a, e);
  }

  /** After every schedule each held lock belongs to an actor that is using it: a crash leaves none behind. */
  lemma {:induction false} LocksAreOwned(schedule: seq<(Actor, Event)>)
    requires Execute(INITIAL, schedule).Some?
    ensures
      var s := Execute(INITIAL, schedule).value;
      forall id | id in s.locks :: LockOf(PhaseOf(s, s.locks[id])) == Some(id)
  {
    hide Step;
    if schedule != [] {
      var n := |schedule| - 1;
      LocksAreOwned(schedule[..n]);
      StepOwns(Execute(INITIAL, schedule[..n]).value, schedule[n].0, schedule[n].1);
    }
  }

  // ---- One count --------------------------------------------------------------------------

  /** The marker is that of an open lease. */
  ghost predicate IsHeldOpen(s: State, id: LeaseId) {
    exists b: Actor :: IsOpen(PhaseOf(s, b)) && PhaseOf(s, b).id == id
  }

  function Locked(s: State, ids: set<LeaseId>): set<LeaseId> {
    set id | id in ids && id in s.locks
  }

  /** Between two markers: all but the count is as it was. */
  ghost predicate CountedTo(s: State, s': State, a: Actor, purpose: Purpose, todo: set<LeaseId>, active: nat,
                      markers: set<LeaseId>)
  {
    && PhaseOf(s', a) == Counting(purpose, todo, active, Between) && s'.markers == markers && s'.locks == s.locks
    && s'.records == s.records && s'.blobs == s.blobs && s'.gate == s.gate
    && forall b: Actor | b != a :: PhaseOf(s', b) == PhaseOf(s, b)
  }

  predicate Removes(purpose: Purpose) {
    purpose.ForGc? && !purpose.gc.dryRun
  }

  /** A marker whose lock is held counts. */
  lemma {:induction false} CountsHeld(schedule: seq<(Actor, Event)>, s: State, a: Actor, id: LeaseId)
    returns (longer: seq<(Actor, Event)>, s': State)
    requires Execute(INITIAL, schedule) == Some(s) && PhaseOf(s, a).Counting? && PhaseOf(s, a).probe.Between?
    requires id in PhaseOf(s, a).todo && id in s.markers && id in s.locks
    ensures Execute(INITIAL, longer) == Some(s')
    ensures CountedTo(s, s', a, PhaseOf(s, a).purpose, PhaseOf(s, a).todo - {id}, PhaseOf(s, a).active + 1, s.markers)
  {
    hide OpeningStep, FailingStep, LeaseStep, CloseStep, SweepStep, GateStep, AbortStep, CrashStep, Execute;
    longer, s' := Then(schedule, s, a, OpenMarker(id));
    longer, s' := Then(longer, s', a, TryMarker);
  }

  /** A marker nobody locks is locked, does not count and is unlocked again. */
  lemma {:induction false} ProbesStale(schedule: seq<(Actor, Event)>, s: State, a: Actor, id: LeaseId)
    returns (longer: seq<(Actor, Event)>, s': State)
    requires Execute(INITIAL, schedule) == Some(s) && PhaseOf(s, a).Counting? && PhaseOf(s, a).probe.Between?
    requires id in PhaseOf(s, a).todo && id in s.markers && id !in s.locks
    ensures Execute(INITIAL, longer) == Some(s')
    ensures
      var p := PhaseOf(s, a);
      && PhaseOf(s', a) ==
           Counting(p.purpose, p.todo - {id}, p.active, if Removes(p.purpose) then Removing(id) else Between)
      && s' == s.(phases := s'.phases) && forall b: Actor | b != a :: PhaseOf(s', b) == PhaseOf(s, b)
  {
    hide OpeningStep, FailingStep, LeaseStep, CloseStep, SweepStep, GateStep, AbortStep, CrashStep, Execute;
    longer, s' := Then(schedule, s, a, OpenMarker(id));
    longer, s' := Then(longer, s', a, TryMarker);
    longer, s' := Then(longer, s', a, UnlockMarker);
    assert s.locks[id := a] - {id} == s.locks;
  }

  /** A marker nobody locks does not count, and a collection that is no dry run removes it. */
  lemma {:induction false} CountsStale(schedule: seq<(Actor, Event)>, s: State, a: Actor, id: LeaseId)
    returns (longer: seq<(Actor, Event)>, s': State)
    requires Execute(INITIAL, schedule) == Some(s) && PhaseOf(s, a).Counting? && PhaseOf(s, a).probe.Between?
    requires id in PhaseOf(s, a).todo && id in s.markers && id !in s.locks
    ensures Execute(INITIAL, longer) == Some(s')
    ensures CountedTo(s, s', a, PhaseOf(s, a).purpose, PhaseOf(s, a).todo - {id}, PhaseOf(s, a).active,
                      if Removes(PhaseOf(s, a).purpose) then s.markers - {id} else s.markers)
  {
    hide OpeningStep, FailingStep, LeaseStep, CloseStep, CountStep, SweepStep, GateStep, AbortStep, CrashStep, Execute;
    longer, s' := ProbesStale(schedule, s, a, id);
    if Removes(PhaseOf(s, a).purpose) {
      longer, s' := Then(longer, s', a, RemoveStaleMarker);
    }
  }

  lemma {:induction false} OneLessLocked(s: State, todo: set<LeaseId>, id: LeaseId)
    requires id in todo
    ensures |Locked(s, todo)| == |Locked(s, todo - {id})| + if id in s.locks then 1 else 0
  {
    if id in s.locks {
      assert Locked(s, todo) == Locked(s, todo - {id}) + {id};
    } else {
      assert Locked(s, todo) == Locked(s, todo - {id});
    }
  }

  /** A count that runs alone finds the locked markers and removes the others, if it removes any. */
  lemma {:induction false} CountRuns(schedule: seq<(Actor, Event)>, s: State, a: Actor)
    returns (longer: seq<(Actor, Event)>, s': State)
    requires Execute(INITIAL, schedule) == Some(s) && PhaseOf(s, a).Counting? && PhaseOf(s, a).probe.Between?
    requires PhaseOf(s, a).todo <= s.markers
    ensures Execute(INITIAL, longer) == Some(s')
    ensures
      var p := PhaseOf(s, a);
      CountedTo(s, s', a, p.purpose, {}, p.active + |Locked(s, p.todo)|,
                if Removes(p.purpose) then s.markers - (p.todo - Locked(s, p.todo)) else s.markers)
    decreases PhaseOf(s, a).todo
  {
    hide Execute;
    var p := PhaseOf(s, a);
    if p.todo == {} {
      longer, s' := schedule, s;
      assert Locked(s, {}) == {};
    } else {
      var id :| id in p.todo;
      var run, next;
      if id in s.locks {
        run, next := CountsHeld(schedule, s, a, id);
      } else {
        run, next := CountsStale(schedule, s, a, id);
      }
      longer, s' := CountRuns(run, next, a);
      OneLessLocked(s, p.todo, id);
      assert Locked(next, p.todo - {id}) == Locked(s, p.todo - {id});
      assert Removes(p.purpose) && id !in s.locks ==>
          s.markers - {id} - (p.todo - {id} - Locked(s, p.todo - {id})) == s.markers - (p.todo - Locked(s, p.todo));
      assert id in s.locks ==> p.todo - {id} - Locked(s, p.todo - {id}) == p.todo - Locked(s, p.todo);
    }
  }

  /** While no other actor counts, the locked markers are those of the open leases. */
  lemma {:induction false} LockedAreOpen(schedule: seq<(Actor, Event)>, s: State, a: Actor, id: LeaseId)
    requires Execute(INITIAL, schedule) == Some(s) && HoldsGate(PhaseOf(s, a)) && LockOf(PhaseOf(s, a)).None?
    requires forall b: Actor | b != a :: !PhaseOf(s, b).Counting?
    ensures id in s.markers && id in s.locks <==> IsHeldOpen(s, id)
  {
    hide Execute;
    LocksAreOwned(schedule);
    InvHolds(schedule, s);
    if id in s.locks {
      var b := s.locks[id];
      assert LockOf(PhaseOf(s, b)) == Some(id) && ActorInv(s, b, PhaseOf(s, b));
      assert ActorInv(s, a, PhaseOf(s, a));
      assert IsOpen(PhaseOf(s, b)) && PhaseOf(s, b).id == id;
    }
    if IsHeldOpen(s, id) {
      var b: Actor :| IsOpen(PhaseOf(s, b)) && PhaseOf(s, b).id == id;
      assert ActorInv(s, b, PhaseOf(s, b));
    }
  }

  lemma {:induction false} InvHolds(schedule: seq<(Actor, Event)>, s: State)
    requires Execute(INITIAL, schedule) == Some(s)
    ensures Inv(s)
  {
    ExecuteKeepsInv(INITIAL, schedule);
  }

  lemma {:induction false} Lists(schedule: seq<(Actor, Event)>, s: State, a: Actor)
    returns (longer: seq<(Actor, Event)>, s': State)
    requires Execute(INITIAL, schedule) == Some(s) && (PhaseOf(s, a).Idle? || PhaseOf(s, a).GcGate?)
    ensures Execute(INITIAL, longer) == Some(s')
    ensures
      var purpose := if PhaseOf(s, a).Idle? then ForStatus else ForGc(PhaseOf(s, a).gc);
      CountedTo(s, s', a, purpose, s.markers, 0, s.markers)
  {
    hide OpeningStep, FailingStep, LeaseStep, CloseStep, ProbeStep, SweepStep, GateStep, AbortStep, CrashStep, Execute;
    longer, s' := Then(schedule, s, a, ListLeases);
  }

  lemma {:induction false} EndsCount(schedule: seq<(Actor, Event)>, s: State, a: Actor, gc: Collection, active: nat)
    returns (longer: seq<(Actor, Event)>, s': State)
    requires Execute(INITIAL, schedule) == Some(s) && PhaseOf(s, a) == Counting(ForGc(gc), {}, active, Between)
    ensures Execute(INITIAL, longer) == Some(s') && Step(s, a, EndCount) == Some(s')
    ensures PhaseOf(s', a) == if active == 0 then GcRecords(gc, s.records.Keys, map[]) else Leaving
    ensures s'.markers == s.markers && s'.records == s.records && s'.blobs == s.blobs
  {
    hide OpeningStep, FailingStep, LeaseStep, CloseStep, CountStep, ProbeStep, SweepStep, AbortStep, CrashStep, Execute;
    longer, s' := Then(schedule, s, a, EndCount);
  }

  /**
   A collection that counts alone: the count is the number of open leases, the markers of crashed leases are
   removed unless it is a dry run, and removal starts exactly when no lease is open.
   */
  lemma {:induction false} CollectionCounts(schedule: seq<(Actor, Event)>, s: State, a: Actor, gc: Collection,
                                            held: set<LeaseId>)
    returns (longer: seq<(Actor, Event)>, counted: State, s': State)
    requires Execute(INITIAL, schedule) == Some(s) && PhaseOf(s, a) == GcGate(gc)
    requires forall b: Actor | b != a :: !PhaseOf(s, b).Counting?
    requires forall id: LeaseId :: id in held <==> IsHeldOpen(s, id)
    ensures PhaseOf(counted, a) == Counting(ForGc(gc), {}, |held|, Between)
    ensures Step(counted, a, EndCount) == Some(s') && Execute(INITIAL, longer) == Some(s')
    ensures PhaseOf(s', a) == if held == {} then GcRecords(gc, s.records.Keys, map[]) else Leaving
    ensures s'.markers == if gc.dryRun then s.markers else held
    ensures s'.records == s.records && s'.blobs == s.blobs
  {
    hide Step, Execute, IsHeldOpen;
    var run, listed := Lists(schedule, s, a);
    var done;
    done, counted := CountRuns(run, listed, a);
    forall id: LeaseId ensures id in Locked(listed, s.markers) <==> id in held {
      LockedAreOpen(schedule, s, a, id);
    }
    assert Locked(listed, s.markers) == held;
    assert s.markers - (s.markers - held) == held;
    longer, s' := EndsCount(done, counted, a, gc, |held|);
  }

  /** `status` counts the locked markers and leaves them all. */
  lemma {:induction false} StatusCounts(schedule: seq<(Actor, Event)>, s: State, a: Actor)
    returns (longer: seq<(Actor, Event)>, s': State)
    requires Execute(INITIAL, schedule) == Some(s) && PhaseOf(s, a) == Idle
    ensures Execute(INITIAL, longer) == Some(s')
    ensures CountedTo(s, s', a, ForStatus, {}, |Locked(s, s.markers)|, s.markers)
  {
    hide Step, Execute;
    var run, listed := Lists(schedule, s, a);
    longer, s' := CountRuns(run, listed, a);
    assert Locked(listed, s.markers) == Locked(s, s.markers);
  }
}
