/** The publication transaction and its rollback (src/reprobit/classic_publication.py). */
module PublishSet {
  import opened Options
  import opened Publication

  /** Case folding and backslash replacement; folding does not confuse separators. */
  datatype Folding = Folding(fold: string -> string, slashed: string -> string)

  ghost predicate KeepsSeparators(folding: Folding) {
    forall a, b {:trigger folding.slashed(a), folding.slashed(b)} ::
      folding.fold(a) == folding.fold(b) ==> folding.fold(folding.slashed(a)) == folding.fold(folding.slashed(b))
  }

  predicate NoCollision(folding: Folding, requests: seq<Request>) {
    forall i, j | 0 <= i < j < |requests| ::
      folding.fold(folding.slashed(requests[i].relative)) != folding.fold(folding.slashed(requests[j].relative))
  }

  predicate DistinctPaths(requests: seq<Request>) {
    forall i, j | 0 <= i < j < |requests| :: requests[i].relative != requests[j].relative
  }

  /** A replaced or created output, with the version this run wrote. */
  datatype Committed = Committed(index: nat, snapshot: File)

  predicate Ascending(committed: seq<Committed>, n: nat) {
    && (forall k | 0 <= k < |committed| :: committed[k].index < n)
    && forall k, m | 0 <= k < m < |committed| :: committed[k].index < committed[m].index
  }

  /** The tree with the committed versions in place. */
  function Overlay(base: Files, requests: seq<Request>, committed: seq<Committed>): Files
    requires forall k | 0 <= k < |committed| :: committed[k].index < |requests|
  {
    if committed == [] then base
    else
      var last := committed[|committed| - 1];
      Overlay(base, requests, committed[..|committed| - 1])[requests[last.index].relative := last.snapshot]
  }

  predicate Aside(requests: seq<Request>, committed: seq<Committed>, path: string) {
    forall k | 0 <= k < |committed| :: committed[k].index < |requests| && requests[committed[k].index].relative != path
  }

  lemma {:induction false} OverlayAside(base: Files, requests: seq<Request>, committed: seq<Committed>, path: string,
                                        file: Option<File>)
    requires Aside(requests, committed, path)
    ensures Overlay(With(base, path, file), requests, committed) == With(Overlay(base, requests, committed), path, file)
  {
    if committed != [] {
      var last := committed[|committed| - 1];
      OverlayAside(base, requests, committed[..|committed| - 1], path, file);
      WithCommutes(Overlay(base, requests, committed[..|committed| - 1]), path, file, requests[last.index].relative,
                   last.snapshot);
    }
  }

  lemma WithCommutes(files: Files, path: string, file: Option<File>, other: string, snapshot: File)
    requires path != other
    ensures With(files, path, file)[other := snapshot] == With(files[other := snapshot], path, file)
  {
  }

  lemma {:induction false} OverlayLookup(base: Files, requests: seq<Request>, committed: seq<Committed>, path: string)
    requires Aside(requests, committed, path)
    ensures Lookup(Overlay(base, requests, committed), path) == Lookup(base, path)
  {
    if committed != [] {
      OverlayLookup(base, requests, committed[..|committed| - 1], path);
    }
  }

  lemma QuietStep(turns: seq<Turn>, files: Files, stamp: nat)
    ensures IsQuiet(turns) ==> IsQuiet(After(turns)) && Seen(files, turns, stamp) == files
    ensures NoFaults(turns) ==> NoFaults(After(turns)) && !Faulty(turns)
  {
  }

  // ---- Turns --------------------------------------------------------------------------------

  /** The first turns of a run; past the end of the list every turn is uneventful. */
  function First(turns: seq<Turn>, n: nat): seq<Turn> {
    if n <= |turns| then turns[..n] else turns
  }

  function Rest(turns: seq<Turn>, n: nat): seq<Turn> {
    if n <= |turns| then turns[n..] else []
  }

  lemma {:induction false} OneMoreTurn(turns: seq<Turn>, n: nat)
    ensures Rest(turns, n + 1) == After(Rest(turns, n))
    ensures NoFaults(First(turns, n + 1)) <==> NoFaults(First(turns, n)) && !Faulty(Rest(turns, n))
    ensures First(turns, 0) == [] && Rest(turns, 0) == turns
  {
    if n < |turns| {
      assert turns[..n + 1] == turns[..n] + [turns[n]];
    }
  }

  /** Taking some turns and then some more. */
  lemma {:induction false} TurnsAdd(turns: seq<Turn>, n: nat, m: nat)
    ensures Rest(Rest(turns, n), m) == Rest(turns, n + m)
    ensures NoFaults(First(turns, n + m)) <==> NoFaults(First(turns, n)) && NoFaults(First(Rest(turns, n), m))
  {
    if n + m <= |turns| {
      assert turns[..n + m] == turns[..n] + turns[n..][..m];
    } else if n <= |turns| {
      assert turns == turns[..n] + turns[n..];
    }
  }

  /** A fault among fewer turns is a fault among more. */
  lemma FaultStays(turns: seq<Turn>, n: nat, m: nat)
    requires n <= m && !NoFaults(First(turns, n))
    ensures !NoFaults(First(turns, m))
  {
  }

  // ---- Preparation ------------------------------------------------------------------------

  predicate Restorable(prior: Option<File>) {
    prior.Some? ==> prior.value.mode <= PERMISSIONS
  }

  lemma NoTurns()
    ensures NoFaults([])
  {
  }

  lemma {:induction false} SeesOne(log: seq<Event>, requests: seq<Request>, priors: seq<Option<File>>,
                                   file: Option<File>)
    requires |priors| < |requests| && Careful(log, requests, priors, [])
    ensures
      var event := Saw(requests[|priors|].relative, file);
      Careful(log + [event], requests, priors, []) && Careful(log + [event], requests, priors + [file], [])
  {
    var event := Saw(requests[|priors|].relative, file);
    StaysCareful(log, event, requests, priors, []);
    assert (log + [event])[|log|] == event;
  }

  /** Read every prior output; special mode bits are refused. */
  method Prepare(tree: Tree, requests: seq<Request>) returns (priors: seq<Option<File>>, ok: bool)
    requires tree.Valid() && Careful(tree.log, requests, [], [])
    modifies tree
    ensures tree.Valid() && |priors| <= |requests| && (ok ==> |priors| == |requests|)
    ensures Careful(tree.log, requests, priors, [])
    ensures forall i | 0 <= i < |priors| :: Restorable(priors[i])
    ensures IsQuiet(old(tree.turns)) ==> IsQuiet(tree.turns) && tree.files == old(tree.files)
    ensures IsQuiet(old(tree.turns)) ==>
              forall i | 0 <= i < |priors| :: priors[i] == Lookup(tree.files, requests[i].relative)
    ensures ok ==> tree.turns == Rest(old(tree.turns), |requests|) && NoFaults(First(old(tree.turns), |requests|))
    ensures !ok && IsQuiet(old(tree.turns)) ==>
              || !NoFaults(First(old(tree.turns), |requests|))
              || exists i :: 0 <= i < |requests| && !Restorable(Lookup(tree.files, requests[i].relative))
  {
    hide First, Rest, NoFaults, Restorable, Careful;
    priors := [];
    OneMoreTurn(tree.turns, 0);
    NoTurns();
    for i := 0 to |requests|
      invariant tree.Valid() && |priors| == i && Careful(tree.log, requests, priors, [])
      invariant forall k | 0 <= k < i :: Restorable(priors[k])
      invariant IsQuiet(old(tree.turns)) ==> IsQuiet(tree.turns) && tree.files == old(tree.files)
      invariant IsQuiet(old(tree.turns)) ==>
                  forall k | 0 <= k < i :: priors[k] == Lookup(tree.files, requests[k].relative)
      invariant tree.turns == Rest(old(tree.turns), i) && NoFaults(First(old(tree.turns), i))
    {
      OneMoreTurn(old(tree.turns), i);
      QuietStep(tree.turns, tree.files, tree.nextStamp);
      ghost var log := tree.log;
      var found := tree.Look(requests[i].relative);
      assert log + [] == log;
      if found.Some? {
        SeesOne(log, requests, priors, found.value);
      }
      if found.None? || !Restorable(found.value) {
        if found.None? {
          FaultStays(old(tree.turns), i + 1, |requests|);
        }
        return priors, false;
      }
      priors := priors + [found.value];
    }
    ok := true;
  }

  // ---- Commit -----------------------------------------------------------------------------

  /** The output on disk already is what was asked for. */
  predicate UpToDate(request: Request, prior: Option<File>) {
    && prior.Some? && prior.value.payload == request.payload
    && (request.mode.None? || prior.value.mode == request.mode.value)
  }

  predicate CanCommit(request: Request, prior: Option<File>) {
    UpToDate(request, prior) || ModeOf(request.mode) <= PERMISSIONS
  }

  predicate Fulfils(file: File, request: Request) {
    file.payload == request.payload && (request.mode.Some? ==> file.mode == request.mode.value)
  }

  /** This run only replaces a version it saw, only removes a version it wrote, or creates. */
  ghost predicate OnlyOwn(log: seq<Event>) {
    forall k | 0 <= k < |log| :: OwnEvent(log[..k], log[k])
  }

  ghost predicate OwnEvent(log: seq<Event>, event: Event) {
    event.Wrote? && event.before.Some? ==>
      if event.after.Some? then WasSeen(log, event.path, event.before) else WasWritten(log, event.path, event.before)
  }

  ghost predicate WasSeen(log: seq<Event>, path: string, file: Option<File>) {
    exists j :: 0 <= j < |log| && log[j] == Saw(path, file)
  }

  ghost predicate WasWritten(log: seq<Event>, path: string, file: Option<File>) {
    exists j :: 0 <= j < |log| && log[j].Wrote? && log[j].path == path && log[j].after == file
  }

  ghost predicate SawPriors(log: seq<Event>, requests: seq<Request>, priors: seq<Option<File>>)
    requires |priors| <= |requests|
  {
    forall i | 0 <= i < |priors| :: WasSeen(log, requests[i].relative, priors[i])
  }

  ghost predicate Logged(log: seq<Event>, requests: seq<Request>, committed: seq<Committed>)
    requires forall k | 0 <= k < |committed| :: committed[k].index < |requests|
  {
    forall k | 0 <= k < |committed| ::
        WasWritten(log, requests[committed[k].index].relative, Some(committed[k].snapshot))
  }

  lemma {:induction false} OwnEventsGrow(log: seq<Event>, event: Event)
    requires OnlyOwn(log) && OwnEvent(log, event)
    ensures OnlyOwn(log + [event])
  {
    var longer := log + [event];
    forall k | 0 <= k < |longer| ensures OwnEvent(longer[..k], longer[k]) {
      assert k < |log| ==> longer[k] == log[k] && longer[..k] == log[..k];
      assert k == |log| ==> longer[..k] == log;
    }
  }

  lemma {:induction false} EventsStay(log: seq<Event>, event: Event, path: string, file: Option<File>)
    ensures WasSeen(log, path, file) ==> WasSeen(log + [event], path, file)
    ensures WasWritten(log, path, file) ==> WasWritten(log + [event], path, file)
  {
    assert forall j | 0 <= j < |log| :: (log + [event])[j] == log[j];
  }

  /** The run has been careful so far, saw every prior and wrote every committed version. */
  ghost predicate Careful(log: seq<Event>, requests: seq<Request>, priors: seq<Option<File>>, committed: seq<Committed>)
    requires |priors| <= |requests| && forall k | 0 <= k < |committed| :: committed[k].index < |requests|
  {
    OnlyOwn(log) && SawPriors(log, requests, priors) && Logged(log, requests, committed)
  }

  lemma {:induction false} StaysCareful(log: seq<Event>, event: Event, requests: seq<Request>,
                                        priors: seq<Option<File>>, committed: seq<Committed>)
    requires |priors| <= |requests| && forall k | 0 <= k < |committed| :: committed[k].index < |requests|
    requires Careful(log, requests, priors, committed) && OwnEvent(log, event)
    ensures Careful(log + [event], requests, priors, committed)
  {
    hide WasSeen, WasWritten, OwnEvent, OnlyOwn;
    OwnEventsGrow(log, event);
    forall path, file
      ensures WasSeen(log, path, file) ==> WasSeen(log + [event], path, file)
      ensures WasWritten(log, path, file) ==> WasWritten(log + [event], path, file) {
      EventsStay(log, event, path, file);
    }
  }

  /** What holds of the tree when `i` outputs are committed and nobody else writes. */
  ghost predicate CommitState(files: Files, start: Files, requests: seq<Request>, priors: seq<Option<File>>,
                              committed: seq<Committed>, published: seq<File>)
    requires |priors| == |requests| && |published| <= |requests| && Ascending(committed, |published|)
  {
    && files == Overlay(start, requests, committed)
    && (forall k | 0 <= k < |published| :: Lookup(files, requests[k].relative) == Some(published[k]))
    && forall k | |published| <= k < |requests| :: Lookup(files, requests[k].relative) == priors[k]
  }

  method CommitOne(tree: Tree, requests: seq<Request>, priors: seq<Option<File>>, ghost committed: seq<Committed>,
                   i: nat)
    returns (file: Option<File>, changed: bool)
    requires tree.Valid() && i < |requests| == |priors| && Ascending(committed, i)
    requires Careful(tree.log, requests, priors, committed)
    modifies tree
    ensures tree.Valid() && tree.turns == After(old(tree.turns))
    ensures changed <==> !UpToDate(requests[i], priors[i])
    ensures
      var seen, path := Seen(old(tree.files), old(tree.turns), old(tree.nextStamp)), requests[i].relative;
      && (file.None? <==>
          Faulty(old(tree.turns)) || (changed && ModeOf(requests[i].mode) > PERMISSIONS)
              || Lookup(seen, path) != priors[i])
      && tree.files == (if changed && file.Some? then seen[path := file.value] else seen)
    ensures file.Some? ==> Fulfils(file.value, requests[i]) && Lookup(tree.files, requests[i].relative) == file
    ensures Careful(tree.log, requests, priors, committed)
    ensures changed && file.Some? ==> Careful(tree.log, requests, priors, committed + [Committed(i, file.value)])
  {
    hide Careful;
    var path, prior := requests[i].relative, priors[i];
    ghost var log := tree.log;
    assert log + [] == log;
    changed := !UpToDate(requests[i], prior);
    if changed {
      file := tree.PublishIfCurrent(path, requests[i].payload, prior, requests[i].mode);
      if file.Some? {
        LogsCommit(log, requests, priors, committed, i, file.value);
      }
    } else {
      var found := tree.Look(path);
      if found.Some? {
        StaysCareful(log, Saw(path, found.value), requests, priors, committed);
      }
      file := if found == Some(prior) then prior else None;
    }
  }

  lemma {:induction false} LogsCommit(log: seq<Event>, requests: seq<Request>, priors: seq<Option<File>>,
                                      committed: seq<Committed>, i: nat, file: File)
    requires i < |requests| == |priors| && Ascending(committed, i) && Careful(log, requests, priors, committed)
    ensures
      var event := Wrote(requests[i].relative, priors[i], Some(file));
      && Careful(log + [event], requests, priors, committed)
      && Careful(log + [event], requests, priors, committed + [Committed(i, file)])
  {
    hide OnlyOwn, WasSeen;
    var event := Wrote(requests[i].relative, priors[i], Some(file));
    StaysCareful(log, event, requests, priors, committed);
    assert (log + [event])[|log|] == event;
    assert WasWritten(log + [event], event.path, event.after);
  }

  lemma {:induction false} OverlayGrows(start: Files, requests: seq<Request>, committed: seq<Committed>,
                                        item: Committed)
    requires item.index < |requests| && Ascending(committed, item.index)
    ensures Ascending(committed + [item], item.index + 1)
    ensures Overlay(start, requests, committed + [item]) ==
              Overlay(start, requests, committed)[requests[item.index].relative := item.snapshot]
  {
    assert (committed + [item])[..|committed|] == committed;
  }

  lemma {:induction false} CommitsOneMore(files: Files, start: Files, requests: seq<Request>, priors: seq<Option<File>>,
                       committed: seq<Committed>, published: seq<File>, file: File)
    requires |priors| == |requests| && |published| < |requests| && Ascending(committed, |published|)
    requires DistinctPaths(requests)
    requires CommitState(files, start, requests, priors, committed, published)
    ensures
      var i := |published|;
      && Ascending(committed + [Committed(i, file)], i + 1)
      && CommitState(files[requests[i].relative := file], start, requests, priors, committed + [Committed(i, file)],
                     published + [file])
  {
    hide Overlay;
    var i := |published|;
    OverlayGrows(start, requests, committed, Committed(i, file));
    var changed := files[requests[i].relative := file];
    forall k | 0 <= k < |requests| && k != i
      ensures Lookup(changed, requests[k].relative) == Lookup(files, requests[k].relative) {
      assert requests[k].relative != requests[i].relative;
    }
  }

  lemma KeepsOneMore(files: Files, start: Files, requests: seq<Request>, priors: seq<Option<File>>,
                     committed: seq<Committed>, published: seq<File>, file: File)
    requires |priors| == |requests| && |published| < |requests| && Ascending(committed, |published|)
    requires CommitState(files, start, requests, priors, committed, published) && priors[|published|] == Some(file)
    ensures Ascending(committed, |published| + 1)
    ensures CommitState(files, start, requests, priors, committed, published + [file])
  {
  }

  /** Compare-and-swap every output in turn. */
  method Commit(tree: Tree, requests: seq<Request>, priors: seq<Option<File>>, ghost start: Files, ghost alone: bool)
    returns (committed: seq<Committed>, published: seq<File>, ok: bool)
    requires tree.Valid() && |priors| == |requests| && DistinctPaths(requests)
    requires Careful(tree.log, requests, priors, [])
    requires alone ==> IsQuiet(tree.turns) && CommitState(tree.files, start, requests, priors, [], [])
    modifies tree
    ensures tree.Valid() && |published| <= |requests| && Ascending(committed, |published|)
    ensures (ok ==> |published| == |requests|)
    ensures forall k | 0 <= k < |published| :: Fulfils(published[k], requests[k])
    ensures Careful(tree.log, requests, priors, committed)
    ensures alone ==> IsQuiet(tree.turns) && CommitState(tree.files, start, requests, priors, committed, published)
    ensures ok ==> tree.turns == Rest(old(tree.turns), |requests|) && NoFaults(First(old(tree.turns), |requests|))
    ensures ok ==> forall i | 0 <= i < |requests| :: CanCommit(requests[i], priors[i])
    ensures !ok && alone ==>
              || !NoFaults(First(old(tree.turns), |requests|))
              || exists i :: 0 <= i < |requests| && !CanCommit(requests[i], priors[i])
  {
    hide Careful, UpToDate, Fulfils, Overlay, First, Rest, NoFaults;
    committed, published := [], [];
    OneMoreTurn(tree.turns, 0);
    NoTurns();
    for i := 0 to |requests|
      invariant tree.Valid() && |published| == i && Ascending(committed, i)
      invariant forall k | 0 <= k < i :: Fulfils(published[k], requests[k])
      invariant Careful(tree.log, requests, priors, committed)
      invariant alone ==> IsQuiet(tree.turns) && CommitState(tree.files, start, requests, priors, committed, published)
      invariant tree.turns == Rest(old(tree.turns), i) && NoFaults(First(old(tree.turns), i))
      invariant forall k | 0 <= k < i :: CanCommit(requests[k], priors[k])
    {
      OneMoreTurn(old(tree.turns), i);
      QuietStep(tree.turns, tree.files, tree.nextStamp);
      ghost var before := tree.files;
      var file, changed := CommitOne(tree, requests, priors, committed, i);
      if file.None? {
        if Faulty(Rest(old(tree.turns), i)) {
          FaultStays(old(tree.turns), i + 1, |requests|);
        }
        return committed, published, false;
      }
      if changed {
        if alone {
          CommitsOneMore(before, start, requests, priors, committed, published, file.value);
        }
        committed := committed + [Committed(i, file.value)];
      } else if alone {
        KeepsOneMore(before, start, requests, priors, committed, published, file.value);
      }
      published := published + [file.value];
    }
    ok := true;
  }

  // ---- Rollback ---------------------------------------------------------------------------

  /** Same bytes and mode, or both absent. */
  predicate SameFile(file: Option<File>, other: Option<File>) {
    if file.Some? && other.Some? then file.value.payload == other.value.payload && file.value.mode == other.value.mode
    else file == other
  }

  ghost predicate SameExcept(files: Files, others: Files, paths: seq<string>) {
    forall path | path !in paths :: SameFile(Lookup(files, path), Lookup(others, path))
  }

  /** The first prepared entry whose path folds to this one. */
  function PriorOf(folding: Folding, requests: seq<Request>, priors: seq<Option<File>>, relative: string): Option<File>
    requires |priors| == |requests|
  {
    if requests == [] then None
    else if folding.fold(requests[0].relative) == folding.fold(relative) then priors[0]
    else PriorOf(folding, requests[1..], priors[1..], relative)
  }

  /** Without a collision the entry found is the request's own. */
  lemma {:induction false} FindsOwnPrior(folding: Folding, requests: seq<Request>, priors: seq<Option<File>>, i: nat)
    requires |priors| == |requests| && i < |requests| && NoCollision(folding, requests) && KeepsSeparators(folding)
    ensures PriorOf(folding, requests, priors, requests[i].relative) == priors[i]
  {
    if i > 0 {
      assert folding.fold(requests[0].relative) != folding.fold(requests[i].relative);
      FindsOwnPrior(folding, requests[1..], priors[1..], i - 1);
    }
  }

  /** Undo one output; true when it reports an error. */
  method UndoOne(tree: Tree, requests: seq<Request>, priors: seq<Option<File>>, ghost committed: seq<Committed>,
                 k: nat, item: Committed, prior: Option<File>)
    returns (failed: bool)
    requires tree.Valid() && Restorable(prior) && |priors| <= |requests|
    requires Ascending(committed, |requests|) && k < |committed| && committed[k] == item
    requires Careful(tree.log, requests, priors, committed)
    modifies tree
    ensures tree.Valid() && Careful(tree.log, requests, priors, committed)
    ensures IsQuiet(old(tree.turns)) ==> IsQuiet(tree.turns)
    ensures NoFaults(old(tree.turns)) ==> NoFaults(tree.turns)
    ensures
      var path := requests[item.index].relative;
      IsQuiet(old(tree.turns)) && old(Lookup(tree.files, path)) == Some(item.snapshot) ==>
        && (exists file :: tree.files == With(old(tree.files), path, file) && (!failed ==> SameFile(file, prior)))
        && (NoFaults(old(tree.turns)) ==> !failed)
  {
    hide OnlyOwn, SawPriors;
    QuietStep(tree.turns, tree.files, tree.nextStamp);
    var path := requests[item.index].relative;
    ghost var start, log := tree.files, tree.log;
    var removed := tree.RemovePublished(path, item.snapshot);
    assert log + [] == log;
    if removed == Some(true) {
      StaysCareful(log, Wrote(path, Some(item.snapshot), None), requests, priors, committed);
    }
    if removed != Some(true) || prior.None? {
      assert removed.None? && IsQuiet(old(tree.turns)) && Lookup(start, path) == Some(item.snapshot) ==>
          tree.files == With(start, path, Some(item.snapshot));
      assert removed == Some(true) && IsQuiet(old(tree.turns)) ==> tree.files == With(start, path, None);
      return removed.None?;
    }
    log := tree.log;
    assert log + [] == log;
    QuietStep(tree.turns, tree.files, tree.nextStamp);
    var restored := tree.PublishNew(path, prior.value.payload, prior.value.mode);
    if restored.Some? {
      StaysCareful(log, Wrote(path, None, restored), requests, priors, committed);
    }
    assert IsQuiet(old(tree.turns)) ==> tree.files == With(start, path, restored);
    failed := restored.None?;
  }

  /** Undo the committed outputs in reverse; a failure is noted and the rest still undone. */
  method RollBack(tree: Tree, folding: Folding, requests: seq<Request>, priors: seq<Option<File>>,
                  committed: seq<Committed>, ghost start: Files, ghost alone: bool)
    returns (errors: seq<string>)
    requires tree.Valid() && |priors| <= |requests| && NoCollision(folding, requests) && KeepsSeparators(folding)
    requires DistinctPaths(requests) && Ascending(committed, |priors|)
    requires forall i | 0 <= i < |priors| :: Restorable(priors[i])
    requires Careful(tree.log, requests, priors, committed)
    requires alone ==> IsQuiet(tree.turns) && tree.files == Overlay(start, requests, committed)
    requires alone ==>
               forall k | 0 <= k < |committed| ::
                   priors[committed[k].index] == Lookup(start, requests[committed[k].index].relative)
    modifies tree
    ensures tree.Valid() && Careful(tree.log, requests, priors, committed)
    ensures alone ==> SameExcept(tree.files, start, errors)
    ensures alone && NoFaults(old(tree.turns)) ==> errors == []
  {
    hide Careful, SameFile, SameExcept, Restorable, Overlay;
    errors := [];
    ghost var base := start;
    NothingChanged(start);
    assert committed[..|committed|] == committed;
    for k := |committed| downto 0
      invariant tree.Valid() && Careful(tree.log, requests, priors, committed)
      invariant alone ==> IsQuiet(tree.turns) && SameExcept(base, start, errors)
      invariant alone ==> tree.files == Overlay(base, requests, committed[..k])
      invariant alone && NoFaults(old(tree.turns)) ==> NoFaults(tree.turns) && errors == []
    {
      var item := committed[k];
      var path := requests[item.index].relative;
      FindsOwnPrior(folding, requests[..|priors|], priors, item.index);
      ghost var files := tree.files;
      if alone {
        InPlace(files, base, requests, committed, k);
      }
      var failed :=
          UndoOne(tree, requests, priors, committed, k, item, PriorOf(folding, requests[..|priors|], priors, path));
      if alone {
        ghost var file :| tree.files == With(files, path, file) && (!failed ==> SameFile(file, priors[item.index]));
        Undone(files, base, start, requests, committed, k, file, errors, failed);
        base := With(base, path, file);
      }
      if failed {
        errors := errors + [path];
      }
    }
    assert alone ==> tree.files == base by {
      assert committed[..0] == [];
      NothingLaid(base, requests);
    }
  }

  lemma NothingChanged(files: Files)
    ensures SameExcept(files, files, [])
  {
  }

  lemma NothingLaid(base: Files, requests: seq<Request>)
    ensures Overlay(base, requests, []) == base
  {
  }

  lemma InPlace(files: Files, base: Files, requests: seq<Request>, committed: seq<Committed>, k: nat)
    requires k < |committed| && Ascending(committed, |requests|) && files == Overlay(base, requests, committed[..k + 1])
    ensures Lookup(files, requests[committed[k].index].relative) == Some(committed[k].snapshot)
  {
  }

  lemma {:induction false} Undone(files: Files, base: Files, start: Files, requests: seq<Request>,
                                  committed: seq<Committed>, k: nat, file: Option<File>, errors: seq<string>,
                                  failed: bool)
    requires k < |committed| && Ascending(committed, |requests|) && DistinctPaths(requests)
    requires files == Overlay(base, requests, committed[..k + 1]) && SameExcept(base, start, errors)
    requires !failed ==> SameFile(file, Lookup(start, requests[committed[k].index].relative))
    ensures
      var path := requests[committed[k].index].relative;
      && With(files, path, file) == Overlay(With(base, path, file), requests, committed[..k])
      && SameExcept(With(base, path, file), start, if failed then errors + [path] else errors)
  {
    var path := requests[committed[k].index].relative;
    assert committed[..k + 1][..k] == committed[..k];
    var below := Overlay(base, requests, committed[..k]);
    OverlayAside(base, requests, committed[..k], path, file);
    assert With(below[path := committed[k].snapshot], path, file) == With(below, path, file);
  }

  // ---- The transaction ----------------------------------------------------------------------

  /** Refused before anything was touched; rolled back, noting rollback errors; or published. */
  datatype Outcome = Refused | RolledBack(errors: seq<string>) | Published(snapshots: seq<File>)

  predicate InTree(files: Files, requests: seq<Request>, published: seq<File>)
    requires |published| == |requests|
  {
    forall i | 0 <= i < |requests| :: Lookup(files, requests[i].relative) == Some(published[i])
  }

  /** One check of `hold_relative_file_set`: every output still is the version published. */
  method CheckHeld(tree: Tree, requests: seq<Request>, published: seq<File>) returns (ok: bool)
    requires tree.Valid() && |published| == |requests|
    modifies tree
    ensures tree.Valid() && tree.log == old(tree.log) && tree.turns == After(old(tree.turns))
    ensures tree.files == Seen(old(tree.files), old(tree.turns), old(tree.nextStamp))
    ensures ok <==> !Faulty(old(tree.turns)) && InTree(tree.files, requests, published)
  {
    var fails := tree.Step();
    ok := !fails && InTree(tree.files, requests, published);
  }

  /** The consumer's use of the held outputs, the check after it, and the release of the lock. */
  method UseHeld(tree: Tree, requests: seq<Request>, published: seq<File>)
    returns (ok: bool, ghost held: Files, ghost stamp: nat)
    requires tree.Valid() && |published| == |requests|
    modifies tree
    ensures tree.Valid() && tree.log == old(tree.log)
    ensures IsQuiet(old(tree.turns)) ==> tree.files == old(tree.files)
    ensures ok ==> tree.turns == Rest(old(tree.turns), 4) && NoFaults(First(old(tree.turns), 4))
    ensures ok ==> InTree(held, requests, published) && tree.files == Seen(held, Rest(old(tree.turns), 3), stamp)
    ensures !ok && IsQuiet(old(tree.turns)) && InTree(old(tree.files), requests, published) ==>
              !NoFaults(First(old(tree.turns), 4))
  {
    hide First, Rest, NoFaults, InTree;
    ghost var turns := tree.turns;
    FourTurns(turns);
    held, stamp := tree.files, tree.nextStamp;
    QuietStep(tree.turns, tree.files, tree.nextStamp);
    ok := CheckHeld(tree, requests, published);
    if ok {
      QuietStep(tree.turns, tree.files, tree.nextStamp);
      var bodyFails := tree.Step();
      QuietStep(tree.turns, tree.files, tree.nextStamp);
      ok := !bodyFails;
      if ok {
        ok := CheckHeld(tree, requests, published);
        if ok {
          held, stamp := tree.files, tree.nextStamp;
          QuietStep(tree.turns, tree.files, tree.nextStamp);
          var releaseFails := tree.Step();
          ok := !releaseFails;
        }
      }
    }
  }

  lemma {:induction false} FourTurns(turns: seq<Turn>)
    ensures Rest(turns, 0) == turns && Rest(turns, 1) == After(turns) && Rest(turns, 2) == After(After(turns))
    ensures Rest(turns, 3) == After(After(After(turns))) && Rest(turns, 4) == After(After(After(After(turns))))
    ensures NoFaults(First(turns, 4)) <==>
            && !Faulty(turns) && !Faulty(After(turns)) && !Faulty(After(After(turns)))
            && !Faulty(After(After(After(turns))))
  {
    hide First, Rest, NoFaults, Faulty, After;
    OneMoreTurn(turns, 0);
    OneMoreTurn(turns, 1);
    OneMoreTurn(turns, 2);
    OneMoreTurn(turns, 3);
    NoTurns();
  }

  /** The outputs are as requested, and everything else is as it was. */
  ghost predicate PublishedAll(files: Files, start: Files, requests: seq<Request>) {
    && (forall i | 0 <= i < |requests| ::
          requests[i].relative in files && Fulfils(files[requests[i].relative], requests[i]))
    && forall path | (forall i | 0 <= i < |requests| :: requests[i].relative != path) ::
         Lookup(files, path) == Lookup(start, path)
  }

  /** Every mode asked for is a permission mode, and every prior output could be restored. */
  ghost predicate Publishable(files: Files, requests: seq<Request>) {
    forall i | 0 <= i < |requests| ::
      && (requests[i].mode.Some? ==> requests[i].mode.value <= PERMISSIONS)
      && (requests[i].relative in files ==> files[requests[i].relative].mode <= PERMISSIONS)
  }

  lemma NoCollisionIsDistinct(folding: Folding, requests: seq<Request>)
    requires NoCollision(folding, requests)
    ensures DistinctPaths(requests)
  {
  }

  lemma {:induction false} CommittedAll(files: Files, start: Files, requests: seq<Request>, priors: seq<Option<File>>,
                                        committed: seq<Committed>, published: seq<File>)
    requires |priors| == |requests| == |published| && Ascending(committed, |published|)
    requires CommitState(files, start, requests, priors, committed, published)
    requires forall k | 0 <= k < |published| :: Fulfils(published[k], requests[k])
    ensures PublishedAll(files, start, requests)
  {
    forall path | (forall i | 0 <= i < |requests| :: requests[i].relative != path)
      ensures Lookup(files, path) == Lookup(start, path) {
      OverlayLookup(start, requests, committed, path);
    }
  }

  /** The forward half: lock, callback, preparation, commit and use of the outputs. */
  method Attempt(tree: Tree, requests: seq<Request>)
    returns (priors: seq<Option<File>>, committed: seq<Committed>, published: seq<File>, ok: bool,
             ghost held: Files, ghost stamp: nat)
    requires tree.Valid() && DistinctPaths(requests) && Careful(tree.log, requests, [], [])
    modifies tree
    ensures tree.Valid() && |priors| <= |requests| && Ascending(committed, |priors|)
    ensures Careful(tree.log, requests, priors, committed)
    ensures forall i | 0 <= i < |priors| :: Restorable(priors[i])
    ensures IsQuiet(old(tree.turns)) ==> tree.files == Overlay(old(tree.files), requests, committed)
    ensures IsQuiet(old(tree.turns)) ==>
              forall i | 0 <= i < |priors| :: priors[i] == Lookup(old(tree.files), requests[i].relative)
    ensures ok ==> |published| == |requests| && forall i | 0 <= i < |requests| :: Fulfils(published[i], requests[i])
    ensures ok && IsQuiet(old(tree.turns)) ==>
              PublishedAll(tree.files, old(tree.files), requests) && InTree(tree.files, requests, published)
    ensures ok ==> NoFaults(First(old(tree.turns), Turns(requests)))
    ensures ok ==>
              && InTree(held, requests, published)
              && tree.files == Seen(held, Rest(old(tree.turns), Turns(requests) - 1), stamp)
    ensures IsQuiet(old(tree.turns)) ==>
              (ok <==> NoFaults(First(old(tree.turns), Turns(requests))) && Publishable(old(tree.files), requests))
  {
    hide Careful, PublishedAll, Fulfils, Overlay, Restorable, First, Rest, NoFaults, Publishable, InTree, CommitState,
      UpToDate, Seen, IsQuiet;
    ghost var turns, n := tree.turns, |requests|;
    TurnsInPhases(turns, n);
    held, stamp := tree.files, 0;
    ghost var start, alone := tree.files, IsQuiet(tree.turns);
    NothingLaid(start, requests);
    priors, committed, published, ok := [], [], [], false;
    QuietStep(tree.turns, tree.files, tree.nextStamp);
    var fails := tree.Step();
    if fails {
      return;
    }
    QuietStep(tree.turns, tree.files, tree.nextStamp);
    fails := tree.Step();
    if fails {
      return;
    }
    priors, ok := Prepare(tree, requests);
    if alone {
      Unrestorable(start, requests);
    }
    if !ok {
      return;
    }
    if alone {
      NoneCommitted(start, requests, priors);
    }
    committed, published, ok := Commit(tree, requests, priors, start, alone);
    if alone {
      Committable(start, requests, priors);
      IsLaid(tree.files, start, requests, priors, committed, published);
    }
    if ok {
      if alone {
        CommittedAll(tree.files, start, requests, priors, committed, published);
      }
      ok, held, stamp := UseHeld(tree, requests, published);
    }
  }

  /** Lock, callback, one read and one commit of each output, and the four steps of using them. */
  function Turns(requests: seq<Request>): nat {
    2 * |requests| + 6
  }

  lemma {:induction false} TurnsInPhases(turns: seq<Turn>, n: nat)
    ensures
      var ready := After(After(turns));
      && Rest(ready, n) == Rest(turns, n + 2) && Rest(Rest(ready, n), n) == Rest(turns, 2 * n + 2)
      && Rest(Rest(Rest(ready, n), n), 3) == Rest(turns, 2 * n + 5)
      && (NoFaults(First(turns, 2 * n + 6)) <==>
          && !Faulty(turns) && !Faulty(After(turns)) && NoFaults(First(ready, n)) && NoFaults(First(Rest(ready, n), n))
          && NoFaults(First(Rest(Rest(ready, n), n), 4)))
  {
    hide First, Rest, NoFaults, Faulty, After;
    OneMoreTurn(turns, 0);
    OneMoreTurn(turns, 1);
    NoTurns();
    TurnsAdd(turns, 2, n);
    TurnsAdd(turns, n + 2, n);
    TurnsAdd(turns, 2 * n + 2, 3);
    TurnsAdd(turns, 2 * n + 2, 4);
  }

  lemma Unrestorable(files: Files, requests: seq<Request>)
    ensures (exists i :: 0 <= i < |requests| && !Restorable(Lookup(files, requests[i].relative))) ==>
              !Publishable(files, requests)
  {
  }

  /** With restorable priors, what can be committed is what can be published. */
  lemma {:induction false} Committable(files: Files, requests: seq<Request>, priors: seq<Option<File>>)
    requires |priors| == |requests|
    requires forall i | 0 <= i < |priors| :: priors[i] == Lookup(files, requests[i].relative) && Restorable(priors[i])
    ensures Publishable(files, requests) <==> forall i | 0 <= i < |requests| :: CanCommit(requests[i], priors[i])
  {
    assert forall i | 0 <= i < |requests| ::
        CanCommit(requests[i], priors[i]) <==> ModeOf(requests[i].mode) <= PERMISSIONS;
  }

  lemma NoneCommitted(files: Files, requests: seq<Request>, priors: seq<Option<File>>)
    requires |priors| == |requests| && forall i | 0 <= i < |priors| :: priors[i] == Lookup(files, requests[i].relative)
    ensures CommitState(files, files, requests, priors, [], [])
  {
  }

  lemma IsLaid(files: Files, start: Files, requests: seq<Request>, priors: seq<Option<File>>,
               committed: seq<Committed>, published: seq<File>)
    requires |priors| == |requests| && |published| <= |requests| && Ascending(committed, |published|)
    requires CommitState(files, start, requests, priors, committed, published)
    ensures files == Overlay(start, requests, committed)
    ensures |published| == |requests| ==> InTree(files, requests, published)
  {
  }

  /**
   `publish_classic_output_set`. The lock, the `before_commit` callback, the consumer's body and the
   release of the lock are steps that may fail like any other; `undo` drives the rollback.
   */
  method Publish(tree: Tree, folding: Folding, requests: seq<Request>, undo: seq<Turn>)
    returns (outcome: Outcome, ghost held: Files, ghost stamp: nat)
    requires tree.Valid() && KeepsSeparators(folding)
    modifies tree
    ensures tree.Valid() && OnlyOwn(tree.log)
    ensures outcome.Refused? <==>
              || requests == []
              || exists i, j :: 0 <= i < j < |requests| &&
                   folding.fold(folding.slashed(requests[i].relative)) ==
                       folding.fold(folding.slashed(requests[j].relative))
    ensures outcome.Refused? ==> tree.files == old(tree.files)
    ensures outcome.RolledBack? && IsQuiet(old(tree.turns)) && IsQuiet(undo) ==>
              SameExcept(tree.files, old(tree.files), outcome.errors)
    ensures outcome.RolledBack? && IsQuiet(old(tree.turns)) && IsQuiet(undo) && NoFaults(undo) ==> outcome.errors == []
    ensures outcome.Published? ==>
              |outcome.snapshots| == |requests| && forall i | 0 <= i < |requests| ::
                  Fulfils(outcome.snapshots[i], requests[i])
    ensures outcome.Published? && IsQuiet(old(tree.turns)) ==>
              PublishedAll(tree.files, old(tree.files), requests) && InTree(tree.files, requests, outcome.snapshots)
    ensures outcome.Published? ==> NoFaults(First(old(tree.turns), Turns(requests)))
    ensures outcome.Published? ==>
              && InTree(held, requests, outcome.snapshots)
              && tree.files == Seen(held, Rest(old(tree.turns), Turns(requests) - 1), stamp)
    ensures IsQuiet(old(tree.turns)) && !outcome.Refused? ==>
              (outcome.Published? <==>
               NoFaults(First(old(tree.turns), Turns(requests))) && Publishable(old(tree.files), requests))
  {
    hide First, Rest, NoFaults, InTree, PublishedAll, SameExcept, NoCollision, SawPriors, Logged, OnlyOwn, Overlay,
        Publishable, Restorable;
    tree.log := [];
    held, stamp := tree.files, 0;
    NothingLogged(requests);
    Collides(folding, requests);
    if requests == [] || !NoCollision(folding, requests) {
      return Refused, held, stamp;
    }
    NoCollisionIsDistinct(folding, requests);
    ghost var start, alone := tree.files, IsQuiet(tree.turns) && IsQuiet(undo);
    var priors, committed, published, ok;
    priors, committed, published, ok, held, stamp := Attempt(tree, requests);
    if ok {
      outcome := Published(published);
    } else {
      tree.turns := undo;
      var errors := RollBack(tree, folding, requests, priors, committed, start, alone);
      outcome := RolledBack(errors);
    }
  }

  lemma Collides(folding: Folding, requests: seq<Request>)
    ensures !NoCollision(folding, requests) <==>
              exists i, j :: 0 <= i < j < |requests| &&
                folding.fold(folding.slashed(requests[i].relative)) ==
                    folding.fold(folding.slashed(requests[j].relative))
  {
  }

  lemma NothingLogged(requests: seq<Request>)
    ensures OnlyOwn([]) && Careful([], requests, [], [])
  {
  }
}
