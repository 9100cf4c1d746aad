/**
 Include resolution against the compiler it stands in for.

 A walk is any deterministic include walk: what it does next depends only on what it has
 read so far, and it finds each name by trying the resolver's roots in some fixed order
 and taking the first file there.
 */
module IncludeWalk {
  import opened Options
  import opened Traces
  import opened IncludeResolution

  // ---- Candidates -------------------------------------------------------

  predicate Names(paths: Paths, raw: string, root: string, key: string) {
    var logical := paths.absolute(raw, Some(root));
    logical.Some? && paths.fold(logical.value) == key
  }

  ghost predicate NamedBelow(paths: Paths, raw: string, roots: seq<string>, key: string) {
    exists root :: root in roots && Names(paths, raw, root, key)
  }

  lemma {:induction false} CandidatesAre(paths: Paths, files: map<string, File>, raw: string, roots: seq<string>,
                                         found: set<string>)
    requires Candidates(paths, files, raw, roots, found).Some?
    ensures forall key :: key in Candidates(paths, files, raw, roots, found).value <==>
              key in found || (key in files && NamedBelow(paths, raw, roots, key))
    ensures forall root | root in roots :: paths.absolute(raw, Some(root)).Some?
    decreases |roots|
  {
    if roots != [] {
      var key0 := paths.fold(paths.absolute(raw, Some(roots[0])).value);
      CandidatesAre(paths, files, raw, roots[1..], if key0 in files then found + {key0} else found);
      assert roots == [roots[0]] + roots[1..];
      forall key
        ensures NamedBelow(paths, raw, roots, key) <==> key == key0 || NamedBelow(paths, raw, roots[1..], key)
      {
        assert Names(paths, raw, roots[0], key0) && roots[0] in roots;
      }
    }
  }

  // ---- Growth -----------------------------------------------------------

  /** Every file stays at its path; files may be added and contents may change. */
  predicate Grows(small: map<string, File>, big: map<string, File>) {
    forall key | key in small :: key in big && big[key].logicalPath == small[key].logicalPath
  }

  /** Nothing but new files. */
  predicate Extends(small: map<string, File>, big: map<string, File>) {
    forall key | key in small :: key in big && big[key] == small[key]
  }

  lemma {:induction false} ResolveOneGrows(paths: Paths, setting: Setting, small: map<string, File>, big: map<string,
                                           File>, source: Source, index: nat, parent: Option<string>)
    requires Grows(small, big)
    requires ResolveOne(paths, setting, small, source, index, parent).Some?
    requires ResolveOne(paths, setting, big, source, index, parent).Some?
    ensures ResolveOne(paths, setting, small, source, index, parent).value.logicalPath ==
            ResolveOne(paths, setting, big, source, index, parent).value.logicalPath
    ensures Extends(small, big) ==>
              ResolveOne(paths, setting, small, source, index, parent) ==
                  ResolveOne(paths, setting, big, source, index, parent)
  {
    var raw := paths.normal(source.rawPath);
    var roots := RootsTried(paths, setting, raw, index, parent);
    CandidatesAre(paths, small, raw, roots, {});
    CandidatesAre(paths, big, raw, roots, {});
    var key := Element(Candidates(paths, small, raw, roots, {}).value);
    assert key in Candidates(paths, small, raw, roots, {}).value;
    assert key in Candidates(paths, big, raw, roots, {}).value;
  }

  lemma {:induction false} ResolveSourcesGrow(paths: Paths, setting: Setting, small: map<string, File>,
                                              big: map<string, File>, sources: seq<Source>, n: nat)
    requires n <= |sources| && Grows(small, big)
    requires ResolveSources(paths, setting, small, sources, n).Some?
    requires ResolveSources(paths, setting, big, sources, n).Some?
    ensures forall i | 0 <= i < n ::
              ResolveSources(paths, setting, small, sources, n).value[i].logicalPath ==
              ResolveSources(paths, setting, big, sources, n).value[i].logicalPath
    ensures Extends(small, big) ==>
              ResolveSources(paths, setting, small, sources, n) == ResolveSources(paths, setting, big, sources, n)
  {
    hide ResolveOne;
    if n > 0 {
      ResolveSourcesGrow(paths, setting, small, big, sources, n - 1);
      var before := ResolveSources(paths, setting, small, sources, n - 1).value;
      ResolveOneGrows(paths, setting, small, big, sources[n - 1], n - 1, ParentPath(before, sources[n - 1].parent));
    }
  }

  /** A trace that resolves before and after files are added resolves to the same paths. */
  lemma {:induction false} ResolutionSurvivesGrowth(paths: Paths, trace: Trace, invocation: Invocation,
                                                    small: Authority, big: Authority)
    requires small.roots == big.roots && Grows(small.files, big.files)
    requires Resolve(paths, trace, invocation, small).Some? && Resolve(paths, trace, invocation, big).Some?
    ensures forall i | 0 <= i < |trace.sources| ::
              Resolve(paths, trace, invocation, small).value[i].logicalPath ==
              Resolve(paths, trace, invocation, big).value[i].logicalPath
  {
    hide ResolveSources, ForcedIsRead;
    var setting := SettingOf(paths, trace.workingDirectory, invocation, small).value;
    ResolveSourcesGrow(paths, setting, small.files, big.files, trace.sources, |trace.sources|);
  }

  /** A new header either changes nothing or makes the trace unresolvable. */
  lemma {:induction false} NewHeaderChangesNothingOrMisses(paths: Paths, trace: Trace, invocation: Invocation,
                                                           small: Authority, big: Authority)
    requires small.roots == big.roots && Extends(small.files, big.files)
    requires Resolve(paths, trace, invocation, small).Some?
    ensures Resolve(paths, trace, invocation, big) in {None, Resolve(paths, trace, invocation, small)}
  {
    hide ResolveSources, ForcedIsRead;
    if Resolve(paths, trace, invocation, big).Some? {
      var setting := SettingOf(paths, trace.workingDirectory, invocation, small).value;
      ResolveSourcesGrow(paths, setting, small.files, big.files, trace.sources, |trace.sources|);
    }
  }

  // ---- Walks ------------------------------------------------------------

  datatype Action = Include(raw: string) | Return | Finish

  datatype Event = Entered(raw: string, file: File) | Left

  /** A deterministic compiler front end and the order in which it tries roots. */
  datatype Walker = Walker(next: seq<Event> -> Action, order: seq<string> -> seq<string>)

  /** It tries the resolver's roots, all of them and no others. */
  ghost predicate TriesTheRoots(walker: Walker) {
    forall roots, root :: root in walker.order(roots) <==> root in roots
  }

  function FilesOf(history: seq<Event>): seq<File> {
    if history == [] then []
    else
      var last := history[|history| - 1];
      FilesOf(history[..|history| - 1]) + if last.Entered? then [last.file] else []
  }

  function StackOf(history: seq<Event>): (stack: seq<nat>)
    ensures forall i | 0 <= i < |stack| :: stack[i] < |FilesOf(history)|
  {
    if history == [] then []
    else
      var before := history[..|history| - 1];
      if history[|history| - 1].Entered? then StackOf(before) + [|FilesOf(before)|]
      else if StackOf(before) == [] then []
      else StackOf(before)[..|StackOf(before)| - 1]
  }

  function ParentOf(history: seq<Event>): (parent: Option<nat>)
    ensures parent.Some? ==> parent.value < |FilesOf(history)|
  {
    var stack := StackOf(history);
    if stack == [] then None else Some(stack[|stack| - 1])
  }

  /** The trace a walk leaves. */
  function SourcesOf(history: seq<Event>): (sources: seq<Source>)
    ensures |sources| == |FilesOf(history)|
  {
    if history == [] then []
    else
      var before, last := history[..|history| - 1], history[|history| - 1];
      SourcesOf(before) + if last.Entered? then [Source(last.raw, ParentOf(before))] else []
  }

  /** The first file that exists when the roots are tried in order. */
  function FirstFile(paths: Paths, files: map<string, File>, raw: string, roots: seq<string>): Option<File> {
    if roots == [] then None
    else
      var logical := paths.absolute(raw, Some(roots[0]));
      if logical.Some? && paths.fold(logical.value) in files then Some(files[paths.fold(logical.value)])
      else FirstFile(paths, files, raw, roots[1..])
  }

  /** The file a walk finds when it includes `raw` after `history`. */
  function Find(paths: Paths, walker: Walker, setting: Setting, files: map<string, File>, history: seq<Event>,
                raw: string): Option<File> {
    var name := paths.normal(raw);
    var read := FilesOf(history);
    var parent := ParentOf(history);
    var parentPath := if parent.Some? then Some(read[parent.value].logicalPath) else None;
    FirstFile(paths, files, name, walker.order(RootsTried(paths, setting, name, |read|, parentPath)))
  }

  /** The history is what the walker does on these files, step by step. */
  predicate IsWalk(paths: Paths, walker: Walker, setting: Setting, files: map<string, File>, history: seq<Event>) {
    history == [] ||
    var before, last := history[..|history| - 1], history[|history| - 1];
    && IsWalk(paths, walker, setting, files, before)
    && match walker.next(before)
       case Include(raw) => last.Entered? && last.raw == raw
           && Find(paths, walker, setting, files, before, raw) == Some(last.file)
       case Return => last.Left? && StackOf(before) != []
       case Finish => false
  }

  predicate IsCompleteWalk(paths: Paths, walker: Walker, setting: Setting, files: map<string, File>,
                           history: seq<Event>) {
    IsWalk(paths, walker, setting, files, history) && walker.next(history) == Finish
  }

  /** A walk is determined by the files. */
  lemma {:induction false} WalksAgree(paths: Paths, walker: Walker, setting: Setting, files: map<string, File>,
                                      history: seq<Event>, other: seq<Event>)
    requires IsWalk(paths, walker, setting, files, history) && IsWalk(paths, walker, setting, files, other)
    requires |history| == |other|
    ensures history == other
  {
    hide Find;
    if history != [] {
      var n := |history| - 1;
      WalksAgree(paths, walker, setting, files, history[..n], other[..n]);
      assert history == history[..n] + [history[n]] && other == other[..n] + [other[n]];
    }
  }

  lemma {:induction false} WalkPrefix(paths: Paths, walker: Walker, setting: Setting, files: map<string, File>,
                                      history: seq<Event>, n: nat)
    requires IsWalk(paths, walker, setting, files, history) && n < |history|
    ensures IsWalk(paths, walker, setting, files, history[..n])
    ensures walker.next(history[..n]) != Finish
  {
    if n < |history| - 1 {
      assert history[..|history| - 1][..n] == history[..n];
      WalkPrefix(paths, walker, setting, files, history[..|history| - 1], n);
    }
  }

  lemma {:induction false} CompleteWalkIsUnique(paths: Paths, walker: Walker, setting: Setting, files: map<string,
                                                File>, history: seq<Event>, other: seq<Event>)
    requires IsCompleteWalk(paths, walker, setting, files, history)
    requires IsCompleteWalk(paths, walker, setting, files, other)
    ensures history == other
  {
    if |history| < |other| {
      WalkPrefix(paths, walker, setting, files, other, |history|);
      WalksAgree(paths, walker, setting, files, history, other[..|history|]);
    } else if |other| < |history| {
      WalkPrefix(paths, walker, setting, files, history, |other|);
      WalksAgree(paths, walker, setting, files, history[..|other|], other);
    } else {
      WalksAgree(paths, walker, setting, files, history, other);
    }
  }

  // ---- Transfer of a walk to other files ----------------------------------

  predicate SameUpToCase(paths: Paths, left: Option<string>, right: Option<string>) {
    left.Some? == right.Some? && (left.Some? ==> paths.fold(left.value) == paths.fold(right.value))
  }

  /** Joining below two spellings of one root gives two spellings of one path. */
  ghost predicate CaseBlind(paths: Paths) {
    forall raw, root, other | paths.fold(root) == paths.fold(other) ::
      SameUpToCase(paths, paths.absolute(raw, Some(root)), paths.absolute(raw, Some(other)))
  }

  predicate SameRoots(paths: Paths, roots: seq<string>, others: seq<string>) {
    |roots| == |others| && forall i | 0 <= i < |roots| :: paths.fold(roots[i]) == paths.fold(others[i])
  }

  /** Two spellings of one setting. */
  predicate SameSetting(paths: Paths, setting: Setting, other: Setting) {
    && paths.fold(setting.workingDirectory) == paths.fold(other.workingDirectory)
    && setting.source == other.source
    && SameRoots(paths, setting.searchRoots, other.searchRoots)
  }

  lemma TriedRootsSame(paths: Paths, setting: Setting, other: Setting, raw: string, index: nat, parent: Option<string>)
    requires SameSetting(paths, setting, other)
    ensures SameRoots(paths, RootsTried(paths, setting, raw, index, parent),
                      RootsTried(paths, other, raw, index, parent))
  {
  }

  /** Where exactly one file is named, the first file found in any order is that file. */
  lemma {:induction false} FirstFileIs(paths: Paths, files: map<string, File>, raw: string, roots: seq<string>,
                                       key: string)
    requires key in files && NamedBelow(paths, raw, roots, key)
    requires forall root, k | root in roots && k in files && Names(paths, raw, root, k) :: k == key
    ensures FirstFile(paths, files, raw, roots) == Some(files[key])
  {
    var logical := paths.absolute(raw, Some(roots[0]));
    if logical.Some? && paths.fold(logical.value) in files {
      assert Names(paths, raw, roots[0], paths.fold(logical.value));
    } else {
      var root :| root in roots && Names(paths, raw, root, key);
      assert roots == [roots[0]] + roots[1..];
      assert root in roots[1..];
      FirstFileIs(paths, files, raw, roots[1..], key);
    }
  }

  /** What the resolver resolves uniquely, every walker finds. */
  lemma {:induction false} FindsTheResolved(paths: Paths, walker: Walker, setting: Setting, other: Setting,
                                            files: map<string, File>, source: Source, index: nat,
                                            parent: Option<string>)
    requires CaseBlind(paths) && TriesTheRoots(walker) && SameSetting(paths, setting, other)
    requires ResolveOne(paths, setting, files, source, index, parent).Some?
    ensures
      var raw := paths.normal(source.rawPath);
      FirstFile(paths, files, raw, walker.order(RootsTried(paths, other, raw, index, parent))) ==
      ResolveOne(paths, setting, files, source, index, parent)
  {
    hide RootsTried, SameSetting;
    var raw := paths.normal(source.rawPath);
    var roots, tried := RootsTried(paths, setting, raw, index, parent), RootsTried(paths, other, raw, index, parent);
    TriedRootsSame(paths, setting, other, raw, index, parent);
    CandidatesAre(paths, files, raw, roots, {});
    var found := Candidates(paths, files, raw, roots, {}).value;
    var key := Element(found);
    assert key in found;
    var root :| root in roots && Names(paths, raw, root, key);
    var i :| 0 <= i < |roots| && roots[i] == root;
    assert tried[i] in walker.order(tried) && Names(paths, raw, tried[i], key);
    forall r, k | r in walker.order(tried) && k in files && Names(paths, raw, r, k) ensures k == key {
      var j :| 0 <= j < |tried| && tried[j] == r;
      assert roots[j] in roots && Names(paths, raw, roots[j], k);
      assert k in found;
    }
    FirstFileIs(paths, files, raw, walker.order(tried), key);
  }

  lemma {:induction false} ResolveSourcesOfPrefix(paths: Paths, setting: Setting, files: map<string, File>,
                                                  sources: seq<Source>, others: seq<Source>, n: nat)
    requires n <= |sources| && n <= |others| && sources[..n] == others[..n]
    ensures ResolveSources(paths, setting, files, sources, n) == ResolveSources(paths, setting, files, others, n)
  {
    hide ResolveOne;
    if n > 0 {
      assert sources[..n - 1] == sources[..n][..n - 1] == others[..n - 1];
      ResolveSourcesOfPrefix(paths, setting, files, sources, others, n - 1);
      assert sources[n - 1] == sources[..n][n - 1] == others[n - 1];
    }
  }

  /** The reads list exactly the sources and files of a walk. */
  predicate Lists(listed: seq<Resolved>, history: seq<Event>) {
    && |listed| == |FilesOf(history)|
    && forall i | 0 <= i < |listed| :: listed[i] == Read(SourcesOf(history)[i], FilesOf(history)[i])
  }

  /** The last include of a history, seen by the resolver. */
  lemma {:induction false} LastInclude(paths: Paths, setting: Setting, files: map<string, File>, history: seq<Event>)
    requires history != [] && history[|history| - 1].Entered?
    requires ResolveSources(paths, setting, files, SourcesOf(history), |FilesOf(history)|).Some?
    ensures
      var before, last := history[..|history| - 1], history[|history| - 1];
      var n := |FilesOf(before)|;
      var source := Source(last.raw, ParentOf(before));
      && |FilesOf(history)| == n + 1
      && SourcesOf(history)[n] == source
      && var earlier := ResolveSources(paths, setting, files, SourcesOf(before), n);
      && earlier.Some?
      && var file := ResolveOne(paths, setting, files, source, n, ParentPath(earlier.value, source.parent));
      && file.Some?
      && ResolveSources(paths, setting, files, SourcesOf(history), n + 1).value == earlier.value
           + [Read(source, file.value)]
  {
    hide ResolveOne;
    var before := history[..|history| - 1];
    var n := |FilesOf(before)|;
    assert SourcesOf(history)[..n] == SourcesOf(before)[..n];
    ResolveSourcesOfPrefix(paths, setting, files, SourcesOf(history), SourcesOf(before), n);
  }

  /** A walk and the resolver, looking at the same files, read the same. */
  lemma {:induction false} WalkReadsTheResolved(paths: Paths, walker: Walker, setting: Setting, other: Setting,
                                                files: map<string, File>, history: seq<Event>)
    requires CaseBlind(paths) && TriesTheRoots(walker) && SameSetting(paths, setting, other)
    requires IsWalk(paths, walker, other, files, history)
    requires ResolveSources(paths, setting, files, SourcesOf(history), |FilesOf(history)|).Some?
    ensures Lists(ResolveSources(paths, setting, files, SourcesOf(history), |FilesOf(history)|).value, history)
  {
    hide ResolveOne, FirstFile, ResolveSources;
    if history != [] {
      var before, last := history[..|history| - 1], history[|history| - 1];
      if last.Entered? {
        LastInclude(paths, setting, files, history);
        WalkReadsTheResolved(paths, walker, setting, other, files, before);
        var n := |FilesOf(before)|;
        var earlier := ResolveSources(paths, setting, files, SourcesOf(before), n).value;
        FindsTheResolved(paths, walker, setting, other, files, SourcesOf(history)[n], n,
                         ParentPath(earlier, ParentOf(before)));
      } else {
        assert SourcesOf(history) == SourcesOf(before) && FilesOf(history) == FilesOf(before);
        WalkReadsTheResolved(paths, walker, setting, other, files, before);
      }
    }
  }

  lemma {:induction false} ListsWithoutLast(listed: seq<Resolved>, history: seq<Event>)
    requires history != [] && history[|history| - 1].Entered? && Lists(listed, history)
    ensures
      var before, last := history[..|history| - 1], history[|history| - 1];
      var n := |FilesOf(before)|;
      && |listed| == n + 1
      && Lists(listed[..n], before)
      && listed[n] == Read(Source(last.raw, ParentOf(before)), last.file)
  {
    var before := history[..|history| - 1];
    assert forall i | 0 <= i < |FilesOf(before)| ::
        SourcesOf(history)[i] == SourcesOf(before)[i] && FilesOf(history)[i] == FilesOf(before)[i];
  }

  /** If other files resolve the trace of a walk to the same reads, it is a walk over them too. */
  lemma {:induction false} WalkTransfers(paths: Paths, walker: Walker, compiler: Setting, files: map<string, File>,
                                         setting: Setting, others: map<string, File>, history: seq<Event>)
    requires CaseBlind(paths) && TriesTheRoots(walker) && SameSetting(paths, setting, compiler)
    requires IsWalk(paths, walker, compiler, files, history)
    requires ResolveSources(paths, setting, others, SourcesOf(history), |FilesOf(history)|).Some?
    requires Lists(ResolveSources(paths, setting, others, SourcesOf(history), |FilesOf(history)|).value, history)
    ensures IsWalk(paths, walker, compiler, others, history)
  {
    hide ResolveOne, FirstFile, ResolveSources;
    if history != [] {
      var before, last := history[..|history| - 1], history[|history| - 1];
      if last.Entered? {
        LastInclude(paths, setting, others, history);
        var n := |FilesOf(before)|;
        var earlier := ResolveSources(paths, setting, others, SourcesOf(before), n).value;
        var listed := ResolveSources(paths, setting, others, SourcesOf(history), n + 1).value;
        ListsWithoutLast(listed, history);
        assert listed[..n] == earlier;
        WalkTransfers(paths, walker, compiler, files, setting, others, before);
        FindsTheResolved(paths, walker, setting, compiler, others, SourcesOf(history)[n], n,
                         ParentPath(earlier, ParentOf(before)));
      } else {
        assert SourcesOf(history) == SourcesOf(before) && FilesOf(history) == FilesOf(before);
        WalkTransfers(paths, walker, compiler, files, setting, others, before);
      }
    }
  }

  // ---- The setting of the compiler itself ---------------------------------

  /** The search roots of a command, whatever is sealed. */
  function CompilerRoots(paths: Paths, values: seq<string>, directory: string, kept: seq<string>): Option<seq<string>>
    decreases |values|
  {
    if values == [] then Some(kept)
    else
      var base := if paths.hasDrive(paths.normal(values[0])) then None else Some(directory);
      match paths.absolute(values[0], base)
      case None => None
      case Some(root) =>
        CompilerRoots(paths, values[1..], directory, if Folds(paths, root, kept) then kept else kept + [root])
  }

  /** The setting in which the compiler runs a command. */
  function CompilerSetting(paths: Paths, invocation: Invocation): Option<Setting> {
    var working := paths.absolute(invocation.workingDirectory, None);
    var source := paths.absolute(invocation.source, None);
    if working.None? || source.None? then None
    else
      match CompilerRoots(paths, invocation.includeDirectories + invocation.environmentDirectories, working.value, [])
      case None => None
      case Some(roots) => Some(Setting(working.value, source.value, roots))
  }

  lemma FoldsSame(paths: Paths, root: string, other: string, kept: seq<string>, others: seq<string>)
    requires paths.fold(root) == paths.fold(other) && SameRoots(paths, kept, others)
    ensures Folds(paths, root, kept) <==> Folds(paths, other, others)
  {
  }

  lemma {:induction false} CompilerRootsSame(paths: Paths, values: seq<string>, directory: string,
                                             sealedRoots: seq<string>, kept: seq<string>, other: string,
                                             others: seq<string>)
    requires CaseBlind(paths) && paths.fold(directory) == paths.fold(other) && SameRoots(paths, kept, others)
    requires SearchRoots(paths, values, directory, sealedRoots, kept).Some?
    ensures CompilerRoots(paths, values, other, others).Some?
    ensures SameRoots(paths, SearchRoots(paths, values, directory, sealedRoots, kept).value,
                      CompilerRoots(paths, values, other, others).value)
    decreases |values|
  {
    if values != [] {
      var drive := paths.hasDrive(paths.normal(values[0]));
      var root := paths.absolute(values[0], if drive then None else Some(directory)).value;
      var root' := paths.absolute(values[0], if drive then None else Some(other));
      assert SameUpToCase(paths, Some(root), root');
      FoldsSame(paths, root, root'.value, kept, others);
      CompilerRootsSame(paths, values[1..], directory, sealedRoots, if Folds(paths, root, kept) then kept
                        else kept + [root],
                        other, if Folds(paths, root'.value, others) then others else others + [root'.value]);
    }
  }

  /** The resolver works in the compiler's setting, up to the spelling of the working directory. */
  lemma {:induction false} ResolverSettingIsCompilers(paths: Paths, directory: string, invocation: Invocation,
                                                      authority: Authority)
    requires CaseBlind(paths) && SettingOf(paths, directory, invocation, authority).Some?
    ensures CompilerSetting(paths, invocation).Some?
    ensures SameSetting(paths, SettingOf(paths, directory, invocation, authority).value,
                        CompilerSetting(paths, invocation).value)
  {
    CompilerRootsSame(paths, invocation.includeDirectories + invocation.environmentDirectories,
                      paths.absolute(directory, None).value, authority.roots, [],
                      paths.absolute(invocation.workingDirectory, None).value, []);
  }
}
