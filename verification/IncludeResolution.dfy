/**
 Resolution of an include trace against a sealed set of files: every source must match
 exactly one file over all search roots.

 DOS path handling is a parameter: the theorems hold for every case folding, every
 normalisation and every way of joining paths.
 */
module IncludeResolution {
  import opened Options
  import opened Traces

  /** The path functions the resolver calls; `None` stands for a refused path. */
  datatype Paths = Paths(
    fold: string -> string,
    normal: string -> string,
    directory: string -> string,
    hasDrive: string -> bool,
    startsAtRoot: string -> bool,
    within: (string, string) -> bool,
    absolute: (string, Option<string>) -> Option<string>)

  datatype Origin = ProjectSource | ToolchainTree | DonorArena

  datatype File = File(logicalPath: string, digest: string, size: nat, origin: Origin)

  /** The sealed files by folded logical path, with the roots they live under. */
  datatype Authority = Authority(roots: seq<string>, files: map<string, File>)

  datatype Resolved = Resolved(
    rawPath: string, logicalPath: string, digest: string, size: nat, origin: Origin, parent: Option<nat>)

  /** One compiler command, as far as it decides which files are read. */
  datatype Invocation = Invocation(
    workingDirectory: string,
    source: string,
    includeDirectories: seq<string>,
    environmentDirectories: seq<string>,
    forceIncludes: seq<string>)

  /** An invocation with its paths made absolute and its search roots made canonical. */
  datatype Setting = Setting(workingDirectory: string, source: string, searchRoots: seq<string>)

  // ---- Search roots -----------------------------------------------------

  predicate WithinAny(paths: Paths, path: string, roots: seq<string>) {
    exists i | 0 <= i < |roots| :: paths.within(path, roots[i])
  }

  predicate Folds(paths: Paths, root: string, roots: seq<string>) {
    exists i | 0 <= i < |roots| :: paths.fold(roots[i]) == paths.fold(root)
  }

  /** `_canonical_search_roots`, given the roots kept so far (src/reprobit/classic_includes.py:343-356). */
  function SearchRoots(paths: Paths, values: seq<string>, directory: string, sealedRoots: seq<string>,
                       kept: seq<string>): Option<seq<string>>
    decreases |values|
  {
    if values == [] then Some(kept)
    else
      var base := if paths.hasDrive(paths.normal(values[0])) then None else Some(directory);
      match paths.absolute(values[0], base)
      case None => None
      case Some(root) =>
        if !WithinAny(paths, root, sealedRoots) then None
        else SearchRoots(paths, values[1..], directory, sealedRoots, if Folds(paths, root, kept) then kept
                         else kept + [root])
  }

  // ---- One source -------------------------------------------------------

  predicate IsRooted(paths: Paths, raw: string) {
    paths.hasDrive(raw) || paths.startsAtRoot(raw)
  }

  /** The folded paths under which `raw` exists below some of the roots, added to those found before. */
  function Candidates(paths: Paths, files: map<string, File>, raw: string, roots: seq<string>,
                      found: set<string>): Option<set<string>>
    decreases |roots|
  {
    if roots == [] then Some(found)
    else
      match paths.absolute(raw, Some(roots[0]))
      case None => None
      case Some(logical) =>
        var key := paths.fold(logical);
        Candidates(paths, files, raw, roots[1..], if key in files then found + {key} else found)
  }

  /** The roots tried for the source at position `index` of a trace. */
  function RootsFor(paths: Paths, setting: Setting, index: nat, parent: Option<string>): seq<string> {
    (if index == 0 then [paths.directory(setting.source)] else [])
    + (if parent.Some? then [paths.directory(parent.value)] else [])
    + [setting.workingDirectory] + setting.searchRoots
  }

  /** A rooted path is looked up once, relative to the drive of the working directory. */
  function RootsTried(paths: Paths, setting: Setting, raw: string, index: nat, parent: Option<string>): seq<string> {
    if IsRooted(paths, raw) then [setting.workingDirectory] else RootsFor(paths, setting, index, parent)
  }

  lemma {:induction false} OneElement(found: set<string>)
    requires |found| == 1
    ensures exists key :: key in found
    ensures forall k, l | k in found && l in found :: k == l
  {
    var key :| key in found;
    assert found == {key} + (found - {key});
    assert |found - {key}| == 0;
  }

  /** The element of a set of one element. */
  function Element(found: set<string>): (key: string)
    requires |found| == 1
    ensures found == {key}
  {
    OneElement(found);
    var key :| key in found;
    key
  }

  /** The one sealed file that a source names, if there is exactly one. */
  function ResolveOne(paths: Paths, setting: Setting, files: map<string, File>, source: Source, index: nat,
                      parent: Option<string>): Option<File> {
    var raw := paths.normal(source.rawPath);
    var found := Candidates(paths, files, raw, RootsTried(paths, setting, raw, index, parent), {});
    if found.None? || |found.value| != 1 then None
    else
      var key := Element(found.value);
      if key in files then Some(files[key]) else None
  }

  // ---- The whole trace --------------------------------------------------

  function ParentPath(resolved: seq<Resolved>, parent: Option<nat>): Option<string>
    requires parent.Some? ==> parent.value < |resolved|
  {
    if parent.Some? then Some(resolved[parent.value].logicalPath) else None
  }

  function Read(source: Source, file: File): Resolved {
    Resolved(source.rawPath, file.logicalPath, file.digest, file.size, file.origin, source.parent)
  }

  /** The first `n` sources, each resolved below the roots its parent adds. */
  function ResolveSources(paths: Paths, setting: Setting, files: map<string, File>, sources: seq<Source>,
                          n: nat): (r: Option<seq<Resolved>>)
    requires n <= |sources|
    ensures r.Some? ==> |r.value| == n
    ensures r.Some? ==> forall i | 0 <= i < n :: Source(r.value[i].rawPath, r.value[i].parent) == sources[i]
  {
    if n == 0 then Some([])
    else
      match ResolveSources(paths, setting, files, sources, n - 1)
      case None => None
      case Some(resolved) =>
        var source := sources[n - 1];
        if source.parent.Some? && source.parent.value >= n - 1 then None
        else
          match ResolveOne(paths, setting, files, source, n - 1, ParentPath(resolved, source.parent))
          case None => None
          case Some(file) => Some(resolved + [Read(source, file)])
  }

  function ResolvedKeys(paths: Paths, resolved: seq<Resolved>): set<string> {
    set i | 0 <= i < |resolved| :: paths.fold(resolved[i].logicalPath)
  }

  /** A forced include must name exactly one sealed file, and the trace must have read it. */
  predicate ForcedIsRead(paths: Paths, setting: Setting, files: map<string, File>, force: string, read: set<string>) {
    var raw := paths.normal(force);
    var roots := if IsRooted(paths, raw) then [setting.workingDirectory]
        else [setting.workingDirectory] + setting.searchRoots;
    var found := Candidates(paths, files, raw, roots, {});
    found.Some? && |found.value| == 1 && found.value <= read
  }

  /** The absolute paths of an invocation, with the working directory as the trace spells it. */
  function SettingOf(paths: Paths, directory: string, invocation: Invocation, authority: Authority): Option<Setting> {
    var working := paths.absolute(directory, None);
    var expected := paths.absolute(invocation.workingDirectory, None);
    var source := paths.absolute(invocation.source, None);
    if working.None? || expected.None? || source.None? then None
    else if paths.fold(working.value) != paths.fold(expected.value)
        || paths.fold(source.value) !in authority.files then None
    else
      match SearchRoots(paths, invocation.includeDirectories + invocation.environmentDirectories, working.value,
                        authority.roots, [])
      case None => None
      case Some(roots) => Some(Setting(working.value, source.value, roots))
  }

  /** What `resolve_msvc_include_trace` accepts and returns (src/reprobit/classic_includes.py:359-445). */
  function Resolve(paths: Paths, trace: Trace, invocation: Invocation, authority: Authority): (r: Option<seq<Resolved>>)
    ensures r.Some? ==> |r.value| == |trace.sources| > 0
  {
    match SettingOf(paths, trace.workingDirectory, invocation, authority)
    case None => None
    case Some(setting) =>
      match ResolveSources(paths, setting, authority.files, trace.sources, |trace.sources|)
      case None => None
      case Some(resolved) =>
        if resolved == [] || paths.fold(resolved[0].logicalPath) != paths.fold(setting.source) then None
        else if forall i | 0 <= i < |invocation.forceIncludes| ::
                  ForcedIsRead(paths, setting, authority.files, invocation.forceIncludes[i],
                               ResolvedKeys(paths, resolved))
        then Some(resolved)
        else None
  }

  // ---- The loops of the resolver -----------------------------------------

  method CollectSearchRoots(paths: Paths, values: seq<string>, directory: string, sealedRoots: seq<string>)
    returns (roots: Option<seq<string>>)
    ensures roots == SearchRoots(paths, values, directory, sealedRoots, [])
  {
    var kept: seq<string> := [];
    for i := 0 to |values|
      invariant SearchRoots(paths, values[i..], directory, sealedRoots, kept) ==
                SearchRoots(paths, values, directory, sealedRoots, [])
    {
      assert values[i..][1..] == values[i + 1..];
      var base := if paths.hasDrive(paths.normal(values[i])) then None else Some(directory);
      var root := paths.absolute(values[i], base);
      if root.None? || !WithinAny(paths, root.value, sealedRoots) { return None; }
      if !Folds(paths, root.value, kept) {
        kept := kept + [root.value];
      }
    }
    roots := Some(kept);
  }

  method CollectCandidates(paths: Paths, files: map<string, File>, raw: string, roots: seq<string>)
    returns (result: Option<set<string>>)
    ensures result == Candidates(paths, files, raw, roots, {})
  {
    var found: set<string> := {};
    for i := 0 to |roots|
      invariant Candidates(paths, files, raw, roots[i..], found) == Candidates(paths, files, raw, roots, {})
    {
      assert roots[i..][1..] == roots[i + 1..];
      var logical := paths.absolute(raw, Some(roots[i]));
      if logical.None? { return None; }
      if paths.fold(logical.value) in files {
        found := found + {paths.fold(logical.value)};
      }
    }
    result := Some(found);
  }

  method ResolveSource(paths: Paths, setting: Setting, files: map<string, File>, source: Source, index: nat,
                       parent: Option<string>)
    returns (result: Option<File>)
    ensures result == ResolveOne(paths, setting, files, source, index, parent)
  {
    var raw := paths.normal(source.rawPath);
    var found := CollectCandidates(paths, files, raw, RootsTried(paths, setting, raw, index, parent));
    if found.None? || |found.value| != 1 { return None; }
    var key := Element(found.value);
    result := if key in files then Some(files[key]) else None;
  }

  method ResolveEach(paths: Paths, setting: Setting, files: map<string, File>, sources: seq<Source>)
    returns (result: Option<seq<Resolved>>)
    ensures result == ResolveSources(paths, setting, files, sources, |sources|)
  {
    hide ResolveOne;
    var resolved: seq<Resolved> := [];
    for i := 0 to |sources|
      invariant ResolveSources(paths, setting, files, sources, i) == Some(resolved)
    {
      var source := sources[i];
      if source.parent.Some? && source.parent.value >= i {
        FailureStays(paths, setting, files, sources, i + 1, |sources|);
        return None;
      }
      var file := ResolveSource(paths, setting, files, source, i, ParentPath(resolved, source.parent));
      if file.None? {
        FailureStays(paths, setting, files, sources, i + 1, |sources|);
        return None;
      }
      resolved := resolved + [Read(source, file.value)];
    }
    result := Some(resolved);
  }

  /** `resolve_msvc_include_trace` (src/reprobit/classic_includes.py:359-445). */
  method ResolveMsvcIncludeTrace(paths: Paths, trace: Trace, invocation: Invocation, authority: Authority)
    returns (result: Option<seq<Resolved>>)
    ensures result == Resolve(paths, trace, invocation, authority)
  {
    hide ResolveSources, SearchRoots, ForcedIsRead;
    var working := paths.absolute(trace.workingDirectory, None);
    var expected := paths.absolute(invocation.workingDirectory, None);
    var source := paths.absolute(invocation.source, None);
    if working.None? || expected.None? || source.None? { return None; }
    if paths.fold(working.value) != paths.fold(expected.value) { return None; }
    if paths.fold(source.value) !in authority.files { return None; }
    var directories := invocation.includeDirectories + invocation.environmentDirectories;
    var roots := CollectSearchRoots(paths, directories, working.value, authority.roots);
    if roots.None? { return None; }
    var setting := Setting(working.value, source.value, roots.value);
    var resolved := ResolveEach(paths, setting, authority.files, trace.sources);
    if resolved.None? || resolved.value == [] { return None; }
    if paths.fold(resolved.value[0].logicalPath) != paths.fold(source.value) { return None; }
    var read := ResolvedKeys(paths, resolved.value);
    for i := 0 to |invocation.forceIncludes|
      invariant forall j | 0 <= j < i ::
                  ForcedIsRead(paths, setting, authority.files, invocation.forceIncludes[j], read)
    {
      if !ForcedIsRead(paths, setting, authority.files, invocation.forceIncludes[i], read) { return None; }
    }
    result := resolved;
  }

  lemma {:induction false} FailureStays(paths: Paths, setting: Setting, files: map<string, File>,
                                        sources: seq<Source>, n: nat, m: nat)
    requires n <= m <= |sources| && ResolveSources(paths, setting, files, sources, n).None?
    ensures ResolveSources(paths, setting, files, sources, m).None?
  {
    hide ResolveOne;
    if n < m { FailureStays(paths, setting, files, sources, n, m - 1); }
  }
}
