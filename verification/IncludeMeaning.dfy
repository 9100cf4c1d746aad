/** What an include resolution says, root by root (src/reprobit/classic_includes.py). */
module IncludeMeaning {
  import opened Options
  import opened Traces
  import opened IncludeResolution
  import opened IncludeWalk

  // ---- Search roots ---------------------------------------------------------

  /** The directory an include option names: relative to the working directory unless it has a drive. */
  function OptionRoot(paths: Paths, value: string, directory: string): Option<string> {
    paths.absolute(value, if paths.hasDrive(paths.normal(value)) then None else Some(directory))
  }

  predicate IsSealed(paths: Paths, path: string, sealedRoots: seq<string>) {
    exists root :: root in sealedRoots && paths.within(path, root)
  }

  /** Every option names a directory below a sealed root. */
  predicate OptionsAreSealed(paths: Paths, values: seq<string>, directory: string, sealedRoots: seq<string>) {
    forall value | value in values ::
      OptionRoot(paths, value, directory).Some?
          && IsSealed(paths, OptionRoot(paths, value, directory).value, sealedRoots)
  }

  /** The roots are named by options, every option is among them up to case, and no two agree up to case. */
  ghost predicate ListsOptions(paths: Paths, values: seq<string>, directory: string, kept: seq<string>,
                               roots: seq<string>) {
    && (forall root | root in roots :: root in kept || NamedByOption(paths, values, directory, root))
    && (forall value | value in values :: Folds(paths, OptionRootOr(paths, value, directory), roots))
    && (forall root | root in kept :: root in roots)
    && forall i, j | 0 <= i < j < |roots| :: paths.fold(roots[i]) != paths.fold(roots[j])
  }

  predicate NamedByOption(paths: Paths, values: seq<string>, directory: string, root: string) {
    exists value :: value in values && OptionRoot(paths, value, directory) == Some(root)
  }

  function OptionRootOr(paths: Paths, value: string, directory: string): string {
    var root := OptionRoot(paths, value, directory);
    if root.Some? then root.value else ""
  }

  lemma {:induction false} SealedIsWithin(paths: Paths, path: string, sealedRoots: seq<string>)
    ensures WithinAny(paths, path, sealedRoots) <==> IsSealed(paths, path, sealedRoots)
  {
    if IsSealed(paths, path, sealedRoots) {
      var root :| root in sealedRoots && paths.within(path, root);
      var i :| 0 <= i < |sealedRoots| && sealedRoots[i] == root;
    }
  }

  lemma FoldsAlready(paths: Paths, root: string, roots: seq<string>)
    requires root in roots
    ensures Folds(paths, root, roots)
  {
  }

  /** The search roots are the directories of the options, without repeats, when all of them are sealed. */
  lemma {:induction false} SearchRootsAre(paths: Paths, values: seq<string>, directory: string,
                                          sealedRoots: seq<string>, kept: seq<string>)
    requires forall i, j | 0 <= i < j < |kept| :: paths.fold(kept[i]) != paths.fold(kept[j])
    ensures SearchRoots(paths, values, directory, sealedRoots, kept).Some? <==>
            OptionsAreSealed(paths, values, directory, sealedRoots)
    ensures SearchRoots(paths, values, directory, sealedRoots, kept).Some? ==>
              ListsOptions(paths, values, directory, kept,
                           SearchRoots(paths, values, directory, sealedRoots, kept).value)
    decreases |values|
  {
    hide WithinAny, IsSealed;
    if values != [] {
      var root := OptionRoot(paths, values[0], directory);
      assert values == [values[0]] + values[1..];
      if root.Some? {
        SealedIsWithin(paths, root.value, sealedRoots);
        var more := if Folds(paths, root.value, kept) then kept else kept + [root.value];
        SearchRootsAre(paths, values[1..], directory, sealedRoots, more);
        var roots := SearchRoots(paths, values[1..], directory, sealedRoots, more);
        if IsSealed(paths, root.value, sealedRoots) && roots.Some? {
          OneOptionMore(paths, values, directory, kept, more, roots.value);
        }
      }
    }
  }

  lemma {:induction false} OneOptionMore(paths: Paths, values: seq<string>, directory: string, kept: seq<string>,
                                         more: seq<string>, roots: seq<string>)
    requires values != [] && OptionRoot(paths, values[0], directory).Some?
    requires
      var root := OptionRoot(paths, values[0], directory).value;
      more == if Folds(paths, root, kept) then kept else kept + [root]
    requires ListsOptions(paths, values[1..], directory, more, roots)
    ensures ListsOptions(paths, values, directory, kept, roots)
  {
    var root := OptionRoot(paths, values[0], directory).value;
    assert values == [values[0]] + values[1..];
    forall other | other in roots ensures other in kept || NamedByOption(paths, values, directory, other) {
      if other !in more {
        var value :| value in values[1..] && OptionRoot(paths, value, directory) == Some(other);
        assert value in values;
      } else if other !in kept {
        assert values[0] in values;
      }
    }
    assert Folds(paths, root, roots) by {
      if Folds(paths, root, kept) {
        var i :| 0 <= i < |kept| && paths.fold(kept[i]) == paths.fold(root);
        assert kept[i] in roots;
        var j :| 0 <= j < |roots| && roots[j] == kept[i];
      } else {
        assert root in more;
        FoldsAlready(paths, root, roots);
      }
    }
  }

  // ---- One name ---------------------------------------------------------------

  /** The directories a name is looked up in; a rooted name only takes the drive of the working directory. */
  predicate IsTried(paths: Paths, setting: Setting, raw: string, index: nat, parent: Option<string>, root: string) {
    if paths.hasDrive(raw) || paths.startsAtRoot(raw) then root == setting.workingDirectory
    else
      || root == setting.workingDirectory || root in setting.searchRoots
      || (index == 0 && root == paths.directory(setting.source))
      || (parent.Some? && root == paths.directory(parent.value))
  }

  lemma TriedAreRoots(paths: Paths, setting: Setting, raw: string, index: nat, parent: Option<string>, root: string)
    ensures root in RootsTried(paths, setting, raw, index, parent) <==>
              IsTried(paths, setting, raw, index, parent, root)
  {
  }

  /** A name is a path below every directory tried, some directory holds this sealed file, and no other is found. */
  ghost predicate NamesOnly(paths: Paths, files: map<string, File>, raw: string, tried: string -> bool, key: string) {
    && key in files
    && (forall root | tried(root) :: paths.absolute(raw, Some(root)).Some?)
    && (exists root :: tried(root) && Names(paths, raw, root, key))
    && forall root, other | tried(root) && other in files && Names(paths, raw, root, other) :: other == key
  }

  lemma {:induction false} CandidatesFail(paths: Paths, files: map<string, File>, raw: string, roots: seq<string>,
                                          found: set<string>)
    ensures Candidates(paths, files, raw, roots, found).Some? <==>
            forall root | root in roots :: paths.absolute(raw, Some(root)).Some?
    decreases |roots|
  {
    if roots != [] {
      assert roots == [roots[0]] + roots[1..];
      if paths.absolute(raw, Some(roots[0])).Some? {
        var key := paths.fold(paths.absolute(raw, Some(roots[0])).value);
        CandidatesFail(paths, files, raw, roots[1..], if key in files then found + {key} else found);
      }
    }
  }

  /** One candidate is found exactly when the name has only one meaning. */
  lemma {:induction false} OneCandidate(paths: Paths, files: map<string, File>, raw: string, roots: seq<string>,
                                        tried: string -> bool, key: string)
    requires forall root :: root in roots <==> tried(root)
    ensures Candidates(paths, files, raw, roots, {}) == Some({key}) <==> NamesOnly(paths, files, raw, tried, key)
  {
    hide Names;
    CandidatesFail(paths, files, raw, roots, {});
    var found := Candidates(paths, files, raw, roots, {});
    if found.Some? {
      CandidatesAre(paths, files, raw, roots, {});
      if found.value == {key} {
        assert key in found.value;
        forall root, other | tried(root) && other in files && Names(paths, raw, root, other) ensures other == key {
          assert root in roots;
          assert other in found.value;
        }
      }
      if NamesOnly(paths, files, raw, tried, key) {
        forall other ensures other in found.value <==> other == key {
          if other in found.value {
            assert NamedBelow(paths, raw, roots, other);
          }
        }
      }
    }
  }

  /** A source resolves to a file exactly when its name has only that meaning. */
  lemma {:induction false} ResolvesToOnly(paths: Paths, setting: Setting, files: map<string, File>, source: Source,
                                          index: nat, parent: Option<string>, file: File)
    ensures ResolveOne(paths, setting, files, source, index, parent) == Some(file) <==>
            exists key ::
                key in files && files[key] == file && Means(paths, setting, files, source.rawPath, index, parent, key)
  {
    hide Candidates, NamesOnly;
    var raw := paths.normal(source.rawPath);
    var roots := RootsTried(paths, setting, raw, index, parent);
    var tried := (root: string) => IsTried(paths, setting, raw, index, parent, root);
    forall root ensures root in roots <==> tried(root) {
      TriedAreRoots(paths, setting, raw, index, parent, root);
    }
    forall key ensures Candidates(paths, files, raw, roots, {}) == Some({key}) <==>
                       Means(paths, setting, files, source.rawPath, index, parent, key) {
      OneCandidate(paths, files, raw, roots, tried, key);
    }
    var found := Candidates(paths, files, raw, roots, {});
    if found.Some? && |found.value| == 1 {
      assert found == Some({Element(found.value)});
    }
  }

  /** The source at this position of a trace names this sealed file and no other. */
  ghost predicate Means(paths: Paths, setting: Setting, files: map<string, File>, rawPath: string, index: nat,
                        parent: Option<string>, key: string)
  {
    var raw := paths.normal(rawPath);
    NamesOnly(paths, files, raw, (root: string) => IsTried(paths, setting, raw, index, parent, root), key)
  }

  /** A relative name that only one directory tried can supply resolves to the file there. */
  lemma {:induction false} OnlyPlaceIsFound(paths: Paths, setting: Setting, files: map<string, File>, source: Source,
                                            index: nat, parent: Option<string>, place: string, logical: string)
    requires
      var raw := paths.normal(source.rawPath);
      && !paths.hasDrive(raw) && !paths.startsAtRoot(raw)
      && (|| place == setting.workingDirectory || place in setting.searchRoots
          || (index == 0 && place == paths.directory(setting.source))
          || (parent.Some? && place == paths.directory(parent.value)))
      && paths.absolute(raw, Some(place)) == Some(logical) && paths.fold(logical) in files
      && forall root | IsTried(paths, setting, raw, index, parent, root) ::
           var other := paths.absolute(raw, Some(root));
           other.Some? && (paths.fold(other.value) in files ==> paths.fold(other.value) == paths.fold(logical))
    ensures ResolveOne(paths, setting, files, source, index, parent) == Some(files[paths.fold(logical)])
  {
    var raw, key := paths.normal(source.rawPath), paths.fold(logical);
    assert IsTried(paths, setting, raw, index, parent, place) && Names(paths, raw, place, key);
    assert Means(paths, setting, files, source.rawPath, index, parent, key);
    ResolvesToOnly(paths, setting, files, source, index, parent, files[key]);
  }

  // ---- The whole trace ----------------------------------------------------------

  /** The i-th read is the one file its source names, below its parent's read. */
  ghost predicate IsRead(paths: Paths, setting: Setting, files: map<string, File>, sources: seq<Source>,
                         resolved: seq<Resolved>, i: nat)
    requires i < |sources| && i < |resolved|
  {
    && (sources[i].parent.Some? ==> sources[i].parent.value < i)
    && var parent := if sources[i].parent.None? then None else Some(resolved[sources[i].parent.value].logicalPath);
    && resolved[i].rawPath == sources[i].rawPath && resolved[i].parent == sources[i].parent
    && exists key ::
         && key in files && Means(paths, setting, files, sources[i].rawPath, i, parent, key)
         && files[key] == File(resolved[i].logicalPath, resolved[i].digest, resolved[i].size, resolved[i].origin)
  }

  lemma {:induction false} LastIsRead(paths: Paths, setting: Setting, files: map<string, File>, sources: seq<Source>,
                                      resolved: seq<Resolved>, n: nat)
    requires n < |sources| && |resolved| == n + 1
    requires ResolveSources(paths, setting, files, sources, n) == Some(resolved[..n])
    ensures ResolveSources(paths, setting, files, sources, n + 1) == Some(resolved) <==>
            IsRead(paths, setting, files, sources, resolved, n)
  {
    hide ResolveOne, Means;
    var source := sources[n];
    if source.parent.Some? ==> source.parent.value < n {
      var parent := ParentPath(resolved[..n], source.parent);
      var last := resolved[n];
      var file := File(last.logicalPath, last.digest, last.size, last.origin);
      ResolvesToOnly(paths, setting, files, source, n, parent, file);
      assert resolved == resolved[..n] + [last];
    }
  }

  /** The sources resolve to these reads exactly when each read is the one its source names. */
  lemma {:induction false} SourcesResolveTo(paths: Paths, setting: Setting, files: map<string, File>,
                                            sources: seq<Source>, resolved: seq<Resolved>)
    requires |resolved| <= |sources|
    ensures ResolveSources(paths, setting, files, sources, |resolved|) == Some(resolved) <==>
            forall i | 0 <= i < |resolved| :: IsRead(paths, setting, files, sources, resolved, i)
  {
    hide ResolveOne, Means, IsRead;
    if resolved != [] {
      var n := |resolved| - 1;
      SourcesResolveTo(paths, setting, files, sources, resolved[..n]);
      forall i | 0 <= i < n
        ensures IsRead(paths, setting, files, sources, resolved[..n], i) <==>
                IsRead(paths, setting, files, sources, resolved, i) {
        ReadOfPrefix(paths, setting, files, sources, resolved, n, i);
      }
      if ResolveSources(paths, setting, files, sources, n) == Some(resolved[..n]) {
        LastIsRead(paths, setting, files, sources, resolved, n);
      } else {
        ResolvedPrefix(paths, setting, files, sources, resolved);
      }
    }
  }

  lemma {:induction false} ReadOfPrefix(paths: Paths, setting: Setting, files: map<string, File>, sources: seq<Source>,
                                        resolved: seq<Resolved>, n: nat, i: nat)
    requires i < n <= |resolved| && i < |sources|
    ensures IsRead(paths, setting, files, sources, resolved[..n], i) <==>
            IsRead(paths, setting, files, sources, resolved, i)
  {
    hide Means;
  }

  lemma {:induction false} ResolvedPrefix(paths: Paths, setting: Setting, files: map<string, File>,
                                          sources: seq<Source>, resolved: seq<Resolved>)
    requires 0 < |resolved| <= |sources|
    ensures ResolveSources(paths, setting, files, sources, |resolved|) == Some(resolved) ==>
              ResolveSources(paths, setting, files, sources, |resolved| - 1) == Some(resolved[..|resolved| - 1])
  {
    hide ResolveOne;
  }

  /** A forced include names one sealed file below the working directory and the search roots, and it was read. */
  ghost predicate IsForced(paths: Paths, setting: Setting, files: map<string, File>, force: string,
                           resolved: seq<Resolved>)
  {
    exists key ::
      && MeansForced(paths, setting, files, paths.normal(force), key)
      && exists i :: 0 <= i < |resolved| && paths.fold(resolved[i].logicalPath) == key
  }

  ghost predicate MeansForced(paths: Paths, setting: Setting, files: map<string, File>, raw: string, key: string) {
    NamesOnly(paths, files, raw,
              (root: string) =>
                if paths.hasDrive(raw) || paths.startsAtRoot(raw) then root == setting.workingDirectory
                else root == setting.workingDirectory || root in setting.searchRoots, key)
  }

  lemma {:induction false} ForcedMeans(paths: Paths, setting: Setting, files: map<string, File>, force: string,
                                       resolved: seq<Resolved>)
    ensures ForcedIsRead(paths, setting, files, force, ResolvedKeys(paths, resolved)) <==>
            IsForced(paths, setting, files, force, resolved)
  {
    hide Candidates, NamesOnly;
    var raw := paths.normal(force);
    var tried := (root: string) =>
      if paths.hasDrive(raw) || paths.startsAtRoot(raw) then root == setting.workingDirectory
      else root == setting.workingDirectory || root in setting.searchRoots;
    var roots := if IsRooted(paths, raw) then [setting.workingDirectory]
        else [setting.workingDirectory] + setting.searchRoots;
    forall key ensures Candidates(paths, files, raw, roots, {}) == Some({key}) <==>
                       MeansForced(paths, setting, files, raw, key) {
      OneCandidate(paths, files, raw, roots, tried, key);
    }
    var found := Candidates(paths, files, raw, roots, {});
    if found.Some? && |found.value| == 1 {
      assert found == Some({Element(found.value)});
    }
  }

  /** A trace resolves to these reads exactly when each is what its source names and every forced include is read. */
  lemma {:induction false} ResolvesExactly(paths: Paths, trace: Trace, invocation: Invocation, authority: Authority,
                                           resolved: seq<Resolved>)
    ensures Resolve(paths, trace, invocation, authority) == Some(resolved) <==>
            && |resolved| == |trace.sources| > 0
            && var setting := SettingOf(paths, trace.workingDirectory, invocation, authority);
            && setting.Some?
            && (forall i | 0 <= i < |resolved| ::
                  IsRead(paths, setting.value, authority.files, trace.sources, resolved, i))
            && paths.fold(resolved[0].logicalPath) == paths.fold(setting.value.source)
            && forall i | 0 <= i < |invocation.forceIncludes| ::
                 IsForced(paths, setting.value, authority.files, invocation.forceIncludes[i], resolved)
  {
    hide ResolveSources, IsRead, IsForced, ForcedIsRead, SettingOf;
    var setting := SettingOf(paths, trace.workingDirectory, invocation, authority);
    if setting.Some? && |resolved| == |trace.sources| {
      SourcesResolveTo(paths, setting.value, authority.files, trace.sources, resolved);
      forall i | 0 <= i < |invocation.forceIncludes|
        ensures ForcedIsRead(paths, setting.value, authority.files, invocation.forceIncludes[i],
                             ResolvedKeys(paths, resolved))
                <==> IsForced(paths, setting.value, authority.files, invocation.forceIncludes[i], resolved) {
        ForcedMeans(paths, setting.value, authority.files, invocation.forceIncludes[i], resolved);
      }
    }
  }

  /** The setting: absolute paths, the invocation's own directory up to case, a sealed source, the options' roots. */
  lemma {:induction false} SettingIs(paths: Paths, directory: string, invocation: Invocation, authority: Authority)
    ensures
      var values := invocation.includeDirectories + invocation.environmentDirectories;
      var working, source := paths.absolute(directory, None), paths.absolute(invocation.source, None);
      var expected, setting := paths.absolute(invocation.workingDirectory, None),
          SettingOf(paths, directory, invocation, authority);
      && (setting.Some? <==>
          && working.Some? && expected.Some? && source.Some? && paths.fold(working.value) == paths.fold(expected.value)
          && paths.fold(source.value) in authority.files
          && OptionsAreSealed(paths, values, working.value, authority.roots))
      && (setting.Some? ==>
          && setting.value.workingDirectory == working.value && setting.value.source == source.value
          && ListsOptions(paths, values, working.value, [], setting.value.searchRoots))
  {
    hide SearchRoots, OptionsAreSealed, ListsOptions;
    var working := paths.absolute(directory, None);
    if working.Some? {
      SearchRootsAre(paths, invocation.includeDirectories + invocation.environmentDirectories, working.value,
                     authority.roots, []);
    }
  }
}
