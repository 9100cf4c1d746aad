/** The runs of changed operands that are looked at (src/reprobit/classic_link_layout_repair.py). */
module LinkRuns {
  import opened Options
  import opened ChunkOrder
  import opened LinkImages
  import opened LinkLayout
  import opened Sorting

  // ---- Sections ---------------------------------------------------------------------------

  predicate HoldsOperand(section: Section, site: nat) {
    section.rawOffset <= site && site + 4 <= section.rawOffset + section.rawSize
  }

  /** All four bytes of the operand are raw data of the section. */
  ghost predicate HasBytes(section: Section, site: nat) {
    forall at | Covers(site, at) :: section.rawOffset <= at < section.rawOffset + section.rawSize
  }

  lemma {:induction false} HoldsItsBytes(section: Section, site: nat)
    ensures HoldsOperand(section, site) <==> HasBytes(section, site)
  {
    if HasBytes(section, site) {
      assert Covers(site, site) && Covers(site, site + 3);
    }
  }

  /** This section alone holds the operand. */
  ghost predicate OnlyHolder(sections: seq<Section>, site: nat, s: nat) {
    && s < |sections| && HasBytes(sections[s], site)
    && forall t | 0 <= t < |sections| && HasBytes(sections[t], site) :: t == s
  }

  /** Every changed operand lies in exactly one section. */
  ghost predicate EachHeldOnce(sections: seq<Section>, changed: set<nat>) {
    forall site | site in changed :: HeldOnce(sections, site)
  }

  ghost predicate HeldOnce(sections: seq<Section>, site: nat) {
    exists s: nat :: OnlyHolder(sections, site, s)
  }

  /** `_section_for_site`. */
  method SectionForSite(sections: seq<Section>, site: nat) returns (s: Option<nat>)
    ensures forall k: nat :: OnlyHolder(sections, site, k) <==> s == Some(k)
    ensures s.Some? ==> s.value < |sections|
  {
    hide HasBytes, HoldsOperand;
    s := None;
    for i := 0 to |sections|
      invariant s.Some? ==> s.value < i && HasBytes(sections[s.value], site)
      invariant forall j | 0 <= j < i && HasBytes(sections[j], site) :: s == Some(j)
    {
      HoldsItsBytes(sections[i], site);
      if HoldsOperand(sections[i], site) {
        if s.Some? {
          return None;
        }
        s := Some(i);
      }
    }
  }

  // ---- Maximal runs -------------------------------------------------------------------------

  /** A run of listed operands that no listed operand continues. */
  predicate IsMaximalRun(run: seq<nat>, sites: set<nat>) {
    && IsRun(run) && (forall site | site in run :: site in sites)
    && run[|run| - 1] + 4 !in sites && (run[0] >= 4 ==> run[0] - 4 !in sites)
  }

  predicate Spaced(sites: seq<nat>) {
    forall i, j | 0 <= i < j < |sites| :: sites[i] + 4 <= sites[j]
  }

  lemma {:induction false} FlattenMembers(runs: seq<seq<nat>>, site: nat)
    ensures site in Flatten(runs) <==> exists k :: 0 <= k < |runs| && site in runs[k]
  {
    if runs != [] {
      var n := |runs| - 1;
      FlattenMembers(runs[..n], site);
      assert forall k | 0 <= k < n :: runs[..n][k] == runs[k];
    }
  }

  /** Members of an earlier run come before members of a later one. */
  lemma {:induction false} RunsAreSpaced(runs: seq<seq<nat>>, k: nat, m: nat, x: nat, y: nat)
    requires Spaced(Flatten(runs)) && k < m < |runs| && x in runs[k] && y in runs[m]
    ensures x + 4 <= y
  {
    var n := |runs| - 1;
    var earlier, last := Flatten(runs[..n]), runs[n];
    var all := earlier + last;
    assert Spaced(all);
    if m < n {
      assert forall i | 0 <= i < |earlier| :: earlier[i] == all[i];
      RunsAreSpaced(runs[..n], k, m, x, y);
    } else {
      assert runs[..n][k] == runs[k];
      FlattenMembers(runs[..n], x);
      var i :| 0 <= i < |earlier| && earlier[i] == x;
      var j :| 0 <= j < |last| && last[j] == y;
      assert all[i] == x && all[|earlier| + j] == y;
    }
  }

  lemma {:induction false} RunIsMaximal(runs: seq<seq<nat>>, sites: set<nat>, k: nat)
    requires AreRuns(runs) && Spaced(Flatten(runs)) && (forall site :: site in Flatten(runs) <==> site in sites)
    requires k < |runs|
    ensures IsMaximalRun(runs[k], sites)
  {
    hide Spaced, Flatten, IsRun;
    var run := runs[k];
    assert IsRun(run);
    assert run != [] by { RunHasEnds(run); }
    var first, last := run[0], run[|run| - 1];
    forall site | site in run ensures site in sites {
      FlattenMembers(runs, site);
    }
    if last + 4 in sites {
      NothingFollows(runs, k);
    }
    if first >= 4 && first - 4 in sites {
      NothingPrecedes(runs, k);
    }
  }

  lemma RunHasEnds(run: seq<nat>)
    requires IsRun(run)
    ensures run != [] && forall site | site in run :: run[0] <= site <= run[|run| - 1]
  {
  }

  lemma {:induction false} NothingFollows(runs: seq<seq<nat>>, k: nat)
    requires AreRuns(runs) && Spaced(Flatten(runs)) && k < |runs| && runs[k] != []
    ensures runs[k][|runs[k]| - 1] + 4 !in Flatten(runs)
  {
    hide Spaced, Flatten, IsRun;
    var last := runs[k][|runs[k]| - 1];
    var next := last + 4;
    FlattenMembers(runs, next);
    forall m | 0 <= m < |runs| ensures next !in runs[m] {
      RunHasEnds(runs[m]);
      if m < k && next in runs[m] {
        RunsAreSpaced(runs, m, k, next, last);
      } else if m > k && next in runs[m] {
        RunHasEnds(runs[k + 1]);
        RunsAreSpaced(runs, k, k + 1, last, runs[k + 1][0]);
        assert Broken(runs[k], runs[k + 1]);
        if m > k + 1 {
          RunsAreSpaced(runs, k + 1, m, runs[k + 1][0], next);
        }
      }
    }
  }

  lemma {:induction false} NothingPrecedes(runs: seq<seq<nat>>, k: nat)
    requires AreRuns(runs) && Spaced(Flatten(runs)) && k < |runs| && runs[k] != [] && runs[k][0] >= 4
    ensures runs[k][0] - 4 !in Flatten(runs)
  {
    hide Spaced, Flatten, IsRun;
    var first := runs[k][0];
    var prior: nat := first - 4;
    FlattenMembers(runs, prior);
    forall m | 0 <= m < |runs| ensures prior !in runs[m] {
      RunHasEnds(runs[m]);
      if m > k && prior in runs[m] {
        RunsAreSpaced(runs, k, m, first, prior);
      } else if m < k && prior in runs[m] {
        RunHasEnds(runs[k - 1]);
        var last := runs[k - 1][|runs[k - 1]| - 1];
        RunsAreSpaced(runs, k - 1, k, last, first);
        assert Broken(runs[k - 1], runs[k]);
        if m < k - 1 {
          RunsAreSpaced(runs, m, k - 1, prior, last);
        }
      }
    }
  }

  // ---- Runs by section ------------------------------------------------------------------------

  /** The changed operands of one section, when it holds initialized data. */
  ghost function DataSites(sections: seq<Section>, changed: set<nat>, s: nat): set<nat> {
    set site | site in changed && OnlyHolder(sections, site, s) && IsInitializedData(sections[s].characteristics)
  }

  predicate RunBefore(left: Site, right: Site) {
    left.index < right.index
    || (left.index == right.index && left.sites != [] && right.sites != [] && left.sites[0] < right.sites[0])
  }

  ghost predicate IsChangedRun(run: Site, sections: seq<Section>, changed: set<nat>) {
    && run.index < |sections| && run.section == sections[run.index]
    && IsMaximalRun(run.sites, DataSites(sections, changed, run.index))
  }

  /** Every changed operand of initialized data is in a listed run; the runs are maximal and in order. */
  ghost predicate AreChangedRuns(runs: seq<Site>, sections: seq<Section>, changed: set<nat>, count: nat) {
    && (forall k | 0 <= k < |runs| :: IsChangedRun(runs[k], sections, changed) && runs[k].index < count)
    && (forall s: nat, site | s < count && site in DataSites(sections, changed, s) :: Listed(runs, s, site))
    && Ascending(runs, RunBefore)
  }

  predicate Listed(runs: seq<Site>, s: nat, site: nat) {
    exists k :: 0 <= k < |runs| && runs[k].index == s && site in runs[k].sites
  }

  predicate Less(left: nat, right: nat) {
    left < right
  }

  lemma LessIsOrder()
    ensures StrictOrder(Less)
  {
  }

  function SitesOf(bySection: map<nat, seq<nat>>, s: nat): seq<nat> {
    if s in bySection then bySection[s] else []
  }

  /** The group of a section lists its changed operands in order. */
  ghost predicate IsGroup(bySection: map<nat, seq<nat>>, sections: seq<Section>, changed: set<nat>, s: nat) {
    && Spaced(SitesOf(bySection, s))
    && forall site :: site in SitesOf(bySection, s) <==> site in DataSites(sections, changed, s)
  }

  ghost predicate Grouped(bySection: map<nat, seq<nat>>, sections: seq<Section>, sites: seq<nat>) {
    forall s: nat :: IsGroup(bySection, sections, Members(sites), s)
  }

  lemma {:induction false} SpacedAppend(sites: seq<nat>, site: nat)
    requires Spaced(sites) && forall other | other in sites :: other + 4 <= site
    ensures Spaced(sites + [site])
  {
    assert forall k | 0 <= k < |sites| :: sites[k] in sites;
  }

  ghost function Members(sites: seq<nat>): set<nat> {
    set site | site in sites
  }

  lemma {:induction false} GroupsOneMore(bySection: map<nat, seq<nat>>, sections: seq<Section>, sites: seq<nat>,
                                         site: nat, s: nat)
    requires Grouped(bySection, sections, sites) && OnlyHolder(sections, site, s)
    requires forall other | other in sites :: other + 4 <= site
    ensures Grouped(if IsInitializedData(sections[s].characteristics)
                    then bySection[s := SitesOf(bySection, s) + [site]] else bySection,
                    sections, sites + [site])
  {
    hide HasBytes, IsInitializedData;
    var data := IsInitializedData(sections[s].characteristics);
    var grown := if data then bySection[s := SitesOf(bySection, s) + [site]] else bySection;
    forall t: nat ensures IsGroup(grown, sections, Members(sites + [site]), t) {
      assert IsGroup(bySection, sections, Members(sites), t);
      assert OnlyHolder(sections, site, t) ==> t == s;
      SpacedAppend(SitesOf(bySection, t), site);
    }
  }

  lemma NoneGrouped(sections: seq<Section>)
    ensures Grouped(map[], sections, [])
  {
  }

  /** The first loop of `_initialized_data_changed_runs`. */
  method GroupBySection(sections: seq<Section>, changed: set<nat>) returns (bySection: Option<map<nat, seq<nat>>>)
    requires Apart(changed)
    ensures bySection.Some? <==> EachHeldOnce(sections, changed)
    ensures bySection.Some? ==> forall s: nat :: IsGroup(bySection.value, sections, changed, s)
  {
    hide Grouped, OnlyHolder, Spaced, IsInitializedData;
    LessIsOrder();
    var list := Sorted(changed, Less);
    var groups: map<nat, seq<nat>> := map[];
    NoneGrouped(sections);
    for i := 0 to |list|
      invariant Grouped(groups, sections, list[..i])
      invariant forall k | 0 <= k < i :: HeldOnce(sections, list[k])
    {
      var site := list[i];
      assert site in changed && list[..i + 1] == list[..i] + [site];
      var s := SectionForSite(sections, site);
      if s.None? {
        return None;
      }
      assert OnlyHolder(sections, site, s.value) && HeldOnce(sections, site);
      EarlierIsApart(list, changed, i);
      GroupsOneMore(groups, sections, list[..i], site, s.value);
      if IsInitializedData(sections[s.value].characteristics) {
        groups := groups[s.value := SitesOf(groups, s.value) + [site]];
      }
    }
    assert list[..|list|] == list && Members(list) == changed;
    GroupsRead(groups, sections, list, changed);
    bySection := Some(groups);
  }

  lemma GroupsRead(bySection: map<nat, seq<nat>>, sections: seq<Section>, sites: seq<nat>, changed: set<nat>)
    requires Grouped(bySection, sections, sites) && Members(sites) == changed
    ensures forall s: nat :: IsGroup(bySection, sections, changed, s)
  {
  }

  lemma {:induction false} EarlierIsApart(list: seq<nat>, changed: set<nat>, i: nat)
    requires Apart(changed) && Ascending(list, Less) && i < |list| && forall site :: site in list <==> site in changed
    ensures forall other | other in list[..i] :: other + 4 <= list[i]
  {
    forall other | other in list[..i] ensures other + 4 <= list[i] {
      var k :| 0 <= k < i && list[k] == other;
      assert Less(list[k], list[i]) && list[i] in changed && other in changed;
    }
  }

  // ---- All runs -----------------------------------------------------------------------------

  function SitesAt(index: nat, section: Section, runs: seq<seq<nat>>): seq<Site> {
    seq(|runs|, k requires 0 <= k < |runs| => Site(index, section, runs[k]))
  }

  /** One more section. */
  lemma {:induction false} SectionAdds(runs: seq<Site>, sections: seq<Section>, changed: set<nat>, s: nat,
                                       added: seq<seq<nat>>)
    requires s < |sections| && AreChangedRuns(runs, sections, changed, s) && AreRuns(added) && Spaced(Flatten(added))
    requires forall site :: site in Flatten(added) <==> site in DataSites(sections, changed, s)
    ensures AreChangedRuns(runs + SitesAt(s, sections[s], added), sections, changed, s + 1)
  {
    hide Spaced, Flatten, IsRun, DataSites, IsMaximalRun;
    var these := SitesAt(s, sections[s], added);
    var all := runs + these;
    forall k | 0 <= k < |all| ensures IsChangedRun(all[k], sections, changed) && all[k].index < s + 1 {
      if k >= |runs| {
        RunIsMaximal(added, DataSites(sections, changed, s), k - |runs|);
      }
    }
    forall t: nat, site | t < s + 1 && site in DataSites(sections, changed, t) ensures Listed(all, t, site) {
      if t < s {
        assert Listed(runs, t, site);
        var k :| 0 <= k < |runs| && runs[k].index == t && site in runs[k].sites;
        assert all[k] == runs[k];
      } else {
        FlattenMembers(added, site);
        var k :| 0 <= k < |added| && site in added[k];
        assert all[|runs| + k] == these[k];
      }
    }
    forall a, b | 0 <= a < b < |all| ensures RunBefore(all[a], all[b]) {
      if a >= |runs| {
        var k, m := a - |runs|, b - |runs|;
        RunHasEnds(added[k]);
        RunHasEnds(added[m]);
        RunsAreSpaced(added, k, m, added[k][0], added[m][0]);
      }
    }
  }

  lemma NoneListed(sections: seq<Section>, changed: set<nat>)
    ensures AreChangedRuns([], sections, changed, 0)
  {
  }

  /** `_initialized_data_changed_runs`. */
  method ChangedRuns(sections: seq<Section>, changed: set<nat>) returns (runs: Option<seq<Site>>)
    requires Apart(changed)
    ensures runs.Some? <==> EachHeldOnce(sections, changed)
    ensures runs.Some? ==> AreChangedRuns(runs.value, sections, changed, |sections|)
  {
    hide AreChangedRuns, Flatten, IsRun, Spaced, DataSites;
    var bySection := GroupBySection(sections, changed);
    if bySection.None? {
      return None;
    }
    var found: seq<Site> := [];
    NoneListed(sections, changed);
    for s := 0 to |sections|
      invariant AreChangedRuns(found, sections, changed, s)
    {
      assert IsGroup(bySection.value, sections, changed, s);
      var added := SplitRuns(SitesOf(bySection.value, s));
      SectionAdds(found, sections, changed, s, added);
      found := found + SitesAt(s, sections[s], added);
    }
    runs := Some(found);
  }
}
