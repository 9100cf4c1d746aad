/** Proving a changed section order from debug evidence (src/reprobit/classic_link_layout_repair.py). */
module LinkLayout {
  import opened Options
  import opened ChunkOrder
  import opened LinkImages

  datatype Contribution = Contribution(section: nat, offset: nat, size: nat, characteristics: bv32, moduleIndex: nat)

  datatype Public = Public(section: nat, offset: nat, name: string)

  datatype LinkMap = LinkMap(contributions: seq<Contribution>, publics: seq<Public>)

  datatype SymbolVa = SymbolVa(name: string, va: int)

  datatype CoreProof = CoreProof(
    moduleIndex: nat, coreStart: nat, coreEnd: nat, desired: seq<string>,
    candidateVas: seq<SymbolVa>, oracleVas: seq<SymbolVa>)

  predicate IsInitializedData(characteristics: bv32) {
    characteristics & 0x40 != 0 && characteristics & 0xA0 == 0
  }

  predicate IsComdat(characteristics: bv32) {
    characteristics & 0x1000 != 0
  }

  /** Bit `k` of the section flags. */
  predicate Flag(characteristics: bv32, k: nat)
    requires k < 32
  {
    (characteristics >> k) & 1 == 1
  }

  /** Initialized data has flag 6 and neither flag 5, code, nor flag 7, uninitialized data; selection is flag 12. */
  lemma FlagsMean(characteristics: bv32)
    ensures IsInitializedData(characteristics) <==>
            Flag(characteristics, 6) && !Flag(characteristics, 5) && !Flag(characteristics, 7)
    ensures IsComdat(characteristics) <==> Flag(characteristics, 12)
  {
  }

  // ---- One occurrence -----------------------------------------------------------------

  ghost predicate OccursOnce(haystack: Bytes, needle: Bytes, at: nat) {
    needle != [] && StartsAt(haystack, needle, at) && forall other: nat | StartsAt(haystack, needle, other) ::
        other == at
  }

  method FindFrom(haystack: Bytes, needle: Bytes, from: nat) returns (at: Option<nat>)
    ensures at.Some? ==> from <= at.value && StartsAt(haystack, needle, at.value)
    ensures forall k: nat | from <= k && StartsAt(haystack, needle, k) :: at.Some? && at.value <= k
  {
    var i := from;
    while i + |needle| <= |haystack|
      invariant from <= i
      invariant forall k: nat | from <= k < i :: !StartsAt(haystack, needle, k)
    {
      if haystack[i..i + |needle|] == needle {
        return Some(i);
      }
      i := i + 1;
    }
    at := None;
  }

  /** `_unique_occurrence`. */
  method UniqueOccurrence(haystack: Bytes, needle: Bytes) returns (at: Option<nat>)
    ensures forall k: nat :: OccursOnce(haystack, needle, k) <==> at == Some(k)
  {
    if needle == [] {
      return None;
    }
    at := FindFrom(haystack, needle, 0);
    if at.Some? {
      var again := FindFrom(haystack, needle, at.value + 1);
      if again.Some? {
        assert StartsAt(haystack, needle, at.value) && StartsAt(haystack, needle, again.value);
        at := None;
      }
    }
  }

  // ---- Contributions ------------------------------------------------------------------

  predicate Overlaps(item: Contribution, section: nat, start: nat, end: nat) {
    item.section == section && item.offset < end && start < item.offset + item.size
  }

  function Overlapping(contributions: seq<Contribution>, section: nat, start: nat, end: nat): seq<Contribution> {
    if contributions == [] then []
    else
      var item := contributions[0];
      (if Overlaps(item, section, start, end) then [item] else [])
      + Overlapping(contributions[1..], section, start, end)
  }

  function InsertByOffset(items: seq<Contribution>, item: Contribution): seq<Contribution> {
    if items == [] || items[|items| - 1].offset <= item.offset then items + [item]
    else InsertByOffset(items[..|items| - 1], item) + [items[|items| - 1]]
  }

  function SortByOffset(items: seq<Contribution>): seq<Contribution> {
    if items == [] then [] else InsertByOffset(SortByOffset(items[..|items| - 1]), items[|items| - 1])
  }

  predicate InOffsetOrder(items: seq<Contribution>) {
    forall i, j | 0 <= i < j < |items| :: items[i].offset <= items[j].offset
  }

  lemma {:induction false} InsertKeeps(items: seq<Contribution>, item: Contribution)
    ensures multiset(InsertByOffset(items, item)) == multiset(items) + multiset{item}
  {
    if items != [] {
      var n := |items| - 1;
      assert items == items[..n] + [items[n]];
      InsertKeeps(items[..n], item);
    }
  }

  lemma {:induction false} InsertSorts(items: seq<Contribution>, item: Contribution)
    requires InOffsetOrder(items)
    ensures InOffsetOrder(InsertByOffset(items, item))
  {
    if items != [] && item.offset < items[|items| - 1].offset {
      var n := |items| - 1;
      var shorter := InsertByOffset(items[..n], item);
      InsertSorts(items[..n], item);
      InsertKeeps(items[..n], item);
      forall i | 0 <= i < |shorter| ensures shorter[i].offset <= items[n].offset {
        assert shorter[i] in multiset(shorter);
        assert shorter[i] in items[..n] || shorter[i] == item;
      }
    }
  }

  /** Sorting keeps every contribution and puts them in offset order. */
  lemma {:induction false} SortIsPermutation(items: seq<Contribution>)
    ensures multiset(SortByOffset(items)) == multiset(items) && InOffsetOrder(SortByOffset(items))
  {
    if items != [] {
      var n := |items| - 1;
      assert items == items[..n] + [items[n]];
      SortIsPermutation(items[..n]);
      InsertKeeps(SortByOffset(items[..n]), items[n]);
      InsertSorts(SortByOffset(items[..n]), items[n]);
    }
  }

  lemma {:induction false} OverlappingCounts(contributions: seq<Contribution>, section: nat, start: nat, end: nat,
                                             item: Contribution)
    ensures multiset(Overlapping(contributions, section, start, end))[item] ==
            if Overlaps(item, section, start, end) then multiset(contributions)[item] else 0
  {
    hide Overlaps;
    if contributions != [] {
      OverlappingCounts(contributions[1..], section, start, end, item);
      assert contributions == [contributions[0]] + contributions[1..];
    }
  }

  /** The contribution has a byte of the range, or is empty and strictly inside it. */
  ghost predicate Meets(item: Contribution, section: nat, start: nat, end: nat) {
    && item.section == section
    && ((item.size == 0 && start < item.offset < end)
        || exists at: nat :: InRange(at, start, end) && InRange(at, item.offset, item.offset + item.size))
  }

  lemma {:induction false} OverlapsMeets(item: Contribution, section: nat, start: nat, end: nat)
    requires start < end
    ensures Overlaps(item, section, start, end) <==> Meets(item, section, start, end)
  {
    if Overlaps(item, section, start, end) && item.size > 0 {
      var at := if start < item.offset then item.offset else start;
      assert InRange(at, start, end) && InRange(at, item.offset, item.offset + item.size);
    }
  }

  /** The contributions that meet the range, each as often as it is listed, in offset order. */
  ghost predicate ListsOverlap(run: seq<Contribution>, contributions: seq<Contribution>, section: nat, start: nat,
                               end: nat) {
    && InOffsetOrder(run)
    && forall item :: multiset(run)[item] ==
         if Meets(item, section, start, end) then multiset(contributions)[item] else 0
  }

  lemma {:induction false} SortedListsOverlap(contributions: seq<Contribution>, section: nat, start: nat, end: nat)
    requires start < end
    ensures ListsOverlap(SortByOffset(Overlapping(contributions, section, start, end)), contributions, section, start,
                         end)
  {
    hide Overlapping, SortByOffset, Overlaps, InOffsetOrder, Meets;
    var found := Overlapping(contributions, section, start, end);
    SortIsPermutation(found);
    forall item
      ensures multiset(SortByOffset(found))[item] ==
                if Meets(item, section, start, end) then multiset(contributions)[item] else 0 {
      OverlappingCounts(contributions, section, start, end, item);
      OverlapsMeets(item, section, start, end);
    }
  }

  /** The sorted contributions abut from start to end, are selected data, and share a module. */
  predicate IsCompleteRun(run: seq<Contribution>, start: nat, end: nat) {
    && |run| >= 2
    && (forall i | 0 <= i < |run| :: run[i].offset == if i == 0 then start else run[i - 1].offset + run[i - 1].size)
    && run[|run| - 1].offset + run[|run| - 1].size == end
    && (forall i | 0 <= i < |run| :: IsInitializedData(run[i].characteristics) && IsComdat(run[i].characteristics))
    && forall i | 0 <= i < |run| :: run[i].moduleIndex == run[0].moduleIndex
  }

  /** `_complete_contribution_run`. */
  method CompleteContributionRun(linkMap: LinkMap, section: nat, start: nat, end: nat)
    returns (run: Option<seq<Contribution>>)
    ensures
      var sorted := SortByOffset(Overlapping(linkMap.contributions, section, start, end));
      run == if IsCompleteRun(sorted, start, end) then Some(sorted) else None
    ensures run.Some? && start < end ==> ListsOverlap(run.value, linkMap.contributions, section, start, end)
  {
    hide IsInitializedData, IsComdat, SortByOffset, Overlapping, ListsOverlap;
    if start < end {
      SortedListsOverlap(linkMap.contributions, section, start, end);
    }
    var sorted := SortByOffset(Overlapping(linkMap.contributions, section, start, end));
    if |sorted| < 2 {
      return None;
    }
    var cursor := start;
    for i := 0 to |sorted|
      invariant cursor == if i == 0 then start else sorted[i - 1].offset + sorted[i - 1].size
      invariant forall k | 0 <= k < i ::
                  sorted[k].offset == if k == 0 then start else sorted[k - 1].offset + sorted[k - 1].size
      invariant forall k | 0 <= k < i ::
                  IsInitializedData(sorted[k].characteristics) && IsComdat(sorted[k].characteristics)
    {
      if sorted[i].offset != cursor || !IsInitializedData(sorted[i].characteristics)
          || !IsComdat(sorted[i].characteristics) {
        return None;
      }
      cursor := cursor + sorted[i].size;
    }
    if cursor != end || exists i :: 0 <= i < |sorted| && sorted[i].moduleIndex != sorted[0].moduleIndex {
      return None;
    }
    run := Some(sorted);
  }

  // ---- Names --------------------------------------------------------------------------

  function PublicsAt(publics: seq<Public>, section: nat, offset: nat): seq<string> {
    if publics == [] then []
    else
      (if publics[0].section == section && publics[0].offset == offset then [publics[0].name] else [])
      + PublicsAt(publics[1..], section, offset)
  }

  predicate NamesDiffer(names: seq<string>) {
    forall i, j | 0 <= i < j < |names| :: names[i] != names[j]
  }

  /** One public alone is at this place, and has this name. */
  predicate OnlyPublic(publics: seq<Public>, section: nat, offset: nat, name: string) {
    exists k | 0 <= k < |publics| ::
      && publics[k] == Public(section, offset, name)
      && forall j | 0 <= j < |publics| && j != k :: publics[j].section != section || publics[j].offset != offset
  }

  /** Every contribution starts at one public alone, and these are their names, no two alike. */
  predicate AreNames(names: seq<string>, publics: seq<Public>, run: seq<Contribution>) {
    && |names| == |run|
    && (forall i | 0 <= i < |run| :: OnlyPublic(publics, run[i].section, run[i].offset, names[i]))
    && NamesDiffer(names)
  }

  lemma {:induction false} NonePublic(publics: seq<Public>, section: nat, offset: nat)
    ensures PublicsAt(publics, section, offset) == [] <==>
            forall j | 0 <= j < |publics| :: publics[j].section != section || publics[j].offset != offset
  {
    if publics != [] {
      NonePublic(publics[1..], section, offset);
      assert publics == [publics[0]] + publics[1..];
    }
  }

  lemma {:induction false} OnePublic(publics: seq<Public>, section: nat, offset: nat, name: string)
    ensures PublicsAt(publics, section, offset) == [name] <==> OnlyPublic(publics, section, offset, name)
  {
    if publics != [] {
      var rest := publics[1..];
      OnePublic(rest, section, offset, name);
      NonePublic(rest, section, offset);
      if publics[0].section == section && publics[0].offset == offset {
        OneAndRest(publics[0].name, PublicsAt(rest, section, offset), name);
        HeadPublic(publics, section, offset, name);
      } else {
        TailPublic(publics, section, offset, name);
      }
    }
  }

  lemma {:induction false} OneAndRest(first: string, rest: seq<string>, name: string)
    ensures [first] + rest == [name] <==> first == name && rest == []
  {
    if [first] + rest == [name] {
      assert ([first] + rest)[0] == first && |[first] + rest| == 1 + |rest|;
    }
  }

  lemma {:induction false} HeadPublic(publics: seq<Public>, section: nat, offset: nat, name: string)
    requires publics != [] && publics[0].section == section && publics[0].offset == offset
    ensures OnlyPublic(publics, section, offset, name) <==>
            && publics[0].name == name
            && forall j | 0 <= j < |publics[1..]| ::
                 publics[1..][j].section != section || publics[1..][j].offset != offset
  {
    assert forall j | 0 < j < |publics| :: publics[j] == publics[1..][j - 1];
    if OnlyPublic(publics, section, offset, name) {
      var k :| 0 <= k < |publics| && publics[k] == Public(section, offset, name)
               && forall j | 0 <= j < |publics| && j != k ::
                    publics[j].section != section || publics[j].offset != offset;
      assert k == 0;
    }
  }

  lemma {:induction false} TailPublic(publics: seq<Public>, section: nat, offset: nat, name: string)
    requires publics != [] && (publics[0].section != section || publics[0].offset != offset)
    ensures OnlyPublic(publics, section, offset, name) <==> OnlyPublic(publics[1..], section, offset, name)
  {
    var rest := publics[1..];
    assert forall j | 0 < j < |publics| :: publics[j] == rest[j - 1];
    assert forall j | 0 <= j < |rest| :: rest[j] == publics[j + 1];
    if OnlyPublic(publics, section, offset, name) {
      var k :| 0 <= k < |publics| && publics[k] == Public(section, offset, name)
               && forall j | 0 <= j < |publics| && j != k ::
                    publics[j].section != section || publics[j].offset != offset;
      assert rest[k - 1] == publics[k];
    }
    if OnlyPublic(rest, section, offset, name) {
      var k :| 0 <= k < |rest| && rest[k] == Public(section, offset, name)
               && forall j | 0 <= j < |rest| && j != k :: rest[j].section != section || rest[j].offset != offset;
      assert publics[k + 1] == rest[k];
    }
  }

  lemma {:induction false} NamesAreUnique(names: seq<string>, others: seq<string>, publics: seq<Public>,
                                          run: seq<Contribution>)
    requires AreNames(names, publics, run) && AreNames(others, publics, run)
    ensures names == others
  {
    hide OnlyPublic, PublicsAt;
    forall i | 0 <= i < |run| ensures names[i] == others[i] {
      OnePublic(publics, run[i].section, run[i].offset, names[i]);
      OnePublic(publics, run[i].section, run[i].offset, others[i]);
      assert [names[i]][0] == [others[i]][0];
    }
  }

  /** `_unique_public_names`. */
  method UniquePublicNames(publics: seq<Public>, run: seq<Contribution>) returns (names: Option<seq<string>>)
    ensures forall list :: AreNames(list, publics, run) <==> names == Some(list)
  {
    hide PublicsAt, OnlyPublic;
    forall i, name | 0 <= i < |run|
      ensures PublicsAt(publics, run[i].section, run[i].offset) == [name] <==>
              OnlyPublic(publics, run[i].section, run[i].offset, name) {
      OnePublic(publics, run[i].section, run[i].offset, name);
    }
    var list: seq<string> := [];
    for i := 0 to |run|
      invariant |list| == i
      invariant forall k | 0 <= k < i :: PublicsAt(publics, run[k].section, run[k].offset) == [list[k]]
    {
      var matches := PublicsAt(publics, run[i].section, run[i].offset);
      if |matches| != 1 {
        forall name ensures !OnlyPublic(publics, run[i].section, run[i].offset, name) {
          OnePublic(publics, run[i].section, run[i].offset, name);
        }
        return None;
      }
      list := list + [matches[0]];
    }
    forall other | AreNames(other, publics, run) ensures other == list {
      assert forall i | 0 <= i < |run| :: [other[i]] == [list[i]];
    }
    names := if NamesDiffer(list) then Some(list) else None;
  }

  // ---- The core proof -----------------------------------------------------------------

  function Slice(bytes: Bytes, start: nat, end: nat): Bytes {
    var high := if end < |bytes| then end else |bytes|;
    if start <= high then bytes[start..high] else []
  }

  predicate OnlySection(sections: seq<Section>, name: Bytes, index: nat) {
    && index < |sections| && sections[index].rawName == name
    && forall j | 0 <= j < |sections| && sections[j].rawName == name :: j == index
  }

  method FindOnlySection(sections: seq<Section>, name: Bytes) returns (index: Option<nat>)
    ensures forall k: nat :: OnlySection(sections, name, k) <==> index == Some(k)
    ensures index.Some? ==> index.value < |sections|
  {
    index := None;
    for i := 0 to |sections|
      invariant index.Some? ==> index.value < i && sections[index.value].rawName == name
      invariant forall j | 0 <= j < i && sections[j].rawName == name :: index == Some(j)
    {
      if sections[i].rawName == name {
        if index.Some? {
          return None;
        }
        index := Some(i);
      }
    }
  }

  /** A changed run of operands in one section of the candidate. */
  datatype Site = Site(index: nat, section: Section, sites: seq<nat>)

  /** Where the run is in the debug image, and how its contributions are named and ordered. */
  datatype Evidence = Evidence(debugIndex: nat, debugStart: nat, run: seq<Contribution>, names: seq<string>,
                               order: seq<nat>)

  function Core(bytes: Bytes, sites: seq<nat>): Bytes
    requires IsRun(sites)
  {
    Slice(bytes, sites[0], sites[|sites| - 1] + 4)
  }

  function BodyOf(debug: Image, index: nat): Bytes
    requires index < |debug.headers.sections|
  {
    var section := debug.headers.sections[index];
    Slice(debug.bytes, section.rawOffset, section.rawOffset + section.rawSize)
  }

  function ChunksOf(body: Bytes, run: seq<Contribution>): seq<Bytes> {
    seq(|run|, i requires 0 <= i < |run| => Slice(body, run[i].offset, run[i].offset + run[i].size))
  }

  /** The run lies in its section of the image. */
  predicate InSection(image: Image, site: Site)
    requires IsRun(site.sites)
  {
    && site.index < |image.headers.sections| && site.section == image.headers.sections[site.index]
    && site.section.rawOffset <= site.sites[0]
    && site.sites[|site.sites| - 1] + 4 <= site.section.rawOffset + site.section.rawSize
  }

  /** Two parsed images of one geometry, with the run in its section. */
  predicate LieAlike(candidate: Image, oracle: Image, site: Site) {
    && Parsed(candidate) && Parsed(oracle) && candidate.headers == oracle.headers
    && |candidate.bytes| == |oracle.bytes| && IsRun(site.sites) && InSection(candidate, site)
    && site.sites[|site.sites| - 1] + 4 <= |candidate.bytes|
  }

  /** The address of the core. */
  function BaseVa(imageBase: nat, site: Site): int
    requires IsRun(site.sites)
  {
    imageBase + site.section.virtualAddress + site.sites[0] - site.section.rawOffset
  }

  /** What `_core_proof` demands: the core occurs once in its debug section, and contributions there spell it. */
  ghost predicate IsEvidence(e: Evidence, candidate: Image, oracle: Image, debug: Image, linkMap: LinkMap, site: Site) {
    && IsRun(site.sites)
    && OnlySection(debug.headers.sections, site.section.rawName, e.debugIndex)
    && IsInitializedData(debug.headers.sections[e.debugIndex].characteristics)
    && var body, core := BodyOf(debug, e.debugIndex), Core(candidate.bytes, site.sites);
    && OccursOnce(body, core, e.debugStart)
    && e.run == SortByOffset(Overlapping(linkMap.contributions, e.debugIndex + 1, e.debugStart, e.debugStart + |core|))
    && IsCompleteRun(e.run, e.debugStart, e.debugStart + |core|)
    && AreNames(e.names, linkMap.publics, e.run)
    && Join(ChunksOf(body, e.run), Identity(|e.run|)) == core
    && Finds(e.order, ChunksOf(body, e.run), Core(oracle.bytes, site.sites))
    && BaseVa(candidate.headers.imageBase, site) <= 0xFFFFFFFF
    && BaseVa(candidate.headers.imageBase, site) + |Core(oracle.bytes, site.sites)| <= 0x100000000
  }

  /** The proof lists every symbol where each image places its chunk. */
  ghost predicate Records(proof: CoreProof, names: seq<string>, chunks: seq<Bytes>, order: seq<nat>, base: int)
    requires |names| == |chunks| && IsPermutation(order, |chunks|)
  {
    && |proof.desired| == |proof.candidateVas| == |proof.oracleVas| == |names|
    && (forall k | 0 <= k < |order| :: proof.desired[k] == names[order[k]])
    && (forall i | 0 <= i < |names| ::
        proof.candidateVas[i] == SymbolVa(names[i], base + |Join(chunks, Identity(|chunks|)[..i])|))
    && forall k | 0 <= k < |order| ::
         proof.oracleVas[order[k]] == SymbolVa(names[order[k]], base + |Join(chunks, order[..k])|)
  }

  lemma {:induction false} JoinOneMore(chunks: seq<Bytes>, order: seq<nat>, k: nat)
    requires k < |order| && forall i | 0 <= i < |order| :: order[i] < |chunks|
    ensures |Join(chunks, order[..k + 1])| == |Join(chunks, order[..k])| + |chunks[order[k]]|
  {
    assert order[..k + 1][..k] == order[..k];
  }

  lemma JoinNone(chunks: seq<Bytes>, order: seq<nat>)
    ensures |Join(chunks, order[..0])| == 0
  {
  }

  /** Symbols placed one after another in the given order. */
  method PlaceSymbols(names: seq<string>, chunks: seq<Bytes>, order: seq<nat>, base: int)
    returns (placed: seq<SymbolVa>, end: int)
    requires |names| == |chunks| && IsPermutation(order, |chunks|)
    ensures |placed| == |order| && end == base + |Join(chunks, order)|
    ensures forall k | 0 <= k < |order| :: placed[k] == SymbolVa(names[order[k]], base + |Join(chunks, order[..k])|)
  {
    hide Join;
    placed, end := [], base;
    JoinNone(chunks, order);
    for k := 0 to |order|
      invariant |placed| == k && end == base + |Join(chunks, order[..k])|
      invariant forall j | 0 <= j < k :: placed[j] == SymbolVa(names[order[j]], base + |Join(chunks, order[..j])|)
    {
      JoinOneMore(chunks, order, k);
      placed := placed + [SymbolVa(names[order[k]], end)];
      end := end + |chunks[order[k]]|;
    }
    assert order[..|order|] == order;
  }

  /** Entries of the second table in the order of the first, looked up by name. */
  method Reorder(names: seq<string>, order: seq<nat>, placed: seq<SymbolVa>) returns (sorted: seq<SymbolVa>)
    requires NamesDiffer(names) && IsPermutation(order, |names|) && |placed| == |order|
    requires forall k | 0 <= k < |order| :: placed[k].name == names[order[k]]
    ensures |sorted| == |names| && forall k | 0 <= k < |order| :: sorted[order[k]] == placed[k]
  {
    var byName: map<string, int> := map[];
    for k := 0 to |order|
      invariant forall j | 0 <= j < k :: names[order[j]] in byName && byName[names[order[j]]] == placed[j].va
    {
      byName := byName[placed[k].name := placed[k].va];
    }
    sorted := [];
    for i := 0 to |names|
      invariant |sorted| == i
      invariant forall k | 0 <= k < i ::
                  sorted[k].name == names[k] && names[k] in byName && sorted[k].va == byName[names[k]]
    {
      PermutationCovers(order, |names|, i);
      assert names[i] in byName;
      sorted := sorted + [SymbolVa(names[i], byName[names[i]])];
    }
  }

  /** What a core proof promises. */
  ghost predicate IsCoreProof(proof: CoreProof, e: Evidence, candidate: Image, oracle: Image, debug: Image,
                              linkMap: LinkMap, site: Site) {
    && IsEvidence(e, candidate, oracle, debug, linkMap, site)
    && Records(proof, e.names, ChunksOf(BodyOf(debug, e.debugIndex), e.run), e.order,
               BaseVa(candidate.headers.imageBase, site))
    && proof.moduleIndex == e.run[0].moduleIndex
    && proof.coreStart == site.sites[0] && proof.coreEnd == site.sites[|site.sites| - 1] + 4
  }

  lemma RecordedAt(proof: CoreProof, names: seq<string>, chunks: seq<Bytes>, order: seq<nat>, base: int, k: nat)
    requires |names| == |chunks| && IsPermutation(order, |chunks|) && k < |order|
    requires Records(proof, names, chunks, order, base)
    ensures |proof.candidateVas| == |proof.oracleVas| == |chunks|
    ensures proof.candidateVas[order[k]].va == base + |Join(chunks, Identity(|chunks|)[..order[k]])|
    ensures proof.oracleVas[order[k]].va == base + |Join(chunks, order[..k])|
  {
  }

  /** The k-th chunk of a core lies where the chunks before it end. */
  lemma {:induction false} PlacedAt(chunks: seq<Bytes>, order: seq<nat>, bytes: Bytes, start: nat, end: nat, k: nat)
    requires k < |order| && (forall i | 0 <= i < |order| :: order[i] < |chunks|)
    requires start <= end <= |bytes| && Join(chunks, order) == bytes[start..end]
    ensures StartsAt(bytes, chunks[order[k]], start + |Join(chunks, order[..k])|)
  {
    var chunk, at := chunks[order[k]], |Join(chunks, order[..k])|;
    ChunkIsThere(chunks, order, bytes[start..end], k);
    assert forall i | 0 <= i < |chunk| :: bytes[start + at + i] == bytes[start..end][at + i] == chunk[i];
    assert bytes[start + at..start + at + |chunk|] == chunk;
  }

  /** Every symbol has its debug bytes at its old address in the loaded candidate and its new one in the oracle. */
  ghost predicate SymbolsAreLoaded(candidate: Image, oracle: Image, proof: CoreProof, names: seq<string>,
                                   chunks: seq<Bytes>) {
    && |proof.candidateVas| == |proof.oracleVas| == |names| == |chunks|
    && forall i | 0 <= i < |names| ::
         && proof.candidateVas[i].name == proof.oracleVas[i].name == names[i]
         && LoadedAt(candidate, proof.candidateVas[i].va, chunks[i])
         && LoadedAt(oracle, proof.oracleVas[i].va, chunks[i])
  }

  /** A symbol placed at an offset of the core is loaded at the core's address plus that offset. */
  lemma {:induction false} PlacedIsLoaded(image: Image, imageBase: nat, site: Site, chunk: Bytes, offset: nat)
    requires IsRun(site.sites) && InSection(image, site) && image.headers.imageBase == imageBase
    requires StartsAt(image.bytes, chunk, site.sites[0] + offset)
    requires site.sites[0] + offset + |chunk| <= site.sites[|site.sites| - 1] + 4
    ensures LoadedAt(image, BaseVa(imageBase, site) + offset, chunk)
  {
    hide StartsAt;
    assert LoadedFrom(image, image.headers.sections[site.index], BaseVa(imageBase, site) + offset, chunk);
  }

  lemma {:induction false} ChunksEnd(chunks: seq<Bytes>, order: seq<nat>, k: nat)
    requires k < |order| && forall i | 0 <= i < |order| :: order[i] < |chunks|
    ensures |Join(chunks, order[..k])| + |chunks[order[k]]| <= |Join(chunks, order)|
  {
    JoinOneMore(chunks, order, k);
    JoinPrefix(chunks, order, k + 1);
  }

  lemma {:induction false} SymbolIsLoaded(candidate: Image, oracle: Image, debug: Image, linkMap: LinkMap, site: Site,
                                          proof: CoreProof, e: Evidence, k: nat)
    requires Parsed(candidate) && Parsed(oracle) && candidate.headers == oracle.headers
    requires |candidate.bytes| == |oracle.bytes|
    requires IsCoreProof(proof, e, candidate, oracle, debug, linkMap, site) && proof.coreEnd <= |candidate.bytes|
    requires InSection(candidate, site) && k < |e.order|
    ensures
      var i, chunks := e.order[k], ChunksOf(BodyOf(debug, e.debugIndex), e.run);
      && i < |chunks| == |proof.candidateVas| == |proof.oracleVas|
      && LoadedAt(candidate, proof.candidateVas[i].va, chunks[i]) && LoadedAt(oracle, proof.oracleVas[i].va, chunks[i])
  {
    hide Unrivalled, OccursOnce, IsCompleteRun, OnlyPublic, StartsAt, IsInitializedData, SortByOffset, Join, BodyOf,
        Records, LoadedAt, BaseVa;
    var chunks, base := ChunksOf(BodyOf(debug, e.debugIndex), e.run), BaseVa(candidate.headers.imageBase, site);
    var i := e.order[k];
    RecordedAt(proof, e.names, chunks, e.order, base, k);
    PlacedAt(chunks, Identity(|chunks|), candidate.bytes, proof.coreStart, proof.coreEnd, i);
    PlacedAt(chunks, e.order, oracle.bytes, proof.coreStart, proof.coreEnd, k);
    ChunksEnd(chunks, Identity(|chunks|), i);
    ChunksEnd(chunks, e.order, k);
    PlacedIsLoaded(candidate, candidate.headers.imageBase, site, chunks[i], |Join(chunks, Identity(|chunks|)[..i])|);
    PlacedIsLoaded(oracle, candidate.headers.imageBase, site, chunks[i], |Join(chunks, e.order[..k])|);
  }

  /** The recorded addresses are where the loaded images have the symbols. */
  lemma {:induction false} ProofIsLoaded(candidate: Image, oracle: Image, debug: Image, linkMap: LinkMap, site: Site,
                                         proof: CoreProof, e: Evidence)
    requires Parsed(candidate) && Parsed(oracle) && candidate.headers == oracle.headers
    requires |candidate.bytes| == |oracle.bytes|
    requires IsCoreProof(proof, e, candidate, oracle, debug, linkMap, site) && proof.coreEnd <= |candidate.bytes|
    requires InSection(candidate, site)
    ensures SymbolsAreLoaded(candidate, oracle, proof, e.names, ChunksOf(BodyOf(debug, e.debugIndex), e.run))
  {
    hide Unrivalled, OccursOnce, IsCompleteRun, OnlyPublic, IsInitializedData, SortByOffset, Join, BodyOf, LoadedAt,
      Records, NamesDiffer;
    var chunks := ChunksOf(BodyOf(debug, e.debugIndex), e.run);
    ProofNames(proof, e.names, chunks, e.order, BaseVa(candidate.headers.imageBase, site));
    forall i | 0 <= i < |chunks|
      ensures LoadedAt(candidate, proof.candidateVas[i].va, chunks[i])
      ensures LoadedAt(oracle, proof.oracleVas[i].va, chunks[i]) {
      PermutationCovers(e.order, |chunks|, i);
      var k :| 0 <= k < |e.order| && e.order[k] == i;
      SymbolIsLoaded(candidate, oracle, debug, linkMap, site, proof, e, k);
    }
  }

  lemma {:induction false} ProofNames(proof: CoreProof, names: seq<string>, chunks: seq<Bytes>, order: seq<nat>,
                                      base: int)
    requires |names| == |chunks| && IsPermutation(order, |chunks|) && Records(proof, names, chunks, order, base)
    ensures |proof.candidateVas| == |proof.oracleVas| == |names|
    ensures forall i | 0 <= i < |names| :: proof.candidateVas[i].name == proof.oracleVas[i].name == names[i]
  {
    hide Join;
    forall i | 0 <= i < |names| ensures proof.oracleVas[i].name == names[i] {
      PermutationCovers(order, |names|, i);
      var k :| 0 <= k < |order| && order[k] == i;
    }
  }

  /** `_core_proof`: succeeds exactly when there is evidence, and records what the evidence says. */
  method ProveCore(candidate: Image, oracle: Image, debug: Image, linkMap: LinkMap, site: Site)
    returns (proof: Option<CoreProof>, ghost evidence: Evidence)
    ensures proof.Some? <==> exists e :: IsEvidence(e, candidate, oracle, debug, linkMap, site)
    ensures proof.Some? ==> IsCoreProof(proof.value, evidence, candidate, oracle, debug, linkMap, site)
    ensures proof.Some? && LieAlike(candidate, oracle, site) ==>
              SymbolsAreLoaded(candidate, oracle, proof.value, evidence.names,
                               ChunksOf(BodyOf(debug, evidence.debugIndex), evidence.run))
  {
    hide SymbolsAreLoaded, OnlySection, IsInitializedData, OccursOnce, IsCompleteRun, NamesDiffer, Unrivalled,
        OnlyPublic,
      SortByOffset, Overlapping, Join, Records, IsRun, Slice;
    evidence := Evidence(0, 0, [], [], []);
    if !IsRun(site.sites) {
      return None, evidence;
    }
    var core, oracleCore := Core(candidate.bytes, site.sites), Core(oracle.bytes, site.sites);
    var base := BaseVa(candidate.headers.imageBase, site);
    var index := FindOnlySection(debug.headers.sections, site.section.rawName);
    if index.None? || !IsInitializedData(debug.headers.sections[index.value].characteristics) {
      return None, evidence;
    }
    var body := BodyOf(debug, index.value);
    var start := UniqueOccurrence(body, core);
    if start.None? {
      return None, evidence;
    }
    var run := CompleteContributionRun(linkMap, index.value + 1, start.value, start.value + |core|);
    if run.None? {
      return None, evidence;
    }
    var names := UniquePublicNames(linkMap.publics, run.value);
    if names.None? {
      return None, evidence;
    }
    var chunks := ChunksOf(body, run.value);
    if Join(chunks, Identity(|chunks|)) != core {
      return None, evidence;
    }
    var order := UniqueChunkPermutation(chunks, oracleCore);
    if order.None? || base > 0xFFFFFFFF {
      return None, evidence;
    }
    evidence := Evidence(index.value, start.value, run.value, names.value, order.value);
    assert run.value != [] by { RunNotEmpty(run.value, start.value, start.value + |core|); }
    proof := RecordProof(names.value, chunks, order.value, base, site, oracleCore, run.value[0].moduleIndex);
    assert proof.Some? ==> IsEvidence(evidence, candidate, oracle, debug, linkMap, site);
    if proof.Some? && LieAlike(candidate, oracle, site) {
      ProofIsLoaded(candidate, oracle, debug, linkMap, site, proof.value, evidence);
    }
  }

  lemma RunNotEmpty(run: seq<Contribution>, start: nat, end: nat)
    requires IsCompleteRun(run, start, end)
    ensures run != []
  {
  }

  /** The address tables, unless they leave the 32-bit space. */
  method RecordProof(names: seq<string>, chunks: seq<Bytes>, order: seq<nat>, base: int, site: Site,
                     oracleCore: Bytes, moduleIndex: nat)
    returns (proof: Option<CoreProof>)
    requires |names| == |chunks| && NamesDiffer(names) && Arranges(order, chunks, oracleCore) && IsRun(site.sites)
    ensures proof.Some? <==> base + |oracleCore| <= 0x100000000
    ensures proof.Some? ==> Records(proof.value, names, chunks, order, base) && proof.value.moduleIndex == moduleIndex
    ensures proof.Some? ==>
              proof.value.coreStart == site.sites[0] && proof.value.coreEnd == site.sites[|site.sites| - 1] + 4
  {
    hide Join;
    var candidateVas, _ := PlaceSymbols(names, chunks, Identity(|chunks|), base);
    var placed, end := PlaceSymbols(names, chunks, order, base);
    if end > 0x100000000 {
      return None;
    }
    var oracleVas := Reorder(names, order, placed);
    var desired := seq(|order|, k requires 0 <= k < |order| => names[order[k]]);
    proof :=
        Some(CoreProof(moduleIndex, site.sites[0], site.sites[|site.sites| - 1] + 4, desired, candidateVas, oracleVas));
  }
}
