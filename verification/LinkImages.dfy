/** Comparing a candidate image with its reference (src/reprobit/classic_link_layout_repair.py). */
module LinkImages {
  import opened Options
  import opened ChunkOrder

  datatype Section = Section(rawName: Bytes, virtualSize: nat, virtualAddress: nat, rawSize: nat, rawOffset: nat,
                             characteristics: bv32)

  datatype Headers = Headers(imageBase: nat, sections: seq<Section>)

  /** A parsed image: its bytes, its geometry and the offsets of its 32-bit relocation operands. */
  datatype Image = Image(bytes: Bytes, headers: Headers, sites: set<nat>)

  /** What the header and relocation parsers guarantee. */
  predicate Parsed(image: Image) {
    && (forall site | site in image.sites :: site + 4 <= |image.bytes|)
    && forall section | section in image.headers.sections && section.rawSize > 0 ::
         section.rawOffset + section.rawSize <= |image.bytes|
  }

  predicate InRange(at: int, start: int, end: int) {
    start <= at < end
  }

  // ---- Loaded bytes ---------------------------------------------------------------

  /** The raw data of a section covers this many bytes at a relative address (src/reprobit/pe32.py:51-53). */
  predicate Backs(section: Section, rva: int, size: nat) {
    0 <= rva - section.virtualAddress <= section.rawSize - size
  }

  /** Some section of the image has these bytes at a virtual address (src/reprobit/pe32.py:127-129). */
  predicate LoadedAt(image: Image, va: int, bytes: Bytes) {
    exists s | 0 <= s < |image.headers.sections| :: LoadedFrom(image, image.headers.sections[s], va, bytes)
  }

  predicate LoadedFrom(image: Image, section: Section, va: int, bytes: Bytes) {
    var rva := va - image.headers.imageBase;
    && Backs(section, rva, |bytes|)
    && StartsAt(image.bytes, bytes, section.rawOffset + rva - section.virtualAddress)
  }

  // ---- 32-bit operands ------------------------------------------------------------

  function Word(bytes: Bytes, at: nat): nat
    requires at + 4 <= |bytes|
  {
    var a: int, b: int, c: int, d: int := bytes[at], bytes[at + 1], bytes[at + 2], bytes[at + 3];
    a + 0x100 * b + 0x10000 * c + 0x1000000 * d
  }

  /** Byte `k` of a word in little-endian order. */
  function WordByte(word: nat, k: nat): Byte {
    if k == 0 then word % 0x100 else WordByte(word / 0x100, k - 1)
  }

  lemma LowByte(low: int, high: int)
    requires 0 <= low < 0x100
    ensures (low + 0x100 * high) % 0x100 == low && (low + 0x100 * high) / 0x100 == high
  {
  }

  lemma {:induction false} WordBytes(bytes: Bytes, at: nat, k: nat)
    requires at + 4 <= |bytes| && k < 4
    ensures WordByte(Word(bytes, at), k) == bytes[at + k]
  {
    var a: int, b: int, c: int, d: int := bytes[at], bytes[at + 1], bytes[at + 2], bytes[at + 3];
    var top, upper, rest := d, c + 0x100 * d, b + 0x100 * (c + 0x100 * d);
    LowByte(a, rest);
    LowByte(b, upper);
    LowByte(c, top);
    LowByte(d, 0);
    assert k >= 1 ==> WordByte(Word(bytes, at), k) == WordByte(rest, k - 1);
    assert k >= 2 ==> WordByte(rest, k - 1) == WordByte(upper, k - 2);
    assert k >= 3 ==> WordByte(upper, k - 2) == WordByte(top, k - 3);
  }

  // ---- Differences ------------------------------------------------------------------

  predicate Covers(site: nat, offset: int) {
    site <= offset < site + 4
  }

  predicate Apart(sites: set<nat>) {
    forall site, other | site in sites && other in sites && site != other :: site + 4 <= other || other + 4 <= site
  }

  function ChangedSites(candidate: Image, oracle: Image): set<nat>
    requires Parsed(candidate) && Parsed(oracle) && |candidate.bytes| == |oracle.bytes|
  {
    set site | site in candidate.sites && candidate.bytes[site..site + 4] != oracle.bytes[site..site + 4]
  }

  predicate Owned(sites: set<nat>, offset: int) {
    exists site :: site in sites && Covers(site, offset)
  }

  /** The images differ, and only inside separate relocation operands. */
  predicate DifferInOperands(candidate: Image, oracle: Image)
    requires Parsed(candidate) && Parsed(oracle)
  {
    && |candidate.bytes| == |oracle.bytes|
    && candidate.headers == oracle.headers
    && candidate.sites == oracle.sites
    && candidate.bytes != oracle.bytes
    && Apart(candidate.sites)
    && forall offset | 0 <= offset < |candidate.bytes| ::
         candidate.bytes[offset] != oracle.bytes[offset] ==> Owned(candidate.sites, offset)
  }

  /** A differing byte belongs to a changed operand as soon as it belongs to one at all. */
  lemma {:induction false} OwnerChanged(candidate: Image, oracle: Image, offset: nat, site: nat)
    requires Parsed(candidate) && Parsed(oracle) && |candidate.bytes| == |oracle.bytes|
    requires site in candidate.sites && Covers(site, offset) && candidate.bytes[offset] != oracle.bytes[offset]
    ensures site in ChangedSites(candidate, oracle)
  {
    assert candidate.bytes[site..site + 4][offset - site] == candidate.bytes[offset];
    assert oracle.bytes[site..site + 4][offset - site] == oracle.bytes[offset];
  }

  lemma {:induction false} SomeSiteChanged(candidate: Image, oracle: Image)
    requires Parsed(candidate) && Parsed(oracle) && DifferInOperands(candidate, oracle)
    ensures ChangedSites(candidate, oracle) != {}
  {
    var offset :| 0 <= offset < |candidate.bytes| && candidate.bytes[offset] != oracle.bytes[offset];
    assert Owned(candidate.sites, offset);
    var site :| site in candidate.sites && Covers(site, offset);
    OwnerChanged(candidate, oracle, offset, site);
  }

  /** The owner table of a set of operands. */
  ghost predicate OwnerTable(owner: map<nat, nat>, sites: set<nat>) {
    && (forall offset | offset in owner :: owner[offset] in sites && Covers(owner[offset], offset))
    && forall offset: nat | Owned(sites, offset) :: offset in owner
  }

  predicate Free(owner: map<nat, nat>, site: nat) {
    site !in owner && site + 1 !in owner && site + 2 !in owner && site + 3 !in owner
  }

  lemma {:induction false} FreeIsApart(owner: map<nat, nat>, sites: set<nat>, site: nat)
    requires OwnerTable(owner, sites) && Apart(sites) && site !in sites
    ensures Free(owner, site) <==> Apart(sites + {site})
  {
    if !Free(owner, site) {
      var offset :| site <= offset < site + 4 && offset in owner;
      assert Covers(owner[offset], offset);
      assert owner[offset] in sites + {site} && site in sites + {site};
    } else {
      forall other | other in sites ensures site + 4 <= other || other + 4 <= site {
        assert Covers(other, other) && Covers(other, other + 3);
        assert Owned(sites, other) && Owned(sites, other + 3);
      }
    }
  }

  lemma {:induction false} OwnerTableGrows(owner: map<nat, nat>, sites: set<nat>, site: nat)
    requires OwnerTable(owner, sites) && Free(owner, site)
    ensures OwnerTable(owner[site := site][site + 1 := site][site + 2 := site][site + 3 := site], sites + {site})
  {
    var table := owner[site := site][site + 1 := site][site + 2 := site][site + 3 := site];
    forall offset: nat | Owned(sites + {site}, offset) ensures offset in table {
      var own :| own in sites + {site} && Covers(own, offset);
      assert own != site ==> Owned(sites, offset);
    }
  }

  /** The owner loop: fails exactly when two operands overlap. */
  method RelocationOwners(sites: set<nat>) returns (owner: Option<map<nat, nat>>)
    ensures owner.Some? <==> Apart(sites)
    ensures owner.Some? ==> OwnerTable(owner.value, sites)
  {
    hide OwnerTable;
    var table: map<nat, nat> := map[];
    var todo, added: set<nat> := sites, {};
    assert OwnerTable(table, added) by { NothingOwned(); }
    while todo != {}
      invariant todo + added == sites && todo !! added
      invariant Apart(added) && OwnerTable(table, added)
      decreases |todo|
    {
      var site: nat :| site in todo;
      FreeIsApart(table, added, site);
      if !Free(table, site) {
        return None;
      }
      OwnerTableGrows(table, added, site);
      table := table[site := site][site + 1 := site][site + 2 := site][site + 3 := site];
      todo, added := todo - {site}, added + {site};
    }
    assert added == sites;
    owner := Some(table);
  }

  lemma NothingOwned()
    ensures OwnerTable(map[], {})
  {
  }

  /** `_image_difference`: the changed operands, exactly when the images differ only in operands. */
  method ImageDifference(candidate: Image, oracle: Image) returns (changed: Option<set<nat>>)
    requires Parsed(candidate) && Parsed(oracle)
    ensures changed.Some? <==> DifferInOperands(candidate, oracle)
    ensures changed.Some? ==> changed.value == ChangedSites(candidate, oracle) && changed.value != {}
  {
    if |candidate.bytes| != |oracle.bytes| || candidate.headers != oracle.headers || candidate.sites != oracle.sites {
      return None;
    }
    var sites := ChangedSites(candidate, oracle);
    if sites == {} {
      if DifferInOperands(candidate, oracle) {
        SomeSiteChanged(candidate, oracle);
      }
      return None;
    }
    var owner := RelocationOwners(candidate.sites);
    if owner.None? {
      return None;
    }
    for offset := 0 to |candidate.bytes|
      invariant forall k | 0 <= k < offset :: candidate.bytes[k] != oracle.bytes[k] ==> Owned(candidate.sites, k)
    {
      if candidate.bytes[offset] != oracle.bytes[offset] {
        if offset !in owner.value || owner.value[offset] !in sites {
          if offset in owner.value {
            OwnerChanged(candidate, oracle, offset, owner.value[offset]);
          }
          return None;
        }
      }
    }
    changed := Some(sites);
  }

  // ---- Runs -------------------------------------------------------------------------

  function Flatten(runs: seq<seq<nat>>): seq<nat> {
    if runs == [] then [] else Flatten(runs[..|runs| - 1]) + runs[|runs| - 1]
  }

  /** Consecutive operands with nothing between them. */
  predicate IsRun(run: seq<nat>) {
    run != [] && forall i | 0 <= i < |run| :: run[i] == run[0] + 4 * i
  }

  predicate Broken(left: seq<nat>, right: seq<nat>) {
    left != [] && right != [] && right[0] != left[|left| - 1] + 4
  }

  ghost predicate AreRuns(runs: seq<seq<nat>>) {
    && (forall run | run in runs :: IsRun(run))
    && forall i | 0 < i < |runs| :: Broken(runs[i - 1], runs[i])
  }

  lemma {:induction false} RunCloses(runs: seq<seq<nat>>, current: seq<nat>)
    requires AreRuns(runs) && IsRun(current) && (runs == [] || Broken(runs[|runs| - 1], current))
    ensures AreRuns(runs + [current]) && Flatten(runs + [current]) == Flatten(runs) + current
  {
    var longer := runs + [current];
    assert longer[..|runs|] == runs;
    forall i | 0 < i < |longer| ensures Broken(longer[i - 1], longer[i]) {
      assert i < |runs| ==> Broken(runs[i - 1], runs[i]);
    }
  }

  /** The grouping loop of `_initialized_data_changed_runs`: maximal runs, in order, losing nothing. */
  method SplitRuns(sites: seq<nat>) returns (runs: seq<seq<nat>>)
    ensures Flatten(runs) == sites
    ensures forall run | run in runs :: IsRun(run)
    ensures forall i | 0 < i < |runs| :: Broken(runs[i - 1], runs[i])
  {
    hide Flatten;
    runs := [];
    assert Flatten([]) == [] by { NothingFlattened(); }
    var current: seq<nat> := [];
    for i := 0 to |sites|
      invariant Flatten(runs) + current == sites[..i] && AreRuns(runs)
      invariant current == [] ==> runs == []
      invariant current != [] ==> IsRun(current) && (runs == [] || Broken(runs[|runs| - 1], current))
    {
      assert sites[..i + 1] == sites[..i] + [sites[i]];
      if current != [] && sites[i] != current[|current| - 1] + 4 {
        RunCloses(runs, current);
        runs, current := runs + [current], [];
      }
      current := current + [sites[i]];
    }
    assert sites[..|sites|] == sites;
    if current != [] {
      RunCloses(runs, current);
      runs := runs + [current];
    }
  }

  lemma NothingFlattened()
    ensures Flatten([]) == []
  {
  }
}
