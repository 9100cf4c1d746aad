/** A proven order determines the reference image (src/reprobit/classic_link_layout_repair.py). */
module LinkRelay {
  import opened Options
  import opened ChunkOrder
  import opened LinkImages
  import opened LinkLayout
  import opened LinkRuns

  predicate AddressesDiffer(vas: seq<SymbolVa>) {
    forall i, j | 0 <= i < j < |vas| :: vas[i].va != vas[j].va
  }

  predicate InsideCore(proof: CoreProof, site: nat) {
    proof.coreStart <= site && site + 4 <= proof.coreEnd
  }

  predicate OutsideCore(proof: CoreProof, site: nat) {
    site + 4 <= proof.coreStart || proof.coreEnd <= site
  }

  /** Both tables list the same symbols, each once. */
  predicate SameSymbols(proof: CoreProof) {
    && |proof.candidateVas| == |proof.oracleVas|
    && (forall i | 0 <= i < |proof.candidateVas| :: proof.candidateVas[i].name == proof.oracleVas[i].name)
    && SymbolsDiffer(proof.oracleVas)
  }

  predicate SymbolsDiffer(vas: seq<SymbolVa>) {
    forall i, j | 0 <= i < j < |vas| :: vas[i].name != vas[j].name
  }

  /** The operand follows symbol `i` from where the candidate has it to where the oracle has it. */
  predicate Follows(proof: CoreProof, candidateValue: int, oracleValue: int, i: nat) {
    && i < |proof.candidateVas| && i < |proof.oracleVas|
    && proof.candidateVas[i].va == candidateValue && proof.oracleVas[i].va == oracleValue
  }

  predicate SiteMatches(candidate: Bytes, oracle: Bytes, proof: CoreProof, site: nat)
    requires site + 4 <= |candidate| && |candidate| == |oracle|
  {
    (proof.coreStart <= site && site + 4 <= proof.coreEnd) ||
    ((site + 4 <= proof.coreStart || proof.coreEnd <= site) && exists i ::
     0 <= i < |proof.candidateVas| && Follows(proof, Word(candidate, site), Word(oracle, site), i))
  }

  /** Every changed operand lies in the core, or points at a symbol and follows it. */
  ghost predicate PointersMatch(candidate: Bytes, oracle: Bytes, changed: set<nat>, proof: CoreProof)
    requires |candidate| == |oracle| && forall site | site in changed :: site + 4 <= |candidate|
  {
    AddressesDiffer(proof.candidateVas) && forall site | site in changed :: SiteMatches(candidate, oracle, proof, site)
  }

  function NamesByVa(vas: seq<SymbolVa>): map<int, string>
    requires AddressesDiffer(vas)
  {
    map i | 0 <= i < |vas| :: vas[i].va := vas[i].name
  }

  function VasByName(vas: seq<SymbolVa>): map<string, int>
    requires SymbolsDiffer(vas)
  {
    map i | 0 <= i < |vas| :: vas[i].name := vas[i].va
  }

  lemma {:induction false} TableLookup(proof: CoreProof, candidateValue: int, oracleValue: int)
    requires SameSymbols(proof) && AddressesDiffer(proof.candidateVas)
    ensures
      var names, oracleVas := NamesByVa(proof.candidateVas), VasByName(proof.oracleVas);
      && (candidateValue in names ==> names[candidateValue] in oracleVas)
      && ((candidateValue in names && oracleVas[names[candidateValue]] == oracleValue) <==>
          exists i :: 0 <= i < |proof.candidateVas| && Follows(proof, candidateValue, oracleValue, i))
  {
    if candidateValue in NamesByVa(proof.candidateVas) {
      var i :| 0 <= i < |proof.candidateVas| && proof.candidateVas[i].va == candidateValue;
      LookupAt(proof, i);
      assert Follows(proof, candidateValue, proof.oracleVas[i].va, i);
    }
    forall i | 0 <= i < |proof.candidateVas| && Follows(proof, candidateValue, oracleValue, i)
      ensures candidateValue in NamesByVa(proof.candidateVas)
      ensures VasByName(proof.oracleVas)[NamesByVa(proof.candidateVas)[candidateValue]] == oracleValue {
      LookupAt(proof, i);
    }
  }

  lemma {:induction false} LookupAt(proof: CoreProof, i: nat)
    requires SameSymbols(proof) && AddressesDiffer(proof.candidateVas) && i < |proof.candidateVas|
    ensures
      var va, name := proof.candidateVas[i].va, proof.candidateVas[i].name;
      && va in NamesByVa(proof.candidateVas) && NamesByVa(proof.candidateVas)[va] == name
      && name in VasByName(proof.oracleVas) && VasByName(proof.oracleVas)[name] == proof.oracleVas[i].va
  {
    NameAt(proof.candidateVas, i);
    VaAt(proof.oracleVas, i);
    hide NamesByVa, VasByName, AddressesDiffer, SymbolsDiffer;
    assert proof.oracleVas[i].name == proof.candidateVas[i].name;
  }

  lemma NameAt(vas: seq<SymbolVa>, i: nat)
    requires AddressesDiffer(vas) && i < |vas|
    ensures vas[i].va in NamesByVa(vas) && NamesByVa(vas)[vas[i].va] == vas[i].name
  {
  }

  lemma VaAt(vas: seq<SymbolVa>, i: nat)
    requires SymbolsDiffer(vas) && i < |vas|
    ensures vas[i].name in VasByName(vas) && VasByName(vas)[vas[i].name] == vas[i].va
  {
  }

  /** `_outside_pointers_match`. */
  method OutsidePointersMatch(candidate: Bytes, oracle: Bytes, changed: set<nat>, proof: CoreProof) returns (ok: bool)
    requires |candidate| == |oracle| && forall site | site in changed :: site + 4 <= |candidate|
    requires SameSymbols(proof)
    ensures ok <==> PointersMatch(candidate, oracle, changed, proof)
  {
    hide Word, AddressesDiffer, SymbolsDiffer, NamesByVa, VasByName, Follows;
    if !AddressesDiffer(proof.candidateVas) {
      return false;
    }
    var names, oracleVas := NamesByVa(proof.candidateVas), VasByName(proof.oracleVas);
    var todo := changed;
    while todo != {}
      invariant todo <= changed
      invariant forall site | site in changed && site !in todo :: SiteMatches(candidate, oracle, proof, site)
      decreases |todo|
    {
      var site: nat :| site in todo;
      todo := todo - {site};
      if !InsideCore(proof, site) {
        var candidateValue, oracleValue := Word(candidate, site), Word(oracle, site);
        TableLookup(proof, candidateValue, oracleValue);
        if !OutsideCore(proof, site) || candidateValue !in names || oracleVas[names[candidateValue]] != oracleValue {
          assert !SiteMatches(candidate, oracle, proof, site);
          return false;
        }
      }
      assert SiteMatches(candidate, oracle, proof, site);
    }
    ok := true;
  }

  // ---- The reference image --------------------------------------------------------------

  /** Where the oracle has what the candidate has at this address. */
  ghost function Moved(proof: CoreProof, address: int): int
    requires |proof.candidateVas| == |proof.oracleVas|
  {
    if i :| 0 <= i < |proof.candidateVas| && proof.candidateVas[i].va == address then proof.oracleVas[i].va else address
  }

  /** One byte of the candidate with a new core and every changed outside operand moved with its symbol. */
  ghost function RelaidByte(bytes: Bytes, proof: CoreProof, core: Bytes, changed: set<nat>, offset: nat): Byte
    requires |proof.candidateVas| == |proof.oracleVas| && offset < |bytes|
    requires forall site | site in changed :: site + 4 <= |bytes|
  {
    if proof.coreStart <= offset < proof.coreStart + |core| then core[offset - proof.coreStart]
    else if site :| site in changed && Covers(site, offset) then
      var address := Moved(proof, Word(bytes, site));
      if address >= 0 then WordByte(address, offset - site) else bytes[offset]
    else bytes[offset]
  }

  ghost predicate IsRelaid(oracle: Bytes, bytes: Bytes, proof: CoreProof, core: Bytes, changed: set<nat>)
    requires |proof.candidateVas| == |proof.oracleVas| && forall site | site in changed :: site + 4 <= |bytes|
  {
    |oracle| == |bytes| && forall offset | 0 <= offset < |bytes| ::
        oracle[offset] == RelaidByte(bytes, proof, core, changed, offset)
  }

  /** A changed outside operand of the oracle holds the moved address. */
  lemma {:induction false} OutsideOperand(candidate: Image, oracle: Image, proof: CoreProof, changed: set<nat>,
                                          site: nat, offset: nat)
    requires Parsed(candidate) && Parsed(oracle) && |candidate.bytes| == |oracle.bytes| && changed <= candidate.sites
    requires PointersMatch(candidate.bytes, oracle.bytes, changed, proof) && |proof.candidateVas| == |proof.oracleVas|
    requires site in changed && Covers(site, offset) && !(proof.coreStart <= offset < proof.coreEnd)
    ensures Moved(proof, Word(candidate.bytes, site)) == Word(oracle.bytes, site)
    ensures oracle.bytes[offset] == WordByte(Word(oracle.bytes, site), offset - site)
  {
    hide Word, WordByte;
    assert SiteMatches(candidate.bytes, oracle.bytes, proof, site);
    WordBytes(oracle.bytes, site, offset - site);
  }

  /** The oracle is the candidate with its core permuted and its changed outside operands moved. */
  lemma {:induction false} OracleIsRelaid(candidate: Image, oracle: Image, debug: Image, linkMap: LinkMap, site: Site,
                                          proof: CoreProof, e: Evidence)
    requires Parsed(candidate) && Parsed(oracle) && DifferInOperands(candidate, oracle)
    requires IsCoreProof(proof, e, candidate, oracle, debug, linkMap, site) && proof.coreEnd <= |candidate.bytes|
    requires PointersMatch(candidate.bytes, oracle.bytes, ChangedSites(candidate, oracle), proof)
    ensures
      var chunks := ChunksOf(BodyOf(debug, e.debugIndex), e.run);
      && Join(chunks, Identity(|chunks|)) == candidate.bytes[proof.coreStart..proof.coreEnd]
      && Join(chunks, e.order) == oracle.bytes[proof.coreStart..proof.coreEnd]
      && (forall other | Arranges(other, chunks, oracle.bytes[proof.coreStart..proof.coreEnd]) :: other == e.order)
      && IsRelaid(oracle.bytes, candidate.bytes, proof, Join(chunks, e.order), ChangedSites(candidate, oracle))
  {
    hide Word, WordByte, PointersMatch, Unrivalled, OccursOnce, IsCompleteRun, AreNames;
    var chunks, changed := ChunksOf(BodyOf(debug, e.debugIndex), e.run), ChangedSites(candidate, oracle);
    var core := oracle.bytes[proof.coreStart..proof.coreEnd];
    assert core == Core(oracle.bytes, site.sites);
    forall other | Arranges(other, chunks, core) ensures other == e.order {
      FoundIsOnly(e.order, other, chunks, core, |chunks|);
      assert e.order[..|chunks|] == e.order && other[..|chunks|] == other;
    }
    forall offset | 0 <= offset < |candidate.bytes|
      ensures oracle.bytes[offset] == RelaidByte(candidate.bytes, proof, core, changed, offset) {
      RelaidOffset(candidate, oracle, proof, core, offset);
    }
  }

  lemma {:induction false} RelaidOffset(candidate: Image, oracle: Image, proof: CoreProof, core: Bytes, offset: nat)
    requires Parsed(candidate) && Parsed(oracle) && DifferInOperands(candidate, oracle) && offset < |candidate.bytes|
    requires |proof.candidateVas| == |proof.oracleVas| && proof.coreStart <= proof.coreEnd <= |candidate.bytes|
    requires core == oracle.bytes[proof.coreStart..proof.coreEnd]
    requires PointersMatch(candidate.bytes, oracle.bytes, ChangedSites(candidate, oracle), proof)
    ensures oracle.bytes[offset] == RelaidByte(candidate.bytes, proof, core, ChangedSites(candidate, oracle), offset)
  {
    hide Word, WordByte, PointersMatch, Moved;
    var changed := ChangedSites(candidate, oracle);
    if !(proof.coreStart <= offset < proof.coreEnd) {
      forall site | site in changed && Covers(site, offset)
        ensures Moved(proof, Word(candidate.bytes, site)) == Word(oracle.bytes, site)
        ensures oracle.bytes[offset] == WordByte(Word(oracle.bytes, site), offset - site) {
        OutsideOperand(candidate, oracle, proof, changed, site, offset);
      }
      if candidate.bytes[offset] != oracle.bytes[offset] {
        assert Owned(candidate.sites, offset);
        var site :| site in candidate.sites && Covers(site, offset);
        OwnerChanged(candidate, oracle, offset, site);
      }
    }
  }

  /** Each symbol names the same bytes at its old address in the candidate and its new one in the oracle. */
  lemma {:induction false} SymbolsKeepTheirBytes(candidate: Image, oracle: Image, debug: Image, linkMap: LinkMap,
                                                 site: Site, proof: CoreProof, e: Evidence, k: nat)
    requires Parsed(candidate) && Parsed(oracle) && |candidate.bytes| == |oracle.bytes|
    requires IsCoreProof(proof, e, candidate, oracle, debug, linkMap, site) && proof.coreEnd <= |candidate.bytes|
    requires k < |e.order|
    ensures
      var chunks, base := ChunksOf(BodyOf(debug, e.debugIndex), e.run), BaseVa(candidate.headers.imageBase, site);
      var i := e.order[k];
      var from, to := proof.candidateVas[i].va - base, proof.oracleVas[i].va - base;
      && from >= 0 && to >= 0
      && StartsAt(candidate.bytes, chunks[i], proof.coreStart + from)
      && StartsAt(oracle.bytes, chunks[i], proof.coreStart + to)
  {
    hide Unrivalled, OccursOnce, IsCompleteRun, OnlyPublic, StartsAt, IsInitializedData, SortByOffset, Join, BodyOf,
        Records;
    var chunks := ChunksOf(BodyOf(debug, e.debugIndex), e.run);
    RecordedAt(proof, e.names, chunks, e.order, BaseVa(candidate.headers.imageBase, site), k);
    PlacedAt(chunks, Identity(|chunks|), candidate.bytes, proof.coreStart, proof.coreEnd, e.order[k]);
    PlacedAt(chunks, e.order, oracle.bytes, proof.coreStart, proof.coreEnd, k);
  }

  // ---- The one proven run ------------------------------------------------------------------

  /** A run that has a core proof whose outside operands match. */
  ghost predicate Supports(proof: CoreProof, e: Evidence, candidate: Image, oracle: Image, debug: Image,
                           linkMap: LinkMap, site: Site)
    requires Parsed(candidate) && Parsed(oracle) && |candidate.bytes| == |oracle.bytes|
  {
    && IsCoreProof(proof, e, candidate, oracle, debug, linkMap, site)
    && PointersMatch(candidate.bytes, oracle.bytes, ChangedSites(candidate, oracle), proof)
  }

  /** A run has at most one core proof. */
  lemma {:induction false} ProofIsUnique(proof: CoreProof, e: Evidence, other: CoreProof, f: Evidence,
                      candidate: Image, oracle: Image, debug: Image, linkMap: LinkMap, site: Site)
    requires IsCoreProof(proof, e, candidate, oracle, debug, linkMap, site)
    requires IsCoreProof(other, f, candidate, oracle, debug, linkMap, site)
    ensures proof == other && e == f
  {
    hide SortByOffset, Overlapping, IsInitializedData, IsCompleteRun, Join, Records, OnlyPublic, Unrivalled;
    assert e.debugIndex == f.debugIndex && e.debugStart == f.debugStart && e.run == f.run;
    NamesAreUnique(e.names, f.names, linkMap.publics, e.run);
    var chunks, core := ChunksOf(BodyOf(debug, e.debugIndex), e.run), Core(oracle.bytes, site.sites);
    FoundIsOnly(e.order, f.order, chunks, core, |chunks|);
    assert e.order[..|chunks|] == e.order && f.order[..|chunks|] == f.order;
    RecordsAreUnique(proof, other, e.names, chunks, e.order, BaseVa(candidate.headers.imageBase, site));
  }

  lemma {:induction false} RecordsAreUnique(proof: CoreProof, other: CoreProof, names: seq<string>,
                                            chunks: seq<Bytes>, order: seq<nat>, base: int)
    requires |names| == |chunks| && IsPermutation(order, |chunks|)
    requires Records(proof, names, chunks, order, base) && Records(other, names, chunks, order, base)
    ensures proof.desired == other.desired && proof.candidateVas == other.candidateVas
    ensures proof.oracleVas == other.oracleVas
  {
    hide Join;
    forall i | 0 <= i < |names| ensures proof.oracleVas[i] == other.oracleVas[i] {
      PermutationCovers(order, |names|, i);
      var k :| 0 <= k < |order| && order[k] == i;
    }
  }

  lemma {:induction false} ProofListsSymbols(proof: CoreProof, names: seq<string>, chunks: seq<Bytes>,
                                             order: seq<nat>, base: int)
    requires |names| == |chunks| && IsPermutation(order, |chunks|) && NamesDiffer(names)
    requires Records(proof, names, chunks, order, base)
    ensures SameSymbols(proof)
  {
    hide Join;
    forall i | 0 <= i < |names| ensures proof.oracleVas[i].name == names[i] {
      PermutationCovers(order, |names|, i);
      var k :| 0 <= k < |order| && order[k] == i;
    }
  }

  /** Only this run is supported. */
  ghost predicate OnlySupported(i: nat, candidate: Image, oracle: Image, debug: Image, linkMap: LinkMap,
                                runs: seq<Site>)
    requires Parsed(candidate) && Parsed(oracle) && |candidate.bytes| == |oracle.bytes|
  {
    && i < |runs| && Supported(candidate, oracle, debug, linkMap, runs[i])
    && forall j | 0 <= j < |runs| && j != i :: !Supported(candidate, oracle, debug, linkMap, runs[j])
  }

  ghost predicate Supported(candidate: Image, oracle: Image, debug: Image, linkMap: LinkMap, site: Site)
    requires Parsed(candidate) && Parsed(oracle) && |candidate.bytes| == |oracle.bytes|
  {
    exists proof, e :: Supports(proof, e, candidate, oracle, debug, linkMap, site)
  }

  /** One run: its core proof, kept when the outside operands match. */
  method TryRun(candidate: Image, oracle: Image, debug: Image, linkMap: LinkMap, site: Site)
    returns (proof: Option<CoreProof>, ghost e: Evidence)
    requires Parsed(candidate) && Parsed(oracle) && |candidate.bytes| == |oracle.bytes|
    ensures proof.Some? <==> Supported(candidate, oracle, debug, linkMap, site)
    ensures proof.Some? ==> Supports(proof.value, e, candidate, oracle, debug, linkMap, site)
  {
    hide IsEvidence, Records, PointersMatch, SameSymbols;
    proof, e := ProveCore(candidate, oracle, debug, linkMap, site);
    if proof.Some? {
      ProofHasSymbols(proof.value, e, candidate, oracle, debug, linkMap, site);
      var matching := OutsidePointersMatch(candidate.bytes, oracle.bytes, ChangedSites(candidate, oracle), proof.value);
      if matching {
        assert Supports(proof.value, e, candidate, oracle, debug, linkMap, site);
      } else {
        forall other, f ensures !Supports(other, f, candidate, oracle, debug, linkMap, site) {
          if IsCoreProof(other, f, candidate, oracle, debug, linkMap, site) {
            ProofIsUnique(proof.value, e, other, f, candidate, oracle, debug, linkMap, site);
          }
        }
        proof := None;
      }
    }
  }

  lemma {:induction false} ProofHasSymbols(proof: CoreProof, e: Evidence, candidate: Image, oracle: Image,
                                           debug: Image, linkMap: LinkMap, site: Site)
    requires IsCoreProof(proof, e, candidate, oracle, debug, linkMap, site)
    ensures SameSymbols(proof)
  {
    hide Records, Join, SameSymbols, OnlyPublic, NamesDiffer;
    ProofListsSymbols(proof, e.names, ChunksOf(BodyOf(debug, e.debugIndex), e.run), e.order,
                      BaseVa(candidate.headers.imageBase, site));
  }

  /**
   The diagnosis: a proof is returned exactly when the images differ only in operands, each changed one lies
   in one section, and one maximal run of them alone is supported; the oracle is then the candidate relaid by
   that proof.
   */
  method DeriveLayout(candidate: Image, oracle: Image, debug: Image, linkMap: LinkMap)
    returns (proof: Option<CoreProof>, ghost e: Evidence, ghost runs: seq<Site>, ghost at: nat)
    requires Parsed(candidate) && Parsed(oracle)
    ensures proof.Some? <==>
              Diagnosable(candidate, oracle) && exists i: nat ::
                  OnlySupported(i, candidate, oracle, debug, linkMap, runs)
    ensures Diagnosable(candidate, oracle) ==>
              AreChangedRuns(runs, candidate.headers.sections, ChangedSites(candidate, oracle),
                             |candidate.headers.sections|)
    ensures proof.Some? ==> at < |runs| && Supports(proof.value, e, candidate, oracle, debug, linkMap, runs[at])
    ensures proof.Some? ==>
              IsRelaid(oracle.bytes, candidate.bytes, proof.value,
                       Join(ChunksOf(BodyOf(debug, e.debugIndex), e.run), e.order),
                       ChangedSites(candidate, oracle))
    ensures proof.Some? ==>
              SymbolsAreLoaded(candidate, oracle, proof.value, e.names, ChunksOf(BodyOf(debug, e.debugIndex), e.run))
  {
    hide SymbolsAreLoaded, IsEvidence, Records, PointersMatch, IsRelaid, Supported, ChangedSites, AreChangedRuns,
        EachHeldOnce;
    at, e, runs := 0, Evidence(0, 0, [], [], []), [];
    var changed := ImageDifference(candidate, oracle);
    if changed.None? {
      return None, e, runs, at;
    }
    ChangedAreApart(candidate, oracle);
    var changedRuns := ChangedRuns(candidate.headers.sections, changed.value);
    if changedRuns.None? {
      return None, e, runs, at;
    }
    var tried := changedRuns.value;
    runs := tried;
    var proofs: seq<CoreProof> := [];
    ghost var supported: seq<nat> := [];
    for i := 0 to |tried|
      invariant |proofs| == |supported|
      invariant forall k | 0 <= k < |supported| ::
                  supported[k] < i && Supported(candidate, oracle, debug, linkMap, runs[supported[k]])
      invariant forall j | 0 <= j < i && Supported(candidate, oracle, debug, linkMap, runs[j]) :: j in supported
      invariant forall k, m | 0 <= k < m < |supported| :: supported[k] != supported[m]
      invariant |proofs| == 1 ==>
                  at == supported[0] && Supports(proofs[0], e, candidate, oracle, debug, linkMap, runs[at])
    {
      ghost var f: Evidence;
      var found: Option<CoreProof>;
      found, f := TryRun(candidate, oracle, debug, linkMap, tried[i]);
      if found.Some? {
        if proofs == [] {
          at, e := i, f;
        }
        proofs, supported := proofs + [found.value], supported + [i];
      }
    }
    if |proofs| != 1 {
      assert forall i: nat | OnlySupported(i, candidate, oracle, debug, linkMap, runs) :: i in supported;
      assert |supported| > 1 ==> supported[0] != supported[1];
      assert forall k | 0 <= k < |supported| :: Supported(candidate, oracle, debug, linkMap, runs[supported[k]]);
      return None, e, runs, at;
    }
    assert OnlySupported(at, candidate, oracle, debug, linkMap, runs);
    proof := Some(proofs[0]);
    RunIsInBytes(candidate, oracle, runs, at);
    ProvenIsRelaid(candidate, oracle, debug, linkMap, runs[at], proofs[0], e);
    ProofIsLoaded(candidate, oracle, debug, linkMap, runs[at], proofs[0], e);
  }

  /** The images differ only in operands, and each changed one lies in one section. */
  ghost predicate Diagnosable(candidate: Image, oracle: Image)
    requires Parsed(candidate) && Parsed(oracle)
  {
    DifferInOperands(candidate, oracle) && EachHeldOnce(candidate.headers.sections, ChangedSites(candidate, oracle))
  }

  lemma ChangedAreApart(candidate: Image, oracle: Image)
    requires Parsed(candidate) && Parsed(oracle) && DifferInOperands(candidate, oracle)
    ensures Apart(ChangedSites(candidate, oracle))
  {
  }

  lemma {:induction false} RunIsInBytes(candidate: Image, oracle: Image, runs: seq<Site>, at: nat)
    requires Parsed(candidate) && Parsed(oracle) && DifferInOperands(candidate, oracle) && at < |runs|
    requires AreChangedRuns(runs, candidate.headers.sections, ChangedSites(candidate, oracle),
                            |candidate.headers.sections|)
    ensures IsRun(runs[at].sites) && runs[at].sites[|runs[at].sites| - 1] + 4 <= |candidate.bytes|
    ensures InSection(candidate, runs[at])
  {
    hide HasBytes;
    assert IsChangedRun(runs[at], candidate.headers.sections, ChangedSites(candidate, oracle));
    var last := runs[at].sites[|runs[at].sites| - 1];
    assert last in runs[at].sites;
    assert last in DataSites(candidate.headers.sections, ChangedSites(candidate, oracle), runs[at].index);
    assert runs[at].sites[0] in DataSites(candidate.headers.sections, ChangedSites(candidate, oracle), runs[at].index);
    HoldsItsBytes(runs[at].section, runs[at].sites[0]);
    HoldsItsBytes(runs[at].section, last);
  }

  lemma {:induction false} ProvenIsRelaid(candidate: Image, oracle: Image, debug: Image, linkMap: LinkMap, site: Site,
                                          proof: CoreProof, e: Evidence)
    requires Parsed(candidate) && Parsed(oracle) && DifferInOperands(candidate, oracle)
    requires Supports(proof, e, candidate, oracle, debug, linkMap, site) && proof.coreEnd <= |candidate.bytes|
    ensures IsRelaid(oracle.bytes, candidate.bytes, proof, Join(ChunksOf(BodyOf(debug, e.debugIndex), e.run), e.order),
                     ChangedSites(candidate, oracle))
  {
    hide IsEvidence, PointersMatch, IsRelaid, ChangedSites;
    OracleIsRelaid(candidate, oracle, debug, linkMap, site, proof, e);
  }

  // ---- The compiler -----------------------------------------------------------------------------

  /** A producer of the build: its object is named by a case-folded build reference. */
  datatype Producer = Producer(id: string, isCompiler: bool, product: string)

  datatype Hint = Hint(compiler: string, desired: seq<string>)

  /** This compiler alone makes the object. */
  predicate OnlyMaker(producers: seq<Producer>, product: string, i: nat) {
    && i < |producers| && producers[i].isCompiler && producers[i].product == product
    && forall j | 0 <= j < |producers| && producers[j].isCompiler && producers[j].product == product :: j == i
  }

  /** The module's object lies in the build, one compiler makes it, and the target links that compiler. */
  ghost predicate Owns(id: string, producers: seq<Producer>, linked: set<string>, modules: seq<Option<string>>,
                       index: nat) {
    && index < |modules| && modules[index].Some? && id in linked
    && exists i: nat :: OnlyMaker(producers, modules[index].value, i) && producers[i].id == id
  }

  /** `_compiler_owner`, for the module of a proof. */
  method CompilerOwner(producers: seq<Producer>, linked: set<string>, modules: seq<Option<string>>, index: nat)
    returns (owner: Option<string>)
    ensures forall id :: Owns(id, producers, linked, modules, index) <==> owner == Some(id)
  {
    if index >= |modules| || modules[index].None? {
      return None;
    }
    var product := modules[index].value;
    var at: Option<nat> := None;
    for i := 0 to |producers|
      invariant at.Some? ==>
                  at.value < i && producers[at.value].isCompiler && producers[at.value].product == product
      invariant forall j | 0 <= j < i && producers[j].isCompiler && producers[j].product == product :: at == Some(j)
    {
      if producers[i].isCompiler && producers[i].product == product {
        if at.Some? {
          return None;
        }
        at := Some(i);
      }
    }
    if at.None? || producers[at.value].id !in linked {
      return None;
    }
    assert OnlyMaker(producers, product, at.value);
    owner := Some(producers[at.value].id);
  }

  /** `_derive_classic_link_layout_hint`: the proven order, and the one compiler whose object it is. */
  method DeriveHint(candidate: Image, oracle: Image, debug: Image, linkMap: LinkMap, producers: seq<Producer>,
                    linked: set<string>, modules: seq<Option<string>>)
    returns (hint: Option<Hint>, ghost proof: Option<CoreProof>, ghost e: Evidence, ghost runs: seq<Site>,
             ghost at: nat)
    requires Parsed(candidate) && Parsed(oracle)
    ensures proof.Some? <==>
              Diagnosable(candidate, oracle) && exists i: nat ::
                  OnlySupported(i, candidate, oracle, debug, linkMap, runs)
    ensures Diagnosable(candidate, oracle) ==>
              AreChangedRuns(runs, candidate.headers.sections, ChangedSites(candidate, oracle),
                             |candidate.headers.sections|)
    ensures proof.Some? ==> at < |runs| && Supports(proof.value, e, candidate, oracle, debug, linkMap, runs[at])
    ensures proof.Some? ==>
              SymbolsAreLoaded(candidate, oracle, proof.value, e.names, ChunksOf(BodyOf(debug, e.debugIndex), e.run))
    ensures forall id, desired :: hint == Some(Hint(id, desired)) <==>
              proof.Some? && desired == proof.value.desired
                  && Owns(id, producers, linked, modules, proof.value.moduleIndex)
  {
    hide SymbolsAreLoaded, AreChangedRuns, Supports, OnlySupported, Diagnosable, Owns;
    var found: Option<CoreProof>;
    found, e, runs, at := DeriveLayout(candidate, oracle, debug, linkMap);
    proof := found;
    if found.None? {
      return None, proof, e, runs, at;
    }
    var owner := CompilerOwner(producers, linked, modules, found.value.moduleIndex);
    hint := if owner.Some? then Some(Hint(owner.value, found.value.desired)) else None;
  }
}
