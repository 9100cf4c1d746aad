/** The hint of a projected transform: one path table shared by the traces of all donors. */
module DonorHints {
  import opened Options
  import opened Traces
  import opened JsonValues
  import opened DependencyHints

  const DONOR_FIELDS := {"donor_id", "working_directory", "sources"}
  const TRANSFORM_FIELDS := {"schema", "base_key", "paths", "donors", "certifying"}

  predicate LexLess(a: string, b: string) {
    b != [] && (a == [] || a[0] < b[0] || (a[0] == b[0] && LexLess(a[1..], b[1..])))
  }

  /** `_require_canonical_donor_ids`: named, and strictly increasing under case folding. */
  predicate CanonicalIds(fold: string -> string, ids: seq<string>) {
    && ids != []
    && (forall i | 0 <= i < |ids| :: IsName(ids[i]))
    && (forall i, j | 0 <= i < j < |ids| :: LexLess(fold(ids[i]), fold(ids[j])))
  }

  function IdsOf(donors: seq<DonorTrace>): seq<string> {
    seq(|donors|, i requires 0 <= i < |donors| => donors[i].donorId)
  }

  // ---- Encoding and decoding ---------------------------------------------

  function DonorJson(donor: DonorTrace, entries: seq<Json>): Json {
    Object(map[
      "donor_id" := Text(donor.donorId),
      "working_directory" := Text(donor.workingDirectory),
      "sources" := Array(entries)])
  }

  /** The donors in order, each continuing the table of the donors before it. */
  function DonorsJson(donors: seq<DonorTrace>): (r: (seq<Json>, seq<string>))
    ensures |r.0| == |donors|
  {
    if donors == [] then ([], [])
    else
      var n := |donors| - 1;
      var (earlier, table) := DonorsJson(donors[..n]);
      var (entries, grown) := TopologyJson(donors[n].sources, table);
      (earlier + [DonorJson(donors[n], entries)], grown)
  }

  function TransformJson(hint: DonorHint): Json {
    var (donors, paths) := DonorsJson(hint.donors);
    Object(map[
      "schema" := Int(2),
      "base_key" := Text(hint.baseKey),
      "paths" := PathsJson(paths),
      "donors" := Array(donors),
      "certifying" := Bool(false)])
  }

  /** One donor and how many paths are in use after it. */
  function ParseDonor(value: Json, paths: seq<string>, used: nat): Option<(DonorTrace, nat)> {
    if !value.Object? || value.fields.Keys != DONOR_FIELDS then None
    else
      var id, directory, sources := value.fields["donor_id"], value.fields["working_directory"],
          value.fields["sources"];
      if !id.Text? || !IsName(id.text) || !directory.Text? || directory.text == "" then None
      else if !sources.Array? || sources.items == [] then None
      else
        var parsed := ParseTopology(sources.items, paths, used);
        if parsed.None? then None
        else Some((DonorTrace(id.text, directory.text, parsed.value.0), parsed.value.1))
  }

  function ParseDonors(values: seq<Json>, paths: seq<string>): (r: Option<(seq<DonorTrace>, nat)>)
    ensures r.Some? ==> |r.value.0| == |values|
  {
    if values == [] then Some(([], 0))
    else
      var n := |values| - 1;
      var earlier := ParseDonors(values[..n], paths);
      if earlier.None? then None
      else
        var donor := ParseDonor(values[n], paths, earlier.value.1);
        if donor.None? then None else Some((earlier.value.0 + [donor.value.0], donor.value.1))
  }

  /** `DonorTransformDependencyHint.from_record` (src/reprobit/classic_cache.py:224-291). */
  function ParseTransform(fold: string -> string, document: Json): Option<DonorHint> {
    if !document.Object? || document.fields.Keys != TRANSFORM_FIELDS then None
    else
      var raw := document.fields;
      if !HasHeader(raw) || !raw["donors"].Array? || raw["donors"].items == [] then None
      else
        var paths := ParsePaths(raw["paths"]);
        if paths.None? then None
        else
          var donors := ParseDonors(raw["donors"].items, paths.value);
          if donors.None? || donors.value.1 != |paths.value| || !CanonicalIds(fold, IdsOf(donors.value.0)) then None
          else Some(DonorHint(raw["base_key"].text, donors.value.0))
  }

  // ---- Round trips ------------------------------------------------------

  predicate IsDonor(donor: DonorTrace) {
    && IsName(donor.donorId) && donor.workingDirectory != ""
    && donor.sources != [] && ParentsPrecede(donor.sources)
  }

  predicate AllDonors(donors: seq<DonorTrace>) {
    forall i | 0 <= i < |donors| :: IsDonor(donors[i])
  }

  lemma AllDonorsSplit(donors: seq<DonorTrace>)
    ensures donors == [] ==> AllDonors(donors)
    ensures donors != [] ==> (AllDonors(donors) <==> AllDonors(donors[..|donors| - 1]) && IsDonor(donors[|donors| - 1]))
  {
  }

  /** Some position decides: before it the texts agree, and there the first ends or has the smaller character. */
  predicate ComesBefore(a: string, b: string) {
    exists k | 0 <= k < |b| ::
      k <= |a| && a[..k] == b[..k] && (k == |a| || a[k] < b[k])
  }

  lemma {:induction false} LexLessIs(a: string, b: string)
    ensures LexLess(a, b) <==> ComesBefore(a, b)
  {
    if b != [] && a != [] && a[0] == b[0] {
      LexLessIs(a[1..], b[1..]);
      if ComesBefore(a[1..], b[1..]) {
        var k :| 0 <= k < |b[1..]| && k <= |a[1..]| && a[1..][..k] == b[1..][..k]
            && (k == |a[1..]| || a[1..][k] < b[1..][k]);
        assert a[..k + 1] == [a[0]] + a[1..][..k] == b[..k + 1];
      }
      if ComesBefore(a, b) {
        var k :| 0 <= k < |b| && k <= |a| && a[..k] == b[..k] && (k == |a| || a[k] < b[k]);
        assert a[1..][..k - 1] == a[..k][1..] == b[1..][..k - 1];
      }
    } else if b != [] {
      assert a[..0] == b[..0];
      assert forall k | 0 < k <= |a| && k <= |b| :: a[..k][0] == a[0] && b[..k][0] == b[0];
    }
  }

  /** A key, and donors by strictly ascending folded id, each named, with a directory and sources. */
  predicate IsTransformHint(fold: string -> string, hint: DonorHint) {
    && IsKeyText(hint.baseKey) && hint.donors != []
    && (forall i, j | 0 <= i < j < |hint.donors| ::
          ComesBefore(fold(hint.donors[i].donorId), fold(hint.donors[j].donorId)))
    && forall d | 0 <= d < |hint.donors| ::
         && hint.donors[d].donorId != ""
         && (forall k | 0 <= k < |hint.donors[d].donorId| :: hint.donors[d].donorId[k] != '\0')
         && hint.donors[d].workingDirectory != "" && AreSources(hint.donors[d].sources)
  }

  /** What the loops check, one after another. */
  predicate PassesChecks(fold: string -> string, hint: DonorHint) {
    && IsHexKey(hint.baseKey)
    && CanonicalIds(fold, IdsOf(hint.donors))
    && AllDonors(hint.donors)
    && forall i | 0 <= i < |hint.donors| :: AllNamed(hint.donors[i].sources)
  }

  lemma {:induction false} DonorIsGood(donor: DonorTrace)
    ensures IsDonor(donor) && AllNamed(donor.sources) <==>
            && donor.donorId != "" && (forall k | 0 <= k < |donor.donorId| :: donor.donorId[k] != '\0')
            && donor.workingDirectory != "" && AreSources(donor.sources)
  {
    hide AllNamed, ParentsPrecede, AreSources;
    SourcesAreNamed(donor.sources);
  }

  lemma {:induction false} ChecksAreForm(fold: string -> string, hint: DonorHint)
    ensures PassesChecks(fold, hint) <==> IsTransformHint(fold, hint)
  {
    hide IsHexKey, IsKeyText, AllNamed, AreSources, LexLess, ComesBefore, IsDonor, IsName;
    KeyTextIsHex(hint.baseKey);
    var donors := hint.donors;
    forall d | 0 <= d < |donors|
      ensures IsDonor(donors[d]) && AllNamed(donors[d].sources) <==>
              && donors[d].donorId != "" && (forall k | 0 <= k < |donors[d].donorId| :: donors[d].donorId[k] != '\0')
              && donors[d].workingDirectory != "" && AreSources(donors[d].sources) {
      DonorIsGood(donors[d]);
    }
    forall d | 0 <= d < |donors| ensures IsDonor(donors[d]) ==> IsName(donors[d].donorId) {
      DonorIsNamed(donors[d]);
    }
    forall i, j | 0 <= i < j < |donors|
      ensures LexLess(fold(IdsOf(donors)[i]), fold(IdsOf(donors)[j])) <==>
              ComesBefore(fold(donors[i].donorId), fold(donors[j].donorId)) {
      LexLessIs(fold(donors[i].donorId), fold(donors[j].donorId));
    }
  }

  lemma DonorIsNamed(donor: DonorTrace)
    ensures IsDonor(donor) ==> IsName(donor.donorId)
  {
  }

  lemma {:induction false} DonorTableGrows(donors: seq<DonorTrace>)
    ensures NoRepeats(DonorsJson(donors).1)
    ensures (forall path | path in DonorsJson(donors).1 :: IsName(path)) <==>
            forall i | 0 <= i < |donors| :: AllNamed(donors[i].sources)
    ensures forall i | 0 <= i < |donors| :: donors[i].sources != [] ==> DonorsJson(donors).1 != []
  {
    hide TopologyJson, IsName, AllNamed;
    if donors != [] {
      var n := |donors| - 1;
      DonorTableGrows(donors[..n]);
      var (entries, table) := DonorsJson(donors[..n]);
      TableGrows(donors[n].sources, table);
      NamedMentions(donors[n].sources);
      var grown := TopologyJson(donors[n].sources, table).1;
      assert forall path | path in table :: path in grown;
      assert forall path | Mentions(donors[n].sources, path) :: path in grown;
      if donors[n].sources != [] {
        assert Mentions(donors[n].sources, donors[n].sources[|donors[n].sources| - 1].rawPath);
      }
      assert forall i | 0 <= i < n :: donors[..n][i] == donors[i];
    }
  }

  lemma {:induction false} ParseDonorJson(donor: DonorTrace, table: seq<string>, paths: seq<string>)
    requires NoRepeats(table) && TopologyJson(donor.sources, table).1 <= paths
    ensures ParseDonor(DonorJson(donor, TopologyJson(donor.sources, table).0), paths, |table|) ==
            if IsDonor(donor) then Some((donor, |TopologyJson(donor.sources, table).1|)) else None
  {
    hide ParseTopology, TopologyJson;
    ParseTopologyJson(donor.sources, table, paths);
  }

  lemma {:induction false} ParseDonorsJson(donors: seq<DonorTrace>, paths: seq<string>)
    requires DonorsJson(donors).1 <= paths
    ensures ParseDonors(DonorsJson(donors).0, paths) ==
            if AllDonors(donors) then Some((donors, |DonorsJson(donors).1|)) else None
  {
    hide ParseDonor, DonorJson, TopologyJson, AllDonors;
    AllDonorsSplit(donors);
    if donors != [] {
      var n := |donors| - 1;
      var (earlier, table) := DonorsJson(donors[..n]);
      DonorTableGrows(donors[..n]);
      TableGrows(donors[n].sources, table);
      ParseDonorsJson(donors[..n], paths);
      ParseDonorJson(donors[n], table, paths);
      assert DonorsJson(donors).0[..n] == earlier;
      assert donors == donors[..n] + [donors[n]];
    }
  }

  /** Decoding an encoded hint gives it back exactly when it is well formed, and fails otherwise. */
  lemma {:induction false} ParseTransformJson(fold: string -> string, hint: DonorHint)
    ensures ParseTransform(fold, TransformJson(hint)) == if IsTransformHint(fold, hint) then Some(hint) else None
  {
    hide DonorsJson, ParseDonors, ParsePaths, IsHexKey, LexLess, IsName, AllNamed, IsTransformHint;
    ChecksAreForm(fold, hint);
    var (donors, paths) := DonorsJson(hint.donors);
    DonorTableGrows(hint.donors);
    PathsRoundTrip(paths);
    ParseDonorsJson(hint.donors, paths);
    var document := TransformJson(hint);
    assert document.fields["paths"] == PathsJson(paths) && document.fields["donors"] == Array(donors);
    if hint.donors != [] && AllDonors(hint.donors) {
      assert IsDonor(hint.donors[0]);
      assert paths != [];
    }
  }

  lemma {:induction false} DonorJsonParse(value: Json, paths: seq<string>, used: nat)
    requires NoRepeats(paths) && used <= |paths| && ParseDonor(value, paths, used).Some?
    ensures
      var (donor, final) := ParseDonor(value, paths, used).value;
      && used <= final <= |paths|
      && IsDonor(donor)
      && TopologyJson(donor.sources, paths[..used]).1 == paths[..final]
      && DonorJson(donor, TopologyJson(donor.sources, paths[..used]).0) == value
  {
    hide ParseTopology, TopologyJson;
    TopologyJsonParse(value.fields["sources"].items, paths, used);
    var (donor, final) := ParseDonor(value, paths, used).value;
    assert DonorJson(donor, TopologyJson(donor.sources, paths[..used]).0).fields == value.fields;
  }

  lemma {:induction false} DonorsJsonParse(values: seq<Json>, paths: seq<string>)
    requires NoRepeats(paths) && ParseDonors(values, paths).Some?
    ensures
      var (donors, used) := ParseDonors(values, paths).value;
      && used <= |paths|
      && DonorsJson(donors) == (values, paths[..used])
      && AllDonors(donors)
  {
    hide ParseDonor, DonorJson, TopologyJson, IsDonor;
    if values != [] {
      var n := |values| - 1;
      DonorsJsonParse(values[..n], paths);
      var (earlier, used) := ParseDonors(values[..n], paths).value;
      DonorJsonParse(values[n], paths, used);
      var (donors, final) := ParseDonors(values, paths).value;
      assert donors[..n] == earlier;
      assert values == values[..n] + [values[n]];
    }
  }

  /** An entry names its path's place in the table and then its parent. */
  predicate EntryReads(entry: Json, paths: seq<string>, source: Source) {
    && entry.Array? && |entry.items| == 2
    && entry.items[0].Int? && 0 <= entry.items[0].number < |paths| && paths[entry.items[0].number] == source.rawPath
    && entry.items[1] == if source.parent.None? then Null else Int(source.parent.value)
  }

  lemma {:induction false} DonorEntriesRead(donors: seq<DonorTrace>, d: nat, i: nat)
    requires d < |donors| && i < |donors[d].sources|
    ensures
      var (values, paths) := DonorsJson(donors);
      && values[d].Object? && values[d].fields.Keys == {"donor_id", "working_directory", "sources"}
      && values[d].fields["donor_id"] == Text(donors[d].donorId)
      && values[d].fields["working_directory"] == Text(donors[d].workingDirectory)
      && values[d].fields["sources"].Array? && |values[d].fields["sources"].items| == |donors[d].sources|
      && EntryReads(values[d].fields["sources"].items[i], paths, donors[d].sources[i])
  {
    hide TopologyJson;
    var n := |donors| - 1;
    var (earlier, table) := DonorsJson(donors[..n]);
    DonorTableGrows(donors[..n]);
    TableGrows(donors[n].sources, table);
    if d < n {
      DonorEntriesRead(donors[..n], d, i);
    } else {
      EntriesRead(donors[n].sources, table, i);
    }
  }

  /** The fields of a document: one path table, and each donor's sources as entries into it. */
  lemma {:induction false} TransformJsonReads(hint: DonorHint, d: nat, i: nat)
    requires d < |hint.donors| && i < |hint.donors[d].sources|
    ensures
      var raw := TransformJson(hint).fields;
      && raw.Keys == {"schema", "base_key", "paths", "donors", "certifying"}
      && raw["schema"] == Int(2) && raw["certifying"] == Bool(false) && raw["base_key"] == Text(hint.baseKey)
      && raw["paths"].Array? && raw["donors"].Array? && |raw["donors"].items| == |hint.donors|
      && var donor := raw["donors"].items[d];
      && donor.Object? && donor.fields.Keys == {"donor_id", "working_directory", "sources"}
      && donor.fields["donor_id"] == Text(hint.donors[d].donorId)
      && donor.fields["working_directory"] == Text(hint.donors[d].workingDirectory)
      && donor.fields["sources"].Array? && |donor.fields["sources"].items| == |hint.donors[d].sources|
      && var entry := donor.fields["sources"].items[i];
      && entry.Array? && |entry.items| == 2
      && entry.items[0].Int? && 0 <= entry.items[0].number < |raw["paths"].items|
      && raw["paths"].items[entry.items[0].number] == Text(hint.donors[d].sources[i].rawPath)
      && entry.items[1] == if hint.donors[d].sources[i].parent.None? then Null
           else Int(hint.donors[d].sources[i].parent.value)
  {
    hide DonorsJson;
    DonorEntriesRead(hint.donors, d, i);
  }

  /** Encoding an accepted document gives it back exactly when its schema is the integer 2. */
  lemma {:induction false} TransformJsonParse(fold: string -> string, document: Json)
    requires ParseTransform(fold, document).Some?
    ensures IsTransformHint(fold, ParseTransform(fold, document).value)
    ensures TransformJson(ParseTransform(fold, document).value) == document <==> document.fields["schema"] == Int(2)
  {
    hide DonorsJson, ParseDonors, ParsePaths, PathsJson, IsHexKey, CanonicalIds, IsTransformHint;
    ChecksAreForm(fold, ParseTransform(fold, document).value);
    var raw := document.fields;
    var paths := ParsePaths(raw["paths"]).value;
    PathsJsonParse(raw["paths"]);
    DonorsJsonParse(raw["donors"].items, paths);
    var hint := ParseTransform(fold, document).value;
    assert paths[..|paths|] == paths;
    DonorTableGrows(hint.donors);
    var again := TransformJson(hint).fields;
    assert forall field | field in TRANSFORM_FIELDS && field != "schema" :: again[field] == raw[field];
    if raw["schema"] == Int(2) {
      assert again == raw;
    }
  }

  // ---- The loop that builds the document ---------------------------------

  /** `DonorTransformDependencyHint.as_json` (src/reprobit/classic_cache.py:200-222). */
  method BuildTransformJson(hint: DonorHint) returns (document: Json)
    ensures document == TransformJson(hint)
  {
    var table := new PathTable();
    var donors: seq<Json> := [];
    for i := 0 to |hint.donors|
      invariant table.Valid()
      invariant (donors, table.paths) == DonorsJson(hint.donors[..i])
    {
      assert hint.donors[..i + 1][..i] == hint.donors[..i];
      var entries := table.Intern(hint.donors[i].sources);
      donors := donors + [DonorJson(hint.donors[i], entries)];
    }
    assert hint.donors[..|hint.donors|] == hint.donors;
    document := Object(map[
      "schema" := Int(2),
      "base_key" := Text(hint.baseKey),
      "paths" := PathsJson(table.paths),
      "donors" := Array(donors),
      "certifying" := Bool(false)]);
  }
}
