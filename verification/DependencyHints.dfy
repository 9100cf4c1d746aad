/**
 The two dependency-hint documents: source lists whose paths are interned in one table,
 shared by all donors of a transform, in the order of first use.
 */
module DependencyHints {
  import opened Options
  import opened Traces
  import opened JsonValues

  datatype CompilerHint = CompilerHint(baseKey: string, workingDirectory: string, sources: seq<Source>)

  datatype DonorTrace = DonorTrace(donorId: string, workingDirectory: string, sources: seq<Source>)

  datatype DonorHint = DonorHint(baseKey: string, donors: seq<DonorTrace>)

  predicate NoRepeats(paths: seq<string>) {
    forall i, j | 0 <= i < j < |paths| :: paths[i] != paths[j]
  }

  predicate IsHexKey(key: string) {
    |key| == 64 && forall i | 0 <= i < 64 :: key[i] in "0123456789abcdef"
  }

  predicate IsName(text: string) {
    text != "" && '\0' !in text
  }

  // ---- Interning --------------------------------------------------------

  /** The position of a path in the table, or the length of the table. */
  function IndexIn(table: seq<string>, path: string): (index: nat)
    ensures index <= |table|
    ensures index < |table| ==> table[index] == path
    ensures index == |table| <==> path !in table
  {
    if table == [] then 0
    else if table[0] == path then 0
    else 1 + IndexIn(table[1..], path)
  }

  function ParentJson(parent: Option<nat>): Json {
    if parent.Some? then Int(parent.value) else Null
  }

  function Grown(table: seq<string>, path: string): seq<string> {
    if path in table then table else table + [path]
  }

  function EntryJson(source: Source, table: seq<string>): Json {
    Array([Int(IndexIn(table, source.rawPath)), ParentJson(source.parent)])
  }

  /** The entries of a source list and the table after it. */
  function TopologyJson(sources: seq<Source>, table: seq<string>): (r: (seq<Json>, seq<string>))
    ensures |r.0| == |sources|
  {
    if sources == [] then ([], table)
    else
      var last := sources[|sources| - 1];
      var (entries, grown) := TopologyJson(sources[..|sources| - 1], table);
      (entries + [EntryJson(last, grown)], Grown(grown, last.rawPath))
  }

  /** One `[path, parent]` entry, given how many paths of the table are in use. */
  function ParseEntry(entry: Json, paths: seq<string>, used: nat, index: nat): Option<(Source, nat)> {
    if !entry.Array? || |entry.items| != 2 then None
    else
      var path, parent := entry.items[0], entry.items[1];
      if !path.Int? || !(0 <= path.number < |paths|) then None
      else if !(parent.Null? || (parent.Int? && 0 <= parent.number < index)) then None
      else if path.number > used then None
      else Some((Source(paths[path.number], if parent.Null? then None else Some(parent.number)),
                 if path.number == used then used + 1 else used))
  }

  /** The sources of some entries and how many paths are in use after them. */
  function ParseTopology(entries: seq<Json>, paths: seq<string>, used: nat): (r: Option<(seq<Source>, nat)>)
    ensures r.Some? ==> |r.value.0| == |entries|
  {
    if entries == [] then Some(([], used))
    else
      var n := |entries| - 1;
      match ParseTopology(entries[..n], paths, used)
      case None => None
      case Some((sources, count)) =>
        match ParseEntry(entries[n], paths, count, n)
        case None => None
        case Some((source, count')) => Some((sources + [source], count'))
  }

  predicate ParentPrecedes(source: Source, index: nat) {
    source.parent.Some? ==> source.parent.value < index
  }

  /** Every parent comes before the source it included. */
  predicate ParentsPrecede(sources: seq<Source>) {
    forall i | 0 <= i < |sources| :: ParentPrecedes(sources[i], i)
  }

  /** The table only grows, by the paths that the sources mention. */
  lemma {:induction false} TableGrows(sources: seq<Source>, table: seq<string>)
    requires NoRepeats(table)
    ensures table <= TopologyJson(sources, table).1
    ensures NoRepeats(TopologyJson(sources, table).1)
    ensures forall path :: path in TopologyJson(sources, table).1 <==> path in table || Mentions(sources, path)
  {
    if sources != [] {
      TableGrows(sources[..|sources| - 1], table);
    }
  }

  predicate Mentions(sources: seq<Source>, path: string) {
    sources != [] && (sources[|sources| - 1].rawPath == path || Mentions(sources[..|sources| - 1], path))
  }

  lemma {:induction false} ParseEntryJson(source: Source, table: seq<string>, paths: seq<string>, index: nat)
    requires Grown(table, source.rawPath) <= paths
    ensures ParseEntry(EntryJson(source, table), paths, |table|, index) ==
            if ParentPrecedes(source, index) then Some((source, |Grown(table, source.rawPath)|)) else None
  {
    var k := IndexIn(table, source.rawPath);
    assert paths[k] == Grown(table, source.rawPath)[k] == source.rawPath;
  }

  /** Decoding the entries gives the sources back, exactly when parents come first. */
  lemma {:induction false} ParseTopologyJson(sources: seq<Source>, table: seq<string>, paths: seq<string>)
    requires NoRepeats(table) && TopologyJson(sources, table).1 <= paths
    ensures ParseTopology(TopologyJson(sources, table).0, paths, |table|) ==
            if ParentsPrecede(sources) then Some((sources, |TopologyJson(sources, table).1|)) else None
  {
    hide ParseEntry;
    if sources != [] {
      var n := |sources| - 1;
      var before, grown := TopologyJson(sources[..n], table).0, TopologyJson(sources[..n], table).1;
      ParseTopologyJson(sources[..n], table, paths);
      assert TopologyJson(sources, table).0[..n] == before;
      ParseEntryJson(sources[n], grown, paths, n);
      assert sources == sources[..n] + [sources[n]];
      assert ParentsPrecede(sources) <==> ParentsPrecede(sources[..n]) && ParentPrecedes(sources[n], n);
    }
  }

  lemma IndexOfOwn(paths: seq<string>, used: nat, k: nat)
    requires NoRepeats(paths) && used <= |paths| && k < |paths| && k <= used
    ensures IndexIn(paths[..used], paths[k]) == k
  {
  }

  lemma {:induction false} EntryJsonParse(entry: Json, paths: seq<string>, used: nat, index: nat)
    requires NoRepeats(paths) && used <= |paths| && ParseEntry(entry, paths, used, index).Some?
    ensures
      var (source, used') := ParseEntry(entry, paths, used, index).value;
      && used <= used' <= |paths|
      && ParentPrecedes(source, index)
      && entry == EntryJson(source, paths[..used])
      && Grown(paths[..used], source.rawPath) == paths[..used']
  {
    var k := entry.items[0].number;
    IndexOfOwn(paths, used, k);
    assert entry.items == [entry.items[0], entry.items[1]];
    if k == used {
      assert paths[..used] + [paths[used]] == paths[..used + 1];
    }
  }

  /** Encoding what was decoded gives the entries back and uses up the same part of the table. */
  lemma {:induction false} TopologyJsonParse(entries: seq<Json>, paths: seq<string>, used: nat)
    requires NoRepeats(paths) && used <= |paths| && ParseTopology(entries, paths, used).Some?
    ensures
      var (sources, final) := ParseTopology(entries, paths, used).value;
      && used <= final <= |paths|
      && ParentsPrecede(sources)
      && TopologyJson(sources, paths[..used]) == (entries, paths[..final])
  {
    hide ParseEntry, EntryJson, Grown, IndexIn, ParentPrecedes, NoRepeats;
    if entries != [] {
      var n := |entries| - 1;
      TopologyJsonParse(entries[..n], paths, used);
      var (before, count) := ParseTopology(entries[..n], paths, used).value;
      EntryJsonParse(entries[n], paths, count, n);
      var (source, _) := ParseEntry(entries[n], paths, count, n).value;
      TopologyJsonLast(before, source, paths[..used]);
      assert entries == entries[..n] + [entries[n]];
    }
  }

  lemma {:induction false} TopologyJsonLast(before: seq<Source>, source: Source, table: seq<string>)
    ensures
      var (entries, grown) := TopologyJson(before, table);
      TopologyJson(before + [source], table) == (entries + [EntryJson(source, grown)], Grown(grown, source.rawPath))
  {
    hide EntryJson, Grown;
    assert (before + [source])[..|before|] == before;
  }

  lemma {:induction false} FailedTopologyStays(entries: seq<Json>, paths: seq<string>, used: nat, n: nat)
    requires n <= |entries| && ParseTopology(entries[..n], paths, used).None?
    ensures ParseTopology(entries, paths, used).None?
  {
    if n == |entries| {
      assert entries[..n] == entries;
    } else {
      assert entries[..|entries| - 1][..n] == entries[..n];
      FailedTopologyStays(entries[..|entries| - 1], paths, used, n);
    }
  }

  // ---- The path table ---------------------------------------------------

  function PathsJson(paths: seq<string>): Json {
    Array(seq(|paths|, i requires 0 <= i < |paths| => Text(paths[i])))
  }

  predicate IsPathTable(value: Json) {
    && value.Array? && value.items != []
    && (forall i | 0 <= i < |value.items| :: value.items[i].Text? && IsName(value.items[i].text))
    && (forall i, j | 0 <= i < j < |value.items| :: value.items[i] != value.items[j])
  }

  /** `_parse_path_table` (src/reprobit/classic_cache.py:53-61). */
  function ParsePaths(value: Json): Option<seq<string>> {
    if IsPathTable(value) then Some(seq(|value.items|, i requires 0 <= i < |value.items| => value.items[i].text))
        else None
  }

  lemma {:induction false} PathsRoundTrip(paths: seq<string>)
    requires NoRepeats(paths)
    ensures ParsePaths(PathsJson(paths)) ==
            if paths != [] && forall path | path in paths :: IsName(path) then Some(paths) else None
  {
    var value := PathsJson(paths);
    if IsPathTable(value) {
      forall path | path in paths ensures IsName(path) {
        var i :| 0 <= i < |paths| && paths[i] == path;
        assert value.items[i] == Text(path);
      }
      assert ParsePaths(value).value == paths;
    }
  }

  lemma {:induction false} PathsJsonParse(value: Json)
    requires ParsePaths(value).Some?
    ensures PathsJson(ParsePaths(value).value) == value
    ensures NoRepeats(ParsePaths(value).value) && ParsePaths(value).value != []
    ensures forall path | path in ParsePaths(value).value :: IsName(path)
  {
    assert PathsJson(ParsePaths(value).value).items == value.items;
  }

  /** The paths of a source list can be stored: they are named and there are some. */
  predicate AllNamed(sources: seq<Source>) {
    forall i | 0 <= i < |sources| :: IsName(sources[i].rawPath)
  }

  lemma {:induction false} NamedMentions(sources: seq<Source>)
    ensures AllNamed(sources) <==> forall path | Mentions(sources, path) :: IsName(path)
  {
    if sources != [] {
      var n := |sources| - 1;
      NamedMentions(sources[..n]);
      assert Mentions(sources, sources[n].rawPath);
      assert forall path | Mentions(sources[..n], path) :: Mentions(sources, path);
      assert AllNamed(sources) <==> IsName(sources[n].rawPath) && AllNamed(sources[..n]);
    }
  }

  // ---- The compiler hint --------------------------------------------------

  const COMPILER_FIELDS := {"schema", "base_key", "working_directory", "paths", "sources", "certifying"}

  function CompilerJson(hint: CompilerHint): Json {
    var (entries, paths) := TopologyJson(hint.sources, []);
    Object(map[
      "schema" := Int(2),
      "base_key" := Text(hint.baseKey),
      "working_directory" := Text(hint.workingDirectory),
      "paths" := PathsJson(paths),
      "sources" := Array(entries),
      "certifying" := Bool(false)])
  }

  predicate HasHeader(raw: map<string, Json>)
    requires "schema" in raw && "base_key" in raw && "certifying" in raw
  {
    && EqualsInt(raw["schema"], 2)
    && raw["certifying"] == Bool(false)
    && raw["base_key"].Text? && IsHexKey(raw["base_key"].text)
  }

  /** `CompilerDependencyHint.from_record` (src/reprobit/classic_cache.py:131-170). */
  function ParseCompiler(document: Json): Option<CompilerHint> {
    if !document.Object? || document.fields.Keys != COMPILER_FIELDS then None
    else
      var raw := document.fields;
      var directory := raw["working_directory"];
      if !HasHeader(raw) || !directory.Text? || directory.text == "" then None
      else if !raw["sources"].Array? || raw["sources"].items == [] then None
      else
        match ParsePaths(raw["paths"])
        case None => None
        case Some(paths) =>
          match ParseTopology(raw["sources"].items, paths, 0)
          case None => None
          case Some((sources, used)) =>
            if used != |paths| then None
            else Some(CompilerHint(raw["base_key"].text, directory.text, sources))
  }

  /** 64 lower-case hexadecimal digits. */
  predicate IsKeyText(key: string) {
    |key| == 64 && forall i | 0 <= i < |key| :: '0' <= key[i] <= '9' || 'a' <= key[i] <= 'f'
  }

  /** There are sources, each with a path without NUL and a parent listed before it. */
  predicate AreSources(sources: seq<Source>) {
    && sources != []
    && forall i | 0 <= i < |sources| ::
         && sources[i].rawPath != "" && (forall k | 0 <= k < |sources[i].rawPath| :: sources[i].rawPath[k] != '\0')
         && (sources[i].parent.Some? ==> sources[i].parent.value < i)
  }

  predicate IsCompilerHint(hint: CompilerHint) {
    IsKeyText(hint.baseKey) && hint.workingDirectory != "" && AreSources(hint.sources)
  }

  lemma {:induction false} KeyTextIsHex(key: string)
    ensures IsKeyText(key) <==> IsHexKey(key)
  {
    forall i | 0 <= i < |key|
      ensures key[i] in "0123456789abcdef" <==> '0' <= key[i] <= '9' || 'a' <= key[i] <= 'f' {
      HexDigit(key[i]);
    }
  }

  lemma {:induction false} HexDigit(c: char)
    ensures c in "0123456789abcdef" <==> '0' <= c <= '9' || 'a' <= c <= 'f'
  {
    var digits := "0123456789abcdef";
    if '0' <= c <= '9' {
      assert digits[c as int - '0' as int] == c;
    } else if 'a' <= c <= 'f' {
      assert digits[10 + c as int - 'a' as int] == c;
    }
  }

  lemma {:induction false} SourcesAreNamed(sources: seq<Source>)
    ensures AreSources(sources) <==> sources != [] && AllNamed(sources) && ParentsPrecede(sources)
  {
    forall i | 0 <= i < |sources|
      ensures IsName(sources[i].rawPath) <==>
              sources[i].rawPath != "" && forall k | 0 <= k < |sources[i].rawPath| :: sources[i].rawPath[k] != '\0' {
    }
  }

  /** Decoding an encoded hint gives it back exactly when it is well formed, and fails otherwise. */
  lemma {:induction false} ParseCompilerJson(hint: CompilerHint)
    ensures ParseCompiler(CompilerJson(hint)) == if IsCompilerHint(hint) then Some(hint) else None
  {
    hide ParseTopology, TopologyJson, ParsePaths, IsHexKey, IsKeyText, AreSources;
    KeyTextIsHex(hint.baseKey);
    SourcesAreNamed(hint.sources);
    var (entries, paths) := TopologyJson(hint.sources, []);
    TableGrows(hint.sources, []);
    PathsRoundTrip(paths);
    NamedMentions(hint.sources);
    ParseTopologyJson(hint.sources, [], paths);
    if hint.sources != [] {
      assert Mentions(hint.sources, hint.sources[|hint.sources| - 1].rawPath);
      assert paths != [];
    }
  }

  /** Every entry of a source list is its path's place in the final table, and then its parent or null. */
  lemma {:induction false} EntriesRead(sources: seq<Source>, table: seq<string>, i: nat)
    requires NoRepeats(table) && i < |sources|
    ensures
      var (entries, paths) := TopologyJson(sources, table);
      && entries[i].Array? && |entries[i].items| == 2
      && var path, parent := entries[i].items[0], entries[i].items[1];
      && path.Int? && 0 <= path.number < |paths| && paths[path.number] == sources[i].rawPath
      && parent == if sources[i].parent.None? then Null else Int(sources[i].parent.value)
  {
    var n := |sources| - 1;
    TableGrows(sources[..n], table);
    TableGrows(sources, table);
    if i < n {
      EntriesRead(sources[..n], table, i);
    }
  }

  /** The fields of a document: the path table by number, and each source as `[path, parent]`. */
  lemma {:induction false} CompilerJsonReads(hint: CompilerHint, i: nat)
    requires i < |hint.sources|
    ensures
      var raw := CompilerJson(hint).fields;
      && raw.Keys == {"schema", "base_key", "working_directory", "paths", "sources", "certifying"}
      && raw["schema"] == Int(2) && raw["certifying"] == Bool(false)
      && raw["base_key"] == Text(hint.baseKey) && raw["working_directory"] == Text(hint.workingDirectory)
      && raw["paths"].Array? && raw["sources"].Array? && |raw["sources"].items| == |hint.sources|
      && raw["sources"].items[i].Array? && |raw["sources"].items[i].items| == 2
      && var path, parent := raw["sources"].items[i].items[0], raw["sources"].items[i].items[1];
      && path.Int? && 0 <= path.number < |raw["paths"].items|
      && raw["paths"].items[path.number] == Text(hint.sources[i].rawPath)
      && parent == if hint.sources[i].parent.None? then Null else Int(hint.sources[i].parent.value)
  {
    hide TopologyJson;
    EntriesRead(hint.sources, [], i);
  }

  /** Encoding an accepted document gives it back exactly when its schema is the integer 2. */
  lemma {:induction false} CompilerJsonParse(document: Json)
    requires ParseCompiler(document).Some?
    ensures IsCompilerHint(ParseCompiler(document).value)
    ensures CompilerJson(ParseCompiler(document).value) == document <==> document.fields["schema"] == Int(2)
  {
    hide ParseTopology, TopologyJson, ParsePaths, PathsJson, IsHexKey, IsKeyText, AreSources;
    KeyTextIsHex(ParseCompiler(document).value.baseKey);
    SourcesAreNamed(ParseCompiler(document).value.sources);
    var raw := document.fields;
    var paths := ParsePaths(raw["paths"]).value;
    PathsJsonParse(raw["paths"]);
    TopologyJsonParse(raw["sources"].items, paths, 0);
    var hint := ParseCompiler(document).value;
    assert paths[..0] == [] && paths[..|paths|] == paths;
    TableGrows(hint.sources, []);
    NamedMentions(hint.sources);
    var again := CompilerJson(hint).fields;
    assert forall field | field in COMPILER_FIELDS && field != "schema" :: again[field] == raw[field];
    if raw["schema"] == Int(2) {
      assert again == raw;
    }
  }

  /** The schema number is compared as a number: 2.0 is accepted and does not survive. */
  lemma {:induction false} FloatSchemaIsAccepted(hint: CompilerHint)
    requires IsCompilerHint(hint)
    ensures
      var document := Object(CompilerJson(hint).fields["schema" := Float(2.0)]);
      ParseCompiler(document) == Some(hint) && CompilerJson(hint) != document
  {
    ParseCompilerJson(hint);
    var raw := CompilerJson(hint).fields;
    var document := Object(raw["schema" := Float(2.0)]);
    assert document.fields["schema"] != raw["schema"];
  }

  // ---- The loops that build and read a source list ------------------------

  /** The `paths` list and `path_indexes` dictionary that encoding grows in place. */
  class PathTable {
    var paths: seq<string>
    var indexes: map<string, nat>

    ghost predicate Valid()
      reads this
    {
      && NoRepeats(paths)
      && indexes.Keys == (set path | path in paths)
      && forall path | path in indexes :: indexes[path] == IndexIn(paths, path)
    }

    constructor ()
      ensures Valid() && paths == []
    {
      paths, indexes := [], map[];
    }

    /** `_source_topology_json` (src/reprobit/classic_cache.py:37-50). */
    method Intern(sources: seq<Source>) returns (entries: seq<Json>)
      requires Valid()
      modifies this
      ensures Valid()
      ensures (entries, paths) == TopologyJson(sources, old(paths))
    {
      entries := [];
      for i := 0 to |sources|
        invariant Valid()
        invariant (entries, paths) == TopologyJson(sources[..i], old(paths))
      {
        var path := sources[i].rawPath;
        assert sources[..i + 1][..i] == sources[..i];
        var index;
        if path in indexes {
          index := indexes[path];
        } else {
          index := |paths|;
          GrownIndexes(paths, path);
          paths := paths + [path];
          indexes := indexes[path := index];
        }
        entries := entries + [Array([Int(index), ParentJson(sources[i].parent)])];
      }
      assert sources[..|sources|] == sources;
    }
  }

  lemma GrownIndexes(table: seq<string>, path: string)
    requires NoRepeats(table) && path !in table
    ensures NoRepeats(table + [path]) && IndexIn(table + [path], path) == |table|
    ensures forall other | other in table :: IndexIn(table + [path], other) == IndexIn(table, other)
  {
  }

  /** The positions used so far are always an initial part of the table. */
  ghost predicate IsInitialPart(usedPaths: set<nat>, used: nat) {
    |usedPaths| == used && forall k: nat :: k in usedPaths <==> k < used
  }

  /** `_parse_source_topology`, with the set of used positions (src/reprobit/classic_cache.py:64-97). */
  method ParseSourceTopology(entries: seq<Json>, paths: seq<string>, usedPaths: set<nat>, ghost used: nat)
    returns (sources: Option<seq<Source>>, usedAfter: set<nat>)
    requires IsInitialPart(usedPaths, used)
    ensures
      match ParseTopology(entries, paths, used)
      case None => sources.None?
      case Some((parsed, final)) =>
        if entries == [] then sources.None? else sources == Some(parsed) && IsInitialPart(usedAfter, final)
  {
    hide ParseTopology;
    usedAfter := usedPaths;
    if entries == [] { return None, usedAfter; }
    var parsed: seq<Source> := [];
    ghost var count := used;
    ParseTopologyStep(entries, paths, used, 0);
    for i := 0 to |entries|
      invariant IsInitialPart(usedAfter, count)
      invariant ParseTopology(entries[..i], paths, used) == Some((parsed, count))
    {
      ParseTopologyStep(entries, paths, used, i);
      var entry := entries[i];
      if !entry.Array? || |entry.items| != 2 { return None, usedAfter; }
      var path, parent := entry.items[0], entry.items[1];
      if !path.Int? || !(0 <= path.number < |paths|) { return None, usedAfter; }
      if !(parent.Null? || (parent.Int? && 0 <= parent.number < i)) { return None, usedAfter; }
      if path.number !in usedAfter {
        if path.number != |usedAfter| { return None, usedAfter; }
        usedAfter := usedAfter + {path.number};
        count := count + 1;
      }
      parsed := parsed + [Source(paths[path.number], if parent.Null? then None else Some(parent.number))];
    }
    assert entries[..|entries|] == entries;
    sources := Some(parsed);
  }

  lemma {:induction false} ParseTopologyStep(entries: seq<Json>, paths: seq<string>, used: nat, i: nat)
    requires i < |entries|
    ensures ParseTopology(entries[..0], paths, used) == Some(([], used))
    ensures
      var before := ParseTopology(entries[..i], paths, used);
      before.Some? ==>
        var entry := ParseEntry(entries[i], paths, before.value.1, i);
        if entry.None? then ParseTopology(entries, paths, used).None?
        else ParseTopology(entries[..i + 1], paths, used) == Some((before.value.0 + [entry.value.0], entry.value.1))
  {
    assert entries[..i + 1][..i] == entries[..i];
    if ParseTopology(entries[..i + 1], paths, used).None? {
      FailedTopologyStays(entries, paths, used, i + 1);
    }
  }
}
