/** Complete byte-range ancestry of one artifact, and the origins it carries (src/reprobit/artifacts.py). */
module RangeMaps {
  import opened Options
  import opened Graphs
  import opened Provenance

  datatype Span = Span(start: int, end: int)

  /** A non-empty half-open range. */
  type ByteRange = span: Span | 0 <= span.start < span.end witness Span(0, 1)

  datatype RangeAncestry = RangeAncestry(span: ByteRange, nodeId: string)

  datatype RangeMap = RangeMap(size: int, ranges: seq<RangeAncestry>)

  predicate Holds(item: RangeAncestry, byte: int) {
    item.span.start <= byte < item.span.end
  }

  predicate Held(ranges: seq<RangeAncestry>, byte: int) {
    exists i :: 0 <= i < |ranges| && Holds(ranges[i], byte)
  }

  /** The ranges lie inside the artifact in ascending order, and every byte is in one of them. */
  predicate Partitions(size: int, ranges: seq<RangeAncestry>) {
    && 0 <= size
    && (forall i, j | 0 <= i < j < |ranges| :: ranges[i].span.end <= ranges[j].span.start)
    && (forall i | 0 <= i < |ranges| :: ranges[i].span.end <= size)
    && forall byte | 0 <= byte < size :: Held(ranges, byte)
  }

  /** The checks of `ArtifactRangeMap`: accepted exactly when the ranges partition the artifact. */
  method ValidateRanges(size: int, ranges: seq<RangeAncestry>) returns (accepted: bool)
    ensures accepted <==> Partitions(size, ranges)
  {
    if size < 0 {
      return false;
    }
    if size == 0 {
      accepted := ranges == [];
      assert !accepted ==> ranges[0].span.end > size;
      return;
    }
    if ranges == [] {
      assert !Held(ranges, 0);
      return false;
    }
    var cursor := 0;
    for i := 0 to |ranges|
      invariant 0 <= cursor <= size
      invariant cursor == if i == 0 then 0 else ranges[i - 1].span.end
      invariant forall j, k | 0 <= j < k < i :: ranges[j].span.end <= ranges[k].span.start
      invariant forall j | 0 <= j < i :: ranges[j].span.end <= cursor
      invariant forall byte | 0 <= byte < cursor :: Held(ranges[..i], byte)
    {
      if ranges[i].span.start != cursor {
        if Partitions(size, ranges) {
          MissedByte(size, ranges, i, cursor);
        }
        return false;
      }
      if ranges[i].span.end > size {
        return false;
      }
      var longer := ranges[..i + 1];
      forall byte | 0 <= byte < ranges[i].span.end ensures Held(longer, byte) {
        if byte < cursor {
          assert Held(ranges[..i], byte);
          var j :| 0 <= j < i && Holds(ranges[..i][j], byte);
          assert Holds(longer[j], byte);
        } else {
          assert Holds(longer[i], byte);
        }
      }
      cursor := ranges[i].span.end;
    }
    assert ranges[..|ranges|] == ranges;
    if cursor != size {
      assert !Held(ranges, cursor);
    }
    accepted := cursor == size;
  }

  /** In a partition the next range starts where the one before ended. */
  lemma {:induction false} MissedByte(size: int, ranges: seq<RangeAncestry>, i: nat, cursor: int)
    requires Partitions(size, ranges) && i < |ranges| && 0 <= cursor
    requires cursor == if i == 0 then 0 else ranges[i - 1].span.end
    ensures ranges[i].span.start == cursor
  {
    assert ranges[i].span.start >= cursor;
    assert cursor < size ==> Held(ranges, cursor);
  }

  // ---- Origins of bytes ---------------------------------------------------------

  predicate Intersects(span: ByteRange, other: ByteRange) {
    span.start < other.end && other.start < span.end
  }

  /** `covering`, or all ranges when no span is given. */
  function Selected(ranges: seq<RangeAncestry>, span: Option<ByteRange>): seq<RangeAncestry> {
    if span.None? || ranges == [] then ranges
    else
      (if Intersects(ranges[0].span, span.value) then [ranges[0]] else []) + Selected(ranges[1..], span)
  }

  lemma {:induction false} SelectedAre(ranges: seq<RangeAncestry>, span: Option<ByteRange>, item: RangeAncestry)
    ensures item in Selected(ranges, span) <==>
            item in ranges && (span.Some? ==> Intersects(item.span, span.value))
  {
    if span.Some? && ranges != [] {
      SelectedAre(ranges[1..], span, item);
    }
  }

  predicate InSpan(artifact: RangeMap, span: Option<ByteRange>, byte: int) {
    if span.Some? then span.value.start <= byte < span.value.end else 0 <= byte < artifact.size
  }

  /** A byte of the artifact inherits this origin. */
  ghost predicate ByteHas(nodes: map<string, Node>, artifact: RangeMap, byte: int, origin: ByteOrigin) {
    exists i :: 0 <= i < |artifact.ranges| && Holds(artifact.ranges[i], byte)
             && origin in RootOrigins(nodes, artifact.ranges[i].nodeId)
  }

  /** The byte belongs to a known node. */
  ghost predicate ByteKnown(nodes: map<string, Node>, artifact: RangeMap, byte: int) {
    exists i :: 0 <= i < |artifact.ranges| && Holds(artifact.ranges[i], byte) && artifact.ranges[i].nodeId in nodes
  }

  lemma {:induction false} SelectedBytes(artifact: RangeMap, span: Option<ByteRange>, item: RangeAncestry)
    requires Partitions(artifact.size, artifact.ranges) && (span.Some? ==> span.value.end <= artifact.size)
    ensures item in Selected(artifact.ranges, span) <==>
            item in artifact.ranges && exists byte :: InSpan(artifact, span, byte) && Holds(item, byte)
  {
    SelectedAre(artifact.ranges, span, item);
    if item in Selected(artifact.ranges, span) {
      var low := if span.Some? && span.value.start > item.span.start then span.value.start else item.span.start;
      assert InSpan(artifact, span, low) && Holds(item, low);
    }
  }

  /** A byte is held by one range only. */
  lemma {:induction false} HeldOnce(artifact: RangeMap, byte: int, i: nat, item: RangeAncestry)
    requires Partitions(artifact.size, artifact.ranges) && i < |artifact.ranges|
    requires item in artifact.ranges && Holds(item, byte) && Holds(artifact.ranges[i], byte)
    ensures artifact.ranges[i] == item
  {
    var j :| 0 <= j < |artifact.ranges| && artifact.ranges[j] == item;
  }

  ghost predicate AllKnown(nodes: map<string, Node>, items: seq<RangeAncestry>) {
    forall item | item in items :: item.nodeId in nodes
  }

  ghost predicate SomeItemHas(nodes: map<string, Node>, items: seq<RangeAncestry>, origin: ByteOrigin) {
    exists item :: item in items && origin in RootOrigins(nodes, item.nodeId)
  }

  /** What holds of the selected ranges holds of the selected bytes. */
  lemma {:induction false} RangesAreBytes(nodes: map<string, Node>, artifact: RangeMap, span: Option<ByteRange>)
    requires Partitions(artifact.size, artifact.ranges) && (span.Some? ==> span.value.end <= artifact.size)
    ensures AllKnown(nodes, Selected(artifact.ranges, span)) <==>
            forall byte | InSpan(artifact, span, byte) :: ByteKnown(nodes, artifact, byte)
    ensures forall origin :: SomeItemHas(nodes, Selected(artifact.ranges, span), origin) <==>
              exists byte :: InSpan(artifact, span, byte) && ByteHas(nodes, artifact, byte, origin)
  {
    var items := Selected(artifact.ranges, span);
    if AllKnown(nodes, items) {
      forall byte | InSpan(artifact, span, byte) ensures ByteKnown(nodes, artifact, byte) {
        assert Held(artifact.ranges, byte);
        var i :| 0 <= i < |artifact.ranges| && Holds(artifact.ranges[i], byte);
        SelectedBytes(artifact, span, artifact.ranges[i]);
      }
    }
    if forall byte | InSpan(artifact, span, byte) :: ByteKnown(nodes, artifact, byte) {
      forall item | item in items ensures item.nodeId in nodes {
        SelectedBytes(artifact, span, item);
        var byte :| InSpan(artifact, span, byte) && Holds(item, byte);
        var i :| 0 <= i < |artifact.ranges| && Holds(artifact.ranges[i], byte) && artifact.ranges[i].nodeId in nodes;
        HeldOnce(artifact, byte, i, item);
      }
    }
    forall origin ensures SomeItemHas(nodes, items, origin) <==>
                          exists byte :: InSpan(artifact, span, byte) && ByteHas(nodes, artifact, byte, origin) {
      OriginsAreBytes(nodes, artifact, span, origin);
    }
  }

  lemma {:induction false} OriginsAreBytes(nodes: map<string, Node>, artifact: RangeMap, span: Option<ByteRange>,
                                           origin: ByteOrigin)
    requires Partitions(artifact.size, artifact.ranges) && (span.Some? ==> span.value.end <= artifact.size)
    ensures SomeItemHas(nodes, Selected(artifact.ranges, span), origin) <==>
            exists byte :: InSpan(artifact, span, byte) && ByteHas(nodes, artifact, byte, origin)
  {
    hide RootOrigins;
    if item :| item in Selected(artifact.ranges, span) && origin in RootOrigins(nodes, item.nodeId) {
      SelectedBytes(artifact, span, item);
      var byte :| InSpan(artifact, span, byte) && Holds(item, byte);
      assert ByteHas(nodes, artifact, byte, origin);
    }
    if byte :| InSpan(artifact, span, byte) && ByteHas(nodes, artifact, byte, origin) {
      var i :| 0 <= i < |artifact.ranges| && Holds(artifact.ranges[i], byte)
            && origin in RootOrigins(nodes, artifact.ranges[i].nodeId);
      SelectedBytes(artifact, span, artifact.ranges[i]);
    }
  }

  predicate IsClean(origin: ByteOrigin) {
    origin.Toolchain? || origin.DeclaredExternal? || origin.CertifiedMetadata?
  }

  ghost predicate Answerable(nodes: map<string, Node>, artifact: RangeMap, span: Option<ByteRange>) {
    && (span.Some? ==> span.value.end <= artifact.size)
    && forall byte | InSpan(artifact, span, byte) :: ByteKnown(nodes, artifact, byte)
  }

  /** `origins_for`: the union of the origins of the single bytes asked about. */
  method OriginsFor(graph: ProvenanceGraph, artifact: RangeMap, span: Option<ByteRange>)
    returns (origins: Option<set<ByteOrigin>>)
    requires graph.Valid() && Partitions(artifact.size, artifact.ranges)
    modifies graph
    ensures graph.Valid()
    ensures origins.Some? <==> Answerable(graph.nodes, artifact, span)
    ensures origins.Some? ==> forall origin :: origin in origins.value <==>
              exists byte :: InSpan(artifact, span, byte) && ByteHas(graph.nodes, artifact, byte, origin)
  {
    hide RootOrigins, Sound, Partitions, ByteHas, ByteKnown;
    if span.Some? && span.value.end > artifact.size {
      return None;
    }
    RangesAreBytes(graph.nodes, artifact, span);
    var items := Selected(artifact.ranges, span);
    if exists item :: item in items && item.nodeId !in graph.nodes {
      return None;
    }
    var found := {};
    for i := 0 to |items|
      invariant graph.Valid()
      invariant forall origin ::
                  origin in found <==> exists k :: 0 <= k < i && origin in RootOrigins(graph.nodes, items[k].nodeId)
    {
      var more := graph.Origins(items[i].nodeId);
      found := found + more.value;
    }
    forall origin ensures origin in found <==> SomeItemHas(graph.nodes, items, origin) {
      if item :| item in items && origin in RootOrigins(graph.nodes, item.nodeId) {
        var k :| 0 <= k < |items| && items[k] == item;
      }
    }
    origins := Some(found);
  }

  /** `has_oracle_ancestry`: some byte asked about comes from the oracle. */
  method HasOracleAncestry(graph: ProvenanceGraph, artifact: RangeMap, span: Option<ByteRange>)
    returns (tainted: Option<bool>)
    requires graph.Valid() && Partitions(artifact.size, artifact.ranges)
    modifies graph
    ensures graph.Valid()
    ensures tainted.Some? <==> Answerable(graph.nodes, artifact, span)
    ensures tainted.Some? ==> (tainted.value <==>
              exists byte :: InSpan(artifact, span, byte) && ByteHas(graph.nodes, artifact, byte, Oracle))
  {
    var origins := OriginsFor(graph, artifact, span);
    tainted := if origins.None? then None else Some(Oracle in origins.value);
  }

  ghost predicate ByteClean(nodes: map<string, Node>, artifact: RangeMap, byte: int) {
    forall origin | ByteHas(nodes, artifact, byte, origin) :: IsClean(origin)
  }

  /** Every known byte has an origin. */
  lemma {:induction false} ByteHasOrigin(nodes: map<string, Node>, artifact: RangeMap, byte: int)
    returns (origin: ByteOrigin)
    requires Sound(nodes) && ByteKnown(nodes, artifact, byte)
    ensures ByteHas(nodes, artifact, byte, origin)
  {
    var i :| 0 <= i < |artifact.ranges| && Holds(artifact.ranges[i], byte) && artifact.ranges[i].nodeId in nodes;
    var id := artifact.ranges[i].nodeId;
    PathExtends(Parents(nodes), [], id);
    SomeOrigin(nodes, id, []);
    origin :| origin in RootOrigins(nodes, id);
  }

  lemma {:induction false} CleanByteByByte(nodes: map<string, Node>, artifact: RangeMap, span: Option<ByteRange>,
                                           origins: set<ByteOrigin>)
    requires forall origin :: origin in origins <==>
               exists byte :: InSpan(artifact, span, byte) && ByteHas(nodes, artifact, byte, origin)
    ensures (forall origin | origin in origins :: IsClean(origin)) <==>
            forall byte | InSpan(artifact, span, byte) :: ByteClean(nodes, artifact, byte)
  {
    hide ByteHas;
    if forall byte | InSpan(artifact, span, byte) :: ByteClean(nodes, artifact, byte) {
      forall origin | origin in origins ensures IsClean(origin) {
        var byte :| InSpan(artifact, span, byte) && ByteHas(nodes, artifact, byte, origin);
        assert ByteClean(nodes, artifact, byte);
      }
    }
  }

  /** `has_clean_origin`: there is a byte, and every byte is clean. */
  method HasCleanOrigin(graph: ProvenanceGraph, artifact: RangeMap, span: Option<ByteRange>)
    returns (clean: Option<bool>)
    requires graph.Valid() && Partitions(artifact.size, artifact.ranges)
    modifies graph
    ensures graph.Valid()
    ensures clean.Some? <==> Answerable(graph.nodes, artifact, span)
    ensures clean.Some? ==> (clean.value <==>
              (span.Some? || artifact.size > 0) && forall byte | InSpan(artifact, span, byte) ::
                  ByteClean(graph.nodes, artifact, byte))
  {
    hide ByteHas, ByteKnown, ByteClean, RootOrigins, Sound;
    var origins := OriginsFor(graph, artifact, span);
    if origins.None? {
      return None;
    }
    CleanByteByByte(graph.nodes, artifact, span, origins.value);
    var allClean := forall origin | origin in origins.value :: IsClean(origin);
    if span.Some? || artifact.size > 0 {
      var byte := if span.Some? then span.value.start else 0;
      assert InSpan(artifact, span, byte);
      ghost var origin := ByteHasOrigin(graph.nodes, artifact, byte);
      assert origin in origins.value;
    }
    clean := Some(origins.value != {} && allClean);
  }
}
