/**
 What browser-information streams mean: the accepted ones are exactly the listings of
 include forests, and the records that do not nest sources cannot change the trace.
 */
module SbrForest {
  import opened Options
  import opened Traces
  import opened SbrStream

  /** A source, the sources it included, and the sources included after it. */
  datatype Forest = Empty | Tree(path: string, children: Forest, siblings: Forest)

  function Count(forest: Forest): nat {
    match forest
    case Empty => 0
    case Tree(_, children, siblings) => 1 + Count(children) + Count(siblings)
  }

  function Height(forest: Forest): nat {
    match forest
    case Empty => 0
    case Tree(_, children, siblings) =>
      var inner, outer := 1 + Height(children), Height(siblings);
      if inner < outer then outer else inner
  }

  /** Lists a forest in the order its sources are entered, after the sources listed before it. */
  function Preorder(forest: Forest, before: seq<Source>, parent: Option<nat>): (sources: seq<Source>)
    ensures |sources| == |before| + Count(forest)
  {
    match forest
    case Empty => before
    case Tree(path, children, siblings) =>
      var inner := Preorder(children, before + [Source(path, parent)], Some(|before|));
      Preorder(siblings, inner, parent)
  }

  // ---- Encoding ---------------------------------------------------------

  predicate IsText(text: string) {
    0 < |text| <= MAX_TEXT && forall i | 0 <= i < |text| :: 0 < text[i] as int < 128
  }

  predicate IsForest(forest: Forest) {
    forest.Tree? ==> IsText(forest.path) && IsForest(forest.children) && IsForest(forest.siblings)
  }

  function Encoded(text: string): Bytes
    requires IsText(text)
  {
    seq(|text|, i requires 0 <= i < |text| => text[i] as int) + [0]
  }

  /** The ENTER and LEAVE bytes of a forest, followed by `after`. */
  function EncodeForest(forest: Forest, after: Bytes): (code: Bytes)
    requires IsForest(forest)
    ensures |code| >= |after|
  {
    match forest
    case Empty => after
    case Tree(path, children, siblings) =>
      [1] + (Encoded(path) + EncodeForest(children, [10] + EncodeForest(siblings, after)))
  }

  /** The stream a compiler would write for a forest and nothing else. */
  function EncodeStream(magic: Bytes, directory: string, forest: Forest): Bytes
    requires IsText(directory) && IsForest(forest)
  {
    magic + (Encoded(directory) + EncodeForest(forest, []))
  }

  /** The records of a forest, followed by `after`. */
  function EncodedRecords(forest: Forest, after: seq<Record>): seq<Record> {
    match forest
    case Empty => after
    case Tree(path, children, siblings) =>
      [Enter(path)] + EncodedRecords(children, [Leave] + EncodedRecords(siblings, after))
  }

  lemma FindNulAt(p: Bytes, at: nat, end: nat)
    requires at <= end < |p| && p[end] == 0
    requires forall i | at <= i < end :: p[i] != 0
    ensures FindNul(p, at) == end
  {
  }

  lemma {:induction false} ReadEncodedText(p: Bytes, at: nat, text: string, after: Bytes)
    requires IsText(text) && at <= |p| && p[at..] == Encoded(text) + after
    ensures ReadText(p, at) == Cut(text, at + |text| + 1)
    ensures p[at + |text| + 1..] == after
  {
    var end := at + |text|;
    forall i | at <= i <= end ensures p[i] == Encoded(text)[i - at] {
      assert p[at..][i - at] == p[i];
    }
    FindNulAt(p, at, end);
    assert forall i | 0 <= i < |text| :: p[at..end][i] == text[i] as int;
    assert Decoded(p[at..end]) == text;
    assert p[at..][|text| + 1..] == after;
  }

  lemma {:induction false} ReadEnter(p: Bytes, at: nat, ids: Identifiers, path: string, after: Bytes)
    requires IsText(path) && at <= |p| && p[at..] == [1] + (Encoded(path) + after)
    ensures ReadRecord(p, at, ids) == Cut(Enter(path), at + |path| + 2)
    ensures p[at + |path| + 2..] == after
  {
    assert p[at..][0] == p[at] == 1;
    assert p[at..][1..] == p[at + 1..] == Encoded(path) + after;
    ReadEncodedText(p, at + 1, path, after);
  }

  lemma {:induction false} ReadLeave(p: Bytes, at: nat, ids: Identifiers, after: Bytes)
    requires at <= |p| && p[at..] == [10] + after
    ensures ReadRecord(p, at, ids) == Cut(Leave, at + 1)
    ensures p[at + 1..] == after
  {
    assert p[at..][0] == p[at] == 10;
    assert p[at..][1..] == p[at + 1..];
  }

  lemma RecordsFirst(p: Bytes, at: nat, ids: Identifiers, record: Record, next: nat)
    requires at < |p| && !record.Symbol? && ReadRecord(p, at, ids) == Cut(record, next) && next <= |p|
    requires Records(p, next, ids).Some?
    ensures Records(p, at, ids) == Some([record] + Records(p, next, ids).value)
  {
  }

  /** From here on the bytes are these. */
  predicate Spells(p: Bytes, at: nat, bytes: Bytes) {
    at <= |p| && p[at..] == bytes
  }

  /** Where the parts of an encoded tree lie. */
  lemma {:induction false} TreeParts(p: Bytes, at: nat, ids: Identifiers, path: string, children: Forest, later: Bytes)
    requires IsText(path) && IsForest(children)
    requires Spells(p, at, [1] + (Encoded(path) + EncodeForest(children, [10] + later)))
    ensures
      var first, leave := at + |path| + 2, |p| - |later| - 1;
      && first <= leave < |p| && Spells(p, first, EncodeForest(children, [10] + later)) && Spells(p, leave + 1, later)
      && ReadRecord(p, at, ids) == Cut(Enter(path), first) && ReadRecord(p, leave, ids) == Cut(Leave, leave + 1)
  {
    hide ReadRecord;
    var first, leave := at + |path| + 2, |p| - |later| - 1;
    ReadEnter(p, at, ids, path, EncodeForest(children, [10] + later));
    EncodeEnds(children, [10] + later, p, first);
    ReadLeave(p, leave, ids, later);
  }

  lemma SpellsToTheEnd(p: Bytes, at: nat, bytes: Bytes)
    requires Spells(p, at, bytes)
    ensures at + |bytes| == |p|
  {
  }

  /** Reading an encoded forest gives its records, then the records of what follows it. */
  lemma {:induction false} RecordsOfEncoded(p: Bytes, at: nat, ids: Identifiers, forest: Forest, after: Bytes)
    requires IsForest(forest) && Spells(p, at, EncodeForest(forest, after))
    requires |after| <= |p| && Records(p, |p| - |after|, ids).Some?
    ensures at <= |p| && Records(p, at, ids) == Some(EncodedRecords(forest, Records(p, |p| - |after|, ids).value))
    decreases forest
  {
    hide ReadRecord, Records, Spells, Encoded, IsText;
    SpellsToTheEnd(p, at, EncodeForest(forest, after));
    match forest
    case Empty =>
    case Tree(path, children, siblings) =>
      var later := EncodeForest(siblings, after);
      var first, leave := at + |path| + 2, |p| - |later| - 1;
      TreeParts(p, at, ids, path, children, later);
      RecordsOfEncoded(p, leave + 1, ids, siblings, after);
      RecordsFirst(p, leave, ids, Leave, leave + 1);
      RecordsOfEncoded(p, first, ids, children, [10] + later);
      RecordsFirst(p, at, ids, Enter(path), first);
  }

  /** What follows an encoded forest is at the end of the bytes. */
  lemma {:induction false} EncodeEnds(forest: Forest, after: Bytes, p: Bytes, at: nat)
    requires IsForest(forest) && at <= |p| && p[at..] == EncodeForest(forest, after)
    ensures |after| <= |p| - at && p[|p| - |after|..] == after
    decreases forest
  {
    match forest
    case Empty =>
    case Tree(path, children, siblings) =>
      var inner := EncodeForest(children, [10] + EncodeForest(siblings, after));
      ReadEnter(p, at, map[], path, inner);
      EncodeEnds(children, [10] + EncodeForest(siblings, after), p, at + |path| + 2);
      var leave := |p| - |EncodeForest(siblings, after)| - 1;
      ReadLeave(p, leave, map[], EncodeForest(siblings, after));
      EncodeEnds(siblings, after, p, leave + 1);
  }

  lemma {:induction false} NestEnter(path: string, after: seq<Record>, sources: seq<Source>, stack: seq<nat>)
    ensures Nest([Enter(path)] + after, sources, stack) ==
            if |sources| >= MAX_SOURCES || |stack| >= MAX_NESTING then None
            else Nest(after, sources + [Source(path, Top(stack))], stack + [|sources|])
  {
    assert ([Enter(path)] + after)[1..] == after;
  }

  lemma {:induction false} NestLeave(after: seq<Record>, sources: seq<Source>, stack: seq<nat>, top: nat)
    ensures Nest([Leave] + after, sources, stack + [top]) == Nest(after, sources, stack)
  {
    assert ([Leave] + after)[1..] == after && (stack + [top])[..|stack|] == stack;
  }

  predicate Fits(sources: nat, nesting: nat, forest: Forest) {
    sources + Count(forest) <= MAX_SOURCES && nesting + Height(forest) <= MAX_NESTING
  }

  /** Nesting the records of a forest lists it, exactly when the limits allow it. */
  lemma {:induction false} NestEncoded(forest: Forest, after: seq<Record>, sources: seq<Source>, stack: seq<nat>)
    requires |sources| <= MAX_SOURCES && |stack| <= MAX_NESTING
    ensures Nest(EncodedRecords(forest, after), sources, stack) ==
            if Fits(|sources|, |stack|, forest) then Nest(after, Preorder(forest, sources, Top(stack)), stack) else None
    decreases forest
  {
    match forest
    case Empty =>
    case Tree(path, children, siblings) =>
      var later := EncodedRecords(siblings, after);
      NestEnter(path, EncodedRecords(children, [Leave] + later), sources, stack);
      if |sources| < MAX_SOURCES && |stack| < MAX_NESTING {
        var sources1 := sources + [Source(path, Top(stack))];
        NestEncoded(children, [Leave] + later, sources1, stack + [|sources|]);
        if Fits(|sources1|, |stack| + 1, children) {
          var sources2 := Preorder(children, sources1, Some(|sources|));
          NestLeave(later, sources2, stack, |sources|);
          NestEncoded(siblings, after, sources2, stack);
        }
      }
  }

  /** Parsing inverts encoding on every forest, and refuses exactly the ones over a limit. */
  lemma {:induction false} ParseEncoded(magic: Bytes, directory: string, forest: Forest)
    requires IsMagic(magic) && IsText(directory) && IsForest(forest)
    ensures ParseSbr(EncodeStream(magic, directory, forest)) ==
            if forest.Tree? && Fits(0, 0, forest) && |EncodeStream(magic, directory, forest)| <= MAX_PAYLOAD
            then Some(Trace(directory, Preorder(forest, [], None)))
            else None
  {
    var p := EncodeStream(magic, directory, forest);
    var start := 5 + |directory| + 1;
    assert p[..5] == magic;
    assert p[5..] == Encoded(directory) + EncodeForest(forest, []);
    ReadEncodedText(p, 5, directory, EncodeForest(forest, []));
    assert Records(p, |p|, map[]) == Some([]);
    hide Records, Nest, EncodeForest, Encoded, ReadText;
    RecordsOfEncoded(p, start, map[], forest, []);
    NestEncoded(forest, [], [], []);
  }

  // ---- Every accepted stream lists a forest ------------------------------

  /** The forests that some records complete: the innermost open level first. */
  function Levels(records: seq<Record>): (levels: seq<Forest>)
    ensures |levels| >= 1
  {
    if records == [] then [Empty]
    else
      var rest := Levels(records[1..]);
      match records[0]
      case Symbol(_) => rest
      case Leave => [Empty] + rest
      case Enter(path) =>
        if |rest| < 2 then [Tree(path, rest[0], Empty)]
        else [Tree(path, rest[0], rest[1])] + rest[2..]
  }

  /** Lists the levels that are still to come, innermost first. */
  function ListLevels(levels: seq<Forest>, before: seq<Source>, stack: seq<nat>): seq<Source>
    decreases |levels|
  {
    if levels == [] then before
    else
      var inner := Preorder(levels[0], before, Top(stack));
      ListLevels(levels[1..], inner, if stack == [] then [] else stack[..|stack| - 1])
  }

  lemma {:induction false} NestLists(records: seq<Record>, sources: seq<Source>, stack: seq<nat>)
    requires Nest(records, sources, stack).Some?
    ensures |Levels(records)| == |stack| + 1
    ensures Nest(records, sources, stack).value == ListLevels(Levels(records), sources, stack)
  {
    if records != [] {
      var rest := records[1..];
      match records[0]
      case Symbol(_) => NestLists(rest, sources, stack);
      case Leave =>
        NestLists(rest, sources, stack[..|stack| - 1]);
        assert ([Empty] + Levels(rest))[1..] == Levels(rest);
      case Enter(path) =>
        var sources1 := sources + [Source(path, Top(stack))];
        NestLists(rest, sources1, stack + [|sources|]);
        var levels := Levels(rest);
        assert (stack + [|sources|])[..|stack|] == stack;
        var inner := Preorder(levels[0], sources1, Some(|sources|));
        assert ListLevels(levels, sources1, stack + [|sources|]) == ListLevels(levels[1..], inner, stack);
        assert Levels(records)[1..] == levels[2..] == levels[1..][1..];
    }
  }

  /** The forest an accepted stream lists. */
  function ForestOf(p: Bytes): Forest
    requires ParseSbr(p).Some?
  {
    Levels(Records(p, ReadText(p, 5).next, map[]).value)[0]
  }

  /** Every accepted trace is the preorder listing of a forest: parents come first and nest. */
  lemma {:induction false} AcceptedListsForest(p: Bytes)
    requires ParseSbr(p).Some?
    ensures ParseSbr(p).value.sources == Preorder(ForestOf(p), [], None)
  {
    NestLists(Records(p, ReadText(p, 5).next, map[]).value, [], []);
  }

  // ---- Records that do not nest sources ----------------------------------

  /** The bytes of the nesting records from `at` on. */
  function StripFrom(p: Bytes, at: nat, ids: Identifiers): (stripped: Bytes)
    requires at <= |p|
    ensures |stripped| <= |p| - at
    decreases |p| - at
  {
    if at == |p| then []
    else
      match ReadRecord(p, at, ids)
      case Bad => []
      case Cut(record, next) =>
        if record.Symbol? then StripFrom(p, next, record.identifiers)
        else p[at..next] + StripFrom(p, next, ids)
  }

  /** The stream with every non-nesting record deleted. */
  function Strip(p: Bytes): Bytes
    requires ParseSbr(p).Some?
  {
    p[..ReadText(p, 5).next] + StripFrom(p, ReadText(p, 5).next, map[])
  }

  function NestingOnly(records: seq<Record>): seq<Record> {
    if records == [] then []
    else if records[0].Symbol? then NestingOnly(records[1..])
    else [records[0]] + NestingOnly(records[1..])
  }

  lemma {:induction false} NestIgnoresSymbols(records: seq<Record>, sources: seq<Source>, stack: seq<nat>)
    ensures Nest(NestingOnly(records), sources, stack) == Nest(records, sources, stack)
  {
    if records != [] {
      var rest := records[1..];
      match records[0]
      case Symbol(_) => NestIgnoresSymbols(rest, sources, stack);
      case Leave =>
        assert NestingOnly(records)[1..] == NestingOnly(rest);
        if stack != [] { NestIgnoresSymbols(rest, sources, stack[..|stack| - 1]); }
      case Enter(path) =>
        NestEnter(path, NestingOnly(rest), sources, stack);
        NestIgnoresSymbols(rest, sources + [Source(path, Top(stack))], stack + [|sources|]);
    }
  }

  /** Text reads the same wherever its bytes stand. */
  lemma {:induction false} ReadTextMoved(p: Bytes, at: nat, q: Bytes, to: nat, after: Bytes)
    requires ReadText(p, at).Cut? && to <= |q| && q[to..] == p[at..ReadText(p, at).next] + after
    ensures ReadText(q, to) == Cut(ReadText(p, at).value, to + ReadText(p, at).next - at)
    ensures q[to + ReadText(p, at).next - at..] == after
  {
    var next := ReadText(p, at).next;
    var end := to + next - at - 1;
    forall i | to <= i <= end ensures q[i] == p[at + i - to] {
      assert q[to..][i - to] == q[i];
    }
    FindNulAt(q, to, end);
    assert q[to..end] == p[at..next - 1];
    assert q[to..][next - at..] == after;
  }

  /** A nesting record reads the same wherever its bytes stand, whatever the identifiers. */
  lemma {:induction false} ReadNestingMoved(p: Bytes, at: nat, ids: Identifiers, q: Bytes, to: nat, ids': Identifiers,
                                            after: Bytes)
    requires ReadRecord(p, at, ids).Cut? && !ReadRecord(p, at, ids).value.Symbol?
    requires to <= |q| && q[to..] == p[at..ReadRecord(p, at, ids).next] + after
    ensures ReadRecord(q, to, ids') == Cut(ReadRecord(p, at, ids).value, to + ReadRecord(p, at, ids).next - at)
    ensures q[to + ReadRecord(p, at, ids).next - at..] == after
  {
    var next := ReadRecord(p, at, ids).next;
    assert q[to..][0] == q[to] == p[at];
    assert q[to..][next - at..] == after;
    if Opcode(p[at]) == 1 {
      assert q[to + 1..] == q[to..][1..] == p[at + 1..next] + after;
      ReadTextMoved(p, at + 1, q, to + 1, after);
    }
  }

  function IdentifiersAfter(record: Record, ids: Identifiers): Identifiers {
    if record.Symbol? then record.identifiers else ids
  }

  /** The first record of a readable stream, and the others. */
  lemma {:induction false} SplitRecords(p: Bytes, at: nat, ids: Identifiers)
    requires at < |p| && Records(p, at, ids).Some?
    ensures
      var cut := ReadRecord(p, at, ids);
      && cut.Cut?
      && var ids' := IdentifiersAfter(cut.value, ids);
      && var rest := Records(p, cut.next, ids');
      && rest.Some?
      && if cut.value.Symbol? then
           && NestingOnly(Records(p, at, ids).value) == NestingOnly(rest.value)
           && StripFrom(p, at, ids) == StripFrom(p, cut.next, ids')
         else
           && NestingOnly(Records(p, at, ids).value) == [cut.value] + NestingOnly(rest.value)
           && StripFrom(p, at, ids) == p[at..cut.next] + StripFrom(p, cut.next, ids')
  {
    var cut := ReadRecord(p, at, ids);
    assert cut.Cut?;
    var rest := Records(p, cut.next, IdentifiersAfter(cut.value, ids));
    assert Records(p, at, ids).value == [cut.value] + rest.value;
    assert Records(p, at, ids).value[1..] == rest.value;
  }

  lemma {:induction false} StripKeepsNesting(p: Bytes, at: nat, ids: Identifiers, q: Bytes, to: nat, ids': Identifiers)
    requires at <= |p| && Records(p, at, ids).Some?
    requires to <= |q| && q[to..] == StripFrom(p, at, ids)
    ensures Records(q, to, ids') == Some(NestingOnly(Records(p, at, ids).value))
    decreases |p| - at
  {
    hide ReadRecord;
    if at < |p| {
      SplitRecords(p, at, ids);
      var Cut(record, next) := ReadRecord(p, at, ids);
      if record.Symbol? {
        StripKeepsNesting(p, next, record.identifiers, q, to, ids');
      } else {
        MoveRecord(p, at, ids, q, to, ids');
        StripKeepsNesting(p, next, ids, q, to + next - at, ids');
      }
    }
  }

  lemma {:induction false} MoveRecord(p: Bytes, at: nat, ids: Identifiers, q: Bytes, to: nat, ids': Identifiers)
    requires at < |p| && ReadRecord(p, at, ids).Cut? && !ReadRecord(p, at, ids).value.Symbol?
    requires to <= |q| && q[to..] == StripFrom(p, at, ids)
    ensures
      var Cut(record, next) := ReadRecord(p, at, ids);
      && to + next - at <= |q|
      && to < |q|
      && q[to + next - at..] == StripFrom(p, next, ids)
      && (Records(q, to + next - at, ids').Some? ==>
            Records(q, to, ids') == Some([record] + Records(q, to + next - at, ids').value))
  {
    hide ReadRecord;
    var Cut(record, next) := ReadRecord(p, at, ids);
    ReadNestingMoved(p, at, ids, q, to, ids', StripFrom(p, next, ids));
    if Records(q, to + next - at, ids').Some? {
      RecordsFirst(q, to, ids', record, to + next - at);
    }
  }

  /** Deleting every record that does not nest sources leaves an accepted trace as it is. */
  lemma {:induction false} StrippedTraceUnchanged(p: Bytes)
    requires ParseSbr(p).Some?
    ensures ParseSbr(Strip(p)) == ParseSbr(p)
  {
    hide StripFrom, Records, Nest;
    var start, q := ReadText(p, 5).next, Strip(p);
    assert q[..5] == p[..5];
    assert q[5..] == p[5..start] + StripFrom(p, start, map[]);
    ReadTextMoved(p, 5, q, 5, StripFrom(p, start, map[]));
    StripKeepsNesting(p, start, map[], q, start, map[]);
    NestIgnoresSymbols(Records(p, start, map[]).value, [], []);
  }
}
