/** The parser of browser-information streams: a cursor, an identifier table and a source stack. */
module SbrParser {
  import opened Options
  import opened Traces
  import opened SbrStream

  /** A method that raises returns `None`; otherwise it returns the cut value and moves to its end. */
  ghost predicate Follows<T>(cut: Cut<T>, result: Option<T>, offset: nat) {
    match cut
    case Bad => result.None?
    case Cut(value, next) => result == Some(value) && offset == next
  }

  class Reader {
    const payload: Bytes
    var offset: nat

    constructor (payload: Bytes)
      ensures this.payload == payload && offset == 0
    {
      this.payload := payload;
      offset := 0;
    }

    method Exact(size: nat) returns (raw: Option<Bytes>)
      modifies this
      ensures offset <= |payload| || offset == old(offset)
      ensures if old(offset) + size <= |payload|
              then raw == Some(payload[old(offset)..old(offset) + size]) && offset == old(offset) + size
              else raw == None
    {
      if offset + size > |payload| { return None; }
      raw := Some(payload[offset..offset + size]);
      offset := offset + size;
    }

    method TakeByte() returns (value: Option<nat>)
      modifies this
      ensures Follows(ReadByte(payload, old(offset)), value, offset)
    {
      var raw := Exact(1);
      if raw.None? { return None; }
      value := Some(raw.value[0]);
    }

    method TakeWord() returns (value: Option<nat>)
      modifies this
      ensures Follows(ReadWord(payload, old(offset)), value, offset)
    {
      var raw := Exact(2);
      if raw.None? { return None; }
      value := Some(raw.value[0] as nat + 256 * (raw.value[1] as nat));
    }

    method TakeAddress(wide: bool) returns (value: Option<nat>)
      modifies this
      ensures Follows(ReadAddress(payload, old(offset), wide), value, offset)
    {
      if !wide {
        value := TakeWord();
      } else {
        var raw := Exact(3);
        if raw.None? { return None; }
        value := Some(raw.value[0] as nat + 256 * (raw.value[1] as nat) + 65536 * (raw.value[2] as nat));
      }
    }

    method TakeText() returns (value: Option<string>)
      requires offset <= |payload|
      modifies this
      ensures Follows(ReadText(payload, old(offset)), value, offset)
    {
      var end := offset;
      while end < |payload| && payload[end] != 0
        invariant offset <= end <= |payload|
        invariant FindNul(payload, offset) == FindNul(payload, end)
      {
        end := end + 1;
      }
      if end == |payload| || end - offset > MAX_TEXT { return None; }
      var raw := payload[offset..end];
      offset := end + 1;
      if !IsAscii(raw) || raw == [] { return None; }
      value := Some(Decoded(raw));
    }

    /** The shared tail of `_bind_identifier` and `_statement`. */
    method TakeNamedCode(ids: Identifiers, wide: bool) returns (bound: Option<Identifiers>)
      requires offset <= |payload|
      modifies this
      ensures Follows(NamedCode(payload, old(offset), ids, wide), bound, offset)
    {
      var code := TakeAddress(wide);
      if code.None? { return None; }
      var name := TakeText();
      if name.None? { return None; }
      bound := Bind(ids, code.value, name.value);
    }

    method TakeBinding(ids: Identifiers, wide: bool, wideName: bool) returns (bound: Option<Identifiers>)
      requires offset <= |payload|
      modifies this
      ensures Follows(BindIdentifier(payload, old(offset), ids, wide, wideName), bound, offset)
    {
      var code := TakeAddress(wide);
      if code.None? { return None; }
      if code.value !in {0x01, 0x02, 0x21, 0x22, 0x40, 0x60} {
        // A forward symbol reference carries nothing more.
        return Some(ids);
      }
      bound := TakeNamedCode(ids, wideName);
    }

    method TakeStatement(ids: Identifiers, wide: bool) returns (bound: Option<Identifiers>)
      requires offset <= |payload|
      modifies this
      ensures Follows(Statement(payload, old(offset), ids, wide), bound, offset)
    {
      var kind := TakeByte();
      if kind.None? { return None; }
      if kind.value in {1, 3, 5, 6, 7, 8, 9, 10, 11, 15, 16, 17} {
        var word := TakeWord();
        if word.None? { return None; }
        bound := TakeNamedCode(ids, wide);
      } else if kind.value == 4 {
        bound := TakeBinding(ids, false, wide);
      } else {
        bound := None;
      }
    }

    /** The `while True` of opcode 12: it ends because every turn reads at least four bytes. */
    method TakeParentChain(ids: Identifiers, startWide: bool) returns (accepted: Option<Identifiers>)
      requires offset <= |payload|
      modifies this
      ensures Follows(ParentChain(payload, old(offset), ids, startWide), accepted, offset)
    {
      var wide := startWide;
      while true
        invariant offset <= |payload|
        invariant ParentChain(payload, old(offset), ids, startWide) == ParentChain(payload, offset, ids, wide)
        decreases |payload| - offset
      {
        var parent := TakeAddress(wide);
        if parent.None? || parent.value !in ids { return None; }
        var opcode := TakeWord();
        if opcode.None? { return None; }
        if opcode.value in {0x0C02, 0x0C03, 0x0C04, 0x0C05, 0x4C04} {
          wide := opcode.value == 0x4C04;
        } else if opcode.value in {0x0902, 0x0904} {
          return Some(ids);
        } else if opcode.value in {0x0202, 0x0203, 0x0204, 0x0205, 0x0208} {
          var word := TakeWord();
          if word.None? { return None; }
          return Some(ids);
        } else {
          return None;
        }
      }
    }

    method TakeRecord(ids: Identifiers) returns (record: Option<Record>)
      requires offset <= |payload|
      modifies this
      ensures Follows(ReadRecord(payload, old(offset), ids), record, offset)
    {
      var raw := TakeByte();
      if raw.None? { return None; }
      var wide, opcode := IsWide(raw.value), Opcode(raw.value);
      record := None;
      if opcode == 1 {
        var path := TakeText();
        if path.Some? { record := Some(Enter(path.value)); }
      } else if opcode == 2 {
        var word := TakeWord();
        if word.Some? { record := Some(Symbol(ids)); }
      } else if opcode == 3 {
        var bound := TakeStatement(ids, wide);
        if bound.Some? { record := Some(Symbol(bound.value)); }
      } else if opcode == 4 {
        var bound := TakeBinding(ids, wide, wide);
        if bound.Some? { record := Some(Symbol(bound.value)); }
      } else if opcode in {7, 8, 9} {
        record := Some(Symbol(ids));
      } else if opcode == 10 {
        record := Some(Leave);
      } else if opcode in {11, 13} {
        var address := TakeAddress(wide);
        if address.Some? { record := Some(Symbol(ids)); }
      } else if opcode == 12 {
        var chain := TakeParentChain(ids, wide);
        if chain.Some? { record := Some(Symbol(chain.value)); }
      }
    }
  }

  /** `parse_msvc_sbr` (src/reprobit/classic_includes.py:243-303). */
  method ParseMsvcSbr(payload: Bytes) returns (trace: Option<Trace>)
    ensures trace == ParseSbr(payload)
  {
    if payload == [] || |payload| > MAX_PAYLOAD { return None; }
    var reader := new Reader(payload);
    var magic := reader.Exact(5);
    if magic.None? || !IsMagic(magic.value) { return None; }
    var directory := reader.TakeText();
    if directory.None? { return None; }
    ghost var start := reader.offset;
    var identifiers: Identifiers := map[];
    var sources: seq<Source> := [];
    var stack: seq<nat> := [];
    while reader.offset != |payload|
      invariant reader.payload == payload && reader.offset <= |payload|
      invariant sources == [] ==> stack == []
      invariant sources != [] ==> sources[0].parent.None?
      invariant NestFrom(payload, start, map[], [], []) == NestFrom(payload, reader.offset, identifiers, sources, stack)
      decreases |payload| - reader.offset
    {
      var record := reader.TakeRecord(identifiers);
      if record.None? { return None; }
      match record.value
      case Symbol(ids) =>
        identifiers := ids;
      case Leave =>
        if stack == [] { return None; }
        stack := stack[..|stack| - 1];
      case Enter(path) =>
        if |sources| >= MAX_SOURCES || |stack| >= MAX_NESTING { return None; }
        sources, stack := sources + [Source(path, Top(stack))], stack + [|sources|];
    }
    if stack != [] || sources == [] || sources[0].parent.Some? { return None; }
    trace := Some(Trace(directory.value, sources));
  }
}
