/**
 The browser-information stream of Visual C++ 4.x, record by record.

 The functions say what the bytes at an offset mean; `Reader` is the cursor that the
 parser moves over them.
 */
module SbrStream {
  import opened Options
  import opened Traces

  type Byte = n: int | 0 <= n < 256
  type Bytes = seq<Byte>

  const MAX_PAYLOAD: nat := 64 * 1024 * 1024
  const MAX_TEXT: nat := 32768
  const MAX_SOURCES: nat := 100_000
  const MAX_NESTING: nat := 4096

  /** A value read from the stream and the offset after it. */
  datatype Cut<+T> = Cut(value: T, next: nat) | Bad

  // ---- Primitive reads --------------------------------------------------

  function ReadByte(p: Bytes, at: nat): Cut<nat> {
    if at + 1 <= |p| then Cut(p[at], at + 1) else Bad
  }

  function ReadWord(p: Bytes, at: nat): Cut<nat> {
    if at + 2 <= |p| then Cut(p[at] as nat + 256 * (p[at + 1] as nat), at + 2) else Bad
  }

  /** A two- or three-byte little-endian address. */
  function ReadAddress(p: Bytes, at: nat, wide: bool): Cut<nat> {
    if !wide then ReadWord(p, at)
    else if at + 3 <= |p| then Cut(p[at] as nat + 256 * (p[at + 1] as nat) + 65536 * (p[at + 2] as nat), at + 3)
    else Bad
  }

  /** The offset of the first NUL at or after `at`, or the length of the payload. */
  function FindNul(p: Bytes, at: nat): (end: nat)
    requires at <= |p|
    ensures at <= end <= |p|
    ensures forall i | at <= i < end :: p[i] != 0
    ensures end < |p| ==> p[end] == 0
    decreases |p| - at
  {
    if at == |p| || p[at] == 0 then at else FindNul(p, at + 1)
  }

  predicate IsAscii(raw: Bytes) {
    forall i | 0 <= i < |raw| :: raw[i] < 128
  }

  function Decoded(raw: Bytes): string
    requires IsAscii(raw)
  {
    seq(|raw|, i requires 0 <= i < |raw| => raw[i] as char)
  }

  function ReadText(p: Bytes, at: nat): Cut<string> {
    if at > |p| then Bad
    else
      var end := FindNul(p, at);
      if end == |p| || end - at > MAX_TEXT || end == at || !IsAscii(p[at..end]) then Bad
      else Cut(Decoded(p[at..end]), end + 1)
  }

  // ---- Records ----------------------------------------------------------

  type Identifiers = map<nat, string>

  predicate IsWide(rawOpcode: nat) {
    (rawOpcode / 64) % 2 == 1
  }

  function Opcode(rawOpcode: nat): nat {
    if IsWide(rawOpcode) then rawOpcode - 64 else rawOpcode
  }

  /** Records either nest sources or only describe symbols. */
  datatype Record = Enter(path: string) | Leave | Symbol(identifiers: Identifiers)

  /** `identifiers.setdefault(code, name)` followed by the consistency check. */
  function Bind(ids: Identifiers, code: nat, name: string): Option<Identifiers> {
    if code !in ids then Some(ids[code := name])
    else if ids[code] == name then Some(ids)
    else None
  }

  function NamedCode(p: Bytes, at: nat, ids: Identifiers, wide: bool): (cut: Cut<Identifiers>)
    ensures cut.Cut? ==> at < cut.next <= |p|
  {
    match ReadAddress(p, at, wide)
    case Bad => Bad
    case Cut(code, at1) =>
      match ReadText(p, at1)
      case Bad => Bad
      case Cut(name, at2) =>
        match Bind(ids, code, name)
        case None => Bad
        case Some(ids') => Cut(ids', at2)
  }

  /** `_bind_identifier` (src/reprobit/classic_includes.py:203-219). */
  function BindIdentifier(p: Bytes, at: nat, ids: Identifiers, wide: bool, wideName: bool): (cut: Cut<Identifiers>)
    ensures cut.Cut? ==> at < cut.next <= |p|
  {
    match ReadAddress(p, at, wide)
    case Bad => Bad
    case Cut(code, at1) =>
      if code !in {0x01, 0x02, 0x21, 0x22, 0x40, 0x60} then Cut(ids, at1)
      else NamedCode(p, at1, ids, wideName)
  }

  /** `_statement` (src/reprobit/classic_includes.py:222-240). */
  function Statement(p: Bytes, at: nat, ids: Identifiers, wide: bool): (cut: Cut<Identifiers>)
    ensures cut.Cut? ==> at < cut.next <= |p|
  {
    match ReadByte(p, at)
    case Bad => Bad
    case Cut(kind, at1) =>
      if kind in {1, 3, 5, 6, 7, 8, 9, 10, 11, 15, 16, 17} then
        match ReadWord(p, at1)
        case Bad => Bad
        case Cut(_, at2) => NamedCode(p, at2, ids, wide)
      else if kind == 4 then BindIdentifier(p, at1, ids, false, wide)
      else Bad
  }

  /** The parent-class chain of opcode 12 (src/reprobit/classic_includes.py:278-296). */
  function ParentChain(p: Bytes, at: nat, ids: Identifiers, wide: bool): (cut: Cut<Identifiers>)
    ensures cut.Cut? ==> at < cut.next <= |p|
    decreases |p| - at
  {
    match ReadAddress(p, at, wide)
    case Bad => Bad
    case Cut(code, at1) =>
      if code !in ids then Bad
      else
        match ReadWord(p, at1)
        case Bad => Bad
        case Cut(opcode, at2) =>
          if opcode in {0x0C02, 0x0C03, 0x0C04, 0x0C05, 0x4C04} then ParentChain(p, at2, ids, opcode == 0x4C04)
          else if opcode in {0x0902, 0x0904} then Cut(ids, at2)
          else if opcode in {0x0202, 0x0203, 0x0204, 0x0205, 0x0208} then
            match ReadWord(p, at2)
            case Bad => Bad
            case Cut(_, at3) => Cut(ids, at3)
          else Bad
  }

  function AsSymbol(cut: Cut<Identifiers>): Cut<Record> {
    match cut
    case Bad => Bad
    case Cut(ids, next) => Cut(Symbol(ids), next)
  }

  /** The record at `at`: every record moves forward and stays inside the payload. */
  function ReadRecord(p: Bytes, at: nat, ids: Identifiers): (cut: Cut<Record>)
    ensures cut.Cut? ==> at < cut.next <= |p|
  {
    match ReadByte(p, at)
    case Bad => Bad
    case Cut(raw, at1) =>
      var wide := IsWide(raw);
      var opcode := Opcode(raw);
      if opcode == 1 then
        match ReadText(p, at1)
        case Bad => Bad
        case Cut(path, next) => Cut(Enter(path), next)
      else if opcode == 2 then
        match ReadWord(p, at1)
        case Bad => Bad
        case Cut(_, next) => Cut(Symbol(ids), next)
      else if opcode == 3 then AsSymbol(Statement(p, at1, ids, wide))
      else if opcode == 4 then AsSymbol(BindIdentifier(p, at1, ids, wide, wide))
      else if opcode in {7, 8, 9} then Cut(Symbol(ids), at1)
      else if opcode == 10 then Cut(Leave, at1)
      else if opcode in {11, 13} then
        match ReadAddress(p, at1, wide)
        case Bad => Bad
        case Cut(_, next) => Cut(Symbol(ids), next)
      else if opcode == 12 then AsSymbol(ParentChain(p, at1, ids, wide))
      else Bad
  }

  // ---- Nesting ----------------------------------------------------------

  function Top(stack: seq<nat>): Option<nat> {
    if stack == [] then None else Some(stack[|stack| - 1])
  }

  /** All records from `at` to the end of the payload. */
  function Records(p: Bytes, at: nat, ids: Identifiers): Option<seq<Record>>
    requires at <= |p|
    decreases |p| - at
  {
    if at == |p| then Some([])
    else
      match ReadRecord(p, at, ids)
      case Bad => None
      case Cut(record, next) =>
        match Records(p, next, if record.Symbol? then record.identifiers else ids)
        case None => None
        case Some(rest) => Some([record] + rest)
  }

  /** The sources of some records, given those already open. */
  function Nest(records: seq<Record>, sources: seq<Source>, stack: seq<nat>): Option<seq<Source>> {
    if records == [] then (if stack == [] && sources != [] then Some(sources) else None)
    else
      match records[0]
      case Symbol(_) => Nest(records[1..], sources, stack)
      case Leave =>
        if stack == [] then None else Nest(records[1..], sources, stack[..|stack| - 1])
      case Enter(path) =>
        if |sources| >= MAX_SOURCES || |stack| >= MAX_NESTING then None
        else Nest(records[1..], sources + [Source(path, Top(stack))], stack + [|sources|])
  }

  /** The sources of the records from `at` on, given those already open. */
  function NestFrom(p: Bytes, at: nat, ids: Identifiers, sources: seq<Source>, stack: seq<nat>): Option<seq<Source>>
    requires at <= |p|
  {
    match Records(p, at, ids)
    case None => None
    case Some(records) => Nest(records, sources, stack)
  }

  predicate IsMagic(magic: Bytes) {
    magic == [0, 2, 0, 2, 0] || magic == [0, 2, 0, 7, 0]
  }

  /** What `parse_msvc_sbr` accepts and the trace it returns. */
  function ParseSbr(p: Bytes): Option<Trace> {
    if p == [] || |p| > MAX_PAYLOAD || |p| < 5 || !IsMagic(p[..5]) then None
    else
      match ReadText(p, 5)
      case Bad => None
      case Cut(directory, next) =>
        match NestFrom(p, next, map[], [], [])
        case None => None
        case Some(sources) => Some(Trace(directory, sources))
  }
}
