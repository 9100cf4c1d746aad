/**
 The records of a browser-information stream as values: the accepted streams are exactly the encodings of
 consistent record lists, and records that describe symbols do not change the trace.
 */
module SbrGrammar {
  import opened Options
  import opened Traces
  import opened SbrStream
  import opened SbrForest

  /** Parent classes, one after another; the last one may carry a word. */
  datatype Chain =
    | Final(code: nat, opcode: nat)
    | Closed(code: nat, opcode: nat, word: nat)
    | Onward(code: nat, opcode: nat, rest: Chain)

  datatype Item =
    | Entering(path: string)
    | Leaving
    | Numbered(word: nat)
    | Marked(opcode: nat)
    | Addressed(opcode: nat, address: nat)
    | Referring(code: nat)
    | Naming(code: nat, address: nat, name: string)
    | Stating(kind: nat, word: nat, address: nat, name: string)
    | StatedReferring(code: nat)
    | StatedNaming(code: nat, address: nat, name: string)
    | Inheriting(chain: Chain)

  /** An item with two- or three-byte addresses. */
  datatype Entry = Entry(wide: bool, item: Item)

  // ---- Well-formed entries ------------------------------------------------------

  const NAMING_CODES: set<nat> := {0x01, 0x02, 0x21, 0x22, 0x40, 0x60}
  const STATEMENT_KINDS: set<nat> := {1, 3, 5, 6, 7, 8, 9, 10, 11, 15, 16, 17}
  const CHAIN_OPCODES: set<nat> := {0x0C02, 0x0C03, 0x0C04, 0x0C05, 0x4C04}
  const FINAL_OPCODES: set<nat> := {0x0902, 0x0904}
  const CLOSED_OPCODES: set<nat> := {0x0202, 0x0203, 0x0204, 0x0205, 0x0208}

  predicate IsWord(n: nat) {
    n < 0x10000
  }

  predicate IsAddress(n: nat, wide: bool) {
    n < if wide then 0x1000000 else 0x10000
  }

  predicate IsChain(chain: Chain, wide: bool) {
    IsAddress(chain.code, wide) &&
    match chain
    case Final(_, opcode) => opcode in FINAL_OPCODES
    case Closed(_, opcode, word) => opcode in CLOSED_OPCODES && IsWord(word)
    case Onward(_, opcode, rest) => opcode in CHAIN_OPCODES && IsChain(rest, opcode == 0x4C04)
  }

  predicate IsEntry(entry: Entry) {
    match entry.item
    case Entering(path) => IsText(path)
    case Leaving => true
    case Numbered(word) => IsWord(word)
    case Marked(opcode) => opcode in {7, 8, 9}
    case Addressed(opcode, address) => opcode in {11, 13} && IsAddress(address, entry.wide)
    case Referring(code) => IsAddress(code, entry.wide) && code !in NAMING_CODES
    case Naming(code, address, name) => code in NAMING_CODES && IsAddress(address, entry.wide) && IsText(name)
    case Stating(kind, word, address, name) =>
      kind in STATEMENT_KINDS && IsWord(word) && IsAddress(address, entry.wide) && IsText(name)
    case StatedReferring(code) => IsWord(code) && code !in NAMING_CODES
    case StatedNaming(code, address, name) => code in NAMING_CODES && IsAddress(address, entry.wide) && IsText(name)
    case Inheriting(chain) => IsChain(chain, entry.wide)
  }

  // ---- Encoding -------------------------------------------------------------------

  function WordCode(n: nat): Bytes
    requires IsWord(n)
  {
    [n % 256, n / 256]
  }

  function AddressCode(n: nat, wide: bool): Bytes
    requires IsAddress(n, wide)
  {
    if wide then [n % 256, n / 256 % 256, n / 65536] else [n % 256, n / 256]
  }

  function OpcodeByte(opcode: nat, wide: bool): Byte
    requires opcode < 64
  {
    if wide then opcode + 64 else opcode
  }

  function ChainCode(chain: Chain, wide: bool, after: Bytes): Bytes
    requires IsChain(chain, wide)
  {
    AddressCode(chain.code, wide) + (WordCode(chain.opcode) +
    match chain
    case Final(_, _) => after
    case Closed(_, _, word) => WordCode(word) + after
    case Onward(_, opcode, rest) => ChainCode(rest, opcode == 0x4C04, after))
  }

  function OpcodeOf(item: Item): nat {
    match item
    case Entering(_) => 1
    case Leaving => 10
    case Numbered(_) => 2
    case Marked(opcode) => opcode
    case Addressed(opcode, _) => opcode
    case Referring(_) => 4
    case Naming(_, _, _) => 4
    case Stating(_, _, _, _) => 3
    case StatedReferring(_) => 3
    case StatedNaming(_, _, _) => 3
    case Inheriting(_) => 12
  }

  /** The bytes of an entry after its opcode, followed by `after`. */
  function OperandCode(entry: Entry, after: Bytes): Bytes
    requires IsEntry(entry)
  {
    match entry.item
    case Entering(path) => Encoded(path) + after
    case Leaving => after
    case Numbered(word) => WordCode(word) + after
    case Marked(_) => after
    case Addressed(_, address) => AddressCode(address, entry.wide) + after
    case Referring(code) => AddressCode(code, entry.wide) + after
    case Naming(code, address, name) =>
      AddressCode(code, entry.wide) + (AddressCode(address, entry.wide) + (Encoded(name) + after))
    case Stating(kind, word, address, name) =>
      [kind] + (WordCode(word) + (AddressCode(address, entry.wide) + (Encoded(name) + after)))
    case StatedReferring(code) => [4] + (WordCode(code) + after)
    case StatedNaming(code, address, name) =>
      [4] + (WordCode(code) + (AddressCode(address, entry.wide) + (Encoded(name) + after)))
    case Inheriting(chain) => ChainCode(chain, entry.wide, after)
  }

  function EntryCode(entry: Entry, after: Bytes): Bytes
    requires IsEntry(entry)
  {
    [OpcodeByte(OpcodeOf(entry.item), entry.wide)] + OperandCode(entry, after)
  }

  predicate AreEntries(entries: seq<Entry>) {
    forall i | 0 <= i < |entries| :: IsEntry(entries[i])
  }

  function EntriesCode(entries: seq<Entry>): Bytes
    requires AreEntries(entries)
  {
    if entries == [] then [] else EntryCode(entries[0], EntriesCode(entries[1..]))
  }

  // ---- What an entry means ----------------------------------------------------------

  /** The identifier an entry names. */
  function NameOf(item: Item): Option<(nat, string)> {
    match item
    case Naming(_, address, name) => Some((address, name))
    case Stating(_, _, address, name) => Some((address, name))
    case StatedNaming(_, address, name) => Some((address, name))
    case _ => None
  }

  predicate Mentions(chain: Chain, code: nat) {
    chain.code == code || (chain.Onward? && Mentions(chain.rest, code))
  }

  predicate IsFine(item: Item, ids: Identifiers) {
    && (NameOf(item).Some? && NameOf(item).value.0 in ids ==> ids[NameOf(item).value.0] == NameOf(item).value.1)
    && (item.Inheriting? ==> ChainIsKnown(item.chain, ids))
  }

  predicate ChainIsKnown(chain: Chain, ids: Identifiers) {
    chain.code in ids && (chain.Onward? ==> ChainIsKnown(chain.rest, ids))
  }

  function Table(item: Item, ids: Identifiers): Identifiers {
    if NameOf(item).None? then ids else ids[NameOf(item).value.0 := NameOf(item).value.1]
  }

  function RecordOf(item: Item, ids: Identifiers): Record {
    match item
    case Entering(path) => Enter(path)
    case Leaving => Leave
    case _ => Symbol(Table(item, ids))
  }

  // ---- Reading what was encoded -------------------------------------------------------

  lemma {:induction false} ReadsByte(p: Bytes, at: nat, b: Byte, after: Bytes)
    requires Spells(p, at, [b] + after)
    ensures ReadByte(p, at) == Cut(b, at + 1) && Spells(p, at + 1, after)
  {
    assert p[at..][0] == p[at];
    assert p[at..][1..] == p[at + 1..];
  }

  lemma {:induction false} ReadsWord(p: Bytes, at: nat, n: nat, after: Bytes)
    requires IsWord(n) && Spells(p, at, WordCode(n) + after)
    ensures ReadWord(p, at) == Cut(n, at + 2) && Spells(p, at + 2, after)
  {
    assert p[at..][0] == p[at] && p[at..][1] == p[at + 1];
    assert p[at..][2..] == p[at + 2..];
  }

  lemma {:induction false} ReadsAddress(p: Bytes, at: nat, n: nat, wide: bool, after: Bytes)
    requires IsAddress(n, wide) && Spells(p, at, AddressCode(n, wide) + after)
    ensures ReadAddress(p, at, wide) == Cut(n, |p| - |after|) && at < |p| - |after| && Spells(p, |p| - |after|, after)
  {
    assert p[at..][0] == p[at] && p[at..][1] == p[at + 1];
    if wide {
      assert p[at..][2] == p[at + 2];
      assert p[at..][3..] == p[at + 3..];
      ThreeBytes(n);
    } else {
      assert p[at..][2..] == p[at + 2..];
    }
  }

  lemma ThreeBytes(n: nat)
    requires n < 0x1000000
    ensures n % 256 + 256 * (n / 256 % 256) + 65536 * (n / 65536) == n
  {
  }

  lemma {:induction false} ReadsText(p: Bytes, at: nat, text: string, after: Bytes)
    requires IsText(text) && Spells(p, at, Encoded(text) + after)
    ensures ReadText(p, at) == Cut(text, |p| - |after|) && at < |p| - |after| && Spells(p, |p| - |after|, after)
  {
    ReadEncodedText(p, at, text, after);
  }

  lemma {:induction false} ReadsNamed(p: Bytes, at: nat, ids: Identifiers, wide: bool, address: nat, name: string,
                                      after: Bytes)
    requires IsAddress(address, wide) && IsText(name)
    requires Spells(p, at, AddressCode(address, wide) + (Encoded(name) + after))
    ensures |after| <= |p|
    ensures NamedCode(p, at, ids, wide) ==
            if address in ids && ids[address] != name then Bad else Cut(ids[address := name], |p| - |after|)
  {
    hide ReadAddress, ReadText, Spells, Encoded, IsText;
    ReadsAddress(p, at, address, wide, Encoded(name) + after);
    ReadsText(p, |p| - |Encoded(name) + after|, name, after);
    if address in ids && ids[address] == name {
      assert ids[address := name] == ids;
    }
  }

  lemma {:induction false} ReadsChain(p: Bytes, at: nat, ids: Identifiers, wide: bool, chain: Chain, after: Bytes)
    requires IsChain(chain, wide) && Spells(p, at, ChainCode(chain, wide, after))
    ensures |after| <= |p|
    ensures ParentChain(p, at, ids, wide) == if ChainIsKnown(chain, ids) then Cut(ids, |p| - |after|) else Bad
    decreases chain
  {
    hide ReadAddress, ReadWord, Spells, WordCode, AddressCode;
    var rest :=
      match chain
      case Final(_, _) => after
      case Closed(_, _, word) => WordCode(word) + after
      case Onward(_, opcode, rest) => ChainCode(rest, opcode == 0x4C04, after);
    ReadsAddress(p, at, chain.code, wide, WordCode(chain.opcode) + rest);
    var at1 := |p| - |WordCode(chain.opcode) + rest|;
    ReadsWord(p, at1, chain.opcode, rest);
    SpellsToTheEnd(p, at1 + 2, rest);
    match chain
    case Final(_, _) =>
    case Closed(_, _, word) =>
      ReadsWord(p, at1 + 2, word, after);
      SpellsToTheEnd(p, at1 + 4, after);
    case Onward(_, opcode, next) =>
      ReadsChain(p, at1 + 2, ids, opcode == 0x4C04, next, after);
  }

  lemma OpcodeBack(opcode: nat, wide: bool)
    requires opcode < 64
    ensures IsWide(OpcodeByte(opcode, wide)) == wide && Opcode(OpcodeByte(opcode, wide)) == opcode
  {
  }

  /** A reference or a name of opcode 4, or of a statement, whose code is always a word. */
  lemma {:induction false} ReadsBinding(p: Bytes, at: nat, ids: Identifiers, wide: bool, wideName: bool, code: nat,
                                        named: Option<(nat, string)>, after: Bytes)
    requires IsAddress(code, wide) && (named.Some? <==> code in NAMING_CODES)
    requires named.Some? ==> IsAddress(named.value.0, wideName) && IsText(named.value.1)
    requires Spells(p, at, AddressCode(code, wide) +
                           if named.None? then after
                           else AddressCode(named.value.0, wideName) + (Encoded(named.value.1) + after))
    ensures |after| <= |p|
    ensures BindIdentifier(p, at, ids, wide, wideName) ==
            if named.None? then Cut(ids, |p| - |after|)
            else if named.value.0 in ids && ids[named.value.0] != named.value.1 then Bad
            else Cut(ids[named.value.0 := named.value.1], |p| - |after|)
  {
    hide ReadAddress, NamedCode, Spells, Encoded, IsText, AddressCode;
    var rest := if named.None? then after else AddressCode(named.value.0, wideName) + (Encoded(named.value.1) + after);
    ReadsAddress(p, at, code, wide, rest);
    if named.Some? {
      ReadsNamed(p, |p| - |rest|, ids, wideName, named.value.0, named.value.1, after);
    }
  }

  lemma {:induction false} ReadsStatement(p: Bytes, at: nat, ids: Identifiers, entry: Entry, after: Bytes)
    requires IsEntry(entry) && OpcodeOf(entry.item) == 3 && Spells(p, at, OperandCode(entry, after))
    ensures |after| <= |p|
    ensures Statement(p, at, ids, entry.wide) ==
            if IsFine(entry.item, ids) then Cut(Table(entry.item, ids), |p| - |after|) else Bad
  {
    hide ReadByte, ReadWord, NamedCode, BindIdentifier, Spells, Encoded, IsText, AddressCode, WordCode;
    match entry.item
    case Stating(kind, word, address, name) =>
      ReadsByte(p, at, kind, WordCode(word) + (AddressCode(address, entry.wide) + (Encoded(name) + after)));
      ReadsWord(p, at + 1, word, AddressCode(address, entry.wide) + (Encoded(name) + after));
      ReadsNamed(p, at + 3, ids, entry.wide, address, name, after);
    case StatedReferring(code) =>
      WordIsAddress(code);
      ReadsByte(p, at, 4, WordCode(code) + after);
      ReadsBinding(p, at + 1, ids, false, entry.wide, code, None, after);
    case StatedNaming(code, address, name) =>
      WordIsAddress(code);
      ReadsByte(p, at, 4, WordCode(code) + (AddressCode(address, entry.wide) + (Encoded(name) + after)));
      ReadsBinding(p, at + 1, ids, false, entry.wide, code, Some((address, name)), after);
  }

  lemma WordIsAddress(n: nat)
    ensures IsWord(n) <==> IsAddress(n, false)
    ensures IsWord(n) ==> WordCode(n) == AddressCode(n, false)
  {
  }

  /** Reading an encoded entry gives its record when it is consistent with the identifiers, and fails otherwise. */
  lemma {:induction false} ReadsEntry(p: Bytes, at: nat, ids: Identifiers, entry: Entry, after: Bytes)
    requires IsEntry(entry) && Spells(p, at, EntryCode(entry, after))
    ensures |after| <= |p|
    ensures ReadRecord(p, at, ids) ==
            if IsFine(entry.item, ids) then Cut(RecordOf(entry.item, ids), |p| - |after|) else Bad
  {
    hide ReadByte, ReadWord, ReadAddress, ReadText, BindIdentifier, Statement, ParentChain, Spells, Encoded, IsText,
      AddressCode, WordCode, OpcodeByte, IsWide, Opcode, ChainCode, IsChain;
    var opcode, operands := OpcodeOf(entry.item), OperandCode(entry, after);
    ReadsByte(p, at, OpcodeByte(opcode, entry.wide), operands);
    OpcodeBack(opcode, entry.wide);
    SpellsToTheEnd(p, at + 1, operands);
    match entry.item
    case Entering(path) => ReadsText(p, at + 1, path, after);
    case Leaving =>
    case Numbered(word) =>
      ReadsWord(p, at + 1, word, after);
      SpellsToTheEnd(p, at + 3, after);
    case Marked(_) =>
    case Addressed(_, address) => ReadsAddress(p, at + 1, address, entry.wide, after);
    case Referring(code) => ReadsBinding(p, at + 1, ids, entry.wide, entry.wide, code, None, after);
    case Naming(code, address, name) =>
      ReadsBinding(p, at + 1, ids, entry.wide, entry.wide, code, Some((address, name)), after);
    case Stating(_, _, _, _) => ReadsStatement(p, at + 1, ids, entry, after);
    case StatedReferring(_) => ReadsStatement(p, at + 1, ids, entry, after);
    case StatedNaming(_, _, _) => ReadsStatement(p, at + 1, ids, entry, after);
    case Inheriting(chain) => ReadsChain(p, at + 1, ids, entry.wide, chain, after);
  }

  // ---- Encoding what was read ---------------------------------------------------------

  lemma {:induction false} WordWasCoded(p: Bytes, at: nat)
    requires ReadWord(p, at).Cut?
    ensures
      var Cut(n, next) := ReadWord(p, at);
      at < next <= |p| && IsWord(n) && p[at..] == WordCode(n) + p[next..]
  {
    assert p[at..] == [p[at], p[at + 1]] + p[at + 2..];
  }

  lemma {:induction false} AddressWasCoded(p: Bytes, at: nat, wide: bool)
    requires ReadAddress(p, at, wide).Cut?
    ensures
      var Cut(n, next) := ReadAddress(p, at, wide);
      at < next <= |p| && IsAddress(n, wide) && p[at..] == AddressCode(n, wide) + p[next..]
  {
    if wide {
      var a: int, b: int, c: int := p[at], p[at + 1], p[at + 2];
      BytesOfThree(a, b, c);
      assert p[at..] == [p[at], p[at + 1], p[at + 2]] + p[at + 3..];
    } else {
      assert p[at..] == [p[at], p[at + 1]] + p[at + 2..];
    }
  }

  lemma BytesOfThree(a: int, b: int, c: int)
    requires 0 <= a < 256 && 0 <= b < 256 && 0 <= c < 256
    ensures
      var n := a + 256 * b + 65536 * c;
      n % 256 == a && n / 256 % 256 == b && n / 65536 == c
  {
  }

  lemma {:induction false} TextWasCoded(p: Bytes, at: nat)
    requires ReadText(p, at).Cut?
    ensures
      var Cut(text, next) := ReadText(p, at);
      at < next <= |p| && IsText(text) && p[at..] == Encoded(text) + p[next..]
  {
    var end := FindNul(p, at);
    var text := Decoded(p[at..end]);
    forall i | 0 <= i < |text| ensures 0 < text[i] as int < 128 && text[i] as int == p[at + i] {
      assert p[at..end][i] == p[at + i];
    }
    assert Encoded(text) == p[at..end + 1];
    assert p[at..] == p[at..end + 1] + p[end + 1..];
  }

  lemma {:induction false} NameWasCoded(p: Bytes, at: nat, ids: Identifiers, wide: bool)
    returns (address: nat, name: string)
    requires NamedCode(p, at, ids, wide).Cut?
    ensures
      var Cut(ids', next) := NamedCode(p, at, ids, wide);
      && next <= |p| && IsAddress(address, wide) && IsText(name) && at <= |p|
      && p[at..] == AddressCode(address, wide) + (Encoded(name) + p[next..])
      && (address in ids ==> ids[address] == name) && ids' == ids[address := name]
  {
    hide ReadAddress, ReadText, Encoded, IsText, AddressCode;
    AddressWasCoded(p, at, wide);
    address := ReadAddress(p, at, wide).value;
    var at1 := ReadAddress(p, at, wide).next;
    TextWasCoded(p, at1);
    name := ReadText(p, at1).value;
    if address in ids {
      assert ids[address := name] == ids;
    }
  }

  lemma {:induction false} ChainWasCoded(p: Bytes, at: nat, ids: Identifiers, wide: bool) returns (chain: Chain)
    requires ParentChain(p, at, ids, wide).Cut?
    ensures
      var Cut(ids', next) := ParentChain(p, at, ids, wide);
      && next <= |p| && at <= |p| && IsChain(chain, wide) && ChainIsKnown(chain, ids) && ids' == ids
      && p[at..] == ChainCode(chain, wide, p[next..])
    decreases |p| - at
  {
    hide ReadAddress, ReadWord, WordCode, AddressCode;
    AddressWasCoded(p, at, wide);
    var Cut(code, at1) := ReadAddress(p, at, wide);
    WordWasCoded(p, at1);
    var Cut(opcode, at2) := ReadWord(p, at1);
    if opcode in CHAIN_OPCODES {
      var rest := ChainWasCoded(p, at2, ids, opcode == 0x4C04);
      chain := Onward(code, opcode, rest);
    } else if opcode in FINAL_OPCODES {
      chain := Final(code, opcode);
    } else {
      WordWasCoded(p, at2);
      chain := Closed(code, opcode, ReadWord(p, at2).value);
    }
  }

  lemma {:induction false} BindingWasCoded(p: Bytes, at: nat, ids: Identifiers, wide: bool, wideName: bool)
    returns (code: nat, named: Option<(nat, string)>)
    requires BindIdentifier(p, at, ids, wide, wideName).Cut?
    ensures
      var Cut(ids', next) := BindIdentifier(p, at, ids, wide, wideName);
      && next <= |p| && at <= |p| && IsAddress(code, wide) && (named.Some? <==> code in NAMING_CODES)
      && (named.Some? ==> IsAddress(named.value.0, wideName) && IsText(named.value.1))
      && p[at..] == AddressCode(code, wide) +
                    (if named.None? then p[next..]
                     else AddressCode(named.value.0, wideName) + (Encoded(named.value.1) + p[next..]))
      && (named.Some? && named.value.0 in ids ==> ids[named.value.0] == named.value.1)
      && ids' == if named.None? then ids else ids[named.value.0 := named.value.1]
  {
    hide ReadAddress, NamedCode, Encoded, IsText, AddressCode;
    AddressWasCoded(p, at, wide);
    code := ReadAddress(p, at, wide).value;
    var at1 := ReadAddress(p, at, wide).next;
    if code in NAMING_CODES {
      var address, name := NameWasCoded(p, at1, ids, wideName);
      named := Some((address, name));
    } else {
      named := None;
    }
  }

  /** What it means that an entry was read. */
  ghost predicate WasCoded(p: Bytes, at: nat, ids: Identifiers, entry: Entry, record: Record, next: nat) {
    && at < next <= |p| && IsEntry(entry) && p[at..] == EntryCode(entry, p[next..])
    && IsFine(entry.item, ids) && record == RecordOf(entry.item, ids)
  }

  lemma {:induction false} StatementWasCoded(p: Bytes, at: nat, ids: Identifiers, wide: bool) returns (item: Item)
    requires Statement(p, at, ids, wide).Cut?
    ensures
      var Cut(ids', next) := Statement(p, at, ids, wide);
      && next <= |p| && at <= |p| && IsEntry(Entry(wide, item)) && OpcodeOf(item) == 3
      && p[at..] == OperandCode(Entry(wide, item), p[next..])
      && IsFine(item, ids) && RecordOf(item, ids) == Symbol(ids')
  {
    hide ReadWord, NamedCode, BindIdentifier, Encoded, IsText, AddressCode, WordCode;
    var kind := p[at];
    assert p[at..] == [kind] + p[at + 1..];
    if kind == 4 {
      var code, named := BindingWasCoded(p, at + 1, ids, false, wide);
      WordIsAddress(code);
      item := if named.None? then StatedReferring(code) else StatedNaming(code, named.value.0, named.value.1);
    } else {
      WordWasCoded(p, at + 1);
      var Cut(word, at2) := ReadWord(p, at + 1);
      var address, name := NameWasCoded(p, at2, ids, wide);
      item := Stating(kind, word, address, name);
    }
  }

  lemma OpcodeForth(raw: Byte)
    requires Opcode(raw) < 64
    ensures OpcodeByte(Opcode(raw), IsWide(raw)) == raw
  {
  }

  lemma {:induction false} OperandsWereCoded(p: Bytes, at: nat, ids: Identifiers) returns (item: Item)
    requires ReadRecord(p, at, ids).Cut?
    ensures at < |p| && Opcode(p[at]) < 64
    ensures
      var entry, Cut(record, next) := Entry(IsWide(p[at]), item), ReadRecord(p, at, ids);
      && next <= |p| && IsEntry(entry) && OpcodeOf(item) == Opcode(p[at])
      && p[at + 1..] == OperandCode(entry, p[next..])
      && IsFine(item, ids) && record == RecordOf(item, ids)
  {
    hide ReadWord, ReadAddress, ReadText, BindIdentifier, Statement, ParentChain, Encoded, IsText, AddressCode,
      WordCode, ChainCode, IsChain, Opcode, IsWide;
    var wide, opcode := IsWide(p[at]), Opcode(p[at]);
    if opcode == 1 {
      TextWasCoded(p, at + 1);
      item := Entering(ReadText(p, at + 1).value);
    } else if opcode == 2 {
      WordWasCoded(p, at + 1);
      item := Numbered(ReadWord(p, at + 1).value);
    } else if opcode == 3 {
      item := StatementWasCoded(p, at + 1, ids, wide);
    } else if opcode == 4 {
      var code, named := BindingWasCoded(p, at + 1, ids, wide, wide);
      item := if named.None? then Referring(code) else Naming(code, named.value.0, named.value.1);
    } else if opcode == 10 {
      item := Leaving;
    } else if opcode in {11, 13} {
      AddressWasCoded(p, at + 1, wide);
      item := Addressed(opcode, ReadAddress(p, at + 1, wide).value);
    } else if opcode == 12 {
      var chain := ChainWasCoded(p, at + 1, ids, wide);
      item := Inheriting(chain);
    } else {
      item := Marked(opcode);
    }
  }

  /** Whatever is read as a record is the encoding of a consistent entry. */
  lemma {:induction false} EntryWasCoded(p: Bytes, at: nat, ids: Identifiers) returns (entry: Entry)
    requires ReadRecord(p, at, ids).Cut?
    ensures WasCoded(p, at, ids, entry, ReadRecord(p, at, ids).value, ReadRecord(p, at, ids).next)
  {
    hide ReadRecord, IsEntry, OperandCode, IsFine, RecordOf, OpcodeOf, Opcode, IsWide, OpcodeByte;
    var item := OperandsWereCoded(p, at, ids);
    entry := Entry(IsWide(p[at]), item);
    OpcodeForth(p[at]);
    assert p[at..] == [p[at]] + p[at + 1..];
  }

  // ---- Whole streams --------------------------------------------------------------------

  predicate AllFine(entries: seq<Entry>, ids: Identifiers) {
    entries == [] || (IsFine(entries[0].item, ids) && AllFine(entries[1..], Table(entries[0].item, ids)))
  }

  function RecordsOf(entries: seq<Entry>, ids: Identifiers): seq<Record> {
    if entries == [] then []
    else [RecordOf(entries[0].item, ids)] + RecordsOf(entries[1..], Table(entries[0].item, ids))
  }

  lemma {:induction false} ReadsEntries(p: Bytes, at: nat, ids: Identifiers, entries: seq<Entry>)
    requires AreEntries(entries) && Spells(p, at, EntriesCode(entries)) && at <= |p|
    ensures Records(p, at, ids) == if AllFine(entries, ids) then Some(RecordsOf(entries, ids)) else None
    decreases |entries|
  {
    hide ReadRecord, EntryCode, IsEntry, IsFine;
    if entries != [] {
      var after := EntriesCode(entries[1..]);
      EntryIsSome(entries[0], after);
      ReadsEntry(p, at, ids, entries[0], after);
      if IsFine(entries[0].item, ids) {
        EntryEnds(p, at, entries[0], after);
        ReadsEntries(p, |p| - |after|, Table(entries[0].item, ids), entries[1..]);
      }
    }
  }

  lemma EntryIsSome(entry: Entry, after: Bytes)
    requires IsEntry(entry)
    ensures EntryCode(entry, after) != []
  {
  }

  /** What follows an encoded entry is at the end of the bytes. */
  lemma {:induction false} EntryEnds(p: Bytes, at: nat, entry: Entry, after: Bytes)
    requires IsEntry(entry) && Spells(p, at, EntryCode(entry, after))
    ensures |after| <= |p| && Spells(p, |p| - |after|, after)
  {
    hide OperandCode, OpcodeByte, OpcodeOf;
    OperandsEnd(entry, after);
    var code := EntryCode(entry, after);
    var k := |code| - |after|;
    assert code[k..] == after;
    assert p[at..][k..] == p[at + k..];
  }

  lemma {:induction false} OperandsEnd(entry: Entry, after: Bytes)
    requires IsEntry(entry)
    ensures |after| <= |OperandCode(entry, after)|
    ensures OperandCode(entry, after)[|OperandCode(entry, after)| - |after|..] == after
  {
    hide ChainCode, Encoded, AddressCode, WordCode, IsText, IsChain;
    if entry.item.Inheriting? {
      ChainEnds(entry.item.chain, entry.wide, after);
    }
  }

  lemma {:induction false} ChainEnds(chain: Chain, wide: bool, after: Bytes)
    requires IsChain(chain, wide)
    ensures |after| <= |ChainCode(chain, wide, after)|
    ensures ChainCode(chain, wide, after)[|ChainCode(chain, wide, after)| - |after|..] == after
  {
    hide AddressCode, WordCode;
    if chain.Onward? {
      ChainEnds(chain.rest, chain.opcode == 0x4C04, after);
    }
  }

  lemma {:induction false} EntriesWereCoded(p: Bytes, at: nat, ids: Identifiers) returns (entries: seq<Entry>)
    requires at <= |p| && Records(p, at, ids).Some?
    ensures AreEntries(entries) && p[at..] == EntriesCode(entries) && AllFine(entries, ids)
    decreases |p| - at
  {
    hide ReadRecord, EntryCode, IsEntry, IsFine, RecordOf;
    if at == |p| {
      entries := [];
    } else {
      var entry := EntryWasCoded(p, at, ids);
      var next, record := ReadRecord(p, at, ids).next, ReadRecord(p, at, ids).value;
      SymbolTable(entry.item, ids);
      var rest := EntriesWereCoded(p, next, Table(entry.item, ids));
      entries := [entry] + rest;
      assert entries[1..] == rest;
    }
  }

  lemma SymbolTable(item: Item, ids: Identifiers)
    ensures Table(item, ids) == if RecordOf(item, ids).Symbol? then RecordOf(item, ids).identifiers else ids
  {
  }

  // ---- Consistent identifiers ---------------------------------------------------------------

  /** Some of the first entries gives this name to this address. */
  ghost predicate Names(entries: seq<Entry>, n: nat, address: nat, name: string) {
    exists i :: 0 <= i < n && i < |entries| && NameOf(entries[i].item) == Some((address, name))
  }

  /** No address has two names, and parent classes refer to addresses named before. */
  ghost predicate IsConsistent(entries: seq<Entry>) {
    && (forall i, j | 0 <= i < j < |entries| && NameOf(entries[i].item).Some? && NameOf(entries[j].item).Some? ::
          NameOf(entries[i].item).value.0 == NameOf(entries[j].item).value.0 ==>
            NameOf(entries[i].item) == NameOf(entries[j].item))
    && forall i, code: nat | 0 <= i < |entries| && entries[i].item.Inheriting?
         && Mentions(entries[i].item.chain, code) ::
         exists name :: Names(entries, i, code, name)
  }

  /** The identifiers after the first entries. */
  function TableAfter(entries: seq<Entry>, n: nat): Identifiers
    requires n <= |entries|
  {
    if n == 0 then map[] else Table(entries[n - 1].item, TableAfter(entries, n - 1))
  }

  /** Every entry is fine for the identifiers before it. */
  ghost predicate EachFine(entries: seq<Entry>) {
    forall i | 0 <= i < |entries| :: IsFine(entries[i].item, TableAfter(entries, i))
  }

  lemma {:induction false} FineFrom(entries: seq<Entry>, n: nat)
    requires n <= |entries|
    ensures AllFine(entries[n..], TableAfter(entries, n)) <==>
            forall i | n <= i < |entries| :: IsFine(entries[i].item, TableAfter(entries, i))
    decreases |entries| - n
  {
    hide IsFine;
    if n < |entries| {
      assert entries[n..][1..] == entries[n + 1..];
      FineFrom(entries, n + 1);
    }
  }

  lemma {:induction false} NamesOneMore(entries: seq<Entry>, n: nat, address: nat, name: string)
    requires n < |entries|
    ensures Names(entries, n + 1, address, name) <==>
            Names(entries, n, address, name) || NameOf(entries[n].item) == Some((address, name))
  {
    hide NameOf;
    if NameOf(entries[n].item) == Some((address, name)) {
      assert Names(entries, n + 1, address, name);
    }
  }

  ghost predicate FineBefore(entries: seq<Entry>, n: nat) {
    forall i | 0 <= i < n && i < |entries| :: IsFine(entries[i].item, TableAfter(entries, i))
  }

  /** While no address has two names, the table holds exactly the names given. */
  lemma {:induction false} TableHolds(entries: seq<Entry>, n: nat, address: nat, name: string)
    requires n <= |entries| && FineBefore(entries, n)
    ensures address in TableAfter(entries, n) && TableAfter(entries, n)[address] == name <==>
            Names(entries, n, address, name)
  {
    hide Names, NameOf, ChainIsKnown;
    if n > 0 {
      var last := NameOf(entries[n - 1].item);
      assert IsFine(entries[n - 1].item, TableAfter(entries, n - 1));
      TableHolds(entries, n - 1, address, name);
      NamesOneMore(entries, n - 1, address, name);
    } else {
      NoneNamed(entries, address, name);
    }
  }

  lemma NoneNamed(entries: seq<Entry>, address: nat, name: string)
    ensures !Names(entries, 0, address, name)
  {
  }

  lemma {:induction false} KnownChain(chain: Chain, ids: Identifiers)
    ensures ChainIsKnown(chain, ids) <==> forall code | Mentions(chain, code) :: code in ids
  {
    if chain.Onward? {
      KnownChain(chain.rest, ids);
      assert forall code :: Mentions(chain, code) <==> chain.code == code || Mentions(chain.rest, code);
    }
    assert Mentions(chain, chain.code);
  }

  /** No earlier entry gives the address of an entry another name. */
  lemma {:induction false} NamedAlike(entries: seq<Entry>, n: nat, name: string)
    requires IsConsistent(entries) && n < |entries| && NameOf(entries[n].item).Some?
    requires Names(entries, n, NameOf(entries[n].item).value.0, name)
    ensures name == NameOf(entries[n].item).value.1
  {
    hide NameOf, Mentions;
    var i :| 0 <= i < n && i < |entries| && NameOf(entries[i].item) == Some((NameOf(entries[n].item).value.0, name));
  }

  lemma {:induction false} ChainNamed(entries: seq<Entry>, n: nat, code: nat) returns (name: string)
    requires IsConsistent(entries) && n < |entries| && entries[n].item.Inheriting?
    requires Mentions(entries[n].item.chain, code)
    ensures Names(entries, n, code, name)
  {
    hide NameOf, Names, Mentions;
    name :| Names(entries, n, code, name);
  }

  lemma {:induction false} NextIsFine(entries: seq<Entry>, n: nat)
    requires IsConsistent(entries) && n < |entries| && FineBefore(entries, n)
    ensures IsFine(entries[n].item, TableAfter(entries, n))
  {
    hide IsConsistent, FineBefore, Names, NameOf, Mentions, ChainIsKnown, TableAfter;
    var item, ids := entries[n].item, TableAfter(entries, n);
    if NameOf(item).Some? && NameOf(item).value.0 in ids {
      var address := NameOf(item).value.0;
      TableHolds(entries, n, address, ids[address]);
      NamedAlike(entries, n, ids[address]);
    }
    if item.Inheriting? {
      forall code | Mentions(item.chain, code) ensures code in ids {
        var name := ChainNamed(entries, n, code);
        TableHolds(entries, n, code, name);
      }
      KnownChain(item.chain, ids);
    }
  }

  lemma {:induction false} ConsistentIsFine(entries: seq<Entry>, n: nat)
    requires IsConsistent(entries) && n <= |entries|
    ensures FineBefore(entries, n)
  {
    hide IsConsistent, IsFine, TableAfter;
    if n > 0 {
      ConsistentIsFine(entries, n - 1);
      NextIsFine(entries, n - 1);
    }
  }

  lemma {:induction false} FineNamesAlike(entries: seq<Entry>, i: nat, j: nat)
    requires EachFine(entries) && i < j < |entries|
    requires NameOf(entries[i].item).Some? && NameOf(entries[j].item).Some?
    requires NameOf(entries[i].item).value.0 == NameOf(entries[j].item).value.0
    ensures NameOf(entries[i].item) == NameOf(entries[j].item)
  {
    hide NameOf, ChainIsKnown, TableAfter;
    var named := NameOf(entries[i].item).value;
    assert Names(entries, j, named.0, named.1);
    assert FineBefore(entries, j);
    TableHolds(entries, j, named.0, named.1);
    assert IsFine(entries[j].item, TableAfter(entries, j));
  }

  lemma {:induction false} FineChainNamed(entries: seq<Entry>, i: nat, code: nat)
    requires EachFine(entries) && i < |entries| && entries[i].item.Inheriting?
    requires Mentions(entries[i].item.chain, code)
    ensures exists name :: Names(entries, i, code, name)
  {
    hide NameOf, Names, Mentions, ChainIsKnown, TableAfter;
    assert FineBefore(entries, i) && IsFine(entries[i].item, TableAfter(entries, i));
    KnownChain(entries[i].item.chain, TableAfter(entries, i));
    TableHolds(entries, i, code, TableAfter(entries, i)[code]);
  }

  lemma {:induction false} FineIsConsistent(entries: seq<Entry>)
    requires EachFine(entries)
    ensures IsConsistent(entries)
  {
    hide EachFine, NameOf, Names, Mentions;
    forall i, j | 0 <= i < j < |entries| && NameOf(entries[i].item).Some? && NameOf(entries[j].item).Some?
                  && NameOf(entries[i].item).value.0 == NameOf(entries[j].item).value.0
      ensures NameOf(entries[i].item) == NameOf(entries[j].item) {
      FineNamesAlike(entries, i, j);
    }
    forall i, code: nat | 0 <= i < |entries| && entries[i].item.Inheriting? && Mentions(entries[i].item.chain, code)
      ensures exists name :: Names(entries, i, code, name) {
      FineChainNamed(entries, i, code);
    }
  }

  lemma {:induction false} FineIffConsistent(entries: seq<Entry>)
    ensures AllFine(entries, map[]) <==> IsConsistent(entries)
  {
    hide AllFine, IsFine, IsConsistent;
    FineFrom(entries, 0);
    assert entries[0..] == entries;
    if AllFine(entries, map[]) {
      FineIsConsistent(entries);
    }
    if IsConsistent(entries) {
      ConsistentIsFine(entries, |entries|);
    }
  }

  // ---- Traces -------------------------------------------------------------------------------------

  /** The items that enter and leave sources, in order. */
  function NestingItems(entries: seq<Entry>): seq<Item> {
    if entries == [] then []
    else
      var item := entries[0].item;
      (if item.Entering? || item.Leaving? then [item] else []) + NestingItems(entries[1..])
  }

  /** What entering and leaving the sources of a forest looks like. */
  function ForestItems(forest: Forest): seq<Item> {
    match forest
    case Empty => []
    case Tree(path, children, siblings) => [Entering(path)] + ForestItems(children) + [Leaving] + ForestItems(siblings)
  }

  function AsRecords(items: seq<Item>): seq<Record> {
    seq(|items|, i requires 0 <= i < |items| => RecordOf(items[i], map[]))
  }

  lemma {:induction false} NestingOfRecords(entries: seq<Entry>, ids: Identifiers)
    ensures NestingOnly(RecordsOf(entries, ids)) == AsRecords(NestingItems(entries))
  {
    if entries != [] {
      var first, rest := entries[0].item, RecordsOf(entries[1..], Table(entries[0].item, ids));
      NestingOfRecords(entries[1..], Table(first, ids));
      assert RecordsOf(entries, ids)[1..] == rest;
      if first.Entering? || first.Leaving? {
        assert AsRecords(NestingItems(entries)) == [RecordOf(first, map[])] + AsRecords(NestingItems(entries[1..]));
      } else {
        assert NestingItems(entries) == NestingItems(entries[1..]);
      }
    }
  }

  lemma {:induction false} RecordsJoin(left: seq<Item>, right: seq<Item>)
    ensures AsRecords(left + right) == AsRecords(left) + AsRecords(right)
  {
  }

  lemma {:induction false} ForestRecords(forest: Forest, after: seq<Record>)
    ensures EncodedRecords(forest, after) == AsRecords(ForestItems(forest)) + after
  {
    hide AsRecords;
    match forest
    case Empty => NoRecords();
    case Tree(path, children, siblings) =>
      ForestRecords(siblings, after);
      ForestRecords(children, [Leave] + EncodedRecords(siblings, after));
      var inner, later := ForestItems(children), ForestItems(siblings);
      RecordsJoin([Entering(path)] + inner + [Leaving], later);
      RecordsJoin([Entering(path)] + inner, [Leaving]);
      RecordsJoin([Entering(path)], inner);
      OneRecord(path);
      Reassociate([Enter(path)], AsRecords(inner), [Leave], AsRecords(later), after);
  }

  lemma NoRecords()
    ensures AsRecords([]) == []
  {
  }

  lemma OneRecord(path: string)
    ensures AsRecords([Entering(path)]) == [Enter(path)] && AsRecords([Leaving]) == [Leave]
  {
  }

  lemma Reassociate(a: seq<Record>, b: seq<Record>, c: seq<Record>, d: seq<Record>, e: seq<Record>)
    ensures a + (b + (c + (d + e))) == a + b + c + d + e
  {
  }

  function StreamCode(magic: Bytes, directory: string, entries: seq<Entry>): Bytes
    requires IsText(directory) && AreEntries(entries)
  {
    magic + (Encoded(directory) + EntriesCode(entries))
  }

  lemma {:induction false} StreamReads(magic: Bytes, directory: string, entries: seq<Entry>)
    requires IsMagic(magic) && IsText(directory) && AreEntries(entries)
    ensures
      var p := StreamCode(magic, directory, entries);
      && 5 < |p| && p[..5] == magic
      && ReadText(p, 5) == Cut(directory, 5 + |directory| + 1)
      && Spells(p, 5 + |directory| + 1, EntriesCode(entries))
  {
    hide EntriesCode;
    var p := StreamCode(magic, directory, entries);
    assert p[..5] == magic;
    assert p[5..] == Encoded(directory) + EntriesCode(entries);
    ReadEncodedText(p, 5, directory, EntriesCode(entries));
  }

  /**
   A stream whose entering and leaving records are those of a forest, with any other records in between, is
   accepted exactly when its identifiers are consistent and the limits allow it, and lists the forest.
   */
  lemma {:induction false} ParseInterleaved(magic: Bytes, directory: string, entries: seq<Entry>, forest: Forest)
    requires magic in {[0, 2, 0, 2, 0], [0, 2, 0, 7, 0]} && IsText(directory) && AreEntries(entries)
    requires NestingItems(entries) == ForestItems(forest)
    ensures ParseSbr(StreamCode(magic, directory, entries)) ==
            if IsConsistent(entries) && forest.Tree? && Fits(0, 0, forest)
               && |StreamCode(magic, directory, entries)| <= MAX_PAYLOAD
            then Some(Trace(directory, Preorder(forest, [], None)))
            else None
  {
    hide Records, Nest, Encoded, ReadText, EntriesCode, AllFine, IsConsistent, RecordsOf, StreamCode, Spells;
    var p := StreamCode(magic, directory, entries);
    StreamReads(magic, directory, entries);
    SpellsToTheEnd(p, 5 + |directory| + 1, EntriesCode(entries));
    ReadsEntries(p, 5 + |directory| + 1, map[], entries);
    FineIffConsistent(entries);
    NestIgnoresSymbols(RecordsOf(entries, map[]), [], []);
    NestingOfRecords(entries, map[]);
    ForestRecords(forest, []);
    assert AsRecords(ForestItems(forest)) + [] == AsRecords(ForestItems(forest));
    NestEncoded(forest, [], [], []);
    NestNothing(Preorder(forest, [], None));
  }

  lemma NestNothing(sources: seq<Source>)
    ensures Nest([], sources, []) == if sources != [] then Some(sources) else None
  {
  }

  /** Every accepted stream is the encoding of a consistent list of records. */
  lemma {:induction false} AcceptedIsCoded(p: Bytes) returns (magic: Bytes, directory: string, entries: seq<Entry>)
    requires ParseSbr(p).Some?
    ensures magic in {[0, 2, 0, 2, 0], [0, 2, 0, 7, 0]} && IsText(directory) && AreEntries(entries)
    ensures IsConsistent(entries)
    ensures p == StreamCode(magic, directory, entries) && ParseSbr(p).value.workingDirectory == directory
  {
    hide Records, Nest, ReadText, Encoded, IsText, EntriesCode, AllFine, IsConsistent;
    magic := p[..5];
    TextWasCoded(p, 5);
    directory := ReadText(p, 5).value;
    var next := ReadText(p, 5).next;
    entries := EntriesWereCoded(p, next, map[]);
    FineIffConsistent(entries);
    assert p == p[..5] + p[5..];
  }
}
