/** The integer knobs of an overlay's declaration sequences (src/reprobit/classic_donor_retune_candidates.py). */
module OverlayKnobs {
  import opened Options
  import opened JsonValues
  import opened JsonPaths

  datatype Seat = Seat(rendering: nat, operation: nat, item: nat, member: Option<nat>, key: string,
                       value: int, minimum: int, maximum: int, line: int)

  // ---- Paths ------------------------------------------------------------------------------

  function SequencePath(r: nat, o: nat): Path {
    [Name("parameters"), Name("renderings"), At(r), Name("operations"), At(o), Name("gen")]
  }

  function CanvasPath(r: nat, o: nat): Path {
    SequencePath(r, o) + [Name("lines")]
  }

  function ItemPath(r: nat, o: nat, i: nat): Path {
    SequencePath(r, o) + [Name("items"), At(i)]
  }

  function LinePath(r: nat, o: nat, i: nat): Path {
    ItemPath(r, o, i) + [Name("line")]
  }

  function SeatPath(seat: Seat): Path {
    ItemPath(seat.rendering, seat.operation, seat.item) +
    if seat.member.None? then [Name(seat.key)] else [Name("members"), At(seat.member.value), Name("count")]
  }

  // ---- Seats ------------------------------------------------------------------------------

  function Field(value: Json, name: string): Option<Json> {
    Child(value, Name(name))
  }

  /** The field is an integer within bounds. */
  function Bounded(value: Json, name: string, low: int, high: int): Option<int> {
    var field := Field(value, name);
    if field.Some? && field.value.Int? && low <= field.value.number <= high then Some(field.value.number) else None
  }

  function RunMaximum(width: int): int {
    if width == 1 then 10 else if width == 2 then 100 else 999
  }

  /** What an item offers under its own key: nothing, a knob, or an error. */
  function ItemKnob(item: Json, kind: string): Option<(string, int, int)> {
    if kind == "extern_run" then
      var width := Bounded(item, "width", 1, 3);
      var count := if width.None? then None else Bounded(item, "count", 1, RunMaximum(width.value));
      if count.None? then None else Some(("count", count.value, RunMaximum(width.value)))
    else if kind == "fwd_run" then
      var count := Bounded(item, "count", 1, 4096);
      if count.None? then None else Some(("count", count.value, 4096))
    else
      var height := Bounded(item, "n", 1, 4096);
      if height.None? then None else Some(("n", height.value, 4096))
  }

  /** The seat's value and line are what its item holds. */
  predicate Fits(item: Json, seat: Seat) {
    && Field(item, "line") == Some(Int(seat.line)) && seat.line >= 1
    && seat.minimum <= seat.value <= seat.maximum
    && if seat.member.None? then seat.key in {"count", "n"} && Field(item, seat.key) == Some(Int(seat.value))
       else Get(item, [Name("members"), At(seat.member.value), Name("count")]) == Some(Int(seat.value))
  }

  predicate InItem(seat: Seat, r: nat, o: nat, i: nat) {
    seat.rendering == r && seat.operation == o && seat.item == i
  }

  predicate SamePlace(left: Seat, right: Seat) {
    InItem(left, right.rendering, right.operation, right.item) && left.member == right.member
  }

  predicate ApartSeats(seats: seq<Seat>) {
    forall a, b | 0 <= a < b < |seats| :: !SamePlace(seats[a], seats[b])
  }

  /** Seats of one list never share a place with seats of the other. */
  lemma {:induction false} ApartJoin(left: seq<Seat>, right: seq<Seat>)
    requires ApartSeats(left) && ApartSeats(right)
    requires forall a, b | a in left && b in right :: !SamePlace(a, b)
    ensures ApartSeats(left + right)
  {
    var all := left + right;
    forall a, b | 0 <= a < b < |all| ensures !SamePlace(all[a], all[b]) {
      assert a < |left| ==> all[a] in left;
      assert b >= |left| ==> all[b] in right;
    }
  }

  function MemberSeats(r: nat, o: nat, i: nat, line: int, members: seq<Json>): (seats: Option<seq<Seat>>)
    ensures seats.Some? ==> ApartSeats(seats.value)
    ensures seats.Some? ==> forall seat | seat in seats.value ::
              InItem(seat, r, o, i) && seat.line == line && seat.member.Some? && seat.member.value < |members|
              && Field(members[seat.member.value], "count") == Some(Int(seat.value))
                   && seat.minimum <= seat.value <= seat.maximum
  {
    if members == [] then Some([])
    else
      var m := |members| - 1;
      var earlier := MemberSeats(r, o, i, line, members[..m]);
      if earlier.None? || Field(members[m], "stem").None? then earlier
      else
        var count := Bounded(members[m], "count", 1, 4096);
        if count.None? then None
        else
          ApartJoin(earlier.value, [Seat(r, o, i, Some(m), "count", count.value, 1, 4096, line)]);
          Some(earlier.value + [Seat(r, o, i, Some(m), "count", count.value, 1, 4096, line)])
  }

  function ItemSeats(r: nat, o: nat, i: nat, item: Json): (seats: Option<seq<Seat>>)
    ensures seats.Some? ==> ApartSeats(seats.value)
    ensures seats.Some? ==> forall seat | seat in seats.value :: InItem(seat, r, o, i) && Fits(item, seat)
  {
    var kind := Field(item, "k");
    if kind.None? || !kind.value.Text? || kind.value.text !in {"extern_run", "fwd_run", "lines", "class"} then Some([])
    else
      var line := Field(item, "line");
      if line.None? || !line.value.Int? || line.value.number < 1 then None
      else if kind.value.text == "class" then
        var members := Field(item, "members");
        if members.None? || !members.value.Array? then Some([])
        else
          var seats := MemberSeats(r, o, i, line.value.number, members.value.items);
          assert seats.Some? ==> forall seat | seat in seats.value :: Fits(item, seat) by {
            if seats.Some? {
              forall seat | seat in seats.value ensures Fits(item, seat) {
                MemberCount(item, seat.member.value);
              }
            }
          }
          seats
      else
        var knob := ItemKnob(item, kind.value.text);
        if knob.None? then None
        else Some([Seat(r, o, i, None, knob.value.0, knob.value.1, 1, knob.value.2, line.value.number)])
  }

  lemma {:induction false} MemberCount(item: Json, m: nat)
    requires Field(item, "members").Some? && Field(item, "members").value.Array?
    requires m < |Field(item, "members").value.items|
    ensures Get(item, [Name("members"), At(m), Name("count")]) == Field(Field(item, "members").value.items[m], "count")
  {
    Down(item, [], Name("members"));
    Down(item, [Name("members")], At(m));
    Down(item, [Name("members"), At(m)], Name("count"));
    assert [] + [Name("members")] == [Name("members")] && [Name("members")] + [At(m)] == [Name("members"), At(m)];
    assert [Name("members"), At(m)] + [Name("count")] == [Name("members"), At(m), Name("count")];
  }

  function SequenceSeats(r: nat, o: nat, items: seq<Json>): (seats: Option<seq<Seat>>)
    ensures seats.Some? ==> ApartSeats(seats.value)
    ensures seats.Some? ==> forall seat | seat in seats.value ::
              seat.item < |items| && InItem(seat, r, o, seat.item) && Fits(items[seat.item], seat)
  {
    if items == [] then Some([])
    else
      var i := |items| - 1;
      var earlier, last := SequenceSeats(r, o, items[..i]), ItemSeats(r, o, i, items[i]);
      if earlier.None? || last.None? then None
      else
        ApartJoin(earlier.value, last.value);
        Some(earlier.value + last.value)
  }

  /** The items of an operation whose generator is a sequence; `None` when it has no item array. */
  function SequenceItems(operation: Json): Option<seq<Json>> {
    var gen := Field(operation, "gen");
    if gen.None? || Field(gen.value, "k") != Some(Text("seq")) then Some([])
    else
      var items := Field(gen.value, "items");
      if items.None? || !items.value.Array? then None else Some(items.value.items)
  }

  function OperationSeats(r: nat, operations: seq<Json>): (seats: Option<seq<Seat>>)
    ensures seats.Some? ==> ApartSeats(seats.value)
    ensures seats.Some? ==> forall seat | seat in seats.value ::
              seat.rendering == r && seat.operation < |operations| && InOperation(operations[seat.operation], seat)
  {
    if operations == [] then Some([])
    else
      var o := |operations| - 1;
      var earlier := OperationSeats(r, operations[..o]);
      var items := if operations[o].Object? then SequenceItems(operations[o]) else None;
      var last := if items.None? then None else SequenceSeats(r, o, items.value);
      if earlier.None? || last.None? then None
      else
        ApartJoin(earlier.value, last.value);
        Some(earlier.value + last.value)
  }

  predicate InOperation(operation: Json, seat: Seat) {
    var items := SequenceItems(operation);
    items.Some? && seat.item < |items.value| && Fits(items.value[seat.item], seat)
  }

  function RenderingSeats(renderings: seq<Json>): (seats: Option<seq<Seat>>)
    ensures seats.Some? ==> ApartSeats(seats.value)
    ensures seats.Some? ==> forall seat | seat in seats.value :: InRenderings(renderings, seat)
  {
    if renderings == [] then Some([])
    else
      var r := |renderings| - 1;
      var earlier := RenderingSeats(renderings[..r]);
      var operations := Field(renderings[r], "operations");
      var last := if operations.None?
          || !operations.value.Array? then None else OperationSeats(r, operations.value.items);
      if earlier.None? || last.None? then None
      else
        ApartJoin(earlier.value, last.value);
        Some(earlier.value + last.value)
  }

  predicate InRenderings(renderings: seq<Json>, seat: Seat) {
    && seat.rendering < |renderings|
    && var operations := Field(renderings[seat.rendering], "operations");
    && operations.Some? && operations.value.Array? && seat.operation < |operations.value.items|
    && InOperation(operations.value.items[seat.operation], seat)
  }

  function Renderings(root: Json): Option<seq<Json>> {
    var renderings := Get(root, [Name("parameters"), Name("renderings")]);
    if renderings.None? || !renderings.value.Array? then None else Some(renderings.value.items)
  }

  /** `_overlay_knob_seats` of the saved parameters. */
  function KnobSeats(root: Json): Option<seq<Seat>> {
    var renderings := Renderings(root);
    if renderings.None? then None else RenderingSeats(renderings.value)
  }

  /** A seat names a place of the tree that holds its value. */
  predicate IsSeat(root: Json, seat: Seat) {
    && Get(root, SeatPath(seat)) == Some(Int(seat.value))
    && Get(root, LinePath(seat.rendering, seat.operation, seat.item)) == Some(Int(seat.line)) && seat.line >= 1
    && seat.minimum <= seat.value <= seat.maximum
    && (seat.member.None? ==> seat.key in {"count", "n"})
  }

  // ---- Every knob is listed -----------------------------------------------------------------

  /** One of the seats is this item, or this member of it. */
  predicate HasSeat(seats: seq<Seat>, r: nat, o: nat, i: nat, member: Option<nat>) {
    exists k :: 0 <= k < |seats| && InItem(seats[k], r, o, i) && seats[k].member == member
  }

  /** An item offers itself when it is a run or padding, and its stemmed members when it is a class. */
  predicate Offers(item: Json, member: Option<nat>) {
    var kind := Field(item, "k");
    && kind.Some? && kind.value.Text?
    && match member
       case None => kind.value.text in {"extern_run", "fwd_run", "lines"}
       case Some(m) =>
         var members := Field(item, "members");
         && kind.value.text == "class" && members.Some? && members.value.Array? && m < |members.value.items|
         && Field(members.value.items[m], "stem").Some?
  }

  /** The tree has this item, in a sequence, and it offers this knob. */
  predicate OffersAt(root: Json, r: nat, o: nat, i: nat, member: Option<nat>) {
    var renderings := Renderings(root);
    && renderings.Some? && r < |renderings.value|
    && var operations := Field(renderings.value[r], "operations");
    && operations.Some? && operations.value.Array? && o < |operations.value.items|
    && var items := SequenceItems(operations.value.items[o]);
    && items.Some? && i < |items.value| && Offers(items.value[i], member)
  }

  lemma {:induction false} SeatsJoin(left: seq<Seat>, right: seq<Seat>, r: nat, o: nat, i: nat, member: Option<nat>)
    ensures HasSeat(left + right, r, o, i, member) <==>
              HasSeat(left, r, o, i, member) || HasSeat(right, r, o, i, member)
  {
    hide InItem;
    var all := left + right;
    if HasSeat(left, r, o, i, member) {
      var k :| 0 <= k < |left| && InItem(left[k], r, o, i) && left[k].member == member;
      assert all[k] == left[k];
    }
    if HasSeat(right, r, o, i, member) {
      var k :| 0 <= k < |right| && InItem(right[k], r, o, i) && right[k].member == member;
      assert all[|left| + k] == right[k];
    }
  }

  lemma {:induction false} MembersListed(r: nat, o: nat, i: nat, line: int, members: seq<Json>, m: nat)
    requires MemberSeats(r, o, i, line, members).Some?
    ensures HasSeat(MemberSeats(r, o, i, line, members).value, r, o, i, Some(m)) <==>
            m < |members| && Field(members[m], "stem").Some?
  {
    hide Field, Bounded;
    if members != [] {
      var n := |members| - 1;
      MembersListed(r, o, i, line, members[..n], m);
      if Field(members[n], "stem").Some? {
        var count := Bounded(members[n], "count", 1, 4096).value;
        var last := [Seat(r, o, i, Some(n), "count", count, 1, 4096, line)];
        assert last[0].member == Some(n);
        SeatsJoin(MemberSeats(r, o, i, line, members[..n]).value, last, r, o, i, Some(m));
      }
    }
  }

  lemma {:induction false} ItemListed(r: nat, o: nat, i: nat, item: Json, member: Option<nat>)
    requires ItemSeats(r, o, i, item).Some?
    ensures HasSeat(ItemSeats(r, o, i, item).value, r, o, i, member) <==> Offers(item, member)
  {
    hide MemberSeats, ItemKnob;
    var kind := Field(item, "k");
    if kind.Some? && kind.value == Text("class") {
      var members := Field(item, "members");
      if members.Some? && members.value.Array? {
        if member.Some? {
          MembersListed(r, o, i, Field(item, "line").value.number, members.value.items, member.value);
        }
      }
    } else if Offers(item, None) {
      assert ItemSeats(r, o, i, item).value[0].member == None;
    }
  }

  lemma {:induction false} SequenceListed(r: nat, o: nat, items: seq<Json>, i: nat, member: Option<nat>)
    requires SequenceSeats(r, o, items).Some?
    ensures HasSeat(SequenceSeats(r, o, items).value, r, o, i, member) <==> i < |items| && Offers(items[i], member)
  {
    hide ItemSeats, Offers, Fits;
    if items != [] {
      var n := |items| - 1;
      SequenceListed(r, o, items[..n], i, member);
      ItemListed(r, o, n, items[n], member);
      SeatsJoin(SequenceSeats(r, o, items[..n]).value, ItemSeats(r, o, n, items[n]).value, r, o, i, member);
    }
  }

  lemma {:induction false} OperationListed(r: nat, operations: seq<Json>, o: nat, i: nat, member: Option<nat>)
    requires OperationSeats(r, operations).Some?
    ensures HasSeat(OperationSeats(r, operations).value, r, o, i, member) <==>
            && o < |operations| && SequenceItems(operations[o]).Some? && i < |SequenceItems(operations[o]).value|
            && Offers(SequenceItems(operations[o]).value[i], member)
  {
    hide SequenceSeats, SequenceItems, Offers, Fits;
    if operations != [] {
      var n := |operations| - 1;
      var items := SequenceItems(operations[n]).value;
      OperationListed(r, operations[..n], o, i, member);
      SequenceListed(r, n, items, i, member);
      SeatsJoin(OperationSeats(r, operations[..n]).value, SequenceSeats(r, n, items).value, r, o, i, member);
    }
  }

  lemma {:induction false} RenderingListed(renderings: seq<Json>, r: nat, o: nat, i: nat, member: Option<nat>)
    requires RenderingSeats(renderings).Some?
    ensures HasSeat(RenderingSeats(renderings).value, r, o, i, member) <==>
            && r < |renderings|
            && var operations := Field(renderings[r], "operations");
            && operations.Some? && operations.value.Array? && o < |operations.value.items|
            && var items := SequenceItems(operations.value.items[o]);
            && items.Some? && i < |items.value| && Offers(items.value[i], member)
  {
    hide OperationSeats, SequenceItems, Offers, Field, InOperation;
    if renderings != [] {
      var n := |renderings| - 1;
      var operations := Field(renderings[n], "operations").value.items;
      RenderingListed(renderings[..n], r, o, i, member);
      OperationListed(n, operations, o, i, member);
      SeatsJoin(RenderingSeats(renderings[..n]).value, OperationSeats(n, operations).value, r, o, i, member);
    }
  }

  // ---- What a seat says ---------------------------------------------------------------------

  function PowerOfTen(n: nat): nat {
    if n == 0 then 1 else 10 * PowerOfTen(n - 1)
  }

  /** How far an item's own knob may grow, by the item's kind and width. */
  predicate HasMaximum(item: Json, maximum: int) {
    var kind, width := Field(item, "k"), Field(item, "width");
    if kind == Some(Text("extern_run")) then
      && width.Some? && width.value.Int? && 1 <= width.value.number <= 3
      && maximum == if PowerOfTen(width.value.number) < 999 then PowerOfTen(width.value.number) else 999
    else maximum == 4096
  }

  /** Which field an item's own knob is. */
  predicate HasKey(item: Json, key: string) {
    || (Field(item, "k") in {Some(Text("extern_run")), Some(Text("fwd_run"))} && key == "count")
    || (Field(item, "k") == Some(Text("lines")) && key == "n")
  }

  /** The seat is a knob of this item: its own count or height, or the count of a stemmed member of a class. */
  predicate Describes(item: Json, seat: Seat) {
    && Field(item, "line") == Some(Int(seat.line)) && seat.line >= 1 && seat.minimum == 1
    && seat.minimum <= seat.value <= seat.maximum
    && match seat.member
       case None =>
         HasKey(item, seat.key) && HasMaximum(item, seat.maximum) && Field(item, seat.key) == Some(Int(seat.value))
       case Some(m) =>
         var members := Field(item, "members");
         && Field(item, "k") == Some(Text("class")) && members.Some? && members.value.Array?
              && m < |members.value.items|
         && Field(members.value.items[m], "stem").Some?
              && Field(members.value.items[m], "count") == Some(Int(seat.value))
         && seat.key == "count" && seat.maximum == 4096
  }

  /** The tree has this knob at the seat's path, in a declaration sequence. */
  predicate DescribesAt(root: Json, seat: Seat) {
    var gen := Get(root, SequencePath(seat.rendering, seat.operation));
    var item := Get(root, ItemPath(seat.rendering, seat.operation, seat.item));
    gen.Some? && Field(gen.value, "k") == Some(Text("seq")) && item.Some? && Describes(item.value, seat)
  }

  /** The same, loop by loop. */
  predicate DescribesIn(root: Json, seat: Seat) {
    var renderings := Renderings(root);
    && renderings.Some? && seat.rendering < |renderings.value|
    && var operations := Field(renderings.value[seat.rendering], "operations");
    && operations.Some? && operations.value.Array? && seat.operation < |operations.value.items|
    && var items := SequenceItems(operations.value.items[seat.operation]);
    && items.Some? && seat.item < |items.value| && Describes(items.value[seat.item], seat)
  }

  /** A path to a generator goes through a rendering and an operation. */
  lemma {:induction false} GeneratorIsPlaced(root: Json, r: nat, o: nat)
    requires Get(root, SequencePath(r, o)).Some?
    ensures Renderings(root).Some? && r < |Renderings(root).value|
    ensures
      var operations := Field(Renderings(root).value[r], "operations");
      operations.Some? && operations.value.Array? && o < |operations.value.items|
  {
    var start := [Name("parameters"), Name("renderings")];
    Down(root, start, At(r));
    Down(root, start + [At(r)], Name("operations"));
    Down(root, start + [At(r)] + [Name("operations")], At(o));
    Down(root, start + [At(r)] + [Name("operations")] + [At(o)], Name("gen"));
    assert start + [At(r)] + [Name("operations")] + [At(o)] + [Name("gen")] == SequencePath(r, o);
  }

  lemma {:induction false} PathIsPlace(root: Json, seat: Seat)
    ensures DescribesAt(root, seat) <==> DescribesIn(root, seat)
  {
    hide Renderings, Describes;
    var r, o, i := seat.rendering, seat.operation, seat.item;
    Down(root, SequencePath(r, o), Name("items"));
    Down(root, SequencePath(r, o) + [Name("items")], At(i));
    assert SequencePath(r, o) + [Name("items")] + [At(i)] == ItemPath(r, o, i);
    if Get(root, SequencePath(r, o)).Some? {
      GeneratorIsPlaced(root, r, o);
      GeneratorAt(root, r, o);
    } else if DescribesIn(root, seat) {
      GeneratorAt(root, r, o);
    }
  }

  lemma {:induction false} MembersDescribed(r: nat, o: nat, i: nat, line: int, members: seq<Json>, seat: Seat)
    requires MemberSeats(r, o, i, line, members).Some? && seat in MemberSeats(r, o, i, line, members).value
    ensures seat.member.Some? && seat.member.value < |members| && seat.minimum == 1 && seat.maximum == 4096
    ensures seat.key == "count" && Field(members[seat.member.value], "stem").Some?
    ensures Field(members[seat.member.value], "count") == Some(Int(seat.value)) && 1 <= seat.value <= 4096
  {
    var n := |members| - 1;
    if seat in MemberSeats(r, o, i, line, members[..n]).value {
      MembersDescribed(r, o, i, line, members[..n], seat);
    }
  }

  lemma {:induction false} WidthMaximum(width: int)
    requires 1 <= width <= 3
    ensures RunMaximum(width) == if PowerOfTen(width) < 999 then PowerOfTen(width) else 999
  {
    assert PowerOfTen(0) == 1 && PowerOfTen(1) == 10 && PowerOfTen(2) == 100 && PowerOfTen(3) == 1000;
  }

  lemma {:induction false} ItemDescribed(r: nat, o: nat, i: nat, item: Json, seat: Seat)
    requires ItemSeats(r, o, i, item).Some? && seat in ItemSeats(r, o, i, item).value
    ensures InItem(seat, r, o, i) && Describes(item, seat)
  {
    hide MemberSeats, PowerOfTen;
    if Field(item, "k") == Some(Text("class")) {
      MembersDescribed(r, o, i, Field(item, "line").value.number, Field(item, "members").value.items, seat);
    } else if Field(item, "k") == Some(Text("extern_run")) {
      WidthMaximum(Field(item, "width").value.number);
    }
  }

  lemma {:induction false} SequenceDescribed(r: nat, o: nat, items: seq<Json>, seat: Seat)
    requires SequenceSeats(r, o, items).Some? && seat in SequenceSeats(r, o, items).value
    ensures seat.rendering == r && seat.operation == o && seat.item < |items| && Describes(items[seat.item], seat)
  {
    hide ItemSeats, Describes;
    var n := |items| - 1;
    if seat in SequenceSeats(r, o, items[..n]).value {
      SequenceDescribed(r, o, items[..n], seat);
    } else {
      ItemDescribed(r, o, n, items[n], seat);
    }
  }

  lemma {:induction false} OperationDescribed(r: nat, operations: seq<Json>, seat: Seat)
    requires OperationSeats(r, operations).Some? && seat in OperationSeats(r, operations).value
    ensures seat.rendering == r && seat.operation < |operations|
    ensures
      var items := SequenceItems(operations[seat.operation]);
      items.Some? && seat.item < |items.value| && Describes(items.value[seat.item], seat)
  {
    hide SequenceSeats, SequenceItems, Describes, InOperation;
    var n := |operations| - 1;
    if seat in OperationSeats(r, operations[..n]).value {
      OperationDescribed(r, operations[..n], seat);
    } else {
      SequenceDescribed(r, n, SequenceItems(operations[n]).value, seat);
    }
  }

  lemma {:induction false} RenderingDescribed(root: Json, renderings: seq<Json>, seat: Seat)
    requires RenderingSeats(renderings).Some? && seat in RenderingSeats(renderings).value
    requires Renderings(root).Some? && renderings <= Renderings(root).value
    ensures DescribesIn(root, seat)
  {
    hide OperationSeats, SequenceItems, Describes, InRenderings, Renderings, Field;
    var n := |renderings| - 1;
    if seat in RenderingSeats(renderings[..n]).value {
      RenderingDescribed(root, renderings[..n], seat);
    } else {
      OperationDescribed(n, Field(renderings[n], "operations").value.items, seat);
    }
  }

  /** A place has one knob. */
  lemma {:induction false} OneKnobEach(root: Json, seat: Seat, other: Seat)
    requires DescribesIn(root, seat) && DescribesIn(root, other) && SamePlace(seat, other)
    ensures seat == other
  {
    hide PowerOfTen;
  }

  lemma DescribedIsOffered(root: Json, seat: Seat)
    requires DescribesIn(root, seat)
    ensures OffersAt(root, seat.rendering, seat.operation, seat.item, seat.member)
  {
  }

  /** The listed seats are exactly the knobs of the tree, each at its own place, key, value, bounds and line. */
  lemma {:induction false} SeatsAreKnobs(root: Json)
    requires KnobSeats(root).Some?
    ensures ApartSeats(KnobSeats(root).value)
    ensures forall seat | seat in KnobSeats(root).value :: IsSeat(root, seat)
    ensures forall seat :: seat in KnobSeats(root).value <==> DescribesAt(root, seat)
    ensures forall r: nat, o: nat, i: nat, member: Option<nat> ::
              HasSeat(KnobSeats(root).value, r, o, i, member) <==> OffersAt(root, r, o, i, member)
  {
    hide Offers, SequenceItems, IsSeat, InRenderings, OffersAt, DescribesAt, RenderingSeats, Renderings, Field;
    var seats := KnobSeats(root).value;
    forall seat | seat in seats ensures IsSeat(root, seat) {
      SeatIsKnob(root, seat);
    }
    forall r: nat, o: nat, i: nat, member: Option<nat>
      ensures HasSeat(seats, r, o, i, member) <==> OffersAt(root, r, o, i, member) {
      OffersListed(root, r, o, i, member);
    }
    forall seat ensures seat in seats <==> DescribesAt(root, seat) {
      SeatIsListed(root, seat);
    }
  }

  lemma {:induction false} OffersListed(root: Json, r: nat, o: nat, i: nat, member: Option<nat>)
    requires KnobSeats(root).Some?
    ensures HasSeat(KnobSeats(root).value, r, o, i, member) <==> OffersAt(root, r, o, i, member)
  {
    hide HasSeat, Offers, SequenceItems;
    RenderingListed(Renderings(root).value, r, o, i, member);
  }

  lemma {:induction false} SeatIsListed(root: Json, seat: Seat)
    requires KnobSeats(root).Some?
    ensures seat in KnobSeats(root).value <==> DescribesAt(root, seat)
  {
    hide Offers, SequenceItems, OffersAt, DescribesAt, DescribesIn, RenderingSeats, Renderings;
    var seats := KnobSeats(root).value;
    PathIsPlace(root, seat);
    if seat in seats {
      RenderingDescribed(root, Renderings(root).value, seat);
    }
    if DescribesAt(root, seat) {
      DescribedIsOffered(root, seat);
      OffersListed(root, seat.rendering, seat.operation, seat.item, seat.member);
      var k :| 0 <= k < |seats| && InItem(seats[k], seat.rendering, seat.operation, seat.item)
          && seats[k].member == seat.member;
      RenderingDescribed(root, Renderings(root).value, seats[k]);
      OneKnobEach(root, seat, seats[k]);
    }
  }

  lemma {:induction false} GeneratorAt(root: Json, r: nat, o: nat)
    requires Renderings(root).Some? && r < |Renderings(root).value|
    requires
      var operations := Field(Renderings(root).value[r], "operations");
      operations.Some? && operations.value.Array? && o < |operations.value.items|
    ensures Get(root, SequencePath(r, o)) == Field(Field(Renderings(root).value[r], "operations").value.items[o], "gen")
  {
    var start := [Name("parameters"), Name("renderings")];
    Down(root, start, At(r));
    assert start + [At(r)] == [Name("parameters"), Name("renderings"), At(r)];
    Down(root, start + [At(r)], Name("operations"));
    Down(root, start + [At(r)] + [Name("operations")], At(o));
    Down(root, start + [At(r)] + [Name("operations")] + [At(o)], Name("gen"));
    assert start + [At(r)] + [Name("operations")] + [At(o)] + [Name("gen")] == SequencePath(r, o);
  }

  lemma {:induction false} SeatIsKnob(root: Json, seat: Seat)
    requires Renderings(root).Some? && InRenderings(Renderings(root).value, seat)
    ensures IsSeat(root, seat)
  {
    var r, o, i := seat.rendering, seat.operation, seat.item;
    GeneratorAt(root, r, o);
    Down(root, SequencePath(r, o), Name("items"));
    Down(root, SequencePath(r, o) + [Name("items")], At(i));
    assert SequencePath(r, o) + [Name("items")] + [At(i)] == ItemPath(r, o, i);
    Down(root, ItemPath(r, o, i), Name("line"));
    if seat.member.None? {
      Down(root, ItemPath(r, o, i), Name(seat.key));
    } else {
      GetJoined(root, ItemPath(r, o, i), [Name("members"), At(seat.member.value), Name("count")]);
    }
  }

  /** One step further down. */
  lemma {:induction false} Down(root: Json, path: Path, part: Part)
    ensures Get(root, path + [part]) == if Get(root, path).None? then None else Child(Get(root, path).value, part)
  {
    GetJoined(root, path, [part]);
    if Get(root, path).Some? {
      assert [part][1..] == [];
    }
  }
}
