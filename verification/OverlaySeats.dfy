/** When a tree has seats, and in which order they are listed (src/reprobit/classic_donor_retune_candidates.py). */
module OverlaySeats {
  import opened Options
  import opened JsonValues
  import opened JsonPaths
  import opened OverlayKnobs

  // ---- Order --------------------------------------------------------------------------------

  function MemberRank(seat: Seat): nat {
    if seat.member.None? then 0 else seat.member.value
  }

  /** By rendering, then operation, then item, then member. */
  predicate SeatBefore(left: Seat, right: Seat) {
    left.rendering < right.rendering || (left.rendering == right.rendering &&
    (left.operation < right.operation || (left.operation == right.operation &&
    (left.item < right.item || (left.item == right.item && MemberRank(left) < MemberRank(right))))))
  }

  predicate InSeatOrder(seats: seq<Seat>) {
    forall a, b | 0 <= a < b < |seats| :: SeatBefore(seats[a], seats[b])
  }

  lemma {:induction false} OrderJoin(left: seq<Seat>, right: seq<Seat>)
    requires InSeatOrder(left) && InSeatOrder(right)
    requires forall a, b | a in left && b in right :: SeatBefore(a, b)
    ensures InSeatOrder(left + right)
  {
    hide SeatBefore;
    var all := left + right;
    forall a, b | 0 <= a < b < |all| ensures SeatBefore(all[a], all[b]) {
      assert a < |left| ==> all[a] in left;
      assert b >= |left| ==> all[b] in right;
    }
  }

  lemma {:induction false} MembersInOrder(r: nat, o: nat, i: nat, line: int, members: seq<Json>)
    requires MemberSeats(r, o, i, line, members).Some?
    ensures InSeatOrder(MemberSeats(r, o, i, line, members).value)
  {
    hide Field, Bounded;
    if members != [] {
      var n := |members| - 1;
      MembersInOrder(r, o, i, line, members[..n]);
      var earlier := MemberSeats(r, o, i, line, members[..n]).value;
      if Field(members[n], "stem").Some? {
        OrderJoin(earlier,
                  [Seat(r, o, i, Some(n), "count", Bounded(members[n], "count", 1, 4096).value, 1, 4096, line)]);
      }
    }
  }

  lemma {:induction false} ItemInOrder(r: nat, o: nat, i: nat, item: Json)
    requires ItemSeats(r, o, i, item).Some?
    ensures InSeatOrder(ItemSeats(r, o, i, item).value)
  {
    hide MemberSeats, ItemKnob;
    if Field(item, "k") == Some(Text("class")) {
      var members := Field(item, "members");
      if members.Some? && members.value.Array? {
        MembersInOrder(r, o, i, Field(item, "line").value.number, members.value.items);
      }
    }
  }

  lemma {:induction false} SequenceInOrder(r: nat, o: nat, items: seq<Json>)
    requires SequenceSeats(r, o, items).Some?
    ensures InSeatOrder(SequenceSeats(r, o, items).value)
  {
    hide ItemSeats, Fits;
    if items != [] {
      var n := |items| - 1;
      SequenceInOrder(r, o, items[..n]);
      ItemInOrder(r, o, n, items[n]);
      OrderJoin(SequenceSeats(r, o, items[..n]).value, ItemSeats(r, o, n, items[n]).value);
    }
  }

  lemma {:induction false} OperationsInOrder(r: nat, operations: seq<Json>)
    requires OperationSeats(r, operations).Some?
    ensures InSeatOrder(OperationSeats(r, operations).value)
  {
    hide SequenceSeats, SequenceItems, Fits;
    if operations != [] {
      var n := |operations| - 1;
      var items := SequenceItems(operations[n]).value;
      OperationsInOrder(r, operations[..n]);
      SequenceInOrder(r, n, items);
      OrderJoin(OperationSeats(r, operations[..n]).value, SequenceSeats(r, n, items).value);
    }
  }

  lemma {:induction false} RenderingsInOrder(renderings: seq<Json>)
    requires RenderingSeats(renderings).Some?
    ensures InSeatOrder(RenderingSeats(renderings).value)
  {
    hide OperationSeats, InOperation, Field;
    if renderings != [] {
      var n := |renderings| - 1;
      var operations := Field(renderings[n], "operations").value.items;
      RenderingsInOrder(renderings[..n]);
      OperationsInOrder(n, operations);
      OrderJoin(RenderingSeats(renderings[..n]).value, OperationSeats(n, operations).value);
    }
  }

  // ---- Acceptance -----------------------------------------------------------------------------

  /** An integer field within bounds. */
  predicate Within(value: Json, name: string, low: int, high: int) {
    Field(value, name).Some? && Field(value, name).value.Int? && low <= Field(value, name).value.number <= high
  }

  /** A stemmed member of a class has a count from 1 to 4096. */
  predicate IsGoodMember(member: Json) {
    Field(member, "stem").Some? ==> Within(member, "count", 1, 4096)
  }

  /** A run, padding or class is on a positive line, and its knobs are within their bounds. */
  predicate IsGoodItem(item: Json) {
    var kind := Field(item, "k");
    kind in {Some(Text("extern_run")), Some(Text("fwd_run")), Some(Text("lines")), Some(Text("class"))} ==>
      && Field(item, "line").Some? && Field(item, "line").value.Int? && Field(item, "line").value.number >= 1
      && (kind == Some(Text("extern_run")) ==>
            && Within(item, "width", 1, 3)
            && var most := PowerOfTen(Field(item, "width").value.number);
            Within(item, "count", 1, if most < 999 then most else 999))
      && (kind == Some(Text("fwd_run")) ==> Within(item, "count", 1, 4096))
      && (kind == Some(Text("lines")) ==> Within(item, "n", 1, 4096))
      && (kind == Some(Text("class")) ==>
            var members := Field(item, "members");
            members.Some? && members.value.Array? ==>
              forall m | 0 <= m < |members.value.items| :: IsGoodMember(members.value.items[m]))
  }

  /** An operation is an object; a sequence has an array of good items. */
  predicate IsGoodOperation(operation: Json) {
    var gen := Field(operation, "gen");
    && operation.Object?
    && (gen.Some? && Field(gen.value, "k") == Some(Text("seq")) ==>
          var items := Field(gen.value, "items");
          items.Some? && items.value.Array? && forall i | 0 <= i < |items.value.items| ::
              IsGoodItem(items.value.items[i]))
  }

  predicate IsGoodRendering(rendering: Json) {
    var operations := Field(rendering, "operations");
    operations.Some? && operations.value.Array?
    && forall o | 0 <= o < |operations.value.items| :: IsGoodOperation(operations.value.items[o])
  }

  lemma {:induction false} MembersAccepted(r: nat, o: nat, i: nat, line: int, members: seq<Json>)
    ensures MemberSeats(r, o, i, line, members).Some? <==> forall m | 0 <= m < |members| :: IsGoodMember(members[m])
  {
    if members != [] {
      var n := |members| - 1;
      MembersAccepted(r, o, i, line, members[..n]);
      assert members == members[..n] + [members[n]];
    }
  }

  lemma {:induction false} ItemAccepted(r: nat, o: nat, i: nat, item: Json)
    ensures ItemSeats(r, o, i, item).Some? <==> IsGoodItem(item)
  {
    hide MemberSeats, PowerOfTen, IsGoodMember;
    if Field(item, "k") == Some(Text("class")) {
      var line, members := Field(item, "line"), Field(item, "members");
      if line.Some? && line.value.Int? && members.Some? && members.value.Array? {
        MembersAccepted(r, o, i, line.value.number, members.value.items);
      }
    } else if Field(item, "k") == Some(Text("extern_run")) && Within(item, "width", 1, 3) {
      WidthMaximum(Field(item, "width").value.number);
    }
  }

  lemma {:induction false} SequenceAccepted(r: nat, o: nat, items: seq<Json>)
    ensures SequenceSeats(r, o, items).Some? <==> forall i | 0 <= i < |items| :: IsGoodItem(items[i])
  {
    hide ItemSeats, IsGoodItem, Fits;
    if items != [] {
      var n := |items| - 1;
      SequenceAccepted(r, o, items[..n]);
      ItemAccepted(r, o, n, items[n]);
      assert items == items[..n] + [items[n]];
    }
  }

  lemma {:induction false} OperationsAccepted(r: nat, operations: seq<Json>)
    ensures OperationSeats(r, operations).Some? <==> forall o | 0 <= o < |operations| :: IsGoodOperation(operations[o])
  {
    hide SequenceSeats, IsGoodItem, InOperation;
    if operations != [] {
      var n := |operations| - 1;
      OperationsAccepted(r, operations[..n]);
      assert operations == operations[..n] + [operations[n]];
      if operations[n].Object? && SequenceItems(operations[n]).Some? {
        SequenceAccepted(r, n, SequenceItems(operations[n]).value);
      }
    }
  }

  lemma {:induction false} RenderingAccepted(r: nat, rendering: Json)
    ensures IsGoodRendering(rendering) <==>
            var operations := Field(rendering, "operations");
            operations.Some? && operations.value.Array? && OperationSeats(r, operations.value.items).Some?
  {
    hide OperationSeats, IsGoodOperation, Field;
    var operations := Field(rendering, "operations");
    if operations.Some? && operations.value.Array? {
      OperationsAccepted(r, operations.value.items);
    }
  }

  lemma {:induction false} RenderingsAccepted(renderings: seq<Json>)
    ensures RenderingSeats(renderings).Some? <==> forall r | 0 <= r < |renderings| :: IsGoodRendering(renderings[r])
  {
    hide OperationSeats, IsGoodRendering, InRenderings, Field, ApartSeats;
    if renderings != [] {
      var n := |renderings| - 1;
      RenderingsAccepted(renderings[..n]);
      RenderingAccepted(n, renderings[n]);
      assert forall r | 0 <= r < n :: renderings[..n][r] == renderings[r];
    }
  }

  /** Seats are listed exactly when everything the loops look at is well formed, and then in the order of the tree. */
  lemma {:induction false} SeatsAreListed(root: Json)
    ensures KnobSeats(root).Some? <==>
            var renderings := Get(root, [Name("parameters"), Name("renderings")]);
            renderings.Some? && renderings.value.Array?
            && forall r | 0 <= r < |renderings.value.items| :: IsGoodRendering(renderings.value.items[r])
    ensures KnobSeats(root).Some? ==> InSeatOrder(KnobSeats(root).value)
  {
    hide RenderingSeats, IsGoodRendering, InSeatOrder;
    if Renderings(root).Some? {
      RenderingsAccepted(Renderings(root).value);
      if KnobSeats(root).Some? {
        RenderingsInOrder(Renderings(root).value);
      }
    }
  }
}
