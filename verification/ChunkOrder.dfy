/** Reading a chunk order off the reference bytes (src/reprobit/classic_link_layout_repair.py). */
module ChunkOrder {
  import opened Options

  type Byte = byte: int | 0 <= byte < 256

  type Bytes = seq<Byte>

  /** The chunks laid out in the given order. */
  function Join(chunks: seq<Bytes>, order: seq<nat>): Bytes
    requires forall i | 0 <= i < |order| :: order[i] < |chunks|
  {
    if order == [] then [] else Join(chunks, order[..|order| - 1]) + chunks[order[|order| - 1]]
  }

  predicate IsPermutation(order: seq<nat>, n: nat) {
    && |order| == n
    && (forall i | 0 <= i < |order| :: order[i] < n)
    && forall i, j | 0 <= i < j < |order| :: order[i] != order[j]
  }

  /** This permutation of the chunks spells the reference bytes. */
  predicate Arranges(order: seq<nat>, chunks: seq<Bytes>, oracle: Bytes) {
    IsPermutation(order, |chunks|) && Join(chunks, order) == oracle
  }

  function Identity(n: nat): seq<nat> {
    seq(n, i requires 0 <= i < n => i)
  }

  predicate PrefixFree(chunks: seq<Bytes>) {
    forall i, j | 0 <= i < |chunks| && 0 <= j < |chunks| && i != j :: !(chunks[i] <= chunks[j])
  }

  predicate StartsAt(oracle: Bytes, chunk: Bytes, cursor: nat) {
    cursor + |chunk| <= |oracle| && oracle[cursor..cursor + |chunk|] == chunk
  }

  lemma {:induction false} JoinPrefix(chunks: seq<Bytes>, order: seq<nat>, k: nat)
    requires k <= |order| && forall i | 0 <= i < |order| :: order[i] < |chunks|
    ensures Join(chunks, order[..k]) <= Join(chunks, order)
  {
    if k < |order| {
      var shorter := order[..|order| - 1];
      assert shorter[..k] == order[..k];
      JoinPrefix(chunks, shorter, k);
    } else {
      assert order[..k] == order;
    }
  }

  /** Where an arrangement places its k-th chunk, the reference reads that chunk. */
  lemma {:induction false} ChunkIsThere(chunks: seq<Bytes>, order: seq<nat>, oracle: Bytes, k: nat)
    requires k < |order| && (forall i | 0 <= i < |order| :: order[i] < |chunks|) && Join(chunks, order) == oracle
    ensures StartsAt(oracle, chunks[order[k]], |Join(chunks, order[..k])|)
  {
    JoinPrefix(chunks, order, k);
    JoinPrefix(chunks, order, k + 1);
    assert order[..k + 1][..k] == order[..k];
    var longer := Join(chunks, order[..k + 1]);
    assert longer == Join(chunks, order[..k]) + chunks[order[k]];
  }

  lemma {:induction false} Singleton(s: set<nat>, a: nat, b: nat)
    requires |s| == 1 && a in s && b in s
    ensures a == b
  {
    assert |s - {a}| == 0;
    assert b !in s - {a};
  }

  function Indices(n: nat): (s: set<nat>)
    ensures |s| == n
    ensures forall i: nat :: i in s <==> i < n
  {
    if n == 0 then {} else Indices(n - 1) + {n - 1}
  }

  function Elements(order: seq<nat>): (s: set<nat>)
    ensures forall i :: i in s <==> i in order
    ensures (forall i, j | 0 <= i < j < |order| :: order[i] != order[j]) ==> |s| == |order|
  {
    if order == [] then {}
    else
      var shorter := order[..|order| - 1];
      assert order == shorter + [order[|order| - 1]];
      Elements(shorter) + {order[|order| - 1]}
  }

  /** A permutation misses no index. */
  lemma {:induction false} PermutationCovers(order: seq<nat>, n: nat, m: nat)
    requires IsPermutation(order, n) && m < n
    ensures m in order
  {
    var all, listed := Indices(n), Elements(order);
    assert listed <= all;
    assert all - listed == {} by {
      assert |all - listed| == |all| - |listed|;
    }
    assert m in all;
  }

  // ---- What the search finds ------------------------------------------------------

  /** Wherever a chunk is placed, none of the chunks placed later would also have matched. */
  predicate Unrivalled(order: seq<nat>, chunks: seq<Bytes>, oracle: Bytes)
    requires forall i | 0 <= i < |order| :: order[i] < |chunks|
  {
    forall k, j | 0 <= k < j < |order| :: !StartsAt(oracle, chunks[order[j]], |Join(chunks, order[..k])|)
  }

  predicate NoRepeats(chunks: seq<Bytes>) {
    forall i, j | 0 <= i < j < |chunks| :: chunks[i] != chunks[j]
  }

  predicate Finds(order: seq<nat>, chunks: seq<Bytes>, oracle: Bytes) {
    NoRepeats(chunks) && Arranges(order, chunks, oracle) && order != Identity(|chunks|)
        && Unrivalled(order, chunks, oracle)
  }

  /** The chunks placed so far spell the reference up to the cursor. */
  ghost predicate Placed(order: seq<nat>, chunks: seq<Bytes>, oracle: Bytes, unused: set<nat>, cursor: nat) {
    && (forall i: nat :: i in unused <==> i < |chunks| && i !in order)
    && |unused| + |order| == |chunks|
    && (forall i | 0 <= i < |order| :: order[i] < |chunks|)
    && (forall i, j | 0 <= i < j < |order| :: order[i] != order[j])
    && cursor <= |oracle| && Join(chunks, order) == oracle[..cursor]
  }

  /** The search so far: a prefix of every arrangement, with no rival anywhere. */
  ghost predicate Searched(order: seq<nat>, chunks: seq<Bytes>, oracle: Bytes, unused: set<nat>, cursor: nat) {
    && Placed(order, chunks, oracle, unused, cursor)
    && (forall other | Arranges(other, chunks, oracle) :: order <= other)
    && forall k | 0 < k <= |order| :: NoRival(order[..k], chunks, oracle)
  }

  /** No chunk outside the listed ones matches where the last of them was placed. */
  ghost predicate NoRival(order: seq<nat>, chunks: seq<Bytes>, oracle: Bytes)
    requires order != [] && forall i | 0 <= i < |order| :: order[i] < |chunks|
  {
    forall j: nat | j < |chunks| && j !in order :: !StartsAt(oracle, chunks[j], |Join(chunks, order[..|order| - 1])|)
  }

  function Matches(chunks: seq<Bytes>, oracle: Bytes, unused: set<nat>, cursor: nat): set<nat>
    requires forall i | i in unused :: i < |chunks|
  {
    set i | i in unused && StartsAt(oracle, chunks[i], cursor)
  }

  /** Every arrangement that agrees so far continues with a matching unused chunk. */
  lemma {:induction false} NextMatches(order: seq<nat>, chunks: seq<Bytes>, oracle: Bytes, unused: set<nat>,
                                       cursor: nat, other: seq<nat>)
    requires Searched(order, chunks, oracle, unused, cursor) && unused != {} && Arranges(other, chunks, oracle)
    ensures |order| < |other| && other[|order|] in Matches(chunks, oracle, unused, cursor)
  {
    var k := |order|;
    assert |unused| > 0;
    assert other[..k] == order;
    ChunkIsThere(chunks, other, oracle, k);
  }

  lemma {:induction false} PlacesOneMore(order: seq<nat>, chunks: seq<Bytes>, oracle: Bytes, unused: set<nat>,
                                         cursor: nat, selected: nat)
    requires Placed(order, chunks, oracle, unused, cursor) && selected in Matches(chunks, oracle, unused, cursor)
    ensures Placed(order + [selected], chunks, oracle, unused - {selected}, cursor + |chunks[selected]|)
  {
    var longer := order + [selected];
    assert longer[..|order|] == order;
  }

  lemma {:induction false} StillNoRival(order: seq<nat>, chunks: seq<Bytes>, oracle: Bytes, unused: set<nat>,
                                        cursor: nat, selected: nat, k: nat)
    requires Searched(order, chunks, oracle, unused, cursor) && 0 < k <= |order| + 1
    requires Matches(chunks, oracle, unused, cursor) == {selected} && selected < |chunks|
    ensures NoRival((order + [selected])[..k], chunks, oracle)
  {
    var longer := order + [selected];
    if k <= |order| {
      assert longer[..k] == order[..k];
    } else {
      assert longer[..k] == longer && longer[..|order|] == order;
      forall j: nat | j < |chunks| && j !in longer ensures !StartsAt(oracle, chunks[j], cursor) {
        assert j !in Matches(chunks, oracle, unused, cursor);
      }
    }
  }

  lemma {:induction false} OneMatchExtends(order: seq<nat>, chunks: seq<Bytes>, oracle: Bytes, unused: set<nat>,
                                           cursor: nat, selected: nat)
    requires Searched(order, chunks, oracle, unused, cursor)
    requires Matches(chunks, oracle, unused, cursor) == {selected}
    ensures selected in unused && selected < |chunks|
    ensures Searched(order + [selected], chunks, oracle, unused - {selected}, cursor + |chunks[selected]|)
  {
    hide NoRival, Join, StartsAt;
    assert selected in Matches(chunks, oracle, unused, cursor);
    PlacesOneMore(order, chunks, oracle, unused, cursor, selected);
    var longer := order + [selected];
    forall other | Arranges(other, chunks, oracle) ensures longer <= other {
      NextMatches(order, chunks, oracle, unused, cursor, other);
    }
    forall k | 0 < k <= |longer| ensures NoRival(longer[..k], chunks, oracle) {
      StillNoRival(order, chunks, oracle, unused, cursor, selected, k);
    }
  }

  lemma {:induction false} FoundMatchesOnce(order: seq<nat>, chunks: seq<Bytes>, oracle: Bytes, unused: set<nat>,
                                            cursor: nat, other: seq<nat>)
    requires Searched(order, chunks, oracle, unused, cursor) && unused != {} && Finds(other, chunks, oracle)
    ensures |order| < |other| && Matches(chunks, oracle, unused, cursor) == {other[|order|]}
  {
    var matches, k := Matches(chunks, oracle, unused, cursor), |order|;
    NextMatches(order, chunks, oracle, unused, cursor, other);
    assert other[..k] == order && |Join(chunks, other[..k])| == cursor;
    hide Join, StartsAt, NoRepeats, NoRival, IsPermutation, Unrivalled;
    assert forall i | 0 <= i < k :: other[i] == order[i] && order[i] in order;
    forall m | m in matches ensures m == other[k] {
      assert m !in order;
      PermutationCovers(other, |chunks|, m);
      var j :| 0 <= j < |other| && other[j] == m;
      NoLaterMatch(other, chunks, oracle, k, j);
    }
  }

  lemma {:induction false} FinishedSearch(order: seq<nat>, chunks: seq<Bytes>, oracle: Bytes, cursor: nat)
    requires Searched(order, chunks, oracle, {}, cursor)
    ensures forall other | Arranges(other, chunks, oracle) :: other == order
    ensures cursor == |oracle| ==> Arranges(order, chunks, oracle) && Unrivalled(order, chunks, oracle)
    ensures cursor != |oracle| ==> forall other :: !Arranges(other, chunks, oracle)
  {
    assert cursor == |oracle| ==> oracle[..cursor] == oracle;
    forall k, j | 0 <= k < j < |order| ensures !StartsAt(oracle, chunks[order[j]], |Join(chunks, order[..k])|) {
      var placed := order[..k + 1];
      assert NoRival(placed, chunks, oracle) && placed[..k] == order[..k];
    }
  }

  /**
   `_unique_chunk_permutation`: finds the one arrangement of distinct chunks, exactly when it is not
   the present one and no chunk ever has a rival; and a result is the only arrangement there is.
   */
  method UniqueChunkPermutation(chunks: seq<Bytes>, oracle: Bytes) returns (result: Option<seq<nat>>)
    ensures result.Some? <==> exists order :: Finds(order, chunks, oracle)
    ensures result.Some? ==> Finds(result.value, chunks, oracle)
    ensures result.Some? ==> forall other | Arranges(other, chunks, oracle) :: other == result.value
  {
    hide Searched, Arranges, Unrivalled, Matches, NoRepeats;
    if !NoRepeats(chunks) {
      return None;
    }
    var unused: set<nat> := Indices(|chunks|);
    var order: seq<nat> := [];
    var cursor: nat := 0;
    StartsSearched(chunks, oracle);
    while unused != {}
      invariant Searched(order, chunks, oracle, unused, cursor)
      invariant forall i | i in unused :: i < |chunks|
      decreases |unused|
    {
      var matches := Matches(chunks, oracle, unused, cursor);
      if |matches| != 1 {
        forall other ensures !Finds(other, chunks, oracle) {
          if Finds(other, chunks, oracle) {
            FoundMatchesOnce(order, chunks, oracle, unused, cursor, other);
          }
        }
        return None;
      }
      var selected :| selected in matches;
      OnlyElement(matches, selected);
      OneMatchExtends(order, chunks, oracle, unused, cursor, selected);
      order := order + [selected];
      cursor := cursor + |chunks[selected]|;
      unused := unused - {selected};
    }
    FinishedSearch(order, chunks, oracle, cursor);
    if cursor != |oracle| || order == Identity(|chunks|) {
      assert forall other :: Finds(other, chunks, oracle) ==> Arranges(other, chunks, oracle);
      return None;
    }
    assert Finds(order, chunks, oracle);
    result := Some(order);
  }

  lemma {:induction false} StartsSearched(chunks: seq<Bytes>, oracle: Bytes)
    ensures Searched([], chunks, oracle, Indices(|chunks|), 0)
  {
    hide NoRival;
  }

  lemma {:induction false} OnlyElement(s: set<nat>, element: nat)
    requires |s| == 1 && element in s
    ensures s == {element}
  {
    forall other | other in s ensures other == element {
      Singleton(s, element, other);
    }
  }

  /** Orders that agree so far agree on the next chunk. */
  lemma {:induction false} NextAgrees(order: seq<nat>, other: seq<nat>, chunks: seq<Bytes>, oracle: Bytes, m: nat)
    requires Finds(order, chunks, oracle) && Arranges(other, chunks, oracle) && m < |chunks| && order[..m] == other[..m]
    ensures order[m] == other[m]
  {
    PermutationCovers(order, |chunks|, other[m]);
    var j :| 0 <= j < |order| && order[j] == other[m];
    ChunkIsThere(chunks, other, oracle, m);
    hide Join, StartsAt, NoRepeats;
    SamePlaceNext(order, other, m, j);
    NoLaterMatch(order, chunks, oracle, m, j);
  }

  /** An unrivalled arrangement is the only one. */
  lemma {:induction false} FoundIsOnly(order: seq<nat>, other: seq<nat>, chunks: seq<Bytes>, oracle: Bytes, k: nat)
    requires Finds(order, chunks, oracle) && Arranges(other, chunks, oracle) && k <= |chunks|
    ensures |order| == |other| == |chunks| && order[..k] == other[..k]
  {
    hide Join, Unrivalled, NoRepeats;
    if k > 0 {
      FoundIsOnly(order, other, chunks, oracle, k - 1);
      NextAgrees(order, other, chunks, oracle, k - 1);
    }
  }

  lemma NoLaterMatch(order: seq<nat>, chunks: seq<Bytes>, oracle: Bytes, m: nat, j: nat)
    requires m <= j < |order| && (forall i | 0 <= i < |order| :: order[i] < |chunks|)
    requires Unrivalled(order, chunks, oracle)
    requires StartsAt(oracle, chunks[order[j]], |Join(chunks, order[..m])|)
    ensures j == m
  {
  }

  /** A chunk that agreeing orders place next is not among those already placed. */
  lemma {:induction false} SamePlaceNext(order: seq<nat>, other: seq<nat>, m: nat, j: nat)
    requires m < |other| && m <= |order| && j < |order| && order[..m] == other[..m] && order[j] == other[m]
    requires forall a, b | 0 <= a < b < |other| :: other[a] != other[b]
    ensures j >= m
  {
    assert forall i | 0 <= i < m :: order[i] == order[..m][i] == other[..m][i] == other[i];
  }

  // ---- Prefix-free chunks -----------------------------------------------------------

  lemma {:induction false} PrefixesOfOne(oracle: Bytes, cursor: nat, a: Bytes, b: Bytes)
    requires StartsAt(oracle, a, cursor) && StartsAt(oracle, b, cursor)
    ensures a <= b || b <= a
  {
    if |a| <= |b| {
      assert a == b[..|a|];
    } else {
      assert b == a[..|b|];
    }
  }

  /** When no chunk starts another, the search finds every arrangement other than the present one. */
  lemma {:induction false} PrefixFreeIsFound(order: seq<nat>, chunks: seq<Bytes>, oracle: Bytes)
    requires PrefixFree(chunks) && Arranges(order, chunks, oracle) && order != Identity(|chunks|)
    ensures Finds(order, chunks, oracle)
  {
    forall k, j | 0 <= k < j < |order| ensures !StartsAt(oracle, chunks[order[j]], |Join(chunks, order[..k])|) {
      ChunkIsThere(chunks, order, oracle, k);
      if StartsAt(oracle, chunks[order[j]], |Join(chunks, order[..k])|) {
        PrefixesOfOne(oracle, |Join(chunks, order[..k])|, chunks[order[j]], chunks[order[k]]);
      }
    }
  }

  /** Chunks of four-byte operands, the second of which starts the third. */
  function HiddenChunks(): seq<Bytes> {
    [[1, 0, 0, 0], [2, 0, 0, 0], [2, 0, 0, 0, 3, 0, 0, 0]]
  }

  function HiddenOracle(): Bytes {
    [2, 0, 0, 0, 3, 0, 0, 0, 1, 0, 0, 0, 2, 0, 0, 0]
  }

  lemma FirstByte(oracle: Bytes, chunk: Bytes, cursor: nat)
    requires StartsAt(oracle, chunk, cursor) && chunk != []
    ensures cursor < |oracle| && oracle[cursor] == chunk[0]
  {
  }

  lemma {:induction false} HiddenOrderIsOnly(order: seq<nat>)
    requires Arranges(order, HiddenChunks(), HiddenOracle())
    ensures order == [2, 0, 1]
  {
    var chunks, oracle := HiddenChunks(), HiddenOracle();
    hide Join;
    ChunkIsThere(chunks, order, oracle, 0);
    NoneJoined(chunks, order);
    FirstByte(oracle, chunks[order[0]], 0);
    assert order[0] != 0;
    ChunkIsThere(chunks, order, oracle, 1);
    OneJoined(chunks, order);
    FirstByte(oracle, chunks[order[1]], |chunks[order[0]]|);
    assert order[0] == 2 && order[1] == 0;
  }

  lemma NoneJoined(chunks: seq<Bytes>, order: seq<nat>)
    ensures Join(chunks, order[..0]) == []
  {
  }

  lemma {:induction false} OneJoined(chunks: seq<Bytes>, order: seq<nat>)
    requires |order| > 0 && order[0] < |chunks|
    ensures Join(chunks, order[..1]) == chunks[order[0]]
  {
    assert order[..1][..0] == [] && order[..1][0] == order[0];
  }

  /** When a chunk starts another, the search can miss the only arrangement, although every operand changed. */
  lemma {:induction false} PrefixHidesOrder()
    ensures NoRepeats(HiddenChunks()) && Arranges([2, 0, 1], HiddenChunks(), HiddenOracle()) && [2, 0, 1] != Identity(3)
    ensures forall order | Arranges(order, HiddenChunks(), HiddenOracle()) :: order == [2, 0, 1]
    ensures
      var core := Join(HiddenChunks(), Identity(3));
      && |core| == |HiddenOracle()| == 16
      && forall k | 0 <= k < 4 :: core[4 * k..4 * k + 4] != HiddenOracle()[4 * k..4 * k + 4]
    ensures forall order :: !Finds(order, HiddenChunks(), HiddenOracle())
  {
    hide Unrivalled;
    var chunks, oracle := HiddenChunks(), HiddenOracle();
    JoinThree(chunks, [2, 0, 1]);
    JoinThree(chunks, Identity(3));
    assert Join(chunks, Identity(3)) == [1, 0, 0, 0, 2, 0, 0, 0, 2, 0, 0, 0, 3, 0, 0, 0];
    OperandsChange();
    assert StartsAt(oracle, chunks[1], 0);
    forall order | Arranges(order, chunks, oracle) ensures order == [2, 0, 1] && !Finds(order, chunks, oracle) {
      HiddenOrderIsOnly(order);
      HasRival(order, chunks, oracle, 2);
    }
  }

  lemma {:induction false} OperandsChange()
    ensures
      var core: Bytes := [1, 0, 0, 0, 2, 0, 0, 0, 2, 0, 0, 0, 3, 0, 0, 0];
      forall k | 0 <= k < 4 :: core[4 * k..4 * k + 4] != HiddenOracle()[4 * k..4 * k + 4]
  {
    var core: Bytes := [1, 0, 0, 0, 2, 0, 0, 0, 2, 0, 0, 0, 3, 0, 0, 0];
    forall k | 0 <= k < 4 ensures core[4 * k..4 * k + 4] != HiddenOracle()[4 * k..4 * k + 4] {
      assert core[4 * k..4 * k + 4][0] == core[4 * k] != HiddenOracle()[4 * k] == HiddenOracle()[4 * k..4 * k + 4][0];
    }
  }

  lemma {:induction false} JoinThree(chunks: seq<Bytes>, order: seq<nat>)
    requires |order| == 3 && forall i | 0 <= i < |order| :: order[i] < |chunks|
    ensures Join(chunks, order) == chunks[order[0]] + chunks[order[1]] + chunks[order[2]]
  {
    assert order[..2][..1] == order[..1] && order[..2][1] == order[1];
    OneJoined(chunks, order);
  }

  lemma {:induction false} HasRival(order: seq<nat>, chunks: seq<Bytes>, oracle: Bytes, j: nat)
    requires 0 < j < |order| && (forall i | 0 <= i < |order| :: order[i] < |chunks|)
    requires StartsAt(oracle, chunks[order[j]], 0)
    ensures !Unrivalled(order, chunks, oracle)
  {
    var k := 0;
    NoneJoined(chunks, order);
    assert StartsAt(oracle, chunks[order[j]], |Join(chunks, order[..k])|);
  }
}
