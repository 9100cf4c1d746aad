/** Listing a finite set in ascending order. */
module Sorting {
  ghost predicate StrictOrder<T(!new)>(less: (T, T) -> bool) {
    && (forall a, b :: a != b ==> less(a, b) || less(b, a))
    && (forall a, b :: less(a, b) ==> !less(b, a))
    && forall a, b, c :: less(a, b) && less(b, c) ==> less(a, c)
  }

  predicate Ascending<T>(list: seq<T>, less: (T, T) -> bool) {
    forall i, j | 0 <= i < j < |list| :: less(list[i], list[j])
  }

  method Least<T(==,!new)>(elements: set<T>, less: (T, T) -> bool) returns (least: T)
    requires elements != {} && StrictOrder(less)
    ensures least in elements && forall other | other in elements && other != least :: less(least, other)
  {
    least :| least in elements;
    var rest := elements - {least};
    while rest != {}
      invariant rest <= elements && least in elements
      invariant forall other | other in elements && other !in rest && other != least :: less(least, other)
      decreases |rest|
    {
      var other :| other in rest;
      if less(other, least) {
        least := other;
      }
      rest := rest - {other};
    }
  }

  /** Python's `sorted` on a set with a strict order. */
  method Sorted<T(==,!new)>(elements: set<T>, less: (T, T) -> bool) returns (list: seq<T>)
    requires StrictOrder(less)
    ensures Ascending(list, less) && forall element :: element in list <==> element in elements
  {
    list := [];
    var rest := elements;
    while rest != {}
      invariant Ascending(list, less) && rest <= elements
      invariant forall element :: element in list <==> element in elements && element !in rest
      invariant forall element, other | element in list && other in rest :: less(element, other)
      decreases |rest|
    {
      var least := Least(rest, less);
      list := list + [least];
      rest := rest - {least};
    }
  }

  /** Ascending lists with the same members are the same list. */
  lemma {:induction false} AscendingIsUnique<T(!new)>(left: seq<T>, right: seq<T>, less: (T, T) -> bool)
    requires StrictOrder(less) && Ascending(left, less) && Ascending(right, less)
    requires forall element :: element in left <==> element in right
    ensures left == right
  {
    assert (left == [] || left[0] in left) && (right == [] || right[0] in right);
    if left != [] && right != [] {
      assert left[0] == right[0];
      forall element ensures element in left[1..] <==> element in right[1..] {
        assert element in left[1..] ==> element in left && element != left[0];
        assert element in right[1..] ==> element in right && element != right[0];
        assert element in left && element != left[0] ==> element in left[1..];
        assert element in right && element != right[0] ==> element in right[1..];
      }
      AscendingIsUnique(left[1..], right[1..], less);
    }
  }
}
