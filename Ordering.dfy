/**
 * Strict total orders and the minimum of a finite set.
 *
 * The C++ containers std::set and std::map visit their elements in increasing
 * order of the element's operator<.  The models of those loops repeatedly take
 * the minimum of what is left; this module supplies that minimum and proves it
 * exists and is unique.
 */
module Ordering {

  ghost predicate Irreflexive<T(!new)>(less: (T, T) -> bool) {
    forall x :: !less(x, x)
  }

  ghost predicate Transitive<T(!new)>(less: (T, T) -> bool) {
    forall x, y, z :: less(x, y) && less(y, z) ==> less(x, z)
  }

  ghost predicate Trichotomous<T(!new)>(less: (T, T) -> bool) {
    forall x, y :: x == y || less(x, y) || less(y, x)
  }

  ghost predicate StrictTotalOrder<T(!new)>(less: (T, T) -> bool) {
    Irreflexive(less) && Transitive(less) && Trichotomous(less)
  }

  /** m is an element of s that no element of s is below. */
  ghost predicate IsMinimum<T>(less: (T, T) -> bool, m: T, s: set<T>) {
    m in s && forall x :: x in s ==> !less(x, m)
  }

  lemma MinimumExists<T(!new)>(less: (T, T) -> bool, s: set<T>)
    requires StrictTotalOrder(less)
    requires s != {}
    ensures exists m :: IsMinimum(less, m, s)
  {
    var x :| x in s;
    if s == {x} {
      assert IsMinimum(less, x, s);
    } else {
      MinimumExists(less, s - {x});
      var m :| IsMinimum(less, m, s - {x});
      if less(x, m) {
        forall y | y in s
          ensures !less(y, x)
        {
          if y != x {
            assert !less(y, m);
          }
        }
        assert IsMinimum(less, x, s);
      } else {
        assert IsMinimum(less, m, s);
      }
    }
  }

  lemma MinimumUnique<T(!new)>(less: (T, T) -> bool, s: set<T>, a: T, b: T)
    requires StrictTotalOrder(less)
    requires IsMinimum(less, a, s) && IsMinimum(less, b, s)
    ensures a == b
  {
    assert a == b || less(a, b) || less(b, a);
  }

  /** The least element of a non-empty finite set. */
  ghost function Minimum<T(!new)>(less: (T, T) -> bool, s: set<T>): (m: T)
    requires StrictTotalOrder(less)
    requires s != {}
    ensures IsMinimum(less, m, s)
  {
    MinimumExists(less, s);
    var m :| IsMinimum(less, m, s); m
  }

  /** Every element of a finite set that is below no other one is the Minimum. */
  lemma IsTheMinimum<T(!new)>(less: (T, T) -> bool, s: set<T>, m: T)
    requires StrictTotalOrder(less)
    requires IsMinimum(less, m, s)
    ensures s != {} && m == Minimum(less, s)
  {
    MinimumUnique(less, s, m, Minimum(less, s));
  }
}
