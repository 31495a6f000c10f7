/**
 * nico.ui.PgmPanelComparator: orders program panels by their open times, in milliseconds
 * since the epoch. Without an origin the newest program comes first; with an origin the
 * program that opens closest to it comes first. The comparator returns the difference of
 * two longs narrowed to int.
 */
module PanelOrder {
  import opened JavaInt

  /** The comparator's result for open times t1 and t2, as Java computes it. */
  function CompareAt(origin: Long, t1: Long, t2: Long): Int32 {
    if origin >= 0 then
      ToInt(WrapLong(LongAbs(WrapLong(origin - t1)) - LongAbs(WrapLong(origin - t2))))
    else
      ToInt(WrapLong(t2 - t1))
  }

  class PgmPanelComparator {
    var origin: Long

    constructor ()
      ensures origin == -1
    {
      origin := -1;
    }

    method SetOriginDate(d: Long)
      modifies this
      ensures origin == d
    {
      origin := d;
    }

    /** compare(o1, o2) for panels with open times t1 and t2. */
    function Compare(t1: Long, t2: Long): (r: Int32)
      reads this
      ensures origin < 0 && -TWO_31 <= t2 - t1 < TWO_31 ==> r == t2 - t1
      ensures origin >= 0 && -TWO_63 < origin - t1 < TWO_63 && -TWO_63 < origin - t2 < TWO_63 &&
              -TWO_31 <= Abs(origin - t1) - Abs(origin - t2) < TWO_31 ==>
                r == Abs(origin - t1) - Abs(origin - t2)
    {
      CompareAt(origin, t1, t2)
    }
  }

  function Abs(x: int): (r: nat)
    ensures r == x || r == -x
  {
    if x < 0 then -x else x
  }

  /** Every panel compares equal to itself, in both modes. */
  lemma CompareReflexive(origin: Long, t: Long)
    ensures CompareAt(origin, t, t) == 0
  {
  }

  /**
   * Within the range where nothing wraps, the comparator is antisymmetric and means what it
   * should: without an origin, t1 comes first exactly when it is the later time; with one,
   * exactly when it is the closer one.
   */
  lemma CompareMeaning(origin: Long, t1: Long, t2: Long)
    requires origin < 0 ==> -TWO_31 < t2 - t1 < TWO_31
    requires origin >= 0 ==> -TWO_63 < origin - t1 < TWO_63 && -TWO_63 < origin - t2 < TWO_63 &&
                             -TWO_31 < Abs(origin - t1) - Abs(origin - t2) < TWO_31
    ensures CompareAt(origin, t1, t2) == -CompareAt(origin, t2, t1)
    ensures origin < 0 ==> (CompareAt(origin, t1, t2) < 0 <==> t1 > t2)
    ensures origin >= 0 ==> (CompareAt(origin, t1, t2) < 0 <==> Abs(origin - t1) < Abs(origin - t2))
  {
  }

  /**
   * Outside that range the narrowing breaks the Comparator contract: open times 2^31 ms
   * (about 24.9 days) apart each compare as smaller than the other. It happens without an
   * origin and also with one, the mode the sorting layouts use: a program at the origin and
   * one 2^31 ms before it.
   */
  lemma NarrowingBreaksAntisymmetry()
    ensures CompareAt(-1, 0, TWO_31) < 0 && CompareAt(-1, TWO_31, 0) < 0
    ensures CompareAt(TWO_31, TWO_31, 0) < 0 && CompareAt(TWO_31, 0, TWO_31) < 0
  {
  }

  function Sign(x: int): (r: int)
    ensures r == -1 || r == 0 || r == 1
    ensures (r < 0 <==> x < 0) && (r > 0 <==> x > 0)
  {
    if x < 0 then -1 else if x > 0 then 1 else 0
  }

  /** The intended comparison: the sign of the exact difference, as Long.compare would give it. */
  function CompareIntended(origin: Long, t1: Long, t2: Long): int {
    if origin >= 0 then Sign(Abs(origin - t1) - Abs(origin - t2)) else Sign(t2 - t1)
  }

  /** The intended comparison is a total preorder on all inputs: reflexive, antisymmetric, transitive. */
  lemma IntendedIsOrder(origin: Long, a: Long, b: Long, c: Long)
    ensures CompareIntended(origin, a, a) == 0
    ensures CompareIntended(origin, a, b) == -CompareIntended(origin, b, a)
    ensures CompareIntended(origin, a, b) <= 0 && CompareIntended(origin, b, c) <= 0 ==> CompareIntended(origin, a, c) <= 0
  {
  }

  /** Where nothing wraps, the comparator as written agrees in sign with the intended one. */
  lemma IntendedAgrees(origin: Long, t1: Long, t2: Long)
    requires origin < 0 ==> -TWO_31 < t2 - t1 < TWO_31
    requires origin >= 0 ==> -TWO_63 < origin - t1 < TWO_63 && -TWO_63 < origin - t2 < TWO_63 &&
                             -TWO_31 < Abs(origin - t1) - Abs(origin - t2) < TWO_31
    ensures Sign(CompareAt(origin, t1, t2)) == CompareIntended(origin, t1, t2)
  {
  }
}
