/**
 * The rich comparisons the newer revision's Cell defines on top of `__cmp__`.
 * Each tests the comparator's result against one exact value (-1, 0 or 1), so
 * they agree with the (column, row) order only when the comparator returns a
 * unit value, that is, across columns or between adjacent rows. The intended
 * order is stated alongside, and the lemmas below relate the two.
 */
module XlsxCompare {
  import opened Wrappers
  import opened Python
  import opened Cells

  /** `Cell.__lt__` as written: the comparator returns exactly -1. */
  predicate Lt(a: Cell, b: Cell) {
    Cmp(a, b) == -1
  }

  /** `Cell.__gt__` as written: the comparator returns exactly 1. */
  predicate Gt(a: Cell, b: Cell) {
    Cmp(a, b) == 1
  }

  /** `Cell.__eq__`. */
  predicate Eq(a: Cell, b: Cell) {
    Cmp(a, b) == 0
  }

  /** `Cell.__ne__`. */
  predicate Ne(a: Cell, b: Cell) {
    Cmp(a, b) != 0
  }

  /** `Cell.__le__` as written: the comparator returns anything but 1. */
  predicate Le(a: Cell, b: Cell) {
    Cmp(a, b) != 1
  }

  /** `Cell.__ge__` as written: the comparator returns anything but -1. */
  predicate Ge(a: Cell, b: Cell) {
    Cmp(a, b) != -1
  }

  /** Intended `a < b`: the comparator is negative. */
  function Before(a: Cell, b: Cell): (r: bool)
    ensures r <==> if a.column == b.column then a.row < b.row else LexLess(a.column, b.column)
  {
    Cmp(a, b) < 0
  }

  /** Intended `a <= b`: the comparator is not positive. */
  function AtMost(a: Cell, b: Cell): (r: bool)
    ensures r <==> if a.column == b.column then a.row <= b.row else LexLess(a.column, b.column)
  {
    Cmp(a, b) <= 0
  }

  /** Equality and inequality are exact: they test for the same place. */
  lemma EqIsSameKey(a: Cell, b: Cell)
    ensures Eq(a, b) <==> a.column == b.column && a.row == b.row
    ensures Ne(a, b) <==> !(a.column == b.column && a.row == b.row)
  {
  }

  /** Intended `<` is a strict order and `<=` its reflexive closure on places. */
  lemma {:induction false} BeforeIsStrictOrder(a: Cell, b: Cell, c: Cell)
    ensures !Before(a, a)
    ensures Before(a, b) ==> !Before(b, a)
    ensures Before(a, b) && Before(b, c) ==> Before(a, c)
    ensures AtMost(a, b) <==> Before(a, b) || SameKey(a, b)
    ensures Before(a, b) || SameKey(a, b) || Before(b, a)
  {
    if Before(a, b) && Before(b, c) {
      CmpTransitive(a, b, c);
    }
  }

  /**
   * What `<` as written decides: the intended order, restricted to cells in
   * different columns or in adjacent rows of one column.
   */
  lemma LtCharacterized(a: Cell, b: Cell)
    ensures Lt(a, b) <==> Before(a, b) && (a.column != b.column || b.row == a.row + 1)
    ensures Gt(a, b) <==> Before(b, a) && (a.column != b.column || a.row == b.row + 1)
  {
  }

  /**
   * What `<=` as written decides: the intended order, plus every pair of cells of
   * one column whose rows lie two or more apart, in either direction.
   */
  lemma LeCharacterized(a: Cell, b: Cell)
    ensures Le(a, b) <==> AtMost(a, b) || (a.column == b.column && a.row >= b.row + 2)
    ensures Ge(a, b) <==> AtMost(b, a) || (a.column == b.column && b.row >= a.row + 2)
  {
  }

  /**
   * A1 against A3: the intended order puts A1 first, yet `A1 < A3` and
   * `A3 > A1` are false, and `A1 <= A3` and `A3 <= A1` are both true.
   */
  lemma RowGapCounterexample(v: Value)
    ensures var a1 := Cell(1, "A", v, None, "A1");
            var a3 := Cell(3, "A", v, None, "A3");
            Before(a1, a3) && !Lt(a1, a3) && !Gt(a3, a1) && Le(a1, a3) && Le(a3, a1) && !Eq(a1, a3)
  {
  }
}
