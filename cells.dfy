/**
 * The Cell value object both revisions build, and its three-way comparator
 * `__cmp__` (identical in both revisions): cells of one column order by row,
 * cells of different columns by the string order of their column letters.
 */
module Cells {
  import opened Wrappers
  import opened Python

  /** What the date converter returns: (year, month, day, hour, minute, second). */
  type DateTuple = (int, int, int, int, int, int)

  /** A cell's value: a string, a converted date, or Python's None. */
  datatype Value = Str(s: string) | Date(when: DateTuple) | Null

  /** Python's None or a string, as a cell value. */
  function OptionalText(t: Option<string>): (v: Value)
    ensures v.Null? <==> t.None?
    ensures t.Some? ==> v == Str(t.value)
  {
    if t.Some? then Str(t.value) else Null
  }

  /**
   * A cell: `row` is `int(row)` of the row number it was built with, `column` the
   * derived column letters, `id` the text `"%s%s" % (column, row)` of the row
   * number as it was passed in.
   */
  datatype Cell = Cell(row: int, column: string, value: Value, formula: Option<string>, id: string)

  /** Cell `a` comes strictly before cell `b` in the (column, row) order. */
  predicate KeyBefore(a: Cell, b: Cell) {
    if a.column == b.column then a.row < b.row else LexLess(a.column, b.column)
  }

  /** Two cells sit at the same place: same column and same row. */
  predicate SameKey(a: Cell, b: Cell) {
    a.column == b.column && a.row == b.row
  }

  /** `Cell.__cmp__`. */
  function Cmp(a: Cell, b: Cell): (r: int)
    ensures r == 0 <==> SameKey(a, b)
    ensures r < 0 <==> KeyBefore(a, b)
    ensures r > 0 <==> KeyBefore(b, a)
    ensures a.column == b.column ==> r == a.row - b.row
    ensures a.column != b.column ==> r == -1 || r == 1
  {
    LexTotal(a.column, b.column);
    LexAsymmetric(a.column, b.column);
    if b.column == a.column then a.row - b.row
    else if LexLess(a.column, b.column) then -1
    else if LexLess(b.column, a.column) then 1
    else 0
  }

  /** The comparator is antisymmetric, and exactly so: swapping the arguments negates the result. */
  lemma CmpAntisymmetric(a: Cell, b: Cell)
    ensures Cmp(a, b) == -Cmp(b, a)
  {
  }

  /** `Cmp(a, b) <= 0` is transitive, so it is a total preorder on cells. */
  lemma CmpTransitive(a: Cell, b: Cell, c: Cell)
    requires Cmp(a, b) <= 0 && Cmp(b, c) <= 0
    ensures Cmp(a, c) <= 0
    ensures Cmp(a, b) < 0 || Cmp(b, c) < 0 ==> Cmp(a, c) < 0
  {
    if a.column != b.column && b.column != c.column {
      LexTransitive(a.column, b.column, c.column);
      LexIrreflexive(a.column);
    } else if a.column != b.column || b.column != c.column {
      if a.column == c.column {
        LexAsymmetric(a.column, b.column);
      }
    }
  }
}
