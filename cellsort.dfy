/**
 * Python's `sorted()` applied to a list of cells with `Cell.__cmp__` as the
 * order: a stable sort, so cells that compare equal keep their input order.
 */
module CellSort {
  import opened Cells

  /** Every pair of cells, in index order, compares less than or equal. */
  predicate Sorted(s: seq<Cell>) {
    forall i, j :: 0 <= i < j < |s| ==> Cmp(s[i], s[j]) <= 0
  }

  /** Places `x` in front of the first cell it compares strictly less than. */
  function Insert(t: seq<Cell>, x: Cell): seq<Cell> {
    if t == [] then [x]
    else if Cmp(x, t[0]) < 0 then [x] + t
    else [t[0]] + Insert(t[1..], x)
  }

  /** `sorted(s)`. */
  function Sort(s: seq<Cell>): seq<Cell> {
    if s == [] then [] else Insert(Sort(s[..|s| - 1]), s[|s| - 1])
  }

  /** The cells of `s` at the same place as `k`, in the order they occur in `s`. */
  function Equivalents(s: seq<Cell>, k: Cell): seq<Cell> {
    if s == [] then [] else (if SameKey(s[0], k) then [s[0]] else []) + Equivalents(s[1..], k)
  }

  lemma {:induction false} EquivalentsAppend(s: seq<Cell>, t: seq<Cell>, k: Cell)
    ensures Equivalents(s + t, k) == Equivalents(s, k) + Equivalents(t, k)
  {
    if s != [] {
      EquivalentsAppend(s[1..], t, k);
      assert (s + t)[0] == s[0];
      assert (s + t)[1..] == s[1..] + t;
    } else {
      assert s + t == t;
    }
  }

  lemma {:induction false} InsertPermutes(t: seq<Cell>, x: Cell)
    ensures multiset(Insert(t, x)) == multiset(t) + multiset{x}
  {
    if t != [] && Cmp(x, t[0]) >= 0 {
      InsertPermutes(t[1..], x);
      assert t == [t[0]] + t[1..];
    }
  }

  lemma {:induction false} InsertSorted(t: seq<Cell>, x: Cell)
    requires Sorted(t)
    ensures Sorted(Insert(t, x))
  {
    if t == [] {
    } else if Cmp(x, t[0]) < 0 {
      var r := [x] + t;
      forall i, j | 0 <= i < j < |r| ensures Cmp(r[i], r[j]) <= 0 {
        if i == 0 && j > 1 {
          CmpTransitive(x, t[0], t[j - 1]);
        }
      }
    } else {
      var rest := Insert(t[1..], x);
      assert Sorted(t[1..]) by {
        forall i, j | 0 <= i < j < |t[1..]| ensures Cmp(t[1..][i], t[1..][j]) <= 0 {
          assert t[1..][i] == t[i + 1] && t[1..][j] == t[j + 1];
        }
      }
      InsertSorted(t[1..], x);
      HeadBeforeInsert(t, x);
      var r := [t[0]] + rest;
      forall i, j | 0 <= i < j < |r| ensures Cmp(r[i], r[j]) <= 0 {
        if i == 0 {
          assert r[j] == rest[j - 1];
        } else {
          assert r[i] == rest[i - 1] && r[j] == rest[j - 1];
        }
      }
    }
  }

  /** The head of a sorted list that `x` does not go before comes before everything the rest becomes. */
  lemma HeadBeforeInsert(t: seq<Cell>, x: Cell)
    requires Sorted(t) && t != [] && Cmp(x, t[0]) >= 0
    ensures forall y :: y in Insert(t[1..], x) ==> Cmp(t[0], y) <= 0
  {
    InsertPermutes(t[1..], x);
    forall y | y in Insert(t[1..], x) ensures Cmp(t[0], y) <= 0 {
      assert y in multiset(Insert(t[1..], x));
      if y == x {
        CmpAntisymmetric(x, t[0]);
      } else {
        assert y in t[1..];
        var k :| 0 <= k < |t[1..]| && t[1..][k] == y;
        assert Cmp(t[0], t[k + 1]) <= 0;
      }
    }
  }

  /** `x` is placed after every cell at its own place: equivalents stay in insertion order. */
  lemma {:induction false} InsertKeepsEquivalents(t: seq<Cell>, x: Cell, k: Cell)
    requires Sorted(t)
    ensures Equivalents(Insert(t, x), k) == Equivalents(t, k) + (if SameKey(x, k) then [x] else [])
  {
    if t == [] {
    } else if Cmp(x, t[0]) < 0 {
      if SameKey(x, k) {
        NoneEquivalentAfter(t, x, k);
      }
      assert Equivalents([x] + t, k) == (if SameKey(x, k) then [x] else []) + Equivalents(t, k) by {
        assert ([x] + t)[1..] == t;
      }
    } else {
      InsertKeepsEquivalents(t[1..], x, k);
      assert Equivalents([t[0]] + Insert(t[1..], x), k)
          == (if SameKey(t[0], k) then [t[0]] else []) + Equivalents(Insert(t[1..], x), k) by {
        assert ([t[0]] + Insert(t[1..], x))[1..] == Insert(t[1..], x);
      }
    }
  }

  /** When `x` sorts before the head of a sorted list, nothing in the list sits at x's place. */
  lemma {:induction false} NoneEquivalentAfter(t: seq<Cell>, x: Cell, k: Cell)
    requires Sorted(t) && t != [] && Cmp(x, t[0]) < 0 && SameKey(x, k)
    ensures Equivalents(t, k) == []
  {
    if |t| > 1 {
      CmpTransitive(x, t[0], t[1]);
      assert Sorted(t[1..]) by {
        forall i, j | 0 <= i < j < |t[1..]| ensures Cmp(t[1..][i], t[1..][j]) <= 0 {
          assert Cmp(t[i + 1], t[j + 1]) <= 0;
        }
      }
      NoneEquivalentAfter(t[1..], x, k);
    }
  }

  /** `sorted(s)` is ordered by `__cmp__`. */
  lemma {:induction false} SortSorted(s: seq<Cell>)
    ensures Sorted(Sort(s))
  {
    if s != [] {
      SortSorted(s[..|s| - 1]);
      InsertSorted(Sort(s[..|s| - 1]), s[|s| - 1]);
    }
  }

  /** `sorted(s)` is a permutation of `s`. */
  lemma {:induction false} SortPermutes(s: seq<Cell>)
    ensures multiset(Sort(s)) == multiset(s)
  {
    if s != [] {
      SortPermutes(s[..|s| - 1]);
      InsertPermutes(Sort(s[..|s| - 1]), s[|s| - 1]);
      assert s == s[..|s| - 1] + [s[|s| - 1]];
    }
  }

  /** `sorted(s)` is stable: the cells at any one place keep their relative order. */
  lemma {:induction false} SortStable(s: seq<Cell>, k: Cell)
    ensures Equivalents(Sort(s), k) == Equivalents(s, k)
  {
    if s != [] {
      var init, last := s[..|s| - 1], s[|s| - 1];
      SortStable(init, k);
      SortSorted(init);
      InsertKeepsEquivalents(Sort(init), last, k);
      assert s == init + [last];
      EquivalentsAppend(init, [last], k);
    }
  }
}
