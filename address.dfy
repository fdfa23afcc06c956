/**
 * The cell-address grammar a sheet lookup uses: the pattern `([a-zA-Z]*)(\d*)`
 * matched at the start of the key (Python 2 `re`, so `\d` is an ASCII digit),
 * and the three-way dispatch on which of its two groups are non-empty.
 */
module Address {
  import opened Python

  /** Length of the run of letters at the start of `s`. */
  function LetterRun(s: string): (n: nat)
    ensures n <= |s| && AllLetters(s[..n])
    ensures n == |s| || !IsLetter(s[n])
  {
    if s == [] || !IsLetter(s[0]) then 0
    else
      var k := LetterRun(s[1..]);
      assert s[..k + 1] == [s[0]] + s[1..][..k];
      k + 1
  }

  /** Length of the run of digits at the start of `s`. */
  function DigitRun(s: string): (n: nat)
    ensures n <= |s| && AllDigits(s[..n])
    ensures n == |s| || !IsDigit(s[n])
  {
    if s == [] || !IsDigit(s[0]) then 0
    else
      var k := DigitRun(s[1..]);
      assert s[..k + 1] == [s[0]] + s[1..][..k];
      k + 1
  }

  /**
   * The two groups of `([a-zA-Z]*)(\d*)` matched at the start of `key`: the
   * pattern can match the empty string, so the match never fails, and both
   * stars are greedy, so each group is the longest run it can take.
   */
  function SplitAddress(key: string): (r: (string, string))
    ensures AllLetters(r.0) && AllDigits(r.1)
    ensures r.0 + r.1 <= key
    ensures |r.0| == |key| || !IsLetter(key[|r.0|])
    ensures |r.0| + |r.1| == |key| || !IsDigit(key[|r.0| + |r.1|])
  {
    var n := LetterRun(key);
    var m := DigitRun(key[n..]);
    assert key[..n] + key[n..][..m] == key[..n + m];
    (key[..n], key[n..][..m])
  }

  /** The four properties of SplitAddress pin its result down: nothing else satisfies them. */
  lemma SplitAddressUnique(key: string, c: string, d: string)
    requires AllLetters(c) && AllDigits(d) && c + d <= key
    requires |c| == |key| || !IsLetter(key[|c|])
    requires |c| + |d| == |key| || !IsDigit(key[|c| + |d|])
    ensures SplitAddress(key) == (c, d)
  {
    var (c', d') := SplitAddress(key);
    assert forall i :: 0 <= i < |c| ==> key[i] == c[i] && IsLetter(key[i]) by {
      forall i | 0 <= i < |c| ensures key[i] == c[i] && IsLetter(key[i]) {
        assert key[i] == (c + d)[i];
      }
    }
    assert forall i :: 0 <= i < |c'| ==> key[i] == c'[i] && IsLetter(key[i]) by {
      forall i | 0 <= i < |c'| ensures key[i] == c'[i] && IsLetter(key[i]) {
        assert key[i] == (c' + d')[i];
      }
    }
    assert |c| == |c'|;
    assert c == key[..|c|] by {
      assert c == (c + d)[..|c|];
    }
    assert c' == key[..|c'|] by {
      assert c' == (c' + d')[..|c'|];
    }
    assert forall i :: |c| <= i < |c| + |d| ==> key[i] == d[i - |c|] && IsDigit(key[i]) by {
      forall i | |c| <= i < |c| + |d| ensures key[i] == d[i - |c|] && IsDigit(key[i]) {
        assert key[i] == (c + d)[i];
      }
    }
    assert forall i :: |c'| <= i < |c'| + |d'| ==> key[i] == d'[i - |c'|] && IsDigit(key[i]) by {
      forall i | |c'| <= i < |c'| + |d'| ensures key[i] == d'[i - |c'|] && IsDigit(key[i]) {
        assert key[i] == (c' + d')[i];
      }
    }
    assert |d| == |d'|;
    assert d == key[|c|..|c| + |d|] by {
      assert d == (c + d)[|c|..];
    }
    assert d' == key[|c'|..|c'| + |d'|] by {
      assert d' == (c' + d')[|c'|..];
    }
  }

  /**
   * Splitting a key made of letters `c`, then digits `d`, then anything that
   * cannot extend either run gives back `(c, d)`.
   */
  lemma SplitOfConcat(c: string, d: string, rest: string)
    requires AllLetters(c) && AllDigits(d)
    requires d != [] || rest == [] || !IsLetter(rest[0])
    requires rest == [] || !IsDigit(rest[0])
    ensures SplitAddress(c + d + rest) == (c, d)
  {
    var key := c + d + rest;
    assert c + d <= key;
    if |c| < |key| {
      if d == [] {
        assert key[|c|] == rest[0];
      } else {
        assert key[|c|] == d[0];
      }
    }
    if |c| + |d| < |key| {
      assert key[|c| + |d|] == rest[0];
    }
    SplitAddressUnique(key, c, d);
  }

  /** Which branch of a sheet lookup a key takes. */
  datatype Selector = CellSelector | ColumnSelector | RowSelector | NoSelector

  /** `if column and row` / `if column` / `if row` / fall through, on the groups of SplitAddress. */
  function SelectorOf(key: string): (s: Selector)
    ensures s == NoSelector <==> key == [] || (!IsLetter(key[0]) && !IsDigit(key[0]))
    ensures s == RowSelector <==> key != [] && IsDigit(key[0])
    ensures s == CellSelector <==> key != [] && IsLetter(key[0]) && LetterRun(key) < |key| && IsDigit(key[LetterRun(key)])
    ensures s == ColumnSelector <==> key != [] && IsLetter(key[0]) && (LetterRun(key) == |key| || !IsDigit(key[LetterRun(key)]))
  {
    var (column, row) := SplitAddress(key);
    if column != [] && row != [] then CellSelector
    else if column != [] then ColumnSelector
    else if row != [] then RowSelector
    else NoSelector
  }

  /** The selector of a key built from a letter run and a digit run. */
  lemma SelectorOfShape(c: string, d: string)
    requires AllLetters(c) && AllDigits(d)
    ensures c != [] && d != [] ==> SelectorOf(c + d) == CellSelector
    ensures c != [] && d == [] ==> SelectorOf(c + d) == ColumnSelector
    ensures c == [] && d != [] ==> SelectorOf(c + d) == RowSelector
    ensures c == [] && d == [] ==> SelectorOf(c + d) == NoSelector
  {
    SplitOfConcat(c, d, []);
    assert c + d + [] == c + d;
  }
}
