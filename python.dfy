/**
 * The fragments of Python 2 semantics the reader relies on: the exceptions it can
 * raise, `int(s)` and `str(i)` on integers, slicing `s[:k]` and `s[k:]`, list
 * indexing with negative indices, and the ordering `<` on strings.
 */
module Python {
  import opened Wrappers

  /** The exceptions the reader can raise; DateError stands for whatever the date converter raises. */
  datatype PyError = KeyError | IndexError | AttributeError | TypeError | ValueError | DateError

  predicate IsDigit(c: char) {
    '0' <= c <= '9'
  }

  predicate IsLetter(c: char) {
    'a' <= c <= 'z' || 'A' <= c <= 'Z'
  }

  predicate AllDigits(s: string) {
    forall i :: 0 <= i < |s| ==> IsDigit(s[i])
  }

  predicate AllLetters(s: string) {
    forall i :: 0 <= i < |s| ==> IsLetter(s[i])
  }

  function DigitChar(d: nat): (c: char)
    requires d < 10
    ensures IsDigit(c) && c as int - '0' as int == d
  {
    ('0' as int + d) as char
  }

  /** Decimal notation of a natural number, without leading zeros. */
  function NatToString(n: nat): (s: string)
    ensures |s| > 0 && AllDigits(s)
    ensures n < 10 <==> |s| == 1
  {
    if n < 10 then [DigitChar(n)] else NatToString(n / 10) + [DigitChar(n % 10)]
  }

  /** The number a run of decimal digits denotes. */
  function DigitsValue(s: string): nat
    requires AllDigits(s)
  {
    if s == [] then 0 else DigitsValue(s[..|s| - 1]) * 10 + (s[|s| - 1] as int - '0' as int)
  }

  lemma {:induction false} DigitsValueOfNatToString(n: nat)
    ensures DigitsValue(NatToString(n)) == n
  {
    if n >= 10 {
      DigitsValueOfNatToString(n / 10);
      var s := NatToString(n);
      assert s[..|s| - 1] == NatToString(n / 10);
    }
  }

  /** `str(i)` for an integer. */
  function IntToString(i: int): (s: string)
    ensures |s| > 0
    ensures i >= 0 ==> AllDigits(s)
    ensures i < 0 ==> s[0] == '-' && |s| >= 2 && AllDigits(s[1..])
  {
    if i < 0 then "-" + NatToString(-i) else NatToString(i)
  }

  /** A non-empty run of decimal digits. */
  predicate IsNumeral(s: string) {
    s != [] && AllDigits(s)
  }

  /**
   * `int(s)`: an optional sign followed by at least one decimal digit; anything
   * else raises ValueError.
   */
  function ParseInt(s: string): (r: Result<int, PyError>)
    ensures r.Success? <==> IsNumeral(s) || (|s| > 0 && (s[0] == '-' || s[0] == '+') && IsNumeral(s[1..]))
    ensures r.Failure? ==> r.error == ValueError
    ensures IsNumeral(s) ==> r == Success(DigitsValue(s))
    ensures |s| > 0 && s[0] == '-' && IsNumeral(s[1..]) ==> r == Success(-(DigitsValue(s[1..]) as int))
    ensures |s| > 0 && s[0] == '+' && IsNumeral(s[1..]) ==> r == Success(DigitsValue(s[1..]))
  {
    if |s| > 0 && (s[0] == '-' || s[0] == '+') then
      if IsNumeral(s[1..]) then
        Success(if s[0] == '-' then -(DigitsValue(s[1..]) as int) else DigitsValue(s[1..]))
      else Failure(ValueError)
    else if IsNumeral(s) then Success(DigitsValue(s))
    else Failure(ValueError)
  }

  /** `int(str(i)) == i`. */
  lemma ParseIntOfIntToString(i: int)
    ensures ParseInt(IntToString(i)) == Success(i)
  {
    if i < 0 {
      var t := NatToString(-i);
      DigitsValueOfNatToString(-i);
      assert IntToString(i) == "-" + t;
      assert ("-" + t)[1..] == t;
    } else {
      DigitsValueOfNatToString(i);
    }
  }

  /** `s[:k]`: a negative bound counts from the end, bounds past either end are clamped. */
  function SliceTo(s: string, k: int): (r: string)
    ensures r <= s
    ensures 0 <= k <= |s| ==> |r| == k
    ensures k > |s| ==> r == s
    ensures k < 0 && |s| + k >= 0 ==> |r| == |s| + k
    ensures |s| + k < 0 ==> r == []
  {
    if k >= |s| then s
    else if k >= 0 then s[..k]
    else if |s| + k >= 0 then s[..|s| + k]
    else []
  }

  /** `s[k:]`, with the same clamping rules as SliceTo. */
  function SliceFrom(s: string, k: int): (r: string)
    ensures 0 <= k <= |s| ==> r == s[k..]
    ensures k > |s| ==> r == []
    ensures k < 0 ==> r == s[if |s| + k >= 0 then |s| + k else 0..]
    ensures s == SliceTo(s, k) + r
  {
    if k >= |s| then []
    else if k >= 0 then s[k..]
    else if |s| + k >= 0 then s[|s| + k..]
    else s
  }

  /** `xs[i]` on a list: negative indices count from the end, anything else raises IndexError. */
  function ListIndex<T>(xs: seq<T>, i: int): (r: Result<T, PyError>)
    ensures r.Success? <==> -|xs| <= i < |xs|
    ensures 0 <= i < |xs| ==> r == Success(xs[i])
    ensures -|xs| <= i < 0 ==> r == Success(xs[|xs| + i])
    ensures r.Failure? ==> r.error == IndexError
  {
    if 0 <= i < |xs| then Success(xs[i])
    else if -|xs| <= i < 0 then Success(xs[|xs| + i])
    else Failure(IndexError)
  }

  /** Python's `a < b` on strings: lexicographic by code point, a proper prefix comes first. */
  predicate LexLess(a: string, b: string) {
    if b == [] then false
    else if a == [] then true
    else if a[0] != b[0] then a[0] < b[0]
    else LexLess(a[1..], b[1..])
  }

  lemma {:induction false} LexIrreflexive(a: string)
    ensures !LexLess(a, a)
  {
    if a != [] {
      LexIrreflexive(a[1..]);
    }
  }

  lemma {:induction false} LexAsymmetric(a: string, b: string)
    ensures !(LexLess(a, b) && LexLess(b, a))
  {
    if a != [] && b != [] && a[0] == b[0] {
      LexAsymmetric(a[1..], b[1..]);
    }
  }

  lemma {:induction false} LexTransitive(a: string, b: string, c: string)
    requires LexLess(a, b) && LexLess(b, c)
    ensures LexLess(a, c)
  {
    if a != [] && a[0] == b[0] && b[0] == c[0] {
      LexTransitive(a[1..], b[1..], c[1..]);
    }
  }

  lemma {:induction false} LexTotal(a: string, b: string)
    ensures a == b || LexLess(a, b) || LexLess(b, a)
  {
    if a != [] && b != [] && a[0] == b[0] {
      LexTotal(a[1..], b[1..]);
      if a[1..] == b[1..] {
        assert a == [a[0]] + a[1..] && b == [b[0]] + b[1..];
      }
    }
  }
}
