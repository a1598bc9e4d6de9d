// Shared vocabulary: optional values, decimal digit strings, whitespace sets,
// integer and decimal parsing, and sums of reals.

module Common {

  datatype Option<T> = None | Some(value: T)

  /** `rank if rank else 999`: a missing rank and a rank of 0 both count as 999. */
  function RankOr999(r: Option<int>): int
  {
    if r.Some? && r.value != 0 then r.value else 999
  }

  // ---------------------------------------------------------------------------
  // Digits and decimal strings
  // ---------------------------------------------------------------------------

  predicate IsAsciiDigit(c: char)
  {
    '0' <= c <= '9'
  }

  function DigitValue(c: char): nat
    requires IsAsciiDigit(c)
  {
    (c as int) - ('0' as int)
  }

  function DigitChar(d: nat): (c: char)
    requires d < 10
    ensures IsAsciiDigit(c) && DigitValue(c) == d
  {
    (('0' as int) + d) as char
  }

  /** Every character is an ASCII digit (the empty string included). */
  predicate AllDigits(s: string)
  {
    forall i :: 0 <= i < |s| ==> IsAsciiDigit(s[i])
  }

  /** Python's `str.isdigit()` restricted to ASCII: non-empty and all digits. */
  predicate IsDigitString(s: string)
  {
    |s| > 0 && AllDigits(s)
  }

  /** The value of a digit string read in base ten (0 for the empty string). */
  function DigitsValue(s: string): nat
    requires AllDigits(s)
  {
    if |s| == 0 then 0 else DigitsValue(s[..|s| - 1]) * 10 + DigitValue(s[|s| - 1])
  }

  function Pow10(n: nat): (r: nat)
    ensures r >= 1
  {
    if n == 0 then 1 else 10 * Pow10(n - 1)
  }

  /** Decimal rendering of a natural number, without leading zeros. */
  function NatToString(n: nat): (s: string)
    ensures IsDigitString(s)
  {
    if n < 10 then [DigitChar(n)] else NatToString(n / 10) + [DigitChar(n % 10)]
  }

  /** Decimal rendering of an integer, as Python's `str(int)` and .NET's `long.ToString()` give it. */
  function IntToString(i: int): string
  {
    if i < 0 then "-" + NatToString(-i) else NatToString(i)
  }

  lemma {:induction false} NatToStringValue(n: nat)
    ensures DigitsValue(NatToString(n)) == n
  {
    if n >= 10 {
      var s := NatToString(n);
      var p := NatToString(n / 10);
      assert s[..|s| - 1] == p;
      NatToStringValue(n / 10);
    }
  }

  // ---------------------------------------------------------------------------
  // Whitespace
  // ---------------------------------------------------------------------------

  /** .NET `char.IsWhiteSpace` over the Basic Multilingual Plane. */
  predicate IsNetWhiteSpace(c: char)
  {
    ('\U{0009}' <= c <= '\U{000D}') || c == ' ' || c == '\U{0085}' || c == '\U{00A0}'
    || c == '\U{1680}' || ('\U{2000}' <= c <= '\U{200A}') || c == '\U{2028}' || c == '\U{2029}'
    || c == '\U{202F}' || c == '\U{205F}' || c == '\U{3000}'
  }

  /** Python's `str.isspace` for one character: the .NET set plus U+001C..U+001F. */
  predicate IsPyWhiteSpace(c: char)
  {
    IsNetWhiteSpace(c) || ('\U{001C}' <= c <= '\U{001F}')
  }

  /** Drops the leading .NET whitespace. */
  function TrimStartNet(s: string): (r: string)
    ensures |r| <= |s| && r == s[|s| - |r|..]
    ensures |r| > 0 ==> !IsNetWhiteSpace(r[0])
  {
    if |s| > 0 && IsNetWhiteSpace(s[0]) then TrimStartNet(s[1..]) else s
  }

  function TrimEndNet(s: string): (r: string)
    ensures |r| <= |s| && r == s[..|r|]
    ensures |r| > 0 ==> !IsNetWhiteSpace(r[|r| - 1])
  {
    if |s| > 0 && IsNetWhiteSpace(s[|s| - 1]) then TrimEndNet(s[..|s| - 1]) else s
  }

  /** .NET `string.Trim()`. */
  function TrimNet(s: string): string
  {
    TrimEndNet(TrimStartNet(s))
  }

  function StripStartPy(s: string): (r: string)
    ensures |r| <= |s| && r == s[|s| - |r|..]
    ensures |r| > 0 ==> !IsPyWhiteSpace(r[0])
  {
    if |s| > 0 && IsPyWhiteSpace(s[0]) then StripStartPy(s[1..]) else s
  }

  function StripEndPy(s: string): (r: string)
    ensures |r| <= |s| && r == s[..|r|]
    ensures |r| > 0 ==> !IsPyWhiteSpace(r[|r| - 1])
  {
    if |s| > 0 && IsPyWhiteSpace(s[|s| - 1]) then StripEndPy(s[..|s| - 1]) else s
  }

  /** Text with no whitespace at either end is its own .NET `Trim()`. */
  lemma TrimUnchanged(s: string)
    requires |s| > 0 ==> !IsNetWhiteSpace(s[0]) && !IsNetWhiteSpace(s[|s| - 1])
    ensures TrimNet(s) == s
  {
  }

  /** Python's `str.strip()` with no argument. */
  function StripPy(s: string): string
  {
    StripEndPy(StripStartPy(s))
  }

  /** .NET `string.IsNullOrWhiteSpace` (null identified with ""). */
  predicate IsNullOrWhiteSpace(s: string)
  {
    forall i :: 0 <= i < |s| ==> IsNetWhiteSpace(s[i])
  }

  // ---------------------------------------------------------------------------
  // Number parsing
  // ---------------------------------------------------------------------------

  /** An optional '+' or '-' followed by one or more ASCII digits; nothing else. */
  function ParseSignedDigits(s: string): (r: Option<int>)
    ensures r.Some? ==> |s| > 0
  {
    if |s| > 0 && s[0] == '-' && IsDigitString(s[1..]) then Some(-(DigitsValue(s[1..]) as int))
    else if |s| > 0 && s[0] == '+' && IsDigitString(s[1..]) then Some(DigitsValue(s[1..]))
    else if IsDigitString(s) then Some(DigitsValue(s))
    else None
  }

  lemma SignedDigitsRoundTrip(i: int)
    ensures ParseSignedDigits(IntToString(i)) == Some(i)
  {
    var s := IntToString(i);
    if i < 0 {
      var digits := NatToString(-i);
      assert s == "-" + digits && s[0] == '-';
      assert s[1..] == digits;
      NatToStringValue(-i);
      assert ParseSignedDigits(s) == Some(-(DigitsValue(digits) as int));
    } else {
      NatToStringValue(i);
      assert IsAsciiDigit(s[0]);
      assert ParseSignedDigits(s) == Some(DigitsValue(s));
    }
  }

  /** Text without whitespace at either end is left alone by `strip()`. */
  lemma StripUnchanged(s: string)
    requires |s| > 0 ==> !IsPyWhiteSpace(s[0]) && !IsPyWhiteSpace(s[|s| - 1])
    ensures StripPy(s) == s
  {
  }

  /** A decimal rendering has no surrounding whitespace for `strip()` to remove. */
  lemma StripDigits(s: string)
    requires IsDigitString(s)
    ensures StripPy(s) == s
  {
    assert !IsPyWhiteSpace(s[0]) && !IsPyWhiteSpace(s[|s| - 1]);
  }

  /** Python's `int(text)` on a string: surrounding whitespace, a sign, ASCII digits. */
  function PyInt(s: string): Option<int>
  {
    ParseSignedDigits(StripPy(s))
  }

  /** `int(str(n))` gives back `n`. */
  lemma PyIntOfDigits(s: string)
    requires IsDigitString(s)
    ensures PyInt(s) == Some(DigitsValue(s) as int)
  {
    assert IsAsciiDigit(s[0]);
    assert ParseSignedDigits(s) == Some(DigitsValue(s) as int);
    StripDigits(s);
  }

  /** Index of the first occurrence of `c`, or `|s|` when absent. */
  function IndexOf(s: string, c: char): (k: nat)
    ensures k <= |s|
    ensures k < |s| ==> s[k] == c
    ensures forall i :: 0 <= i < k ==> s[i] != c
  {
    if |s| == 0 then 0 else if s[0] == c then 0 else 1 + IndexOf(s[1..], c)
  }

  /**
   * Unsigned decimal numeral: digits, optionally a '.' and more digits, with at
   * least one digit in total ("12", "12.5", "12.", ".5").
   */
  function ParseUnsignedDecimal(s: string): (r: Option<real>)
    ensures r.Some? ==> r.value >= 0.0
  {
    var k := IndexOf(s, '.');
    if k == |s| then
      if IsDigitString(s) then Some(DigitsValue(s) as real) else None
    else
      var a := s[..k];
      var b := s[k + 1..];
      if AllDigits(a) && AllDigits(b) && |a| + |b| > 0 then
        Some(DigitsValue(a) as real + (DigitsValue(b) as real) / (Pow10(|b|) as real))
      else None
  }

  /**
   * A decimal numeral with an optional sign: the forms `float()` and
   * `float.TryParse` share that this model reads. Exponents, digit
   * separators, infinity and NaN are not among them.
   */
  function ParseSignedDecimal(s: string): (r: Option<real>)
  {
    var negative := |s| > 0 && s[0] == '-';
    var signed := negative || (|s| > 0 && s[0] == '+');
    match ParseUnsignedDecimal(if signed then s[1..] else s)
    case Some(v) => Some(if negative then -v else v)
    case None => None
  }

  lemma DecimalOfNat(n: nat)
    ensures ParseSignedDecimal(NatToString(n)) == Some(n as real)
  {
    NatToStringValue(n);
  }

  /** Python's `float(text)` on a string. */
  function PyFloat(s: string): Option<real>
  {
    ParseSignedDecimal(StripPy(s))
  }

  // ---------------------------------------------------------------------------
  // Sums
  // ---------------------------------------------------------------------------

  function Sum(xs: seq<real>): real
  {
    if |xs| == 0 then 0.0 else Sum(xs[..|xs| - 1]) + xs[|xs| - 1]
  }

  lemma {:induction false} SumBounds(xs: seq<real>, lo: real, hi: real)
    requires forall i :: 0 <= i < |xs| ==> lo <= xs[i] <= hi
    ensures (|xs| as real) * lo <= Sum(xs) <= (|xs| as real) * hi
  {
    if |xs| > 0 {
      SumBounds(xs[..|xs| - 1], lo, hi);
    }
  }

  lemma {:induction false} SumAtLeast(xs: seq<real>, lo: real)
    requires forall i :: 0 <= i < |xs| ==> lo <= xs[i]
    ensures (|xs| as real) * lo <= Sum(xs)
  {
    if |xs| > 0 {
      SumAtLeast(xs[..|xs| - 1], lo);
    }
  }

  /** The mean of `xs`, 0 for none. */
  function Mean(xs: seq<real>): real
  {
    if |xs| == 0 then 0.0 else Sum(xs) / |xs| as real
  }

  /** A mean lies between any lower and upper bound of the values. */
  lemma MeanBounded(xs: seq<real>, lo: real, hi: real)
    requires |xs| > 0
    requires forall i :: 0 <= i < |xs| ==> lo <= xs[i] <= hi
    ensures lo <= Mean(xs) <= hi
  {
    var n := |xs| as real;
    SumBounds(xs, lo, hi);
    var s := Sum(xs);
    assert s / n >= lo by {
      assert s - n * lo >= 0.0;
    }
    assert s / n <= hi by {
      assert n * hi - s >= 0.0;
    }
  }

  /** The smallest of a non-empty sequence. */
  function SeqMin(xs: seq<real>): (r: real)
    requires |xs| > 0
    ensures r in xs && forall i :: 0 <= i < |xs| ==> r <= xs[i]
  {
    if |xs| == 1 then xs[0]
    else
      var m := SeqMin(xs[..|xs| - 1]);
      assert forall i :: 0 <= i < |xs| - 1 ==> xs[..|xs| - 1][i] == xs[i];
      if xs[|xs| - 1] < m then xs[|xs| - 1] else m
  }

  /** The largest of a non-empty sequence. */
  function SeqMax(xs: seq<real>): (r: real)
    requires |xs| > 0
    ensures r in xs && forall i :: 0 <= i < |xs| ==> xs[i] <= r
  {
    if |xs| == 1 then xs[0]
    else
      var m := SeqMax(xs[..|xs| - 1]);
      assert forall i :: 0 <= i < |xs| - 1 ==> xs[..|xs| - 1][i] == xs[i];
      if xs[|xs| - 1] > m then xs[|xs| - 1] else m
  }

  // ---------------------------------------------------------------------------
  // Single-precision range and bounded buffers
  // ---------------------------------------------------------------------------

  /** `float.MaxValue`; `float.MinValue` is its negation. */
  const FloatMax: real := 340282346638528859811704183484516925440.0

  /** A finite single-precision value lies in [float.MinValue, float.MaxValue]. */
  predicate IsFloat(x: real)
  {
    -FloatMax <= x <= FloatMax
  }

  /** The limit a trimmed buffer settles at: a negative limit keeps nothing. */
  function Capacity(limit: int): nat
  {
    if limit < 0 then 0 else limit
  }

  /** The last `n` elements of `s`, or all of `s` when it is shorter. */
  function LastN<T>(s: seq<T>, n: nat): (r: seq<T>)
    ensures |r| == if |s| <= n then |s| else n
  {
    if |s| <= n then s else s[|s| - n..]
  }

  /** Keeping the last n, adding more and keeping the last n again is keeping the last n of everything. */
  lemma LastNAppend<T>(s: seq<T>, more: seq<T>, n: nat)
    ensures LastN(LastN(s, n) + more, n) == LastN(s + more, n)
  {
    if |s| > n && |more| > 0 {
      var w := s[|s| - n..];
      var all := s + more;
      var left := LastN(w + more, n);
      var right := LastN(all, n);
      assert left == (w + more)[|more|..];
      assert right == all[|s| + |more| - n..];
      forall i | 0 <= i < n
        ensures left[i] == right[i]
      {
        if |more| + i < n {
          assert left[i] == w[|more| + i] == s[|s| - n + |more| + i];
        } else {
          assert left[i] == more[|more| + i - n];
        }
      }
    } else if |s| > n {
      assert s + more == s;
      assert LastN(s, n) + more == LastN(s, n);
    }
  }

  /** One field of each record, read record by record. */
  method Column<T>(items: seq<T>, f: T -> real) returns (values: seq<real>)
    ensures |values| == |items|
    ensures forall i :: 0 <= i < |items| ==> values[i] == f(items[i])
  {
    values := [];
    for k := 0 to |items|
      invariant |values| == k
      invariant forall i :: 0 <= i < k ==> values[i] == f(items[i])
    {
      values := values + [f(items[k])];
    }
  }

  /** The first `i` in [lo, hi) satisfying `p`, scanning upward. */
  function FirstWhere(lo: int, hi: int, p: int -> bool): (r: Option<int>)
    ensures r.Some? ==> lo <= r.value < hi && p(r.value) && forall i :: lo <= i < r.value ==> !p(i)
    ensures r.None? ==> forall i :: lo <= i < hi ==> !p(i)
    decreases hi - lo
  {
    if lo >= hi then None else if p(lo) then Some(lo) else FirstWhere(lo + 1, hi, p)
  }

  function Min(a: int, b: int): int { if a <= b then a else b }
  function Max(a: int, b: int): int { if a >= b then a else b }

  /** Python's `seq[:n]` for an integer `n` (negative counts from the end). */
  function PySliceTo<T>(s: seq<T>, n: int): (r: seq<T>)
    ensures |r| <= |s| && r == s[..|r|]
    ensures n >= 0 ==> |r| == Min(n, |s|)
  {
    if n >= 0 then s[..Min(n, |s|)] else s[..Max(0, |s| + n)]
  }

  // ---------------------------------------------------------------------------
  // Order-keeping filters
  // ---------------------------------------------------------------------------

  /** The elements of `s` satisfying `keep`, in their original order (a list comprehension). */
  function Filter<T>(s: seq<T>, keep: T -> bool): (r: seq<T>)
    ensures |r| <= |s|
    ensures forall x :: x in r ==> x in s && keep(x)
  {
    if |s| == 0 then [] else Filter(s[..|s| - 1], keep) + (if keep(s[|s| - 1]) then [s[|s| - 1]] else [])
  }

  /** A prefix one longer is the prefix followed by the next element. */
  lemma PrefixSnoc<T>(s: seq<T>, k: nat)
    requires k < |s|
    ensures s[..k + 1] == s[..k] + [s[k]]
  {
  }

  /** A slice one longer is the slice followed by the next element. */
  lemma SliceSnoc<T>(s: seq<T>, lo: nat, hi: nat)
    requires lo <= hi < |s|
    ensures s[lo..hi + 1] == s[lo..hi] + [s[hi]]
  {
  }

  lemma AppendAssoc<T>(a: seq<T>, b: seq<T>, c: seq<T>)
    ensures (a + b) + c == a + (b + c)
  {
  }

  lemma {:induction false} FilterAppend<T>(a: seq<T>, b: seq<T>, keep: T -> bool)
    ensures Filter(a + b, keep) == Filter(a, keep) + Filter(b, keep)
  {
    if |b| == 0 {
      assert a + b == a;
    } else {
      var init := b[..|b| - 1];
      var x := b[|b| - 1];
      assert a + b == (a + init) + [x];
      assert (a + b)[..|a + b| - 1] == a + init;
      FilterAppend(a, init, keep);
      assert b[..|b| - 1] == init;
      AppendAssoc(Filter(a, keep), Filter(init, keep), if keep(x) then [x] else []);
    }
  }

  lemma {:induction false} FilterMembers<T>(s: seq<T>, keep: T -> bool)
    ensures forall x :: x in Filter(s, keep) <==> x in s && keep(x)
  {
    if |s| > 0 {
      FilterMembers(s[..|s| - 1], keep);
      assert s == s[..|s| - 1] + [s[|s| - 1]];
    }
  }

  lemma FilterSnoc<T>(a: seq<T>, x: T, keep: T -> bool)
    ensures Filter(a + [x], keep) == Filter(a, keep) + (if keep(x) then [x] else [])
  {
    assert (a + [x])[..|a|] == a;
  }

  /** The values `f` gives on the elements of `s`, in order, skipping the elements it gives none for. */
  function FilterMap<T, U>(s: seq<T>, f: T -> Option<U>): (r: seq<U>)
    ensures |r| <= |s|
  {
    if |s| == 0 then []
    else
      var last := f(s[|s| - 1]);
      FilterMap(s[..|s| - 1], f) + (if last.Some? then [last.value] else [])
  }

  lemma FilterMapSnoc<T, U>(s: seq<T>, x: T, f: T -> Option<U>)
    ensures FilterMap(s + [x], f) == FilterMap(s, f) + (if f(x).Some? then [f(x).value] else [])
  {
    assert (s + [x])[..|s|] == s;
  }

  /** Three elements that each have a value give those three values, in order. */
  lemma FilterMapThree<T, U>(x1: T, x2: T, x3: T, f: T -> Option<U>, d1: U, d2: U, d3: U)
    requires f(x1) == Some(d1) && f(x2) == Some(d2) && f(x3) == Some(d3)
    ensures FilterMap([x1, x2, x3], f) == [d1, d2, d3]
  {
    FilterMapSnoc([], x1, f);
    assert [] + [x1] == [x1];
    FilterMapSnoc([x1], x2, f);
    assert [x1] + [x2] == [x1, x2];
    FilterMapSnoc([x1, x2], x3, f);
    assert [x1, x2] + [x3] == [x1, x2, x3];
  }

  /** Each value comes from some element. */
  lemma {:induction false} FilterMapFrom<T, U>(s: seq<T>, f: T -> Option<U>)
    ensures forall y :: y in FilterMap(s, f) ==> exists i :: 0 <= i < |s| && f(s[i]) == Some(y)
  {
    if |s| > 0 {
      var n := |s| - 1;
      var init := s[..n];
      FilterMapFrom(init, f);
      forall y | y in FilterMap(s, f)
        ensures exists i :: 0 <= i < |s| && f(s[i]) == Some(y)
      {
        if y in FilterMap(init, f) {
          var i :| 0 <= i < |init| && f(init[i]) == Some(y);
          assert s[i] == init[i];
        } else {
          assert f(s[n]) == Some(y);
        }
      }
    }
  }

  /** Each element with a value contributes it. */
  lemma {:induction false} FilterMapTo<T, U>(s: seq<T>, f: T -> Option<U>)
    ensures forall i :: 0 <= i < |s| && f(s[i]).Some? ==> f(s[i]).value in FilterMap(s, f)
  {
    if |s| > 0 {
      var n := |s| - 1;
      var init := s[..n];
      FilterMapTo(init, f);
      forall i | 0 <= i < n && f(s[i]).Some?
        ensures f(s[i]).value in FilterMap(s, f)
      {
        assert init[i] == s[i];
      }
    }
  }

  lemma FilterMapMembers<T, U>(s: seq<T>, f: T -> Option<U>)
    ensures forall y :: y in FilterMap(s, f) <==> exists i :: 0 <= i < |s| && f(s[i]) == Some(y)
  {
    FilterMapFrom(s, f);
    FilterMapTo(s, f);
  }

  /** Filtering twice keeps what filtering once keeps. */
  lemma {:induction false} FilterIdempotent<T>(s: seq<T>, keep: T -> bool)
    ensures Filter(Filter(s, keep), keep) == Filter(s, keep)
  {
    if |s| > 0 {
      var init := s[..|s| - 1];
      FilterIdempotent(init, keep);
      var x := s[|s| - 1];
      FilterAppend(Filter(init, keep), if keep(x) then [x] else [], keep);
      if keep(x) {
        assert Filter([x], keep) == Filter([], keep) + [x];
      }
    }
  }

  // ---------------------------------------------------------------------------
  // Splitting on a separator
  // ---------------------------------------------------------------------------

  /** `s.split(c)` in Python and `s.Split(c)` in .NET: empty pieces are kept. */
  function Split(s: string, c: char): (parts: seq<string>)
    ensures |parts| >= 1
    ensures c in s <==> |parts| >= 2
    ensures forall i :: 0 <= i < |parts| ==> c !in parts[i]
    decreases |s|
  {
    var k := IndexOf(s, c);
    if k == |s| then [s] else [s[..k]] + Split(s[k + 1..], c)
  }

  function Join(parts: seq<string>, c: char): string
    requires |parts| >= 1
  {
    if |parts| == 1 then parts[0] else parts[0] + [c] + Join(parts[1..], c)
  }

  /** Joining the pieces with the separator gives back the text. */
  lemma {:induction false} SplitJoin(s: string, c: char)
    ensures Join(Split(s, c), c) == s
    decreases |s|
  {
    var k := IndexOf(s, c);
    if k < |s| {
      SplitJoin(s[k + 1..], c);
      assert s == s[..k] + [c] + s[k + 1..];
    }
  }

  /** Splitting at a first separator. */
  lemma SplitCons(a: string, c: char, rest: string)
    requires c !in a
    ensures Split(a + [c] + rest, c) == [a] + Split(rest, c)
  {
    var s := a + [c] + rest;
    var k := IndexOf(s, c);
    assert s[|a|] == c;
    assert forall i :: 0 <= i < |a| ==> s[i] == a[i] && a[i] in a;
    assert k == |a|;
    assert s[..k] == a && s[k + 1..] == rest;
  }

  /** Splitting pieces joined with a separator they do not contain gives the pieces back. */
  lemma {:induction false} JoinSplit(parts: seq<string>, c: char)
    requires |parts| >= 1
    requires forall i :: 0 <= i < |parts| ==> c !in parts[i]
    ensures Split(Join(parts, c), c) == parts
    decreases |parts|
  {
    if |parts| == 1 {
      SplitWithout(parts[0], c);
    } else {
      SplitCons(parts[0], c, Join(parts[1..], c));
      JoinSplit(parts[1..], c);
      assert parts == [parts[0]] + parts[1..];
    }
  }

  /** Splitting at a last separator. */
  lemma {:induction false} SplitSnoc(a: string, c: char, rest: string)
    requires c !in rest
    ensures Split(a + [c] + rest, c) == Split(a, c) + [rest]
    decreases |a|
  {
    var k := IndexOf(a, c);
    if k == |a| {
      SplitCons(a, c, rest);
      SplitWithout(rest, c);
      SplitWithout(a, c);
    } else {
      var x := a[..k];
      var y := a[k + 1..];
      assert a == x + [c] + y;
      assert c !in x by {
        assert forall i :: 0 <= i < |x| ==> x[i] == a[i];
      }
      assert a + [c] + rest == x + [c] + (y + [c] + rest);
      SplitCons(x, c, y + [c] + rest);
      SplitSnoc(y, c, rest);
      SplitCons(x, c, y);
    }
  }

  /** Text without the separator is one piece. */
  lemma SplitWithout(s: string, c: char)
    requires c !in s
    ensures Split(s, c) == [s]
  {
  }

  // ---------------------------------------------------------------------------
  // Substrings
  // ---------------------------------------------------------------------------

  /** Python's `t in s` on strings: `t` occurs in `s` as a contiguous piece. */
  predicate Contains(s: string, t: string)
    decreases |s|
  {
    t <= s || (|s| > 0 && Contains(s[1..], t))
  }

  /** `t` sits in `s` starting at offset `i`. */
  predicate OccursAt(s: string, t: string, i: int)
  {
    0 <= i <= |s| - |t| && s[i..i + |t|] == t
  }

  /** `Contains` holds exactly when `t` sits at some offset of `s`. */
  lemma ContainsAt(s: string, t: string)
    ensures Contains(s, t) <==> exists i :: OccursAt(s, t, i)
  {
    if Contains(s, t) {
      var i := ContainsOffset(s, t);
    }
    if exists i :: OccursAt(s, t, i) {
      var i :| OccursAt(s, t, i);
      OccursContains(s, t, i);
    }
  }

  /** An offset at which a contained `t` sits. */
  lemma {:induction false} ContainsOffset(s: string, t: string) returns (i: int)
    requires Contains(s, t)
    ensures OccursAt(s, t, i)
    decreases |s|
  {
    if t <= s {
      i := 0;
    } else {
      var j := ContainsOffset(s[1..], t);
      i := j + 1;
      TailSlice(s, j, |t|);
    }
  }

  /** A slice of the tail is the slice of `s` one further on. */
  lemma TailSlice<T>(s: seq<T>, j: nat, n: nat)
    requires 0 < |s| && j + n <= |s| - 1
    ensures s[1..][j..j + n] == s[j + 1..j + 1 + n]
  {
  }

  /** A `t` sitting at any offset of `s` is contained in it. */
  lemma {:induction false} OccursContains(s: string, t: string, i: int)
    requires OccursAt(s, t, i)
    ensures Contains(s, t)
    decreases i
  {
    if i == 0 {
      assert t <= s;
    } else {
      TailSlice(s, i - 1, |t|);
      OccursContains(s[1..], t, i - 1);
    }
  }

  // ---------------------------------------------------------------------------
  // Lists without duplicates, `List.Remove`, `Mathf.Clamp`
  // ---------------------------------------------------------------------------

  predicate Distinct<T(==)>(s: seq<T>)
  {
    forall i, j :: 0 <= i < j < |s| ==> s[i] != s[j]
  }

  /** The index of the first occurrence of `x`. */
  function FirstIndex<T(==)>(s: seq<T>, x: T): (k: nat)
    requires x in s
    ensures k < |s| && s[k] == x
    ensures forall i :: 0 <= i < k ==> s[i] != x
  {
    if s[0] == x then 0 else 1 + FirstIndex(s[1..], x)
  }

  /** `List.Remove(x)`: the first occurrence of `x` goes; a list without `x` stays as it is. */
  function RemoveFirst<T(==)>(s: seq<T>, x: T): (r: seq<T>)
    ensures x !in s ==> r == s
    ensures x in s ==> |r| == |s| - 1 && multiset(r) == multiset(s) - multiset{x}
  {
    if x !in s then s
    else
      var k := FirstIndex(s, x);
      assert s == s[..k] + [x] + s[k + 1..];
      s[..k] + s[k + 1..]
  }

  /** Appending an element that is not yet present keeps a list free of duplicates. */
  lemma DistinctAppend<T>(s: seq<T>, x: T)
    requires Distinct(s) && x !in s
    ensures Distinct(s + [x])
  {
  }

  /** Removing from a list without duplicates takes out every copy of `x` and keeps every other element. */
  lemma DistinctRemove<T>(s: seq<T>, x: T)
    requires Distinct(s)
    ensures Distinct(RemoveFirst(s, x))
    ensures x !in RemoveFirst(s, x)
    ensures forall y :: y != x ==> (y in RemoveFirst(s, x) <==> y in s)
  {
    var r := RemoveFirst(s, x);
    if x in s {
      var k := FirstIndex(s, x);
      assert r == s[..k] + s[k + 1..];
      assert |r| == |s| - 1;
      assert forall i :: 0 <= i < k ==> r[i] == s[i];
      assert forall i :: k <= i < |r| ==> r[i] == s[i + 1];
      forall i, j | 0 <= i < j < |r|
        ensures r[i] != r[j]
      {
        var i' := if i < k then i else i + 1;
        var j' := if j < k then j else j + 1;
        assert r[i] == s[i'] && r[j] == s[j'];
      }
      forall y | y in s && y != x
        ensures y in r
      {
        var n :| 0 <= n < |s| && s[n] == y;
        if n < k {
          assert r[n] == y;
        } else {
          assert r[n - 1] == y;
        }
      }
      forall i | 0 <= i < |r|
        ensures r[i] != x && r[i] in s
      {
        var i' := if i < k then i else i + 1;
        assert r[i] == s[i'] && i' != k;
      }
    }
  }

  /** Adding an absent element and removing it again restores the list. */
  lemma AppendThenRemove<T>(s: seq<T>, x: T)
    requires x !in s
    ensures RemoveFirst(s + [x], x) == s
  {
    assert FirstIndex(s + [x], x) == |s|;
    assert (s + [x])[..|s|] == s;
  }

  /** Unity's `Mathf.Clamp(value, min, max)`: below `min` gives `min`, else above `max` gives `max`. */
  function Clamp(value: real, min: real, max: real): (r: real)
    ensures min <= max ==> min <= r <= max
    ensures min <= value <= max ==> r == value
    ensures value < min ==> r == min
    ensures value > max && value >= min ==> r == max
  {
    if value < min then min else if value > max then max else value
  }

  /** Clamping is idempotent on an ordered range. */
  lemma ClampIdempotent(value: real, min: real, max: real)
    requires min <= max
    ensures Clamp(Clamp(value, min, max), min, max) == Clamp(value, min, max)
  {
  }
}
