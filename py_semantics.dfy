/**
  The few pieces of Python and NumPy semantics the application relies on,
  written out over unbounded integers and exact reals: `int()` of a float,
  the length of a slice, `np.argmax`, `' '.join`, `str.split(' ')` and the
  decimal rendering of an `int` in an f-string.
 */
module PySemantics {

  /** `int(x)` for a float `x`: truncation toward zero. */
  function Trunc(x: real): (n: int)
    ensures 0.0 <= x ==> 0 <= n && n as real <= x < n as real + 1.0
    ensures x < 0.0 ==> n <= 0 && n as real - 1.0 < x <= n as real
  {
    if x >= 0.0 then x.Floor else -((-x).Floor)
  }

  /** Where a slice bound `i` lands in a sequence of length `n`
      (a negative bound counts from the end, and bounds are clamped). */
  function SliceBound(i: int, n: nat): (r: nat)
    ensures r <= n
    ensures 0 <= i ==> r == (if i < n then i else n)
    ensures i < 0 ==> r == (if -i <= n then n + i else 0)
  {
    if i < 0 then (if i + n < 0 then 0 else i + n)
    else if i > n then n
    else i
  }

  /** The number of elements of `s[a:b]` when `|s| == n`. */
  function SliceLength(n: nat, a: int, b: int): (len: nat)
    ensures len <= n
    ensures len == 0 <==> SliceBound(b, n) <= SliceBound(a, n)
  {
    var lo, hi := SliceBound(a, n), SliceBound(b, n);
    if hi > lo then hi - lo else 0
  }

  /** With non-negative bounds, a slice is empty exactly when its stop does
      not exceed its start, or its start is at or past the end. */
  lemma SliceEmptyNonNegative(n: nat, a: int, b: int)
    requires 0 <= a && 0 <= b
    ensures SliceLength(n, a, b) == 0 <==> (b <= a || n <= a)
  {
  }

  /** `np.argmax`: the FIRST index at which the maximum occurs. */
  function ArgMax(s: seq<real>): (k: nat)
    requires |s| > 0
    ensures k < |s|
    ensures forall j :: 0 <= j < |s| ==> s[j] <= s[k]
    ensures forall j :: 0 <= j < k ==> s[j] < s[k]
  {
    if |s| == 1 then 0
    else
      var k := ArgMax(s[..|s| - 1]);
      if s[|s| - 1] > s[k] then |s| - 1 else k
  }

  /** `' '.join(pieces)`. */
  function JoinWithSpaces(pieces: seq<string>): (s: string)
    ensures |pieces| == 0 ==> s == ""
    ensures |pieces| == 1 ==> s == pieces[0]
  {
    if |pieces| == 0 then ""
    else if |pieces| == 1 then pieces[0]
    else pieces[0] + " " + JoinWithSpaces(pieces[1..])
  }

  predicate NoSpace(s: string)
  {
    forall i :: 0 <= i < |s| ==> s[i] != ' '
  }

  /** `s.split(' ')`: the pieces between single spaces; never empty. */
  function SplitOnSpaces(s: string): (pieces: seq<string>)
    ensures |pieces| >= 1
  {
    if s == "" then [""]
    else
      var rest := SplitOnSpaces(s[1..]);
      if s[0] == ' ' then [""] + rest
      else [[s[0]] + rest[0]] + rest[1..]
  }

  lemma {:induction false} SplitNoSpace(s: string)
    requires NoSpace(s)
    ensures SplitOnSpaces(s) == [s]
  {
    if s != "" {
      SplitNoSpace(s[1..]);
      assert [s[0]] + s[1..] == s;
    }
  }

  lemma {:induction false} SplitAfterPiece(a: string, rest: string)
    requires NoSpace(a)
    ensures SplitOnSpaces(a + " " + rest) == [a] + SplitOnSpaces(rest)
  {
    var s := a + " " + rest;
    if a == "" {
      assert s[0] == ' ' && s[1..] == rest;
    } else {
      assert s[1..] == a[1..] + " " + rest;
      SplitAfterPiece(a[1..], rest);
      assert [a[0]] + a[1..] == a;
    }
  }

  /** Joining with single spaces loses nothing when no piece holds a space:
      splitting the joined text gives the pieces back. */
  lemma {:induction false} JoinSplitRoundTrip(pieces: seq<string>)
    requires |pieces| >= 1
    requires forall i :: 0 <= i < |pieces| ==> NoSpace(pieces[i])
    ensures SplitOnSpaces(JoinWithSpaces(pieces)) == pieces
  {
    if |pieces| == 1 {
      SplitNoSpace(pieces[0]);
    } else {
      JoinSplitRoundTrip(pieces[1..]);
      SplitAfterPiece(pieces[0], JoinWithSpaces(pieces[1..]));
      assert [pieces[0]] + pieces[1..] == pieces;
    }
  }

  predicate IsDigits(s: string)
  {
    forall i :: 0 <= i < |s| ==> '0' <= s[i] <= '9'
  }

  function DigitChar(d: nat): (c: char)
    requires d < 10
    ensures '0' <= c <= '9' && c as int - '0' as int == d
  {
    ('0' as int + d) as char
  }

  /** `f"{n}"` for a non-negative `int`: its decimal digits, no leading zero. */
  function Decimal(n: nat): (s: string)
    ensures |s| >= 1 && IsDigits(s)
    ensures |s| > 1 ==> s[0] != '0'
  {
    if n < 10 then [DigitChar(n)] else Decimal(n / 10) + [DigitChar(n % 10)]
  }

  /** `int(s)` for a string of decimal digits. */
  function DecimalValue(s: string): nat
    requires IsDigits(s)
  {
    if s == [] then 0
    else DecimalValue(s[..|s| - 1]) * 10 + (s[|s| - 1] as int - '0' as int)
  }

  lemma {:induction false} DecimalRoundTrip(n: nat)
    ensures DecimalValue(Decimal(n)) == n
  {
    if n >= 10 {
      DecimalRoundTrip(n / 10);
      var s := Decimal(n);
      assert s[..|s| - 1] == Decimal(n / 10);
    }
  }

  /** Distinct numbers are rendered as distinct strings. */
  lemma DecimalInjective(m: nat, n: nat)
    requires Decimal(m) == Decimal(n)
    ensures m == n
  {
    DecimalRoundTrip(m);
    DecimalRoundTrip(n);
  }
}
