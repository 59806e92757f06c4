/** The few pieces of the Python 2 runtime that the STELC modules lean on:
    outcomes of a call that may raise, Python's slice reading and slice
    assignment, string repetition, and decimal formatting of integers. */
module PyRuntime {

  datatype Option<T> = None | Some(value: T)

  /** The exceptions the modelled code raises or lets escape.  The
      RecordingError messages are the source's own; an AttributeError
      carries the attribute name that could not be found. */
  datatype Exception =
    | RecordingError(message: string)
    | AttributeError(name: string)
    | KeyError(key: string)
    | TypeError
    | IndexError
    | CalledProcessError

  /** The value a Python call returns, or the exception it raises. */
  datatype Result<T> = Ok(value: T) | Err(error: Exception)

  /** A Python call that returns nothing of interest, or raises. */
  datatype Outcome = Pass | Raise(error: Exception)

  /** Python's `" " * n`: n spaces, and none when n is not positive. */
  function Spaces(n: int): (r: string)
    ensures |r| == if n <= 0 then 0 else n
    ensures forall i :: 0 <= i < |r| ==> r[i] == ' '
  {
    if n <= 0 then "" else Spaces(n - 1) + " "
  }

  /** How Python turns a slice bound into a position of a sequence of
      length `len`: a negative bound counts from the end, and the result is
      clamped to 0..len. */
  function SliceBound(i: int, len: nat): (k: nat)
    ensures k <= len
    ensures 0 <= i <= len ==> k == i
    ensures i > len ==> k == len
    ensures i < 0 ==> k as int == if i + len < 0 then 0 else i + len
  {
    if i < 0 then (if i + len < 0 then 0 else i + len)
    else if i > len then len
    else i
  }

  /** The position Python's `s[i]` reads in a sequence of length `n`: a
      negative index counts from the end. */
  function ListIndex(i: int, n: nat): (k: nat)
    requires -(n as int) <= i < n
    ensures k < n && k as int == if i < 0 then i + n else i
  {
    if i < 0 then i + n else i
  }

  /** The first position of `x` in `s`. */
  function FirstIndex<T(==)>(s: seq<T>, x: T): (k: nat)
    requires x in s
    ensures k < |s| && s[k] == x && x !in s[..k]
  {
    if s[0] == x then 0
    else
      var k := 1 + FirstIndex(s[1..], x);
      assert s[..k] == [s[0]] + s[1..][..k - 1];
      k
  }

  /** Python's `list.remove(x)` for an `x` in the list: the first
      occurrence goes, the other elements keep their order, and nothing
      else is lost. */
  function RemoveFirst<T(==)>(s: seq<T>, x: T): (r: seq<T>)
    requires x in s
    ensures |r| == |s| - 1 && multiset(r) == multiset(s) - multiset{x}
    ensures var k := FirstIndex(s, x); r[..k] == s[..k] && r[k..] == s[k + 1..]
  {
    var k := FirstIndex(s, x);
    assert s == s[..k] + [s[k]] + s[k + 1..];
    s[..k] + s[k + 1..]
  }

  /** Python's `s[i:j]`. */
  function Slice<T>(s: seq<T>, i: int, j: int): (r: seq<T>)
    ensures |r| <= |s|
    ensures 0 <= i && 0 <= j ==> |r| <= if j < i then 0 else j - i
    ensures 0 <= i <= j <= |s| ==> r == s[i..j]
    ensures var a := SliceBound(i, |s|);
            var b := SliceBound(j, |s|);
            |r| == (if a < b then b - a else 0) && forall k :: 0 <= k < |r| ==> r[k] == s[a + k]
  {
    var a, b := SliceBound(i, |s|), SliceBound(j, |s|);
    if a < b then s[a..b] else []
  }

  /** Python's list slice assignment `s[i:j] = t`: both bounds are placed as
      for reading, a stop before the start is moved up to the start, and the
      part between them is replaced by `t`.  When the stop lies before the
      start nothing is removed, so `t` is inserted. */
  function SliceAssign<T>(s: seq<T>, i: int, j: int, t: seq<T>): (r: seq<T>)
    ensures var a := SliceBound(i, |s|);
            var b := SliceBound(j, |s|);
            var removed := if b < a then 0 else b - a;
            |r| == |s| - removed + |t| && r[..a] == s[..a] && r[a..a + |t|] == t
    ensures var a := SliceBound(i, |s|);
            var b := SliceBound(j, |s|);
            r[a + |t|..] == s[(if b < a then a else b)..]
  {
    var a := SliceBound(i, |s|);
    var b := SliceBound(j, |s|);
    var b' := if b < a then a else b;
    s[..a] + t + s[b'..]
  }

  predicate IsDigit(c: char) {
    '0' <= c <= '9'
  }

  predicate AllDigits(s: string) {
    forall i :: 0 <= i < |s| ==> IsDigit(s[i])
  }

  function Digit(d: nat): (c: char)
    requires d < 10
    ensures IsDigit(c) && (c as int) - ('0' as int) == d
  {
    "0123456789"[d]
  }

  function Pow10(w: nat): (p: nat)
    ensures p >= 1
  {
    if w == 0 then 1 else 10 * Pow10(w - 1)
  }

  /** Python's `"%d" % n` (and `str(n)`) for a non-negative n. */
  function DecimalString(n: nat): (s: string)
    ensures |s| >= 1 && AllDigits(s)
  {
    if n < 10 then [Digit(n)] else DecimalString(n / 10) + [Digit(n % 10)]
  }

  /** Python's `"%0<w>d" % n` for an n with at most w digits: exactly w
      digits, zero-padded on the left. */
  function FixedDigits(n: nat, w: nat): (s: string)
    ensures |s| == w && AllDigits(s)
  {
    if w == 0 then "" else FixedDigits(n / 10, w - 1) + [Digit(n % 10)]
  }

  /** The number a string of decimal digits denotes (Python's `int(s)`). */
  function DigitsValue(s: string): (n: nat)
    requires AllDigits(s)
  {
    if s == [] then 0
    else DigitsValue(s[..|s| - 1]) * 10 + ((s[|s| - 1] as int) - ('0' as int))
  }

  /** Reading back what `%d` printed gives the number again. */
  lemma {:induction false} DecimalRoundTrip(n: nat)
    ensures DigitsValue(DecimalString(n)) == n
  {
    if n >= 10 {
      var s := DecimalString(n);
      assert s[..|s| - 1] == DecimalString(n / 10);
      DecimalRoundTrip(n / 10);
    }
  }

  /** Reading back what `%0<w>d` printed gives the number again, as long as
      it fits in w digits. */
  lemma {:induction false} FixedRoundTrip(n: nat, w: nat)
    requires n < Pow10(w)
    ensures DigitsValue(FixedDigits(n, w)) == n
  {
    if w > 0 {
      var s := FixedDigits(n, w);
      assert s[..|s| - 1] == FixedDigits(n / 10, w - 1);
      FixedRoundTrip(n / 10, w - 1);
    }
  }
}
