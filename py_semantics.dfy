/** The parts of MicroPython's run-time behaviour that the example scripts
    lean on: the exceptions they raise or catch, list indexing with
    negative indexes, slicing that clamps, `int()` of a quotient (which
    truncates toward zero) and the decimal text of an integer. */
module PySemantics {
  import opened Wrappers
  import Bytes

  /** The exceptions the modelled scripts raise or catch. */
  datatype Exception = IndexError | ValueError | ZeroDivisionError | AttributeError | TypeError

  /** `xs[i]` on a list of length `len`: a negative index counts from the
      end, and anything outside [-len, len) raises IndexError (None). */
  function PyIndex(len: nat, i: int): (r: Option<nat>)
    ensures r.Some? <==> -(len as int) <= i < len
    ensures r.Some? ==> r.value < len
  {
    if 0 <= i < len then Some(i)
    else if i < 0 && len + i >= 0 then Some(len + i)
    else None
  }

  /** An index and the same index written from the end reach one element. */
  lemma PyIndexFromEnd(len: nat, i: int)
    requires 0 <= i < len
    ensures PyIndex(len, i) == PyIndex(len, i - len) == Some(i)
  {
  }

  /** `xs[:-k]`: everything but the last k elements, or nothing at all when
      the list is shorter than k. */
  function DropLast<T>(s: seq<T>, k: nat): (r: seq<T>)
    ensures |s| >= k ==> r + s[|s| - k..] == s
    ensures |s| < k ==> r == []
  {
    if |s| >= k then s[..|s| - k] else []
  }

  /** `xs[1:]`: the list without its first element (empty stays empty). */
  function DropFirst<T>(s: seq<T>): (r: seq<T>)
    ensures |s| > 0 ==> [s[0]] + r == s
    ensures |s| == 0 ==> r == []
  {
    if |s| > 0 then s[1..] else []
  }

  /** `int(a / b)`: the quotient rounded toward zero, where Dafny's `/`
      rounds toward minus infinity for a positive divisor. */
  function TruncDiv(a: int, b: int): (q: int)
    requires b > 0
    ensures a >= 0 ==> 0 <= q * b <= a < (q + 1) * b
    ensures a < 0 ==> (q - 1) * b < a <= q * b <= 0
  {
    if a >= 0 then FloorBounds(a, b); a / b
    else
      var n := (-a) / b;
      FloorBounds(-a, b);
      assert (-n) * b == -(n * b) && (-n - 1) * b == -((n + 1) * b);
      -n
  }

  lemma FloorBounds(a: int, b: int)
    requires a >= 0 && b > 0
    ensures 0 <= (a / b) * b <= a < (a / b + 1) * b
  {
    var q, r := a / b, a % b;
    assert a == q * b + r && 0 <= r < b;
    assert (q + 1) * b == q * b + b;
  }

  /** `int(a / b)` for a divisor of either sign: Python divides exactly
      and `int()` then drops the fraction. */
  function PyIntDiv(a: int, b: int): (q: int)
    requires b != 0
    ensures (a >= 0) == (b > 0) || a == 0 ==> q >= 0
    ensures b > 0 ==> q == TruncDiv(a, b)
  {
    if b > 0 then TruncDiv(a, b) else TruncDiv(-a, -b)
  }

  /** The two ways of dividing agree except on a negative dividend that is
      not a multiple: there truncation is one above the floor. */
  lemma TruncDivAgainstFloor(a: int, b: int)
    requires b > 0
    ensures TruncDiv(a, b) == (if a < 0 && a % b != 0 then a / b + 1 else a / b)
  {
    if a < 0 {
      var q, r := (-a) / b, (-a) % b;
      assert -a == q * b + r && 0 <= r < b;
      if r == 0 {
        Bytes.DivModUnique(a, b, -q, 0);
      } else {
        Bytes.DivModUnique(a, b, -q - 1, b - r);
      }
    }
  }

  /** One decimal digit. */
  function Digit(d: nat): (c: char)
    requires d < 10
    ensures '0' <= c <= '9'
  {
    "0123456789"[d]
  }

  /** The digit's value. */
  function DigitValue(c: char): (d: nat)
    requires '0' <= c <= '9'
    ensures d < 10
  {
    (c as int) - ('0' as int)
  }

  predicate IsDigits(s: string)
  {
    forall i :: 0 <= i < |s| ==> '0' <= s[i] <= '9'
  }

  /** `str(n)` for n >= 0: its decimal digits, most significant first, with
      no leading zero. */
  function Decimal(n: nat): (s: string)
    ensures |s| > 0 && IsDigits(s)
    ensures s[0] == '0' ==> n == 0
  {
    if n < 10 then [Digit(n)] else Decimal(n / 10) + [Digit(n % 10)]
  }

  /** The value of a string of decimal digits. */
  function DigitsValue(s: string): nat
    requires IsDigits(s)
  {
    if |s| == 0 then 0 else 10 * DigitsValue(s[..|s| - 1]) + DigitValue(s[|s| - 1])
  }

  /** Reading the digits back gives the number: the decimal text determines
      the integer. */
  lemma {:induction false} DecimalRoundTrip(n: nat)
    ensures DigitsValue(Decimal(n)) == n
  {
    var s := Decimal(n);
    if n >= 10 {
      DecimalRoundTrip(n / 10);
      assert s[..|s| - 1] == Decimal(n / 10);
    }
  }

  /** `str(i)` (and the f-string form `{i}`) of any integer. */
  function IntStr(i: int): (s: string)
    ensures |s| > 0
    ensures i < 0 <==> s[0] == '-'
    ensures i >= 0 ==> '0' <= s[0] <= '9'
    ensures IsDigits(s[1..])
  {
    if i < 0 then "-" + Decimal(-i) else Decimal(i)
  }

  /** The sign and the digits of `str(i)`. */
  function ParseInt(s: string): Option<int>
  {
    if |s| > 0 && s[0] == '-' && IsDigits(s[1..]) then Some(-(DigitsValue(s[1..]) as int))
    else if IsDigits(s) then Some(DigitsValue(s))
    else None
  }

  /** `str` of a negative integer reads back as that integer. */
  lemma ParseNegative(i: int)
    requires i < 0
    ensures ParseInt(IntStr(i)) == Some(i)
  {
    var d := Decimal(-i);
    DecimalRoundTrip(-i);
    assert IntStr(i) == "-" + d && ("-" + d)[1..] == d;
  }

  /** `str` of a non-negative integer reads back as that integer. */
  lemma ParseNonNegative(n: nat)
    ensures ParseInt(IntStr(n)) == Some(n)
  {
    var d := Decimal(n);
    DecimalRoundTrip(n);
    assert IntStr(n) == d && d[0] != '-';
  }

  /** Reading `str(i)` back gives i. */
  lemma IntStrRoundTrip(i: int)
    ensures ParseInt(IntStr(i)) == Some(i)
  {
    if i < 0 {
      ParseNegative(i);
    } else {
      ParseNonNegative(i);
    }
  }
}
