/** Small value types and JavaScript primitives shared by every module of the model:
    optional values, results that carry an error message, JavaScript's Math.round of
    a quotient, Array.prototype.slice bounds, String.prototype.includes and the
    decimal rendering and parsing of non-negative numbers. */
module Common {

  datatype Option<T> = None | Some(value: T)

  /** A computation that either yields a value or throws an Error with a message. */
  datatype Result<T> = Ok(value: T) | Err(message: string)

  /** Which of two compared things is strictly better. */
  datatype Side = First | Second | Neither

  function Min(a: int, b: int): int { if a <= b then a else b }

  function Max(a: int, b: int): int { if a <= b then b else a }

  function MinReal(a: real, b: real): real { if a <= b then a else b }

  /** JavaScript truthiness of an optional string field: present and not empty. */
  predicate Truthy(s: Option<string>) { s.Some? && s.value != "" }

  /** `a || b` on optional strings. */
  function OrElse(a: Option<string>, b: string): (r: string)
    ensures Truthy(a) ==> r == a.value
    ensures !Truthy(a) ==> r == b
  {
    if Truthy(a) then a.value else b
  }

  /** Math.round(a / b) for a positive divisor: the integer nearest to a / b, halves
      rounded up. */
  function RoundDiv(a: int, b: int): (r: int)
    requires b > 0
    ensures 2 * b * r - b <= 2 * a < 2 * b * r + b
  {
    var q := (2 * a + b) / (2 * b);
    assert 2 * a + b == 2 * b * q + (2 * a + b) % (2 * b);
    q
  }

  lemma PositiveFactor(b: int, x: int)
    requires b > 0 && b * x > 0
    ensures x > 0
  {
  }

  /** A rounded quotient of a non-negative number by a positive one lies between 0 and
      the dividend; dividing by 1 changes nothing. */
  lemma RoundDivBounds(a: int, b: int)
    requires b > 0 && a >= 0
    ensures 0 <= RoundDiv(a, b) <= a
    ensures b == 1 ==> RoundDiv(a, b) == a
  {
    var r := RoundDiv(a, b);
    assert b * (2 * r + 1) == 2 * b * r + b;
    PositiveFactor(b, 2 * r + 1);
    assert b * (2 * a - 2 * r + 2) == 2 * b * a + b - (2 * b * r - b);
    PositiveFactor(b, 2 * a - 2 * r + 2);
  }

  lemma NonNegativeFactor(b: int, x: int)
    requires b > 0 && b * x >= 0
    ensures x >= 0
  {
  }

  /** A rounded quotient never exceeds a bound the exact quotient stays under, and a
      whole quotient is returned as it is. */
  lemma RoundDivAtMost(a: int, b: int, m: int)
    requires b > 0 && a <= m * b
    ensures RoundDiv(a, b) <= m
  {
    var r := RoundDiv(a, b);
    assert b * (2 * m + 1 - 2 * r) == 2 * (m * b) + b - 2 * b * r;
    NonNegativeFactor(b, 2 * m + 1 - 2 * r);
  }

  lemma RoundDivAtLeast(a: int, b: int, m: int)
    requires b > 0 && a >= m * b
    ensures RoundDiv(a, b) >= m
  {
    var r := RoundDiv(a, b);
    assert b * (2 * r + 1 - 2 * m) == 2 * b * r + b - 2 * (m * b);
    PositiveFactor(b, 2 * r + 1 - 2 * m);
  }

  lemma RoundDivWhole(m: int, b: int)
    requires b > 0
    ensures RoundDiv(m * b, b) == m
  {
    var r := RoundDiv(m * b, b);
    RoundDivAtMost(m * b, b, m);
    assert b * (2 * r - 2 * m + 1) == 2 * b * r + b - 2 * (m * b);
    PositiveFactor(b, 2 * r - 2 * m + 1);
  }

  /** The end index Array.prototype.slice(0, end) uses on a sequence of length n:
      a negative end counts back from the end of the sequence. */
  function SliceEnd(n: nat, end: int): (e: nat)
    ensures e <= n
    ensures end >= 0 ==> e == Min(end, n)
    ensures end < 0 ==> e == Max(n + end, 0)
  {
    if end < 0 then (if n + end < 0 then 0 else n + end) else if end < n then end else n
  }

  /** xs.slice(0, end). */
  function Prefix<T>(xs: seq<T>, end: int): (r: seq<T>)
    ensures |r| == SliceEnd(|xs|, end)
    ensures r == xs[..|r|]
  {
    xs[..SliceEnd(|xs|, end)]
  }

  /** `k` occurs in `s` starting at position `i`. */
  predicate OccursAt(s: string, k: string, i: int)
  {
    0 <= i && i + |k| <= |s| && s[i..i + |k|] == k
  }

  /** String.prototype.includes: `k` occurs in `s` at some position. */
  predicate Contains(s: string, k: string)
  {
    exists i | 0 <= i <= |s| - |k| :: OccursAt(s, k, i)
  }

  lemma OccurrenceCharacter(s: string, k: string, i: int, j: int)
    requires OccursAt(s, k, i) && i <= j < i + |k|
    ensures k[j - i] == s[j]
  {
    assert s[i..i + |k|][j - i] == s[j];
  }

  /** A keyword without spaces that occurs in parts joined by spaces occurs in one of the parts. */
  lemma {:induction false} ContainsJoined(a: string, b: string, k: string)
    requires ' ' !in k
    ensures Contains(a + " " + b, k) <==> Contains(a, k) || Contains(b, k)
  {
    var s := a + " " + b;
    if Contains(s, k) {
      var i :| 0 <= i <= |s| - |k| && OccursAt(s, k, i);
      if i + |k| <= |a| {
        assert a[i..i + |k|] == s[i..i + |k|];
        assert OccursAt(a, k, i);
      } else if i <= |a| {
        // an occurrence covering the separating space would put a space into k
        OccurrenceCharacter(s, k, i, |a|);
        assert false;
      } else {
        assert s[|a| + 1..] == b;
        assert b[i - |a| - 1..i - |a| - 1 + |k|] == s[|a| + 1..][i - |a| - 1..i - |a| - 1 + |k|];
        assert OccursAt(b, k, i - |a| - 1);
      }
    }
    if Contains(a, k) {
      var i :| 0 <= i <= |a| - |k| && OccursAt(a, k, i);
      assert s[i..i + |k|] == a[i..i + |k|];
      assert OccursAt(s, k, i);
    }
    if Contains(b, k) {
      var i :| 0 <= i <= |b| - |k| && OccursAt(b, k, i);
      assert s[|a| + 1..] == b;
      assert s[|a| + 1 + i..|a| + 1 + i + |k|] == s[|a| + 1..][i..i + |k|];
      assert OccursAt(s, k, |a| + 1 + i);
    }
  }

  /** String.prototype.toLowerCase on the ASCII letters. */
  function LowerChar(c: char): char
  {
    if 'A' <= c <= 'Z' then (c as int + 32) as char else c
  }

  function Lower(s: string): (r: string)
    ensures |r| == |s|
    ensures forall i :: 0 <= i < |s| ==> r[i] == LowerChar(s[i])
  {
    seq(|s|, i requires 0 <= i < |s| => LowerChar(s[i]))
  }

  lemma LowerConcat(a: string, b: string)
    ensures Lower(a + b) == Lower(a) + Lower(b)
  {
  }

  predicate IsDigit(c: char) { '0' <= c <= '9' }

  function DigitChar(d: nat): (c: char)
    requires d < 10
    ensures IsDigit(c) && c as int - '0' as int == d
  {
    ('0' as int + d) as char
  }

  /** The decimal rendering JavaScript gives a non-negative integer in a template string. */
  function NatToString(n: nat): (s: string)
    ensures |s| >= 1
    ensures forall i :: 0 <= i < |s| ==> IsDigit(s[i])
  {
    if n < 10 then [DigitChar(n)] else NatToString(n / 10) + [DigitChar(n % 10)]
  }

  function DigitValue(c: char): (d: nat)
    requires IsDigit(c)
    ensures d < 10
  {
    c as int - '0' as int
  }

  /** parseInt of a string of decimal digits. */
  function DecimalValue(s: string): nat
    requires forall i :: 0 <= i < |s| ==> IsDigit(s[i])
  {
    if s == [] then 0
    else 10 * DecimalValue(s[..|s| - 1]) + DigitValue(s[|s| - 1])
  }

  /** Parsing the decimal rendering of a number gives the number back. */
  lemma {:induction false} DecimalRoundTrip(n: nat)
    ensures DecimalValue(NatToString(n)) == n
  {
    if n >= 10 {
      var s := NatToString(n);
      assert s[..|s| - 1] == NatToString(n / 10);
      DecimalRoundTrip(n / 10);
    }
  }
}
