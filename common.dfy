/** Shared vocabulary: optional values, dates, Java integer division and
    the two accumulation shapes the ledger loops are built from (a sum over
    a prefix, and the length of the leading run that satisfies a test). */
module Common {

  datatype Option<T> = None | Some(value: T)

  /** A calendar day, as a day number: a larger number is a later day. */
  type Date = int

  /** An absence type, identified by its code (for instance "37"). */
  type Code = string

  function Abs(x: int): nat {
    if x < 0 then -x else x
  }

  function Min(a: int, b: int): int {
    if a <= b then a else b
  }

  /** Java's integer `/`: the quotient is truncated toward zero. */
  function JavaDiv(a: int, b: int): (q: int)
    requires b != 0
    ensures a >= 0 && b > 0 ==> q == a / b
    ensures a < 0 && b > 0 ==> q == -((-a) / b)
    ensures a >= 0 && b > 0 ==> q >= 0
  {
    var m := Abs(a) / Abs(b);
    if (a < 0) != (b < 0) then -m else m
  }

  /** Java's integer `%`: the remainder takes the sign of the dividend. */
  function JavaRem(a: int, b: int): (r: int)
    requires b != 0
    ensures Abs(r) < Abs(b)
    ensures a >= 0 ==> 0 <= r == a % Abs(b)
    ensures a < 0 ==> r <= 0
  {
    if a < 0 then -((-a) % Abs(b)) else a % Abs(b)
  }

  /** Java's quotient and remainder put the dividend back together. */
  lemma JavaDivRem(a: int, b: int)
    requires b != 0
    ensures a == JavaDiv(a, b) * b + JavaRem(a, b)
  {
    var m := Abs(a) / Abs(b);
    var k := Abs(a) % Abs(b);
    assert Abs(a) == m * Abs(b) + k;
    var q := JavaDiv(a, b);
    if (a < 0) != (b < 0) {
      assert q == -m;
      NegatedProduct(m, Abs(b));
      assert q * b == m * Abs(b) || q * b == -(m * Abs(b));
    } else {
      assert q == m;
      NegatedProduct(m, Abs(b));
    }
  }

  /** `days` is `hundredths / 100` truncated toward zero: the whole hundreds
      in `hundredths`, with its sign. */
  predicate TruncatedHundredths(hundredths: int, days: int) {
    Abs(days) * 100 <= Abs(hundredths) < Abs(days) * 100 + 100
    && (hundredths > 0 ==> days >= 0) && (hundredths < 0 ==> days <= 0)
  }

  lemma JavaDivHundredTruncates(a: int)
    ensures TruncatedHundredths(a, JavaDiv(a, 100))
  {
    var m := Abs(a) / 100;
    assert m * 100 <= Abs(a) < m * 100 + 100;
  }

  /** Truncation leaves no choice: one number of whole days fits. */
  lemma TruncatedHundredthsUnique(hundredths: int, d1: int, d2: int)
    requires TruncatedHundredths(hundredths, d1) && TruncatedHundredths(hundredths, d2)
    ensures d1 == d2
  {
    assert Abs(d1) <= Abs(d2) && Abs(d2) <= Abs(d1);
  }

  lemma NegatedProduct(x: int, y: int)
    ensures (-x) * y == -(x * y) == x * (-y)
    ensures (-x) * (-y) == x * y
  {
  }

  /** Dividing a multiple of 100 by 100 gives the factor back, whatever its sign. */
  lemma {:induction false} JavaDivHundred(k: int)
    ensures JavaDiv(k * 100, 100) == k
  {
    if k >= 0 {
      assert Abs(k * 100) == k * 100;
    } else {
      assert Abs(k * 100) == (-k) * 100;
    }
  }

  /** On non-negative amounts, dividing by 100 as Java does is monotone. */
  lemma JavaDivHundredMonotone(a: int, b: int)
    requires 0 <= a <= b
    ensures JavaDiv(a, 100) <= JavaDiv(b, 100)
  {
  }

  /** The sum of `f` over `s`, accumulated from the front as a loop does. */
  function SumOf<T>(s: seq<T>, f: T -> int): int {
    if s == [] then 0 else SumOf(s[..|s| - 1], f) + f(s[|s| - 1])
  }

  /** A prefix one longer is the prefix followed by the next element. */
  lemma PrefixSnoc<T>(s: seq<T>, i: nat)
    requires i < |s|
    ensures s[..i + 1] == s[..i] + [s[i]]
  {
  }

  /** The prefix as long as the sequence is the sequence. */
  lemma PrefixWhole<T>(s: seq<T>)
    ensures s[..|s|] == s
  {
  }

  /** One more element at the end adds its value to the sum. */
  lemma SumOfSnoc<T>(s: seq<T>, i: nat, f: T -> int)
    requires i < |s|
    ensures SumOf(s[..i + 1], f) == SumOf(s[..i], f) + f(s[i])
  {
    assert s[..i + 1][..i] == s[..i];
  }

  /** With non-negative values the sum is non-negative. */
  lemma {:induction false} SumOfNonNegative<T>(s: seq<T>, f: T -> int)
    requires forall k :: 0 <= k < |s| ==> f(s[k]) >= 0
    ensures SumOf(s, f) >= 0
  {
    if s != [] {
      SumOfNonNegative(s[..|s| - 1], f);
    }
  }

  /** With non-negative values a prefix never sums to more than the whole. */
  lemma {:induction false} SumOfPrefixAtMost<T>(s: seq<T>, n: nat, f: T -> int)
    requires n <= |s|
    requires forall k :: 0 <= k < |s| ==> f(s[k]) >= 0
    ensures SumOf(s[..n], f) <= SumOf(s, f)
  {
    if n < |s| {
      var t := s[..|s| - 1];
      assert t[..n] == s[..n];
      SumOfPrefixAtMost(t, n, f);
      assert s[..|s|] == s;
    } else {
      assert s[..n] == s;
    }
  }

  /** The number of leading elements of `s` that pass `p`: the index at
      which a loop that breaks on the first failure stops. */
  function Leading<T>(s: seq<T>, p: T -> bool): (n: nat)
    ensures n <= |s|
    ensures forall k :: 0 <= k < n ==> p(s[k])
    ensures n < |s| ==> !p(s[n])
  {
    if s == [] || !p(s[0]) then 0 else 1 + Leading(s[1..], p)
  }

  /** A stricter test never lets a longer leading run through. */
  lemma LeadingMonotone<T>(s: seq<T>, p: T -> bool, q: T -> bool)
    requires forall k :: 0 <= k < |s| ==> (q(s[k]) ==> p(s[k]))
    ensures Leading(s, q) <= Leading(s, p)
  {
  }
}
