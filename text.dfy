/** The `java.lang.String` and `Integer` operations the bridge relies on. */
module Text {
  import opened Wrappers

  /** `s.startsWith(p)`. */
  predicate StartsWith(s: string, p: string) {
    |p| <= |s| && s[..|p|] == p
  }

  /** `p` occurs in `s` starting at index `i`. */
  predicate OccursAt(s: string, p: string, i: nat) {
    i + |p| <= |s| && s[i..i + |p|] == p
  }

  /**
   * `s.replace(p, r)` for a non-empty literal `p`: every occurrence found scanning from the
   * left is replaced, and the inserted text is not scanned again.
   */
  function Replace(s: string, p: string, r: string): (t: string)
    requires |p| > 0
    decreases |s|
  {
    if |s| < |p| then s
    else if s[..|p|] == p then r + Replace(s[|p|..], p, r)
    else [s[0]] + Replace(s[1..], p, r)
  }

  /** Where `p` does not occur, replacing it changes nothing. */
  lemma {:induction false} ReplaceAbsent(s: string, p: string, r: string)
    requires |p| > 0
    requires forall i: nat :: i < |s| ==> !OccursAt(s, p, i)
    ensures Replace(s, p, r) == s
    decreases |s|
  {
    if |s| >= |p| {
      assert !OccursAt(s, p, 0);
      assert s[..|p|] == s[0..|p|];
      forall i: nat | i < |s[1..]| ensures !OccursAt(s[1..], p, i) {
        if i + |p| <= |s[1..]| {
          assert s[1..][i..i + |p|] == s[i + 1..i + 1 + |p|];
          assert !OccursAt(s, p, i + 1);
        }
      }
      ReplaceAbsent(s[1..], p, r);
      assert s == [s[0]] + s[1..];
    }
  }

  /** A pattern starting with `c` cannot occur in text that does not contain `c`. */
  lemma AbsentFirstChar(s: string, p: string)
    requires |p| > 0 && p[0] !in s
    ensures forall i: nat :: i < |s| ==> !OccursAt(s, p, i)
  {
    forall i: nat | i < |s| ensures !OccursAt(s, p, i) {
      if i + |p| <= |s| {
        assert s[i..i + |p|][0] == s[i];
      }
    }
  }

  /** Text in front of the first occurrence is kept and the occurrence is replaced. */
  lemma {:induction false} ReplaceFirst(a: string, p: string, b: string, r: string)
    requires |p| > 0 && p[0] !in a
    ensures Replace(a + p + b, p, r) == a + r + Replace(b, p, r)
    decreases |a|
  {
    var s := a + p + b;
    if a == [] {
      assert s == p + b && s[..|p|] == p && s[|p|..] == b;
      assert Replace(s, p, r) == r + Replace(b, p, r);
    } else {
      assert s[..|p|][0] == a[0] != p[0];
      assert s[1..] == a[1..] + p + b;
      assert Replace(s, p, r) == [a[0]] + Replace(a[1..] + p + b, p, r);
      ReplaceFirst(a[1..], p, b, r);
      assert a == [a[0]] + a[1..];
      assert [a[0]] + (a[1..] + r + Replace(b, p, r)) == a + r + Replace(b, p, r);
    }
  }

  /** Text that cannot start an occurrence of `p` passes through a replacement untouched. */
  lemma {:induction false} ReplacePrefix(a: string, b: string, p: string, r: string)
    requires |p| > 0 && p[0] !in a
    ensures Replace(a + b, p, r) == a + Replace(b, p, r)
    decreases |a|
  {
    var s := a + b;
    if a == [] {
      assert s == b;
    } else if |s| < |p| {
      assert Replace(b, p, r) == b;
    } else {
      assert s[..|p|][0] == a[0] != p[0];
      assert s[1..] == a[1..] + b;
      ReplacePrefix(a[1..], b, p, r);
      assert a == [a[0]] + a[1..];
    }
  }

  predicate IsDigit(c: char) {
    '0' <= c <= '9'
  }

  function Digit(d: int): (c: char)
    requires 0 <= d < 10
    ensures IsDigit(c)
  {
    ('0' as int + d) as char
  }

  function DigitValue(c: char): (d: int)
    requires IsDigit(c)
    ensures 0 <= d < 10 && Digit(d) == c
  {
    c as int - '0' as int
  }

  predicate AllDigits(s: string) {
    forall i :: 0 <= i < |s| ==> IsDigit(s[i])
  }

  /** The number a string of decimal digits denotes. */
  function DecimalValue(s: string): nat
    requires AllDigits(s)
  {
    if s == [] then 0 else DecimalValue(s[..|s| - 1]) * 10 + DigitValue(s[|s| - 1])
  }

  /** The shortest decimal numeral of `n`. */
  function NatToString(n: nat): (s: string)
    ensures |s| >= 1 && AllDigits(s)
    ensures |s| > 1 ==> s[0] != '0'
    decreases n
  {
    if n < 10 then [Digit(n)] else NatToString(n / 10) + [Digit(n % 10)]
  }

  lemma {:induction false} NatToStringValue(n: nat)
    ensures DecimalValue(NatToString(n)) == n
    decreases n
  {
    if n >= 10 {
      var s := NatToString(n);
      assert s[..|s| - 1] == NatToString(n / 10);
      NatToStringValue(n / 10);
    }
  }

  /** `Integer.toString(n)`, also what `"..." + n` appends. */
  function IntToString(n: int): (s: string)
    ensures |s| >= 1
  {
    if n < 0 then "-" + NatToString(-n) else NatToString(n)
  }

  const INT_MIN: int := -0x8000_0000
  const INT_MAX: int := 0x7FFF_FFFF

  /**
   * `Integer.parseInt(s)` over ASCII digits: an optional sign, at least one digit,
   * and a value that fits in 32 bits; `None` where it throws `NumberFormatException`.
   */
  function ParseInt(s: string): (r: Option<int>)
    ensures r.Some? ==> INT_MIN <= r.value <= INT_MAX
  {
    var negative := |s| > 0 && s[0] == '-';
    var digits := if |s| > 0 && (s[0] == '-' || s[0] == '+') then s[1..] else s;
    if digits == [] || !AllDigits(digits) then None
    else
      var v: int := if negative then 0 - DecimalValue(digits) as int else DecimalValue(digits);
      if INT_MIN <= v <= INT_MAX then Some(v) else None
  }

  /** Printing a 32-bit integer and parsing it back gives the integer. */
  lemma IntToStringParses(n: int)
    requires INT_MIN <= n <= INT_MAX
    ensures ParseInt(IntToString(n)) == Some(n)
  {
    var s := IntToString(n);
    if n < 0 {
      NatToStringValue(-n);
      assert s[1..] == NatToString(-n);
    } else {
      NatToStringValue(n);
    }
  }
}
