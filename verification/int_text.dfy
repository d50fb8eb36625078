/**
 * Decimal text of 32-bit integers as the Kotlin standard library reads and
 * writes it: `String.toIntOrNull()` (the age field of the registration form)
 * and `Int.toString()` (the status code inside an error message).
 */
module IntText {
  import opened Wrappers

  const MinInt: int := -0x8000_0000
  const MaxInt: int := 0x7FFF_FFFF

  predicate InIntRange(n: int) {
    MinInt <= n <= MaxInt
  }

  predicate IsDigit(c: char) {
    '0' <= c <= '9'
  }

  predicate IsDigits(d: string) {
    |d| > 0 && forall i :: 0 <= i < |d| ==> IsDigit(d[i])
  }

  function DigitValue(c: char): nat
    requires IsDigit(c)
  {
    c as int - '0' as int
  }

  function DigitChar(n: nat): (c: char)
    requires n < 10
    ensures IsDigit(c) && DigitValue(c) == n
  {
    ('0' as int + n) as char
  }

  /** The value of a digit string, most significant digit first. */
  function DigitsValue(d: string): nat
    requires forall i :: 0 <= i < |d| ==> IsDigit(d[i])
  {
    if |d| == 0 then 0 else DigitsValue(d[..|d| - 1]) * 10 + DigitValue(d[|d| - 1])
  }

  /**
   * Reference reading of `toIntOrNull`: an optional leading `+` or `-`, then
   * one or more decimal digits, and a value that fits in a 32-bit `Int`;
   * anything else is null.
   */
  function ParseInt(s: string): (r: Option<int>)
    ensures r.Some? ==> InIntRange(r.value)
    ensures IsDigits(s) && InIntRange(DigitsValue(s)) ==> r == Some(DigitsValue(s))
    ensures |s| > 1 && s[0] == '+' && IsDigits(s[1..]) && InIntRange(DigitsValue(s[1..])) ==>
              r == Some(DigitsValue(s[1..]) as int)
    ensures |s| > 1 && s[0] == '-' && IsDigits(s[1..]) && InIntRange(-(DigitsValue(s[1..]) as int)) ==>
              r == Some(-(DigitsValue(s[1..]) as int))
  {
    if |s| == 0 then None
    else if s[0] == '+' || s[0] == '-' then
      var body := s[1..];
      if !IsDigits(body) then None
      else
        var v := if s[0] == '-' then -(DigitsValue(body) as int) else DigitsValue(body);
        if InIntRange(v) then Some(v) else None
    else if !IsDigits(s) then None
    else if InIntRange(DigitsValue(s)) then Some(DigitsValue(s)) else None
  }

  /** Whatever `toIntOrNull` accepts is signed decimal digits, and the result is their value. */
  lemma ParseIntSound(s: string)
    requires ParseInt(s).Some?
    ensures var v := ParseInt(s).value;
            || (IsDigits(s) && v == DigitsValue(s))
            || (|s| > 1 && s[0] == '+' && IsDigits(s[1..]) && v == DigitsValue(s[1..]))
            || (|s| > 1 && s[0] == '-' && IsDigits(s[1..]) && v == -(DigitsValue(s[1..]) as int))
  {
  }

  /** Decimal digits of a natural number, without leading zeros. */
  function ShowNat(n: nat): (d: string)
    ensures IsDigits(d)
    ensures d[0] == '0' <==> n == 0
  {
    if n < 10 then [DigitChar(n)] else ShowNat(n / 10) + [DigitChar(n % 10)]
  }

  /** `Int.toString()`: a `-` before the digits of a negative number. */
  function ShowInt(n: int): (t: string)
    ensures n >= 0 ==> IsDigits(t) && DigitsValue(t) == n
    ensures n >= 0 ==> (t[0] == '0' ==> t == "0")
    ensures n < 0 ==> |t| > 1 && t[0] == '-' && IsDigits(t[1..]) && DigitsValue(t[1..]) == -n
    ensures n < 0 ==> t[1] != '0'
  {
    DigitsValueOfShowNat(if n < 0 then -n else n);
    if n < 0 then
      var t := "-" + ShowNat(-n);
      assert t[1..] == ShowNat(-n);
      t
    else ShowNat(n)
  }

  lemma {:induction false} DigitsValueOfShowNat(n: nat)
    ensures DigitsValue(ShowNat(n)) == n
  {
    if n >= 10 {
      var d := ShowNat(n);
      assert d[..|d| - 1] == ShowNat(n / 10);
      DigitsValueOfShowNat(n / 10);
    }
  }

  /** `toIntOrNull` reads back every `Int` that `toString` writes. */
  lemma ParseShowRoundTrip(n: int)
    requires InIntRange(n)
    ensures ParseInt(ShowInt(n)) == Some(n)
  {
    DigitsValueOfShowNat(if n < 0 then -n else n);
    if n < 0 {
      assert ShowInt(n)[1..] == ShowNat(-n);
    }
  }

  /** A prefix of a digit string never has a larger value than the whole. */
  lemma {:induction false} DigitsValuePrefix(d: string, i: nat)
    requires forall k :: 0 <= k < |d| ==> IsDigit(d[k])
    requires i <= |d|
    ensures DigitsValue(d[..i]) <= DigitsValue(d)
  {
    if i < |d| {
      var init := d[..|d| - 1];
      assert init[..i] == d[..i];
      DigitsValuePrefix(init, i);
    } else {
      assert d[..i] == d;
    }
  }

  /**
   * The digit-by-digit scan `toIntOrNull` performs: it inspects the sign,
   * then accumulates digits and gives up as soon as the magnitude passes the
   * limit of the sign it read.
   */
  method ParseIntScan(s: string) returns (r: Option<int>)
    ensures r == ParseInt(s)
  {
    if |s| == 0 {
      return None;
    }
    var start := 0;
    var negative := false;
    if s[0] < '0' {
      if |s| == 1 {
        return None;
      }
      start := 1;
      if s[0] == '-' {
        negative := true;
      } else if s[0] != '+' {
        return None;
      }
    }
    var limit := if negative then -MinInt else MaxInt;
    var acc := 0;
    var i := start;
    while i < |s|
      invariant start <= i <= |s|
      invariant forall k :: start <= k < i ==> IsDigit(s[k])
      invariant acc == DigitsValue(s[start..i])
      invariant acc <= limit
    {
      if !IsDigit(s[i]) {
        return None;
      }
      assert s[start..i + 1][..i - start] == s[start..i];
      acc := acc * 10 + DigitValue(s[i]);
      if acc > limit {
        if IsDigits(s[start..]) {
          DigitsValuePrefix(s[start..], i + 1 - start);
          assert s[start..][..i + 1 - start] == s[start..i + 1];
        }
        return None;
      }
      i := i + 1;
    }
    assert s[start..i] == s[start..];
    r := Some(if negative then -acc else acc);
  }
}
