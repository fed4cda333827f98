/**
 * Decimal rendering of non-negative integers, as `sprintf("%i", n)` and
 * `printf("%i", n)` produce it for the process id, exit values and signal
 * numbers, together with the digit-counting loop that expand$$ runs on the
 * process id.
 */
module Decimal {

  predicate IsDigit(c: char) {
    '0' <= c <= '9'
  }

  function DigitChar(d: nat): (c: char)
    requires d < 10
    ensures IsDigit(c)
  {
    "0123456789"[d]
  }

  function DigitValue(c: char): nat {
    if IsDigit(c) then (c as int - '0' as int) as nat else 0
  }

  /** The decimal digits of n, most significant first, without leading zeros. */
  function DecimalString(n: nat): (r: string)
    ensures |r| > 0
    ensures forall i :: 0 <= i < |r| ==> IsDigit(r[i])
    ensures r[0] == '0' <==> n == 0
  {
    if n < 10 then [DigitChar(n)] else DecimalString(n / 10) + [DigitChar(n % 10)]
  }

  /** Reads a string of digits back as a number (the inverse of DecimalString). */
  function DecimalValue(s: string): nat {
    if s == [] then 0 else 10 * DecimalValue(s[..|s| - 1]) + DigitValue(s[|s| - 1])
  }

  lemma {:induction false} DecimalRoundTrip(n: nat)
    ensures DecimalValue(DecimalString(n)) == n
  {
    var s := DecimalString(n);
    if n < 10 {
      assert s[..|s| - 1] == [];
    } else {
      DecimalRoundTrip(n / 10);
      assert s[..|s| - 1] == DecimalString(n / 10);
    }
  }

  /** Distinct numbers render as distinct strings. */
  lemma DecimalStringInjective(m: nat, n: nat)
    requires DecimalString(m) == DecimalString(n)
    ensures m == n
  {
    DecimalRoundTrip(m);
    DecimalRoundTrip(n);
  }

  /**
   * The digit-counting loop of expand$$ (smallsh.c:280-285): divide by ten
   * until zero. For a positive pid this is the length of its decimal string;
   * for 0 the loop does not run, so the count is 0 although "%i" prints "0".
   */
  method DigitCount(pid: nat) returns (count: nat)
    ensures pid > 0 ==> count == |DecimalString(pid)|
    ensures pid == 0 ==> count == 0
  {
    var z: nat := pid;
    count := 0;
    while z != 0
      invariant z > 0 ==> count + |DecimalString(z)| == |DecimalString(pid)|
      invariant z == 0 ==> count == (if pid == 0 then 0 else |DecimalString(pid)|)
      decreases z
    {
      z := z / 10;
      count := count + 1;
    }
  }
}
