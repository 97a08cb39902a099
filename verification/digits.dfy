/** Python's str() of an integer, str.zfill and str.lstrip('0'), as used to name the output files. */
module Digits {

  function DigitChar(d: nat): char
    requires d < 10
  {
    ('0' as int + d) as char
  }

  /** str(n) for a non-negative integer: decimal digits, no leading zero except for 0 itself. */
  function NatToString(n: nat): (s: string)
    ensures |s| >= 1
    ensures forall k :: 0 <= k < |s| ==> '0' <= s[k] <= '9'
    ensures s[0] == '0' <==> n == 0
    decreases n
  {
    if n < 10 then [DigitChar(n)] else NatToString(n / 10) + [DigitChar(n % 10)]
  }

  /** int(s) for a string of decimal digits. */
  function DigitsValue(s: string): nat
    requires forall k :: 0 <= k < |s| ==> '0' <= s[k] <= '9'
  {
    if s == [] then 0 else DigitsValue(s[..|s| - 1]) * 10 + (s[|s| - 1] as int - '0' as int)
  }

  /** Reading back str(n) gives n, so different numbers have different strings. */
  lemma {:induction false} NatToStringRoundTrip(n: nat)
    ensures DigitsValue(NatToString(n)) == n
    decreases n
  {
    if n >= 10 {
      var s := NatToString(n);
      NatToStringRoundTrip(n / 10);
      assert s[..|s| - 1] == NatToString(n / 10);
    }
  }

  /** str(i) for any integer (a minus sign in front of a negative one). */
  function IntToString(i: int): string {
    if i < 0 then "-" + NatToString(-i) else NatToString(i)
  }

  /** Larger numbers never have fewer digits. */
  lemma {:induction false} DigitCountMonotone(i: nat, j: nat)
    requires i <= j
    ensures |NatToString(i)| <= |NatToString(j)|
    decreases j
  {
    if 10 <= i {
      DigitCountMonotone(i / 10, j / 10);
    }
  }

  function Zeros(k: nat): (z: string)
    ensures |z| == k && forall m :: 0 <= m < k ==> z[m] == '0'
  {
    seq(k, _ => '0')
  }

  /** str.zfill(width) on a string without a sign: '0's are added in front up to `width` characters. */
  function ZFill(s: string, width: int): string {
    if width <= |s| then s else Zeros(width - |s|) + s
  }

  /** str.lstrip('0'). */
  function LStripZeros(s: string): string {
    if s != [] && s[0] == '0' then LStripZeros(s[1..]) else s
  }

  lemma {:induction false} LStripZerosPrefix(k: nat, s: string)
    requires s == [] || s[0] != '0'
    ensures LStripZeros(Zeros(k) + s) == s
    decreases k
  {
    if k > 0 {
      assert (Zeros(k) + s)[1..] == Zeros(k - 1) + s;
      LStripZerosPrefix(k - 1, s);
    } else {
      assert Zeros(k) + s == s;
    }
  }
}
