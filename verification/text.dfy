/**
 * Character-level helpers: ASCII lower-casing (the model of `string.ToLower`)
 * and the decimal integer syntax accepted by `int.TryParse`.
 */
module Text {
  import opened Wrappers

  const INT32_MIN: int := -0x8000_0000
  const INT32_MAX: int := 0x7FFF_FFFF

  predicate IsUpper(c: char) {
    'A' <= c <= 'Z'
  }

  function LowerChar(c: char): char {
    if IsUpper(c) then (c as int + 32) as char else c
  }

  /** `s` with every ASCII capital replaced by its small letter. */
  function Lower(s: string): (r: string)
    ensures |r| == |s|
    ensures forall i :: 0 <= i < |s| ==> r[i] == LowerChar(s[i])
    decreases |s|
  {
    if s == [] then [] else [LowerChar(s[0])] + Lower(s[1..])
  }

  /** Lower-casing is idempotent and leaves a string without capitals alone. */
  lemma LowerOfLower(s: string)
    ensures Lower(Lower(s)) == Lower(s)
    ensures (forall i :: 0 <= i < |s| ==> !IsUpper(s[i])) ==> Lower(s) == s
  {
  }

  predicate IsDigit(c: char) {
    '0' <= c <= '9'
  }

  predicate AllDigits(s: string) {
    forall i :: 0 <= i < |s| ==> IsDigit(s[i])
  }

  function DigitChar(d: nat): (c: char)
    requires d < 10
    ensures IsDigit(c)
  {
    ('0' as int + d) as char
  }

  /** The value of a string of decimal digits, most significant first. */
  function DigitsValue(ds: string): nat
    requires AllDigits(ds)
    decreases |ds|
  {
    if ds == [] then 0
    else 10 * DigitsValue(ds[..|ds| - 1]) + (ds[|ds| - 1] as int - '0' as int)
  }

  /** The shortest decimal spelling of `n`. */
  function NatToDigits(n: nat): (ds: string)
    ensures |ds| >= 1 && AllDigits(ds)
    decreases n
  {
    if n < 10 then [DigitChar(n)] else NatToDigits(n / 10) + [DigitChar(n % 10)]
  }

  lemma {:induction false} DigitsRoundTrip(n: nat)
    ensures DigitsValue(NatToDigits(n)) == n
    decreases n
  {
    if n >= 10 {
      DigitsRoundTrip(n / 10);
      var ds := NatToDigits(n);
      assert ds[..|ds| - 1] == NatToDigits(n / 10);
    }
  }

  /** The decimal spelling of `n`, with a leading '-' when negative. */
  function ShowInt(n: int): string {
    if n < 0 then "-" + NatToDigits(-n) else NatToDigits(n)
  }

  /**
   * `int.TryParse` with the default integer style: an optional sign, one or
   * more decimal digits, and a value that fits a 32-bit signed integer.
   */
  function ParseInt(s: string): (r: Option<int>)
    ensures r.Some? ==> INT32_MIN <= r.value <= INT32_MAX
    ensures r.Some? ==> |s| >= 1 && IsDigit(s[|s| - 1])
    ensures |s| >= 1 && AllDigits(s) && DigitsValue(s) <= INT32_MAX ==> r == Some(DigitsValue(s))
    ensures (|s| == 0 || !(IsDigit(s[0]) || s[0] == '-' || s[0] == '+')) ==> r == None
    ensures (exists i :: 1 <= i < |s| && !IsDigit(s[i])) ==> r == None
    ensures r.Some? ==> || (AllDigits(s) && r.value == DigitsValue(s))
                        || (s[0] == '+' && AllDigits(s[1..]) && r.value == DigitsValue(s[1..]))
                        || (s[0] == '-' && AllDigits(s[1..]) && r.value == 0 - DigitsValue(s[1..]) as int)
    ensures |s| >= 2 && (s[0] == '+' || s[0] == '-') && AllDigits(s[1..]) ==>
              var v: int := if s[0] == '-' then 0 - DigitsValue(s[1..]) as int else DigitsValue(s[1..]);
              (r.Some? <==> INT32_MIN <= v <= INT32_MAX) && (r.Some? ==> r.value == v)
  {
    var negative := |s| > 0 && s[0] == '-';
    var digits := if |s| > 0 && (s[0] == '-' || s[0] == '+') then s[1..] else s;
    if |digits| == 0 || !AllDigits(digits) then None
    else
      var v: int := if negative then 0 - (DigitsValue(digits) as int) else DigitsValue(digits);
      if INT32_MIN <= v <= INT32_MAX then Some(v) else None
  }

  /** Every 32-bit integer survives printing and re-parsing. */
  lemma ParseShowRoundTrip(n: int)
    requires INT32_MIN <= n <= INT32_MAX
    ensures ParseInt(ShowInt(n)) == Some(n)
  {
    var t := ShowInt(n);
    if n < 0 {
      DigitsRoundTrip(-n);
      assert t[1..] == NatToDigits(-n);
      assert |t| >= 2 && t[0] == '-' && AllDigits(t[1..]) && DigitsValue(t[1..]) == -n;
    } else {
      DigitsRoundTrip(n);
      assert |t| >= 1 && AllDigits(t) && DigitsValue(t) == n;
    }
  }
}
