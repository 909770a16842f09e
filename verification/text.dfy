/** The string operations the service applies to feature names. */
module Text {
  import opened Common

  /** Python's `s.startswith(prefix)`. */
  predicate StartsWith(s: string, prefix: string) {
    |prefix| <= |s| && s[..|prefix|] == prefix
  }

  /**
   * Python's `s.split("_")[-1]`: the longest suffix of `s` that holds no
   * underscore (empty when `s` ends with one).
   */
  function LastField(s: string): (r: string)
    ensures |r| <= |s| && r == s[|s| - |r|..]
    ensures forall k :: 0 <= k < |r| ==> r[k] != '_'
    ensures |r| < |s| ==> s[|s| - |r| - 1] == '_'
    decreases |s|
  {
    if |s| == 0 || s[|s| - 1] == '_' then ""
    else
      var init := s[..|s| - 1];
      var r' := LastField(init);
      assert init[|init| - |r'|..] + [s[|s| - 1]] == s[|s| - |r'| - 1..];
      r' + [s[|s| - 1]]
  }

  /**
   * The last field is the only '_'-free suffix that is either the whole
   * string or preceded by an underscore.
   */
  lemma {:induction false} LastFieldUnique(s: string, t: string)
    requires |t| <= |s| && t == s[|s| - |t|..]
    requires forall k :: 0 <= k < |t| ==> t[k] != '_'
    requires |t| == |s| || s[|s| - |t| - 1] == '_'
    ensures LastField(s) == t
    decreases |s|
  {
    if |s| > 0 && |t| > 0 {
      assert t[|t| - 1] == s[|s| - 1];
      var s' := s[..|s| - 1];
      var t' := t[..|t| - 1];
      assert t' == s'[|s'| - |t'|..];
      LastFieldUnique(s', t');
    }
  }

  /** Whatever precedes the last underscore, the last field is what follows it. */
  lemma LastFieldAfterUnderscore(a: string, b: string)
    requires forall k :: 0 <= k < |b| ==> b[k] != '_'
    ensures LastField(a + "_" + b) == b
  {
    var s := a + "_" + b;
    assert s[|s| - |b|..] == b;
    assert s[|s| - |b| - 1] == '_';
    LastFieldUnique(s, b);
  }

  predicate IsDigit(c: char) {
    '0' <= c <= '9'
  }

  predicate AllDigits(s: string) {
    forall k :: 0 <= k < |s| ==> IsDigit(s[k])
  }

  function DigitValue(c: char): nat
    requires IsDigit(c)
  {
    (c as int) - ('0' as int)
  }

  /** The value of a string of decimal digits, most significant first. */
  function DigitsValue(s: string): nat
    requires AllDigits(s)
    decreases |s|
  {
    if |s| == 0 then 0 else DigitsValue(s[..|s| - 1]) * 10 + DigitValue(s[|s| - 1])
  }

  /**
   * Python's `int(s)` on a decimal literal: an optional `+` or `-` followed by
   * at least one ASCII digit; anything else raises (`None`).
   */
  function ParseInt(s: string): (r: Option<int>)
    ensures r.Some? <==> (|s| > 0 && AllDigits(s)) || (|s| > 1 && (s[0] == '-' || s[0] == '+') && AllDigits(s[1..]))
    ensures r.Some? && s[0] == '-' ==> r.value <= 0
    ensures r.Some? && s[0] != '-' ==> r.value >= 0
    ensures |s| > 0 && AllDigits(s) ==> r == Some(DigitsValue(s))
  {
    if |s| > 0 && (s[0] == '-' || s[0] == '+') then
      var digits := s[1..];
      if |digits| > 0 && AllDigits(digits) then
        var magnitude: int := DigitsValue(digits);
        Some(if s[0] == '-' then -magnitude else magnitude)
      else None
    else if |s| > 0 && AllDigits(s) then Some(DigitsValue(s))
    else None
  }

  /** The canonical decimal spelling of a natural number (Python's `str(n)`). */
  function FormatNat(n: nat): (r: string)
    ensures |r| > 0 && AllDigits(r)
    decreases n
  {
    var d := ['0' + ((n % 10) as char)];
    if n < 10 then d else FormatNat(n / 10) + d
  }

  lemma {:induction false} DigitsOfFormatNat(n: nat)
    ensures DigitsValue(FormatNat(n)) == n
    decreases n
  {
    var s := FormatNat(n);
    assert DigitValue(s[|s| - 1]) == n % 10;
    if n >= 10 {
      assert s[..|s| - 1] == FormatNat(n / 10);
      DigitsOfFormatNat(n / 10);
    }
  }

  /** `int(str(n)) == n` and `int("-" + str(n)) == -n`. */
  lemma ParseIntFormatRoundTrip(n: nat)
    ensures ParseInt(FormatNat(n)) == Some(n)
    ensures ParseInt("-" + FormatNat(n)) == Some(-(n as int))
  {
    DigitsOfFormatNat(n);
    var s := FormatNat(n);
    assert s[0] != '-' && s[0] != '+';
    assert ("-" + s)[1..] == s;
  }

  /** A string that carries a sign or a non-digit beyond its sign does not parse. */
  lemma ParseIntRejects(s: string)
    requires |s| == 0 || (exists k :: 1 <= k < |s| && !IsDigit(s[k]))
    ensures ParseInt(s).None?
  {
  }
}
