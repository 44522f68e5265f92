/** Values shared by the resolver and the fetcher: optional and fallible
    results, the printed form of a raised exception, Python's decimal
    int/str conversions, and the record that urllib's urlparse returns. */
module Base {

  datatype Option<+T> = None | Some(value: T)

  datatype Result<+T, +E> = Success(value: T) | Failure(error: E)

  /** A raised Python exception, by class name and argument text. */
  datatype Exc = Exc(name: string, args: string)

  /** repr(e): the class name followed by its arguments in parentheses.
      It is never empty, so `if last_exception:` holds whenever one was recorded. */
  function Repr(e: Exc): (s: string)
    ensures |s| >= |e.name| + 2 && s[..|e.name|] == e.name && s[|s| - 1] == ')'
  {
    e.name + "(" + e.args + ")"
  }

  /** The parts of a parsed URL (urllib.parse.ParseResult). */
  datatype UrlParts = UrlParts(scheme: string, netloc: string, path: string,
                               params: string, query: string, fragment: string)

  predicate IsDigit(c: char) { '0' <= c <= '9' }

  predicate AllDigits(s: string) { forall i | 0 <= i < |s| :: IsDigit(s[i]) }

  function DigitChar(d: nat): (c: char)
    requires d < 10
    ensures IsDigit(c) && (c as int) - ('0' as int) == d
  {
    (('0' as int) + d) as char
  }

  /** The value of a string of decimal digits, most significant first. */
  function DigitsValue(s: string): nat
    requires AllDigits(s)
    decreases |s|
  {
    if |s| == 0 then 0
    else DigitsValue(s[..|s| - 1]) * 10 + ((s[|s| - 1] as int) - ('0' as int))
  }

  /** str(n) for a natural number: its decimal digits with no leading zero. */
  function NatToString(n: nat): (s: string)
    ensures |s| >= 1 && AllDigits(s)
    ensures |s| > 1 ==> s[0] != '0'
    decreases n
  {
    if n < 10 then [DigitChar(n)] else NatToString(n / 10) + [DigitChar(n % 10)]
  }

  /** str(n) for any integer. */
  function IntToString(n: int): (s: string)
    ensures |s| >= 1 && (n < 0 <==> s[0] == '-')
  {
    if n < 0 then "-" + NatToString(-n) else NatToString(n)
  }

  /** int(s) with base 10: an optional sign followed by at least one ASCII digit;
      None where Python raises ValueError. */
  function ParseInt(s: string): Option<int>
  {
    if |s| > 0 && (s[0] == '+' || s[0] == '-') then
      if |s| > 1 && AllDigits(s[1..]) then
        var v: int := DigitsValue(s[1..]);
        Some(if s[0] == '-' then -v else v)
      else None
    else if |s| > 0 && AllDigits(s) then Some(DigitsValue(s))
    else None
  }

  lemma {:induction false} NatToStringValue(n: nat)
    ensures DigitsValue(NatToString(n)) == n
    decreases n
  {
    if n >= 10 {
      var s := NatToString(n);
      NatToStringValue(n / 10);
      assert s[..|s| - 1] == NatToString(n / 10);
    }
  }

  /** Parsing what str printed gives the number back. */
  lemma IntToStringParses(n: int)
    ensures ParseInt(IntToString(n)) == Some(n)
  {
    var s := IntToString(n);
    if n < 0 {
      var digits := NatToString(-n);
      NatToStringValue(-n);
      assert s == "-" + digits;
      assert s[1..] == digits;
      assert s[0] == '-' && |s| > 1 && AllDigits(s[1..]);
      var v: int := DigitsValue(digits);
      assert ParseInt(s) == Some(-v);
    } else {
      NatToStringValue(n);
      assert s == NatToString(n) && s[0] != '-' && s[0] != '+';
    }
  }

  /** Distinct integers print differently. */
  lemma IntToStringInjective(m: int, n: int)
    requires m != n
    ensures IntToString(m) != IntToString(n)
  {
    IntToStringParses(m);
    IntToStringParses(n);
  }
}
