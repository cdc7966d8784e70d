// Shared building blocks: optional values, results, string helpers and the
// fresh-name appendix used when a substitution template is instantiated.
module Common {

  datatype Option<+T> = None | Some(value: T)

  datatype Result<+T, +E> = Ok(value: T) | Err(error: E)

  predicate EndsWith(s: string, suffix: string)
  {
    |suffix| <= |s| && s[|s| - |suffix|..] == suffix
  }

  predicate IsDigit(c: char)
  {
    '0' <= c <= '9'
  }

  function DigitChar(d: nat): (c: char)
    requires d < 10
    ensures IsDigit(c)
  {
    (48 + d) as char
  }

  /** Decimal notation of a natural number, most significant digit first. */
  function Digits(n: nat): (r: string)
    ensures |r| > 0
    ensures n >= 10 ==> |r| >= 2
    ensures forall k :: 0 <= k < |r| ==> IsDigit(r[k])
  {
    if n < 10 then [DigitChar(n)] else Digits(n / 10) + [DigitChar(n % 10)]
  }

  /** Different numbers have different decimal notations. */
  lemma {:induction false} DigitsInjective(m: nat, n: nat)
    requires Digits(m) == Digits(n)
    ensures m == n
  {
    if m >= 10 && n >= 10 {
      var dm, dn := Digits(m), Digits(n);
      assert dm[|dm| - 1] == DigitChar(m % 10) && dn[|dn| - 1] == DigitChar(n % 10);
      assert dm[..|dm| - 1] == Digits(m / 10) && dn[..|dn| - 1] == Digits(n / 10);
      DigitsInjective(m / 10, n / 10);
    } else if m < 10 && n < 10 {
      assert Digits(m)[0] == DigitChar(m) && Digits(n)[0] == DigitChar(n);
    }
  }

  /**
   * The suffix that makes the variables of one template instance unique.
   * The source draws a random UUID per instance; the model numbers the
   * instances instead, so distinct instances get distinct appendices.
   */
  function Appendix(n: nat): (a: string)
    ensures |a| >= 2 && a[0] == '_'
    ensures forall k :: 1 <= k < |a| ==> IsDigit(a[k])
  {
    "_" + Digits(n)
  }

  /** No name carries the appendices of two different instances. */
  lemma {:induction false} AppendixSuffixesDisjoint(v: string, m: nat, n: nat)
    requires EndsWith(v, Appendix(m)) && EndsWith(v, Appendix(n))
    ensures m == n
  {
    var am, an := Appendix(m), Appendix(n);
    if |am| == |an| {
      assert am == v[|v| - |am|..] == an;
      assert Digits(m) == am[1..] && Digits(n) == an[1..];
      DigitsInjective(m, n);
    }
  }
}
