/**
 * The Python string primitives the pipeline relies on: `str.strip()`,
 * `int(str)` in base 10, `str(int)` and `str.zfill(width)`.
 */
module Text {
  import opened Wrappers

  /** Python's `str.isspace()` for one character: the set `str.strip()` removes. */
  predicate IsSpace(c: char)
  {
    c in {' ', '\t', '\n', '\r', '\U{0B}', '\U{0C}', '\U{1C}', '\U{1D}', '\U{1E}', '\U{1F}',
          '\U{85}', '\U{A0}', '\U{1680}', '\U{2000}', '\U{2001}', '\U{2002}', '\U{2003}',
          '\U{2004}', '\U{2005}', '\U{2006}', '\U{2007}', '\U{2008}', '\U{2009}', '\U{200A}',
          '\U{2028}', '\U{2029}', '\U{202F}', '\U{205F}', '\U{3000}'}
  }

  /**
   * The whitespace `int()` skips around a numeral. CPython maps every non-ASCII
   * space to ' ' and then skips only the C locale's spaces, so the ASCII
   * separators U+001C..U+001F, which `str.strip()` does remove, are not skipped.
   */
  predicate IsIntSpace(c: char)
  {
    IsSpace(c) && !('\U{1C}' <= c <= '\U{1F}')
  }

  predicate AllSpace(s: string)
  {
    forall i :: 0 <= i < |s| ==> IsSpace(s[i])
  }

  /** Neither end of `s` is whitespace: what `str.strip()` guarantees. */
  predicate IsStripped(s: string)
  {
    s == [] || (!IsSpace(s[0]) && !IsSpace(s[|s| - 1]))
  }

  /** `s.lstrip()`: the suffix left after dropping leading whitespace. */
  function StripLeft(s: string): string
  {
    if s != [] && IsSpace(s[0]) then StripLeft(s[1..]) else s
  }

  /** `s.rstrip()`: the prefix left after dropping trailing whitespace. */
  function StripRight(s: string): string
  {
    if s != [] && IsSpace(s[|s| - 1]) then StripRight(s[..|s| - 1]) else s
  }

  /** `s.strip()`. */
  function Strip(s: string): string
  {
    StripRight(StripLeft(s))
  }

  lemma {:induction false} StripLeftSpec(s: string)
    ensures var r := StripLeft(s);
      && |r| <= |s| && r == s[|s| - |r|..]
      && AllSpace(s[..|s| - |r|])
      && (r == [] || !IsSpace(r[0]))
  {
    if s != [] && IsSpace(s[0]) {
      StripLeftSpec(s[1..]);
      var r := StripLeft(s);
      assert s[..|s| - |r|] == [s[0]] + s[1..][..|s| - 1 - |r|];
    }
  }

  lemma {:induction false} StripRightSpec(s: string)
    ensures var r := StripRight(s);
      && |r| <= |s| && r == s[..|r|]
      && AllSpace(s[|r|..])
      && (r == [] || !IsSpace(r[|r| - 1]))
  {
    if s != [] && IsSpace(s[|s| - 1]) {
      StripRightSpec(s[..|s| - 1]);
      var r := StripRight(s);
      assert s[|r|..] == s[..|s| - 1][|r|..] + [s[|s| - 1]];
    }
  }

  /**
   * `s.strip()` is a slice of `s` with only whitespace cut off before and after
   * it, and it neither starts nor ends with whitespace.
   */
  lemma StripSpec(s: string)
    ensures IsStripped(Strip(s))
    ensures exists i, j :: 0 <= i <= j <= |s| && Strip(s) == s[i..j] && AllSpace(s[..i]) && AllSpace(s[j..])
  {
    var l := StripLeft(s);
    var r := StripRight(l);
    StripLeftSpec(s);
    StripRightSpec(l);
    var i := |s| - |l|;
    assert r == s[i..i + |r|];
    assert AllSpace(s[i + |r|..]) by {
      assert s[i + |r|..] == l[|r|..];
    }
    assert r != [] ==> r[0] == l[0];
  }

  /** A string already stripped is left as it is, so stripping is idempotent. */
  lemma StripKeepsStripped(s: string)
    requires IsStripped(s)
    ensures Strip(s) == s
  {
  }

  lemma StripIdempotent(s: string)
    ensures Strip(Strip(s)) == Strip(s)
  {
    StripSpec(s);
    StripKeepsStripped(Strip(s));
  }

  predicate IsDigit(c: char)
  {
    '0' <= c <= '9'
  }

  predicate AllDigits(s: string)
  {
    forall i :: 0 <= i < |s| ==> IsDigit(s[i])
  }

  function DigitChar(d: nat): (c: char)
    requires d < 10
    ensures IsDigit(c)
  {
    ('0' as int + d) as char
  }

  /** The value of a run of ASCII decimal digits, most significant first. */
  function DigitsValue(s: string): nat
    requires AllDigits(s)
  {
    if s == [] then 0
    else DigitsValue(s[..|s| - 1]) * 10 + (s[|s| - 1] as int - '0' as int)
  }

  function Zeros(k: nat): (z: string)
    ensures |z| == k && AllDigits(z)
    ensures forall i :: 0 <= i < k ==> z[i] == '0'
  {
    if k == 0 then [] else Zeros(k - 1) + ['0']
  }

  /** Leading zeros do not change the value of a numeral. */
  lemma {:induction false} LeadingZeros(k: nat, d: string)
    requires AllDigits(d)
    ensures AllDigits(Zeros(k) + d)
    ensures DigitsValue(Zeros(k) + d) == DigitsValue(d)
  {
    var z := Zeros(k) + d;
    if d == [] {
      assert z == Zeros(k);
      ZerosValue(k);
    } else {
      var d' := d[..|d| - 1];
      assert z[..|z| - 1] == Zeros(k) + d';
      LeadingZeros(k, d');
    }
  }

  lemma {:induction false} ZerosValue(k: nat)
    ensures DigitsValue(Zeros(k)) == 0
  {
    if k > 0 {
      assert Zeros(k)[..k - 1] == Zeros(k - 1);
      ZerosValue(k - 1);
    }
  }

  /** Decimal digits of `n` without leading zeros: `str(n)` for `n >= 0`. */
  function DecimalDigits(n: nat): (r: string)
    ensures |r| >= 1 && AllDigits(r)
    ensures DigitsValue(r) == n
    ensures |r| > 1 ==> r[0] != '0'
  {
    if n < 10 then [DigitChar(n)]
    else
      var p := DecimalDigits(n / 10);
      var r := p + [DigitChar(n % 10)];
      assert r[..|r| - 1] == p;
      r
  }

  lemma DigitsStep(n: nat)
    requires n >= 10
    ensures |DecimalDigits(n)| == |DecimalDigits(n / 10)| + 1
  {
  }

  /** Below 10^4 a number takes at most four digits. */
  lemma ShortNumberDigits(n: nat)
    requires n < 10000
    ensures |DecimalDigits(n)| <= 4
  {
    if n >= 10 {
      DigitsStep(n);
      if n / 10 >= 10 {
        DigitsStep(n / 10);
        if n / 10 / 10 >= 10 {
          DigitsStep(n / 10 / 10);
          assert n / 10 / 10 / 10 < 10;
        }
      }
    }
  }

  function Pow10(k: nat): (p: nat)
    ensures p >= 1
  {
    if k == 0 then 1 else 10 * Pow10(k - 1)
  }

  /** A number below 10^k takes at most k digits. */
  lemma {:induction false} DigitsBelowPow10(n: nat, k: nat)
    requires k >= 1 && n < Pow10(k)
    ensures |DecimalDigits(n)| <= k
  {
    if n >= 10 {
      DigitsStep(n);
      assert n / 10 < Pow10(k - 1);
      DigitsBelowPow10(n / 10, k - 1);
    }
  }

  /** `str(n)` for a Python integer. */
  function Render(n: int): string
  {
    if n < 0 then "-" + DecimalDigits(-n) else DecimalDigits(n)
  }

  /** `s.zfill(width)`: pad with zeros on the left, after a leading sign. */
  function ZFill(s: string, width: nat): (r: string)
    ensures |r| == if |s| >= width then |s| else width
  {
    if |s| >= width then s
    else if |s| > 0 && (s[0] == '+' || s[0] == '-') then [s[0]] + Zeros(width - |s|) + s[1..]
    else Zeros(width - |s|) + s
  }

  /** Digits with single underscores between them, as `int()` accepts after the sign. */
  predicate IsDigitRun(b: string)
  {
    && |b| > 0
    && IsDigit(b[0]) && IsDigit(b[|b| - 1])
    && (forall i :: 0 <= i < |b| ==> IsDigit(b[i]) || b[i] == '_')
    && (forall i :: 0 <= i < |b| - 1 ==> !UnderscorePairAt(b, i))
  }

  predicate UnderscorePairAt(b: string, i: nat)
    requires i + 1 < |b|
  {
    b[i] == '_' && b[i + 1] == '_'
  }

  function RemoveUnderscores(b: string): (r: string)
    requires forall i :: 0 <= i < |b| ==> IsDigit(b[i]) || b[i] == '_'
    ensures AllDigits(r)
    ensures AllDigits(b) ==> r == b
  {
    if b == [] then []
    else (if b[0] == '_' then [] else [b[0]]) + RemoveUnderscores(b[1..])
  }

  function StripIntSpaceLeft(s: string): string
  {
    if s != [] && IsIntSpace(s[0]) then StripIntSpaceLeft(s[1..]) else s
  }

  function StripIntSpaceRight(s: string): string
  {
    if s != [] && IsIntSpace(s[|s| - 1]) then StripIntSpaceRight(s[..|s| - 1]) else s
  }

  /** Characters that can occur in a string `int()` accepts. */
  predicate IsNumeralChar(c: char)
  {
    IsIntSpace(c) || IsDigit(c) || c == '_' || c == '+' || c == '-'
  }

  /** The numeral `int()` reads once the surrounding spaces are skipped. */
  function StripIntSpace(s: string): string
  {
    StripIntSpaceRight(StripIntSpaceLeft(s))
  }

  /** The digits of a numeral after its optional sign. */
  function NumeralBody(t: string): string
    requires t != []
  {
    if t[0] == '-' || t[0] == '+' then t[1..] else t
  }

  /**
   * `sys.int_info.default_max_str_digits`: from Python 3.11 on (and in the
   * security releases of 3.7 to 3.10) `int()` raises ValueError on a decimal
   * string with more digits than this. Leading zeros count, underscores do not.
   */
  const MaxStrDigits: nat := 4300

  /** A numeral without surrounding spaces: an optional sign, then a digit run of at most `MaxStrDigits` digits. */
  function ParseNumeral(t: string): Option<int>
  {
    if t == [] || !IsDigitRun(NumeralBody(t)) then None
    else
      var digits := RemoveUnderscores(NumeralBody(t));
      if |digits| > MaxStrDigits then None
      else
        var v: int := DigitsValue(digits);
        Some(if t[0] == '-' then -v else v)
  }

  /**
   * Python's `int(s)` in base 10 over ASCII digits: surrounding whitespace,
   * an optional sign, then digits with single underscores between them, and
   * no more than `MaxStrDigits` digits. `None` stands for the `ValueError` it
   * raises otherwise.
   */
  function ParseInt(s: string): Option<int>
  {
    ParseNumeral(StripIntSpace(s))
  }

  /** `int()` refuses any string holding a character outside spaces, signs, digits and underscores. */
  lemma ParseIntChars(s: string)
    requires ParseInt(s).Some?
    ensures AllNumeralChars(s)
  {
    var t := StripIntSpace(s);
    NumeralChars(s, t, NumeralBody(t));
  }

  predicate AllNumeralChars(s: string)
  {
    forall i :: 0 <= i < |s| ==> IsNumeralChar(s[i])
  }

  /** Every character of an accepted numeral is a space, a sign, a digit or an underscore. */
  lemma NumeralChars(s: string, t: string, body: string)
    requires t == StripIntSpace(s) && t != []
    requires body == (if t[0] == '-' || t[0] == '+' then t[1..] else t)
    requires IsDigitRun(body)
    ensures AllNumeralChars(s)
  {
    assert AllNumeralChars(t) by {
      if t[0] == '-' || t[0] == '+' {
        assert forall i :: 1 <= i < |t| ==> t[i] == body[i - 1];
      }
    }
    var l := StripIntSpaceLeft(s);
    var a := |s| - |l|;
    assert s == s[..a] + l && AllNumeralChars(s[..a]) by {
      StripIntSpaceLeftSpaces(s);
    }
    assert l == t + l[|t|..] && AllNumeralChars(l[|t|..]) by {
      StripIntSpaceRightSpaces(l);
    }
    AppendNumeralChars(t, l[|t|..]);
    AppendNumeralChars(s[..a], l);
  }

  lemma AppendNumeralChars(a: string, b: string)
    requires AllNumeralChars(a) && AllNumeralChars(b)
    ensures AllNumeralChars(a + b)
  {
  }

  lemma {:induction false} StripIntSpaceLeftSpaces(s: string)
    ensures |StripIntSpaceLeft(s)| <= |s| && StripIntSpaceLeft(s) == s[|s| - |StripIntSpaceLeft(s)|..]
    ensures forall i :: 0 <= i < |s| - |StripIntSpaceLeft(s)| ==> IsIntSpace(s[i])
  {
    if s != [] && IsIntSpace(s[0]) {
      StripIntSpaceLeftSpaces(s[1..]);
    }
  }

  lemma {:induction false} StripIntSpaceRightSpaces(s: string)
    ensures |StripIntSpaceRight(s)| <= |s| && StripIntSpaceRight(s) == s[..|StripIntSpaceRight(s)|]
    ensures forall i :: |StripIntSpaceRight(s)| <= i < |s| ==> IsIntSpace(s[i])
  {
    if s != [] && IsIntSpace(s[|s| - 1]) {
      StripIntSpaceRightSpaces(s[..|s| - 1]);
    }
  }

  /** A numeral that starts with a sign or a digit and ends with a digit has no spaces to skip. */
  lemma NoIntSpaceToSkip(z: string)
    requires |z| > 0 && (z[0] == '-' || IsDigit(z[0])) && IsDigit(z[|z| - 1])
    ensures StripIntSpace(z) == z
  {
    NoLeadingIntSpace(z);
    NoTrailingIntSpace(z);
  }

  lemma NoLeadingIntSpace(z: string)
    requires |z| > 0 && (z[0] == '-' || IsDigit(z[0]))
    ensures StripIntSpaceLeft(z) == z
  {
    assert !IsIntSpace(z[0]);
  }

  lemma NoTrailingIntSpace(z: string)
    requires |z| > 0 && IsDigit(z[|z| - 1])
    ensures StripIntSpaceRight(z) == z
  {
    assert !IsIntSpace(z[|z| - 1]);
  }

  /** `int()` of a plain run of digits, up to the digit limit. */
  lemma ParseDigits(body: string)
    requires |body| > 0 && AllDigits(body) && |body| <= MaxStrDigits
    ensures ParseInt(body) == Some(DigitsValue(body) as int)
  {
    NoIntSpaceToSkip(body);
    assert NumeralBody(body) == body;
    DigitsAreRun(body);
  }

  /** `int()` refuses a run of digits longer than the digit limit, whatever its value. */
  lemma TooManyDigits(body: string)
    requires AllDigits(body) && |body| > MaxStrDigits
    ensures ParseInt(body) == None
  {
    NoIntSpaceToSkip(body);
    assert NumeralBody(body) == body;
    DigitsAreRun(body);
  }

  /** Plain digits form a digit run with no underscore to remove. */
  lemma DigitsAreRun(body: string)
    requires |body| > 0 && AllDigits(body)
    ensures IsDigitRun(body) && RemoveUnderscores(body) == body
  {
  }

  /** `int()` of a run of digits after a minus sign. */
  lemma ParseNegativeDigits(body: string)
    requires |body| > 0 && AllDigits(body) && |body| <= MaxStrDigits
    ensures ParseInt("-" + body) == Some(-(DigitsValue(body) as int))
  {
    var z := "-" + body;
    assert |z| > 1 && z[0] == '-' && z[1..] == body;
    NegativeNumeral(z, body);
  }

  /** A minus sign before plain digits reads as the negated value. */
  lemma NegativeNumeral(z: string, body: string)
    requires |body| > 0 && AllDigits(body) && |body| <= MaxStrDigits
    requires |z| > 1 && z[0] == '-' && z[1..] == body
    ensures ParseInt(z) == Some(-(DigitsValue(body) as int))
  {
    assert z[|z| - 1] == body[|body| - 1];
    NoIntSpaceToSkip(z);
    DigitsAreRun(body);
    assert NumeralBody(z) == body;
  }

  /** `str(n).zfill(w)` is an optional minus sign followed by the digits of |n|, zero-padded. */
  lemma ZFilledRenderBody(n: int, w: nat) returns (body: string)
    ensures |body| > 0 && AllDigits(body)
    ensures DigitsValue(body) == if n < 0 then -n else n
    ensures ZFill(Render(n), w) == (if n < 0 then "-" else "") + body
    ensures |body| <= w || body == DecimalDigits(if n < 0 then -n else n)
  {
    var z := ZFill(Render(n), w);
    var d := DecimalDigits(if n < 0 then -n else n);
    var k := if |Render(n)| >= w then 0 else w - |Render(n)|;
    body := Zeros(k) + d;
    LeadingZeros(k, d);
    assert k == 0 ==> body == d;
    if n < 0 {
      assert Render(n)[1..] == d;
      assert z == "-" + body;
    } else {
      assert z == "" + body;
    }
  }

  /**
   * `int()` reads back what `str(n).zfill(w)` writes, the value unchanged,
   * when neither `n` nor the width goes past the digit limit.
   */
  lemma ParseZFilledRender(n: int, w: nat)
    requires w <= MaxStrDigits && |DecimalDigits(if n < 0 then -n else n)| <= MaxStrDigits
    ensures ParseInt(ZFill(Render(n), w)) == Some(n)
  {
    var body := ZFilledRenderBody(n, w);
    if n < 0 {
      ParseNegativeDigits(body);
    } else {
      assert ZFill(Render(n), w) == body;
      ParseDigits(body);
    }
  }
}
