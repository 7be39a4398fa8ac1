/**
 * The feedback-side `treatment_id` standardisation of the ETL step:
 * delete every "T", read the rest as a 64-bit integer and write it back
 * as "T" followed by the number zero-filled to at least four characters.
 */
module TreatmentIds {
  import opened Wrappers
  import opened Text

  /** Why a feedback `treatment_id` cannot be standardised; the run stops on the first one. */
  datatype IdError =
    | NotAnInteger(treatmentId: string)   // `int()` raises ValueError on what is left
    | Int64Overflow(treatmentId: string)  // the integer does not fit numpy's int64

  const Int64Min: int := -0x8000_0000_0000_0000
  const Int64Max: int := 0x7FFF_FFFF_FFFF_FFFF

  /** `s.replace("T", "")`: every upper-case T removed, everything else kept in order. */
  function RemoveT(s: string): (r: string)
    ensures 'T' !in r
    ensures |r| <= |s|
  {
    if s == [] then [] else (if s[0] == 'T' then [] else [s[0]]) + RemoveT(s[1..])
  }

  /** A string without a T passes through `replace("T", "")` unchanged. */
  lemma {:induction false} RemoveTKeeps(s: string)
    requires 'T' !in s
    ensures RemoveT(s) == s
  {
    if s != [] {
      assert s[0] != 'T';
      assert 'T' !in s[1..];
      RemoveTKeeps(s[1..]);
    }
  }

  /** One character: a T is deleted, anything else kept. */
  lemma RemoveTChar(c: char)
    ensures RemoveT([c]) == if c == 'T' then [] else [c]
  {
    assert [c][1..] == [];
  }

  /**
   * `replace` works character by character: on a concatenation it is the
   * concatenation of its results, so with `RemoveTChar` it keeps every other
   * character, in order.
   */
  lemma {:induction false} RemoveTAppend(a: string, b: string)
    ensures RemoveT(a + b) == RemoveT(a) + RemoveT(b)
  {
    if a != [] {
      assert (a + b)[0] == a[0];
      assert (a + b)[1..] == a[1..] + b;
      RemoveTAppend(a[1..], b);
    } else {
      assert a + b == b;
    }
  }

  /** "1T2" becomes "12": characters on both sides of a T are kept, in order. */
  lemma RemoveTInsideExample()
    ensures RemoveT("1T2") == "12"
  {
    assert "1T2" == ['1'] + ['T'] + ['2'];
    RemoveTAppend(['1'] + ['T'], ['2']);
    RemoveTAppend(['1'], ['T']);
    RemoveTChar('1');
    RemoveTChar('T');
    RemoveTChar('2');
  }

  /** The standardisation of one feedback `treatment_id` value. */
  function NormalizeTreatmentId(s: string): Result<string, IdError>
  {
    match ParseInt(RemoveT(s))
    case None => Failure(NotAnInteger(s))
    case Some(n) =>
      if n < Int64Min || n > Int64Max then Failure(Int64Overflow(s))
      else Success("T" + ZFill(Render(n), 4))
  }

  /**
   * A standardised id is "T" and at least four characters that read back as the
   * same integer the input held, with nothing to strip at either end.
   */
  lemma NormalizedShape(s: string)
    requires NormalizeTreatmentId(s).Success?
    ensures var r := NormalizeTreatmentId(s).value;
      && |r| >= 5 && r[0] == 'T' && IsStripped(r)
      && ParseInt(r[1..]) == ParseInt(RemoveT(s))
  {
    var n := ParseInt(RemoveT(s)).value;
    assert NormalizeTreatmentId(s).value == "T" + ZFill(Render(n), 4);
    StandardForm(n);
    Int64Digits(n);
    ParseZFilledRender(n, 4);
  }

  /** "T" followed by a zero-filled number: five or more characters, no blank at either end. */
  lemma StandardForm(n: int)
    ensures var r := "T" + ZFill(Render(n), 4);
      && |r| >= 5 && r[0] == 'T' && IsStripped(r) && r[1..] == ZFill(Render(n), 4)
  {
    var r := "T" + ZFill(Render(n), 4);
    var body := ZFilledRenderBody(n, 4);
    assert r[1..] == ZFill(Render(n), 4);
    assert r[|r| - 1] == body[|body| - 1];
    assert IsDigit(r[|r| - 1]);
  }

  /** An int64 value takes at most 19 digits, far below `int()`'s digit limit. */
  lemma Int64Digits(n: int)
    requires Int64Min <= n <= Int64Max
    ensures |DecimalDigits(if n < 0 then -n else n)| <= 19
  {
    assert Pow10(19) == 10_000_000_000_000_000_000 by {
      assert Pow10(4) == 10_000;
      assert Pow10(8) == 100_000_000;
      assert Pow10(12) == 1_000_000_000_000;
      assert Pow10(16) == 10_000_000_000_000_000;
    }
    DigitsBelowPow10(if n < 0 then -n else n, 19);
  }

  /** Standardising an already standardised id changes nothing. */
  lemma NormalizeIdempotent(s: string)
    requires NormalizeTreatmentId(s).Success?
    ensures NormalizeTreatmentId(NormalizeTreatmentId(s).value) == NormalizeTreatmentId(s)
  {
    var n := ParseInt(RemoveT(s)).value;
    var r := NormalizeTreatmentId(s).value;
    var z := ZFill(Render(n), 4);
    var body := ZFilledRenderBody(n, 4);
    assert 'T' !in z by {
      assert forall i :: 0 <= i < |body| ==> body[i] != 'T';
    }
    assert r[1..] == z;
    assert RemoveT(r) == RemoveT(z);
    RemoveTKeeps(z);
    Int64Digits(n);
    ParseZFilledRender(n, 4);
  }

  /** "T" + digits below 10000 becomes exactly five characters: "T" and four digits of the same value. */
  lemma ShortIdHasFiveChars(d: string)
    requires |d| > 0 && AllDigits(d) && |d| <= MaxStrDigits && DigitsValue(d) < 10000
    ensures NormalizeTreatmentId("T" + d).Success?
    ensures var r := NormalizeTreatmentId("T" + d).value;
      |r| == 5 && r[0] == 'T' && AllDigits(r[1..]) && DigitsValue(r[1..]) == DigitsValue(d)
  {
    var v := DigitsValue(d);
    assert 'T' !in d by {
      assert forall i :: 0 <= i < |d| ==> d[i] != 'T';
    }
    assert RemoveT("T" + d) == RemoveT(d) by {
      assert ("T" + d)[1..] == d;
    }
    RemoveTKeeps(d);
    ParseDigits(d);
    ShortNumberDigits(v);
    var body := ZFilledRenderBody(v, 4);
    var r := NormalizeTreatmentId("T" + d).value;
    assert r[1..] == body;
  }

  /**
   * What is left after removing the T's is refused when it is empty or holds a
   * character `int()` never accepts (a letter other than T, a dot, ...).
   */
  lemma NonNumeralFails(s: string)
    requires RemoveT(s) == [] || exists i :: 0 <= i < |RemoveT(s)| && !IsNumeralChar(RemoveT(s)[i])
    ensures NormalizeTreatmentId(s) == Failure(NotAnInteger(s))
  {
    if RemoveT(s) == [] {
      assert StripIntSpace(RemoveT(s)) == [];
    } else if ParseInt(RemoveT(s)).Some? {
      ParseIntChars(RemoveT(s));
      assert false;
    }
  }

  /**
   * "T" and more digits than `int()` accepts is refused as not an integer,
   * even when the value itself would fit int64.
   */
  lemma TooManyDigitsFails(d: string)
    requires AllDigits(d) && |d| > MaxStrDigits
    ensures NormalizeTreatmentId("T" + d) == Failure(NotAnInteger("T" + d))
  {
    assert 'T' !in d by {
      assert forall i :: 0 <= i < |d| ==> d[i] != 'T';
    }
    assert RemoveT("T" + d) == RemoveT(d) by {
      assert ("T" + d)[1..] == d;
    }
    RemoveTKeeps(d);
    TooManyDigits(d);
  }

  /** The value 1 behind `MaxStrDigits` or more leading zeros: "T" + "0" * k + "1" is refused. */
  lemma LongZeroPaddingFails(k: nat)
    requires k >= MaxStrDigits
    ensures NormalizeTreatmentId("T" + Zeros(k) + "1") == Failure(NotAnInteger("T" + Zeros(k) + "1"))
  {
    var d := Zeros(k) + "1";
    LeadingZeros(k, "1");
    assert "T" + Zeros(k) + "1" == "T" + d;
    TooManyDigitsFails(d);
  }

  /** The case the format is meant for: "T1" becomes "T0001". */
  lemma StandardizeExample()
    ensures NormalizeTreatmentId("T1") == Success("T0001")
  {
    RemoveTExample();
    ParseExample();
    StandardizedAs("T1", "1", 1, "0001");
    assert "T" + "0001" == "T0001";
  }

  /** The standard form of a value whose digits `d` read as an in-range `n`, zero-filled to `z`. */
  lemma StandardizedAs(s: string, d: string, n: int, z: string)
    requires RemoveT(s) == d && ParseInt(d) == Some(n) && Int64Min <= n <= Int64Max
    requires ZFill(Render(n), 4) == z
    ensures NormalizeTreatmentId(s) == Success("T" + z)
  {
  }

  lemma RemoveTExample()
    ensures RemoveT("T1") == "1"
  {
    assert "T1"[1..] == "1" && "1"[1..] == [];
  }

  lemma ParseExample()
    ensures ParseInt("1") == Some(1)
  {
    ParseDigits("1");
    assert "1"[..0] == [];
  }
}
