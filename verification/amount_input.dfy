/**
 * The decimal amount fields: the acceptance test every amount input applies to a keystroke
 * (`^\d*\.?\d*$` or the empty string), the value `parseFloat(text) || 0` gives an accepted text,
 * and the MAX button of the swap amount.
 */
module AmountInput {
  import opened Wrappers
  import Numbers

  /** `\d` without the unicode flag: an ASCII digit. */
  predicate IsDigit(c: char) {
    '0' <= c <= '9'
  }

  predicate AllDigits(s: string) {
    forall i :: 0 <= i < |s| ==> IsDigit(s[i])
  }

  /** `/^\d*\.?\d*$/.test(s)`: a run of digits, then optionally a point and a second run of digits. */
  ghost predicate MatchesPattern(s: string) {
    exists k :: 0 <= k <= |s| && AllDigits(s[..k]) && (k == |s| || (s[k] == '.' && AllDigits(s[k + 1..])))
  }

  /** The length of the longest run of digits `s` starts with. */
  function LeadingDigits(s: string): (k: nat)
    ensures k <= |s| && AllDigits(s[..k]) && (k < |s| ==> !IsDigit(s[k]))
  {
    if s == [] || !IsDigit(s[0]) then 0
    else
      var k := 1 + LeadingDigits(s[1..]);
      assert forall i :: 1 <= i < k ==> s[..k][i] == s[1..][..k - 1][i - 1];
      k
  }

  /** A match can only split at the end of the leading run of digits. */
  lemma MatchSplitsAtLeadingDigits(s: string, k: nat)
    requires k <= |s| && AllDigits(s[..k]) && (k == |s| || s[k] == '.')
    ensures k == LeadingDigits(s)
  {
    var d := LeadingDigits(s);
    assert forall i :: 0 <= i < k ==> IsDigit(s[i]) by {
      assert forall i :: 0 <= i < k ==> s[..k][i] == s[i];
    }
    assert forall i :: 0 <= i < d ==> IsDigit(s[i]) by {
      assert forall i :: 0 <= i < d ==> s[..d][i] == s[i];
    }
  }

  /** The test of `handleChange`: the empty string, or a match of the pattern. */
  function Accepts(s: string): (b: bool)
    ensures b <==> s == "" || MatchesPattern(s)
  {
    var k := LeadingDigits(s);
    if s == "" || k == |s| || (s[k] == '.' && AllDigits(s[k + 1..])) then true
    else
      assert !MatchesPattern(s) by {
        if j :| 0 <= j <= |s| && AllDigits(s[..j]) && (j == |s| || (s[j] == '.' && AllDigits(s[j + 1..]))) {
          MatchSplitsAtLeadingDigits(s, j);
        }
      }
      false
  }

  /** Accepted texts are exactly those made of ASCII digits and at most one point. */
  lemma AcceptsExactly(s: string)
    ensures Accepts(s) <==>
      (forall i :: 0 <= i < |s| ==> IsDigit(s[i]) || s[i] == '.') &&
      (forall i, j :: 0 <= i < j < |s| && s[i] == '.' ==> s[j] != '.')
  {
    var k := LeadingDigits(s);
    if Accepts(s) && s != "" {
      assert k < |s| ==> AllDigits(s[k + 1..]);
      forall i | 0 <= i < |s|
        ensures IsDigit(s[i]) || s[i] == '.'
        ensures s[i] == '.' ==> i == k
      {
        if i < k {
          assert s[..k][i] == s[i];
        } else if i > k {
          assert s[k + 1..][i - k - 1] == s[i];
        }
      }
    }
    if (forall i :: 0 <= i < |s| ==> IsDigit(s[i]) || s[i] == '.') &&
       (forall i, j :: 0 <= i < j < |s| && s[i] == '.' ==> s[j] != '.') &&
       k < |s|
    {
      assert s[k] == '.';
      var rest := s[k + 1..];
      forall i | 0 <= i < |rest|
        ensures IsDigit(rest[i])
      {
        assert rest[i] == s[k + 1 + i];
      }
    }
  }

  /** The inputs the amount fields let through and those they refuse. */
  lemma AcceptanceExamples()
    ensures Accepts("") && Accepts(".") && Accepts("12.") && Accepts(".5") && Accepts("1000")
    ensures !Accepts("1.2.3") && !Accepts("-1") && !Accepts("1e5")
  {
    assert LeadingDigits(".") == 0;
    assert LeadingDigits("12.") == 2 by {
      assert "12."[1..] == "2." && "2."[1..] == ".";
    }
    assert LeadingDigits(".5") == 0;
    assert Accepts("1000") by {
      AcceptsExactly("1000");
    }
    assert !Accepts("1.2.3") by {
      AcceptsExactly("1.2.3");
      assert "1.2.3"[1] == '.' && "1.2.3"[3] == '.';
    }
    assert !Accepts("-1") by {
      AcceptsExactly("-1");
      assert !IsDigit("-1"[0]);
    }
    assert !Accepts("1e5") by {
      AcceptsExactly("1e5");
      assert !IsDigit("1e5"[1]);
    }
  }

  /**
   * `handleChange`: an accepted keystroke is passed on to `onChange`; a refused one is dropped and
   * the field keeps its text.
   */
  function HandleChange(current: string, raw: string): (next: string)
    ensures Accepts(raw) ==> next == raw
    ensures !Accepts(raw) ==> next == current
  {
    if raw == "" || Accepts(raw) then raw else current
  }

  /** A field that starts with accepted text only ever holds accepted text. */
  lemma {:induction false} FieldStaysAccepted(initial: string, keystrokes: seq<string>)
    requires Accepts(initial)
    ensures Accepts(Typed(initial, keystrokes))
    decreases |keystrokes|
  {
    if keystrokes != [] {
      FieldStaysAccepted(initial, keystrokes[..|keystrokes| - 1]);
    }
  }

  /** The text after a run of keystrokes. */
  function Typed(initial: string, keystrokes: seq<string>): string
    decreases |keystrokes|
  {
    if keystrokes == [] then initial
    else HandleChange(Typed(initial, keystrokes[..|keystrokes| - 1]), keystrokes[|keystrokes| - 1])
  }

  function DigitValue(c: char): (d: nat)
    requires IsDigit(c)
    ensures d <= 9
  {
    c as int - '0' as int
  }

  /** The value of a run of decimal digits. */
  function WholeValue(ds: string): nat
    requires AllDigits(ds)
    decreases |ds|
  {
    if ds == [] then 0 else WholeValue(ds[..|ds| - 1]) * 10 + DigitValue(ds[|ds| - 1])
  }

  /** The value of the digits after the point: a fraction below one. */
  function FractionValue(ds: string): (v: real)
    requires AllDigits(ds)
    ensures 0.0 <= v < 1.0
    decreases |ds|
  {
    if ds == [] then 0.0
    else
      assert AllDigits(ds[1..]) by {
        assert forall i :: 0 <= i < |ds| - 1 ==> ds[1..][i] == ds[i + 1];
      }
      (DigitValue(ds[0]) as real + FractionValue(ds[1..])) / 10.0
  }

  /**
   * `parseFloat(s) || 0` on an accepted text: the number its digits spell, and 0 when it has no
   * digit at all (`parseFloat` gives NaN for "" and ".").
   */
  function AmountValue(s: string): (v: real)
    requires Accepts(s)
    ensures v >= 0.0
    ensures AllDigits(s) ==> v == WholeValue(s) as real
  {
    var k := LeadingDigits(s);
    if k == |s| then
      assert s[..k] == s;
      WholeValue(s) as real
    else
      assert AllDigits(s[k + 1..]);
      WholeValue(s[..k]) as real + FractionValue(s[k + 1..])
  }

  /** `v` with its decimal point moved `n` places to the right: `v * 10^n`, one factor of ten at a time. */
  function Shifted(v: real, n: nat): real {
    if n == 0 then v else 10.0 * Shifted(v, n - 1)
  }

  lemma {:induction false} ShiftedIsProduct(v: real, n: nat)
    ensures Shifted(v, n) == v * (Numbers.IntPow10(n) as real)
  {
    if n > 0 {
      ShiftedIsProduct(v, n - 1);
      var p := Numbers.IntPow10(n - 1) as real;
      assert Numbers.IntPow10(n) as real == 10.0 * p;
      assert 10.0 * (v * p) == v * (10.0 * p);
    }
  }

  lemma {:induction false} ShiftedAdd(a: real, b: real, n: nat)
    ensures Shifted(a + b, n) == Shifted(a, n) + Shifted(b, n)
  {
    if n > 0 {
      ShiftedAdd(a, b, n - 1);
    }
  }

  lemma {:induction false} ShiftedTenth(x: real, n: nat)
    ensures Shifted(x / 10.0, n + 1) == Shifted(x, n)
  {
    if n > 0 {
      ShiftedTenth(x, n - 1);
    }
  }

  /** Appending the digits `b` shifts the value of `a` left by their count and adds theirs. */
  lemma {:induction false} WholeValueConcat(a: string, b: string)
    requires AllDigits(a) && AllDigits(b)
    ensures AllDigits(a + b)
    ensures WholeValue(a + b) as real == Shifted(WholeValue(a) as real, |b|) + WholeValue(b) as real
    decreases |b|
  {
    if b == [] {
      assert a + b == a;
    } else {
      var b' := b[..|b| - 1];
      assert (a + b)[..|a + b| - 1] == a + b';
      assert (a + b)[|a + b| - 1] == b[|b| - 1];
      WholeValueConcat(a, b');
    }
  }

  /** The leading digit counts ten to the number of digits after it. */
  lemma WholeValueFront(ds: string)
    requires AllDigits(ds) && ds != []
    ensures AllDigits(ds[1..])
    ensures WholeValue(ds) as real == Shifted(DigitValue(ds[0]) as real, |ds| - 1) + WholeValue(ds[1..]) as real
  {
    var rest := ds[1..];
    assert AllDigits(rest) by {
      assert forall i :: 0 <= i < |rest| ==> rest[i] == ds[i + 1];
    }
    assert ds == [ds[0]] + rest;
    assert [ds[0]][..0] == [];
    assert WholeValue([ds[0]]) == DigitValue(ds[0]);
    WholeValueConcat([ds[0]], rest);
  }

  /** The digits after the point, shifted left by their count, spell a whole number. */
  lemma {:induction false} FractionValueShifted(ds: string)
    requires AllDigits(ds)
    ensures Shifted(FractionValue(ds), |ds|) == WholeValue(ds) as real
    decreases |ds|
  {
    if ds != [] {
      WholeValueFront(ds);
      var rest := ds[1..];
      var d := DigitValue(ds[0]) as real;
      FractionValueShifted(rest);
      ShiftedTenth(d + FractionValue(rest), |rest|);
      ShiftedAdd(d, FractionValue(rest), |rest|);
    }
  }

  /**
   * With a point in the text, the value with its point moved past every digit after it (times ten
   * to their count, by `ShiftedIsProduct`) is the whole number the digits spell with the point taken out.
   */
  lemma AmountValueShifted(s: string)
    requires Accepts(s) && !AllDigits(s)
    ensures var k := LeadingDigits(s);
      k < |s| && s[k] == '.' && AllDigits(s[..k] + s[k + 1..]) &&
      Shifted(AmountValue(s), |s| - k - 1) == WholeValue(s[..k] + s[k + 1..]) as real
  {
    var k := LeadingDigits(s);
    var i, f := s[..k], s[k + 1..];
    assert AllDigits(i) && AllDigits(f);
    WholeValueConcat(i, f);
    FractionValueShifted(f);
    ShiftedSum(AmountValue(s), WholeValue(i) as real, FractionValue(f), WholeValue(f) as real,
      WholeValue(i + f) as real, |f|);
  }

  lemma ShiftedSum(v: real, whole: real, fraction: real, w: real, total: real, n: nat)
    requires v == whole + fraction && Shifted(fraction, n) == w && total == Shifted(whole, n) + w
    ensures Shifted(v, n) == total
  {
    ShiftedAdd(whole, fraction, n);
  }

  /** Sample values: the point alone and the empty text read as zero. */
  lemma AmountValueOfNoDigits()
    ensures AmountValue("") == 0.0 && AmountValue(".") == 0.0
  {
    assert LeadingDigits(".") == 0;
    assert "."[1..] == "";
  }

  /** Sample values with digits on one side of the point. */
  lemma AmountValueExamples()
    ensures AmountValue("12.") == 12.0 && AmountValue(".5") == 0.5
  {
    assert LeadingDigits("12.") == 2 by {
      assert "12."[1..] == "2." && "2."[1..] == ".";
    }
    assert "12."[..2] == "12" && "12"[..1] == "1" && "1"[..0] == "";
    assert WholeValue("12") == 12;
    assert "12."[3..] == "";
    assert LeadingDigits(".5") == 0;
    assert ".5"[..0] == "" && ".5"[1..] == "5" && "5"[1..] == "";
    assert FractionValue("5") == 0.5;
  }

  /** A run of digits reads as the whole number it spells. */
  lemma AmountValueOfWhole()
    ensures AmountValue("1000") == 1000.0
  {
    assert AllDigits("1000");
    assert "1000"[..3] == "100" && "100"[..2] == "10" && "10"[..1] == "1" && "1"[..0] == "";
    assert WholeValue("1000") == 1000;
  }

  /** The MAX button: shown exactly for a defined positive balance, and it fills in that balance. */
  function MaxButton(maxBalance: Option<real>): (emit: Option<real>)
    ensures emit.Some? <==> maxBalance.Some? && maxBalance.value > 0.0
    ensures emit.Some? ==> emit.value == maxBalance.value
  {
    if maxBalance.Some? && maxBalance.value > 0.0 then maxBalance else None
  }
}
