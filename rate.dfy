/**
 Normalisation of the raw hourly rate (`parse_hourly_rate`): a number is kept
 as it is; a string loses every pound sign and is then read the way Ruby's
 `String#to_f` reads a plain decimal: leading whitespace, an optional sign,
 digits, and an optional fraction. When neither a digit nor a point followed
 by a digit comes after the whitespace and sign, the string reads as 0.
 */
module HourlyRate {
  import opened Values

  predicate IsDigit(c: char) {
    '0' <= c <= '9'
  }

  predicate AllDigits(d: string) {
    forall i :: 0 <= i < |d| ==> IsDigit(d[i])
  }

  /** The whitespace characters `to_f` skips before the number. */
  predicate IsSpace(c: char) {
    c == ' ' || c == '\t' || c == '\n' || c == '\r' || c == '\U{000B}' || c == '\U{000C}'
  }

  function DigitValue(c: char): (v: nat)
    requires IsDigit(c)
    ensures v < 10
  {
    c as int - '0' as int
  }

  function Pow10(k: nat): (p: nat)
    ensures p >= 1
  {
    if k == 0 then 1 else 10 * Pow10(k - 1)
  }

  /** `rate.gsub('£', '')`: every pound sign removed, everything else kept in order. */
  function StripPound(s: string): (r: string)
    ensures '£' !in r
  {
    if s == [] then []
    else
      if s[0] == '£' then StripPound(s[1..]) else [s[0]] + StripPound(s[1..])
  }

  /** What is left of s once its leading whitespace is skipped: a suffix of s. */
  function SkipSpace(s: string): (t: string)
    ensures |t| <= |s| && t == s[|s| - |t|..]
    ensures forall i :: 0 <= i < |s| - |t| ==> IsSpace(s[i])
    ensures t == [] || !IsSpace(t[0])
  {
    if s != [] && IsSpace(s[0]) then
      var t := SkipSpace(s[1..]);
      assert forall i :: 1 <= i < |s| - |t| ==> s[i] == s[1..][i - 1];
      t
    else s
  }

  /** Length of the longest run of digits at the start of s. */
  function DigitRun(s: string): (n: nat)
    ensures n <= |s|
    ensures AllDigits(s[..n])
    ensures n < |s| ==> !IsDigit(s[n])
  {
    if s != [] && IsDigit(s[0]) then
      assert s[..1 + DigitRun(s[1..])] == [s[0]] + s[1..][..DigitRun(s[1..])];
      1 + DigitRun(s[1..])
    else 0
  }

  /** The natural number a string of digits denotes, most significant digit first. */
  function DigitsValue(d: string): (v: nat)
    requires AllDigits(d)
    ensures v < Pow10(|d|)
  {
    if d == [] then 0
    else
      assert AllDigits(d[..|d| - 1]);
      DigitsValue(d[..|d| - 1]) * 10 + DigitValue(d[|d| - 1])
  }

  /** The value of the digits after a decimal point, first digit worth a tenth. */
  function Fraction(d: string): (f: real)
    requires AllDigits(d)
    ensures 0.0 <= f < 1.0
  {
    if d == [] then 0.0
    else
      assert AllDigits(d[1..]);
      (DigitValue(d[0]) as real + Fraction(d[1..])) / 10.0
  }

  /** The digits after the point when s starts with a point followed by a digit, else nothing. */
  function FractionDigits(s: string): (d: string)
    ensures AllDigits(d)
  {
    if |s| >= 2 && s[0] == '.' && IsDigit(s[1]) then s[1..][..DigitRun(s[1..])] else []
  }

  /** u starts with a digit, or with a point followed by a digit. */
  predicate StartsWithNumber(u: string) {
    (|u| >= 1 && IsDigit(u[0])) || (|u| >= 2 && u[0] == '.' && IsDigit(u[1]))
  }

  /** The unsigned number at the start of u: integer digits, then an optional fraction. */
  function Magnitude(u: string): (m: real)
    ensures 0.0 <= m
    ensures !StartsWithNumber(u) ==> m == 0.0
  {
    var n := DigitRun(u);
    assert !StartsWithNumber(u) ==> n == 0 && u[..n] == [] && u[n..] == u;
    DigitsValue(u[..n]) as real + Fraction(FractionDigits(u[n..]))
  }

  /** What follows an optional leading sign. */
  function Unsigned(t: string): (u: string)
    ensures |u| <= |t| && u == t[|t| - |u|..]
    ensures |t| - |u| <= 1
    ensures |u| < |t| <==> t != [] && (t[0] == '-' || t[0] == '+')
  {
    if t != [] && (t[0] == '-' || t[0] == '+') then t[1..] else t
  }

  /**
   The plain decimal that `to_f` reads at the start of s: after whitespace and
   an optional sign, the digits and fraction, negated by a minus sign. With no
   number there it reads 0, and without a minus sign it is never negative.
   */
  function LeadingDecimal(s: string): (r: real)
    ensures !StartsWithNumber(Unsigned(SkipSpace(s))) ==> r == 0.0
    ensures '-' !in s ==> r >= 0.0
  {
    var t := SkipSpace(s);
    assert t != [] ==> t[0] == s[|s| - |t|];
    var m := Magnitude(Unsigned(t));
    if t != [] && t[0] == '-' then -m else m
  }

  /** `parse_hourly_rate`: a number unchanged, a string read as a decimal after its pound signs go. */
  function ParseHourlyRate(rate: Value): (r: real)
    requires rate != Nil  // `nil.gsub` raises NoMethodError
    ensures rate.Num? ==> r == rate.n
  {
    match rate
    case Num(x) => x
    case Str(s) => LeadingDecimal(StripPound(s))
  }

  // ---------------------------------------------------------------------------
  // Pound-sign removal

  lemma {:induction false} StripPoundConcat(a: string, b: string)
    ensures StripPound(a + b) == StripPound(a) + StripPound(b)
  {
    if a == [] {
      assert a + b == b;
    } else {
      assert (a + b)[0] == a[0];
      assert (a + b)[1..] == a[1..] + b;
      StripPoundConcat(a[1..], b);
    }
  }

  lemma {:induction false} StripPoundNoPound(s: string)
    requires '£' !in s
    ensures StripPound(s) == s
  {
    if s != [] {
      assert s[0] != '£';
      assert '£' !in s[1..] by {
        assert forall i :: 0 <= i < |s[1..]| ==> s[1..][i] == s[i + 1];
      }
      StripPoundNoPound(s[1..]);
    }
  }

  /** Every character other than the pound sign survives, as often as it occurs. */
  lemma {:induction false} StripPoundKeepsOthers(s: string)
    ensures multiset(StripPound(s)) == multiset(s)['£' := 0]
  {
    if s != [] {
      assert s == [s[0]] + s[1..];
      StripPoundKeepsOthers(s[1..]);
    }
  }

  /** Removing the pound signs twice is the same as removing them once. */
  lemma StripPoundIdempotent(s: string)
    ensures StripPound(StripPound(s)) == StripPound(s)
  {
    StripPoundNoPound(StripPound(s));
  }

  /** A pound sign anywhere in the string, not only in front, is ignored. */
  lemma PoundSignAnywhereIgnored(a: string, b: string)
    ensures ParseHourlyRate(Str(a + "£" + b)) == ParseHourlyRate(Str(a + b))
  {
    assert StripPound(a + "£" + b) == StripPound(a + b) by {
      StripPoundConcat(a + "£", b);
      StripPoundConcat(a, "£");
      StripPoundConcat(a, b);
      assert StripPound("£") == [];
      assert StripPound(a) + [] == StripPound(a);
    }
  }

  // ---------------------------------------------------------------------------
  // Reading the decimal

  /** A string with no digit at all reads as 0, so does the rate "unsure". */
  lemma NoDigitReadsZero(s: string)
    requires forall i :: 0 <= i < |s| ==> !IsDigit(s[i])
    ensures LeadingDecimal(s) == 0.0
  {
    var u := Unsigned(SkipSpace(s));
    var k := |s| - |u|;
    if |u| >= 1 {
      assert u[0] == s[k];
    }
    if |u| >= 2 {
      assert u[1] == s[k + 1];
    }
  }

  /** A string that starts with a letter reads as 0, whatever digits come later. */
  lemma LetterFirstReadsZero(s: string)
    requires s != [] && ('a' <= s[0] <= 'z' || 'A' <= s[0] <= 'Z')
    ensures LeadingDecimal(s) == 0.0
  {
    assert !IsSpace(s[0]) && s[0] != '-' && s[0] != '+';
    assert !StartsWithNumber(s);
  }

  /** A digit run followed by something that is not a digit stops where the digits stop. */
  lemma {:induction false} DigitRunOfDigits(a: string, b: string)
    requires AllDigits(a)
    requires b == [] || !IsDigit(b[0])
    ensures DigitRun(a + b) == |a|
  {
    if a == [] {
      assert a + b == b;
    } else {
      assert (a + b)[0] == a[0];
      assert (a + b)[1..] == a[1..] + b;
      assert AllDigits(a[1..]);
      DigitRunOfDigits(a[1..], b);
    }
  }

  function DigitChar(k: nat): (c: char)
    requires k < 10
    ensures IsDigit(c) && DigitValue(c) == k
  {
    ('0' as int + k) as char
  }

  /** The decimal digits of n, without leading zeros. */
  function RenderNat(n: nat): (d: string)
    ensures |d| >= 1 && AllDigits(d)
  {
    if n < 10 then [DigitChar(n)] else RenderNat(n / 10) + [DigitChar(n % 10)]
  }

  lemma {:induction false} RenderNatValue(n: nat)
    ensures DigitsValue(RenderNat(n)) == n
  {
    var d := RenderNat(n);
    if n >= 10 {
      assert d[..|d| - 1] == RenderNat(n / 10);
      RenderNatValue(n / 10);
    }
  }

  /** A price written the usual way, `£<pounds>.<two digits of pence>`. */
  function RenderPrice(pounds: nat, pence: nat): string
    requires pence < 100
  {
    "£" + RenderNat(pounds) + "." + [DigitChar(pence / 10), DigitChar(pence % 10)]
  }

  /** A plain decimal `<digits>.<digits>` is read back as its integer part plus its fraction. */
  lemma ReadPlainDecimal(whole: string, frac: string)
    requires |whole| >= 1 && AllDigits(whole)
    requires |frac| >= 1 && AllDigits(frac)
    ensures LeadingDecimal(whole + "." + frac) == DigitsValue(whole) as real + Fraction(frac)
  {
    var x := whole + "." + frac;
    assert x[0] == whole[0];
    DigitFirstIsUnsigned(x);
    PlainDecimalMagnitude(whole, frac);
  }

  /** With a digit in front there is neither whitespace nor a sign to skip. */
  lemma DigitFirstIsUnsigned(s: string)
    requires s != [] && IsDigit(s[0])
    ensures LeadingDecimal(s) == Magnitude(s)
  {
    assert !IsSpace(s[0]);
  }

  lemma PlainDecimalMagnitude(whole: string, frac: string)
    requires AllDigits(whole)
    requires |frac| >= 1 && AllDigits(frac)
    ensures Magnitude(whole + "." + frac) == DigitsValue(whole) as real + Fraction(frac)
  {
    var x := whole + "." + frac;
    assert x == whole + ("." + frac);
    DigitRunOfDigits(whole, "." + frac);
    assert x[..|whole|] == whole;
    assert x[|whole|..] == "." + frac;
    assert ("." + frac)[1..] == frac;
    DigitRunOfDigits(frac, []);
    assert frac + [] == frac;
    assert frac[..|frac|] == frac;
    assert FractionDigits("." + frac) == frac;
  }

  /** Every price written the usual way is read back as exactly its amount. */
  lemma PriceRoundTrip(pounds: nat, pence: nat)
    requires pence < 100
    ensures ParseHourlyRate(Str(RenderPrice(pounds, pence))) == pounds as real + pence as real / 100.0
  {
    var whole := RenderNat(pounds);
    var cents := [DigitChar(pence / 10), DigitChar(pence % 10)];
    var x := whole + "." + cents;
    assert RenderPrice(pounds, pence) == "£" + x;
    assert StripPound("£" + x) == x by {
      assert '£' !in x by {
        assert forall i :: 0 <= i < |x| ==> x[i] == '.' || IsDigit(x[i]);
      }
      StripPoundConcat("£", x);
      StripPoundNoPound(x);
      assert StripPound("£") == [];
    }
    ReadPlainDecimal(whole, cents);
    RenderNatValue(pounds);
    PenceFraction(pence);
  }

  lemma PenceFraction(pence: nat)
    requires pence < 100
    ensures Fraction([DigitChar(pence / 10), DigitChar(pence % 10)]) == pence as real / 100.0
  {
    var cents := [DigitChar(pence / 10), DigitChar(pence % 10)];
    assert cents[1..] == [cents[1]];
    assert cents[1..][1..] == [];
    var tens, units := pence / 10, pence % 10;
    assert pence == 10 * tens + units;
    assert Fraction(cents[1..]) == units as real / 10.0;
    assert Fraction(cents) == (tens as real + units as real / 10.0) / 10.0;
  }

  /** The rate of the sample answer file. */
  lemma SampleRate()
    ensures ParseHourlyRate(Str("£8.22")) == 8.22
  {
    SamplePoundStripped();
    SampleDecimal();
  }

  /** Its one pound sign, in front, is the only character removed. */
  lemma SamplePoundStripped()
    ensures StripPound("£8.22") == "8.22"
  {
    var x := "8.22";
    assert "£8.22" == "£" + x;
    StripPoundConcat("£", x);
    StripPoundNoPound(x);
  }

  /** What is left reads as eight pounds and twenty-two hundredths. */
  lemma SampleDecimal()
    ensures LeadingDecimal("8.22") == 8.22
  {
    assert "8.22" == "8" + "." + "22";
    ReadPlainDecimal("8", "22");
    SamplePence();
  }

  lemma SamplePence()
    ensures Fraction("22") == 0.22
  {
    assert "22" == [DigitChar(2), DigitChar(2)];
    PenceFraction(22);
  }

  /** An hourly rate answered "unsure" is read as a wage of 0. */
  lemma UnsureRateReadsZero()
    ensures ParseHourlyRate(Str("unsure")) == 0.0
  {
    StripPoundNoPound("unsure");
    LetterFirstReadsZero("unsure");
  }
}
