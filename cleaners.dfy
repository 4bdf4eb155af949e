/**
 * `clean_price` and `clean_ratings` (app.py): the two cleaners applied to the
 * dataset's numeric columns. A CSV cell is either text or a number that
 * pandas has already parsed.
 */
module Cleaners {
  import opened Wrappers
  import opened Text
  import opened Decimal

  datatype Cell = Str(s: string) | Num(x: real)

  /** The Indian rupee sign, U+20B9. */
  const Rupee: char := '\U{20B9}'

  /**
   * Python's `float(text)` on a decimal literal: the whitespace `float()`
   * trims is ignored and the literal is read exactly; `None` is the
   * `ValueError`.
   */
  function ToFloat(s: string): Option<real> {
    match ParseDecimal(Strip(FloatStrip, s))
    case Some(d) => Some(Value(d))
    case None => None
  }

  /**
   * The text `clean_price` hands to `float`: every rupee sign deleted, then
   * every comma, then whitespace trimmed at both ends.
   */
  function PriceText(s: string): (r: string)
    ensures Rupee !in r && ',' !in r && Trimmed(StrStrip, r)
  {
    var noRupee := Remove(s, Rupee);
    var noComma := Remove(noRupee, ',');
    StripKeepsAbsent(StrStrip, noComma, Rupee);
    Strip(StrStrip, noComma)
  }

  /** `clean_price`: strict; `None` when the cleaned text is not a number (the uncaught `ValueError`). */
  function CleanPrice(c: Cell): Option<real> {
    match c
    case Str(s) => ToFloat(PriceText(s))
    case Num(x) => Some(x)
  }

  /** `clean_ratings`: lenient; any text that is not a number becomes `0.0`. */
  function CleanRatings(c: Cell): real {
    match c
    case Str(s) => ToFloat(s).GetOr(0.0)
    case Num(x) => x
  }

  // ---------------------------------------------------------------------
  // Properties of the price text.

  /** Text that is already free of rupee signs, commas and outer whitespace is left alone. */
  lemma PriceTextFixed(s: string)
    requires Rupee !in s && ',' !in s && Trimmed(StrStrip, s)
    ensures PriceText(s) == s
  {
    RemoveAbsent(s, Rupee);
    RemoveAbsent(s, ',');
    StripTrimmed(StrStrip, s);
  }

  /** Cleaning the price text twice is the same as cleaning it once. */
  lemma PriceTextIdempotent(s: string)
    ensures PriceText(PriceText(s)) == PriceText(s)
  {
    PriceTextFixed(PriceText(s));
  }

  // ---------------------------------------------------------------------
  // Properties of the two cleaners.

  /**
   * `clean_price` on text succeeds exactly when the cleaned text is a
   * decimal literal, and then yields that literal's value; `float`'s own
   * whitespace trimming changes nothing after `strip()`.
   */
  lemma CleanPriceText(s: string)
    ensures ParseDecimal(PriceText(s)).Some? <==> WellFormed(PriceText(s))
    ensures CleanPrice(Str(s)).Some? <==> WellFormed(PriceText(s))
    ensures WellFormed(PriceText(s)) ==>
              CleanPrice(Str(s)) == Some(Value(ParseDecimal(PriceText(s)).value))
  {
    var t := PriceText(s);
    assert CleanPrice(Str(s)) == ToFloat(t);
    assert Strip(FloatStrip, t) == t by {
      FloatAfterStrip(PriceText(s));
      StripTrimmed(StrStrip, t);
    }
    ParseDecimalIff(t);
  }

  /** `clean_price(clean_price(x)) == clean_price(x)`: a cleaned price is a number and stays put. */
  lemma CleanPriceIdempotent(c: Cell)
    ensures CleanPrice(c).Some? ==> CleanPrice(Num(CleanPrice(c).value)) == CleanPrice(c)
  {
  }

  /**
   * `clean_ratings` on text never fails: the literal's value when the trimmed
   * text is a decimal literal, and `0.0` otherwise.
   */
  lemma CleanRatingsText(s: string)
    ensures ParseDecimal(Strip(FloatStrip, s)).Some? <==> WellFormed(Strip(FloatStrip, s))
    ensures WellFormed(Strip(FloatStrip, s)) ==>
              CleanRatings(Str(s)) == Value(ParseDecimal(Strip(FloatStrip, s)).value)
    ensures !WellFormed(Strip(FloatStrip, s)) ==> CleanRatings(Str(s)) == 0.0
  {
    ParseDecimalIff(Strip(FloatStrip, s));
  }

  /**
   * The asymmetry of the two cleaners: on text without rupee signs, commas
   * or separators both read the same number when there is one; when there is
   * none, `clean_price` fails where `clean_ratings` falls back to `0.0`.
   * (`SeparatorExample` shows why separators are excluded.)
   */
  lemma StrictVersusLenient(s: string)
    requires Rupee !in s && ',' !in s
    requires forall i :: 0 <= i < |s| ==> !IsSeparator(s[i])
    ensures CleanPrice(Str(s)).Some? ==> CleanPrice(Str(s)) == Some(CleanRatings(Str(s)))
    ensures CleanPrice(Str(s)).None? ==> CleanRatings(Str(s)) == 0.0
  {
    assert PriceText(s) == Strip(StrStrip, s) by {
      RemoveAbsent(s, Rupee);
      RemoveAbsent(s, ',');
    }
    assert Strip(FloatStrip, PriceText(s)) == Strip(FloatStrip, s) by {
      FloatAfterStrip(s);
      StripWithoutSeparators(s);
    }
  }

  /** A written-out decimal has nothing for either cleaner to remove. */
  lemma FormatIsClean(d: Decimal)
    ensures Rupee !in Format(d) && ',' !in Format(d) && Trimmed(StrStrip, Format(d))
  {
    var f := Format(d);
    assert !IsSpace(f[0]) && !IsSpace(f[|f| - 1]);
    assert forall i :: 0 <= i < |f| ==> f[i] != Rupee && f[i] != ',';
  }

  /** Both cleaners read a written-out decimal back as exactly its value. */
  lemma CleanFormatted(d: Decimal)
    ensures CleanPrice(Str(Format(d))) == Some(Value(d))
    ensures CleanRatings(Str(Format(d))) == Value(d)
  {
    FormatIsClean(d);
    PriceTextFixed(Format(d));
    StripTrimmed(FloatStrip, Format(d));
    ParseFormat(d);
  }

  // ---------------------------------------------------------------------
  // Worked examples.

  lemma RemoveRupeeExample()
    ensures Remove("\U{20B9}12,345.67", Rupee) == "12,345.67"
  {
    assert "\U{20B9}12,345.67" == [] + [Rupee] + "12,345.67";
    RemoveBetween([], Rupee, "12,345.67");
  }

  lemma RemoveCommaExample()
    ensures Remove("12,345.67", ',') == "12345.67"
  {
    assert "12,345.67" == "12" + [','] + "345.67";
    assert Remove("12" + [','] + "345.67", ',') == "12" + "345.67" by {
      RemoveBetween("12", ',', "345.67");
    }
    assert "12" + "345.67" == "12345.67";
  }

  lemma StripExample(t: Trim)
    ensures Strip(t, "12345.67") == "12345.67"
  {
    StripTrimmed(t, "12345.67");
  }

  lemma PriceTextRupeeExample()
    ensures PriceText("\U{20B9}12,345.67") == "12345.67"
  {
    RemoveRupeeExample();
    RemoveCommaExample();
    StripExample(StrStrip);
  }

  lemma DigitsExample()
    ensures DigitsValue("1234567") == 1234567
  {
    assert DigitsOf(1) == "1";
    assert DigitsOf(12) == "12";
    assert DigitsOf(123) == "123";
    assert DigitsOf(1234) == "1234";
    assert DigitsOf(12345) == "12345";
    assert DigitsOf(123456) == "123456";
    assert DigitsOf(1234567) == "1234567";
  }

  lemma ParseExample()
    ensures ParseDecimal("12345.67") == Some(Decimal(1234567, 2))
  {
    assert "12345" + "67" == "1234567";
    assert "12345" + "." + "67" == "12345.67";
    DigitsExample();
    ParsePointed("12345", "67");
  }

  /** The promise of the comment above `clean_price`: `"₹12,345.67"` becomes 12345.67. */
  lemma CleanPriceRupeeExample()
    ensures CleanPrice(Str("\U{20B9}12,345.67")) == Some(12345.67)
  {
    assert Value(Decimal(1234567, 2)) == 12345.67 by {
      assert Pow10(2) == 100;
    }
    PriceTextRupeeExample();
    StripExample(FloatStrip);
    ParseExample();
  }

  lemma ParseRatingExample()
    ensures ParseDecimal("4.3") == Some(Decimal(43, 1))
  {
    assert "4" + "." + "3" == "4.3";
    assert "4" + "3" == "43";
    ParsePointed("4", "3");
  }

  lemma RatingValueExample()
    ensures ToFloat("4.3") == Some(4.3)
  {
    assert Value(Decimal(43, 1)) == 4.3 by {
      assert Pow10(1) == 10;
    }
    assert Strip(FloatStrip, "4.3") == "4.3" by {
      StripTrimmed(FloatStrip, "4.3");
    }
    ParseRatingExample();
  }

  lemma CleanRatingsNumberExample()
    ensures CleanRatings(Str("4.3")) == 4.3
  {
    RatingValueExample();
  }

  lemma NotANumber()
    ensures Strip(FloatStrip, "N/A") == "N/A" && !WellFormed("N/A")
  {
    assert !IsSpace('N') && !IsSpace('A');
    StripTrimmed(FloatStrip, "N/A");
  }

  /** `clean_ratings` falls back to `0.0` where `float` raises `ValueError`. */
  lemma CleanRatingsFallbackExamples()
    ensures CleanRatings(Str("N/A")) == 0.0
    ensures CleanRatings(Str("")) == 0.0
  {
    NotANumber();
    ParseDecimalIff("N/A");
    ParseDecimalIff("");
  }

  /**
   * `clean_ratings` does not delete thousands separators, so a rating count
   * written `"2,255"` is read as `0.0`.
   */
  lemma CleanRatingsCommaExample()
    ensures CleanRatings(Str("2,255")) == 0.0
  {
    assert !IsSpace('2') && !IsSpace('5');
    StripTrimmed(FloatStrip, "2,255");
    assert !WellFormed("2,255");
    ParseDecimalIff("2,255");
  }

  /** `clean_price` has no fallback: text that is not a number is an error, not `0.0`. */
  lemma CleanPriceRejectsExample()
    ensures CleanPrice(Str("N/A")) == None
  {
    assert PriceText("N/A") == "N/A" by {
      assert Rupee !in "N/A" && ',' !in "N/A";
      assert !IsSpace('N') && !IsSpace('A');
      PriceTextFixed("N/A");
    }
    assert ToFloat("N/A") == None by {
      NotANumber();
      ParseDecimalIff("N/A");
    }
  }

  /** `str.strip()` cuts a leading separator. */
  lemma SeparatorStripped()
    ensures Strip(StrStrip, "\U{1C}4.3") == "4.3"
  {
    var s := "\U{1C}4.3";
    assert StripStart(StrStrip, s) == 1 by {
      assert s[1..] == "4.3";
      assert StripStart(StrStrip, s[1..]) == 0;
    }
    assert StripEnd(StrStrip, s) == 4;
    assert s[1..4] == "4.3";
  }

  /** `float()` keeps a leading separator, which is not part of any literal. */
  lemma SeparatorRejected()
    ensures ParseDecimal(Strip(FloatStrip, "\U{1C}4.3")) == None
  {
    var s := "\U{1C}4.3";
    assert Strip(FloatStrip, s) == s by {
      StripTrimmed(FloatStrip, s);
    }
    assert !IsSign(s[0]) && !IsDigit(s[0]) && s[0] != '.';
    assert DigitRun(s) == 0;
  }

  /** The text `clean_price` hands to `float` for `"\x1c4.3"`. */
  lemma SeparatorPriceText()
    ensures PriceText("\U{1C}4.3") == "4.3"
  {
    var s := "\U{1C}4.3";
    assert Rupee !in s && ',' !in s;
    RemoveAbsent(s, Rupee);
    RemoveAbsent(s, ',');
    SeparatorStripped();
  }

  /**
   * `str.strip()` cuts the separator U+001C but `float()` does not: on
   * `"\x1c4.3"` `clean_price` reads 4.3 while `clean_ratings` falls back to
   * `0.0`.
   */
  lemma SeparatorExample()
    ensures CleanPrice(Str("\U{1C}4.3")) == Some(4.3)
    ensures CleanRatings(Str("\U{1C}4.3")) == 0.0
  {
    SeparatorPriceText();
    RatingValueExample();
    SeparatorRejected();
  }
}
