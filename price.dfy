/**
 * Reading a product's price from its displayed text `"Rs. <grouped digits>"`:
 * the first `"Rs. "` and the first `","` are removed with string `replace`,
 * and `parseFloat` reads what is left.
 */
module Price {
  import opened Text

  /** A JavaScript number as the cart uses it: NaN, or an integral value. */
  datatype Num = NaN | Number(value: int)

  /** `a * q` in JavaScript arithmetic: NaN absorbs the product. */
  function Times(a: Num, q: int): (r: Num)
    ensures r.NaN? <==> a.NaN?
    ensures q == 1 ==> r == a
  {
    if a.NaN? then NaN else Number(a.value * q)
  }

  /**
   * `parseFloat` on the prices the page shows: leading whitespace is skipped,
   * then the longest run of decimal digits is read; with no digit there the
   * result is NaN.
   */
  function ParseFloat(s: string): (r: Num)
    ensures r.Number? ==> r.value >= 0
    ensures r == NaN <==> TrimStart(s) == [] || !IsDigit(TrimStart(s)[0])
  {
    var t := TrimStart(s);
    var n := DigitRunLength(t);
    if n == 0 then NaN else Number(DigitsValue(t[..n]))
  }

  /**
   * `parseFloat` stops at the first character that is not a digit: a text
   * that starts with the digits `d` reads as their value whatever follows.
   */
  lemma ParseFloatReadsDigitPrefix(d: string, rest: string)
    requires d != [] && AllDigits(d)
    requires rest == [] || !IsDigit(rest[0])
    ensures ParseFloat(d + rest) == Number(DigitsValue(d))
  {
    var s := d + rest;
    assert !IsSpace(s[0]);
    assert TrimStart(s) == s;
    DigitRunOfDigits(d, rest);
    assert s[..|d|] == d;
  }

  /** The price the cart records for a product (`parseFloat(text.replace('Rs. ', '').replace(',', ''))`). */
  function ParsePrice(text: string): Num {
    ParseFloat(RemoveFirst(RemoveFirst(text, "Rs. "), ","))
  }

  /** The evidently intended reading: every thousands separator removed, not just the first. */
  function ParsePriceIntended(text: string): Num {
    ParseFloat(Without(RemoveFirst(text, "Rs. "), ','))
  }

  /** Digits grouped by commas, starting with a digit: the way the page prints an amount. */
  predicate Grouped(g: string) {
    g != [] && IsDigit(g[0]) && forall k | 0 <= k < |g| :: IsDigit(g[k]) || g[k] == ','
  }

  /** At most one comma in `g`. */
  predicate AtMostOneComma(g: string) {
    forall i, j | 0 <= i < j < |g| :: g[i] != ',' || g[j] != ','
  }

  /** The currency prefix of a displayed price is removed, leaving the amount. */
  lemma RemoveCurrencyPrefix(g: string)
    ensures RemoveFirst("Rs. " + g, "Rs. ") == g
  {
    var s := "Rs. " + g;
    assert OccursAt(s, "Rs. ", 0);
    RemoveFirstOccurrence(s, "Rs. ", 0);
    assert s[4..] == g;
  }

  /** With the intended reading, a displayed price reads as the value of all its digits. */
  lemma ParsePriceIntendedReadsAllDigits(g: string)
    requires Grouped(g)
    ensures AllDigits(Without(g, ','))
    ensures ParsePriceIntended("Rs. " + g) == Number(DigitsValue(Without(g, ',')))
  {
    RemoveCurrencyPrefix(g);
    WithoutSeparators(g, ',');
    var d := Without(g, ',');
    assert d + [] == d;
    ParseFloatReadsDigitPrefix(d, []);
  }

  /**
   * Removing the first comma is removing every comma when there is at most one.
   */
  lemma RemoveFirstCommaIsWithout(g: string)
    requires AtMostOneComma(g)
    ensures RemoveFirst(g, ",") == Without(g, ',')
  {
    if k :| 0 <= k < |g| && g[k] == ',' {
      RemoveFirstCharAt(g, ',', k);
      WithoutSingle(g, ',', k);
    } else {
      RemoveFirstCharAbsent(g, ',');
    }
  }

  /**
   * The as-written reading is right for every price text with at most one
   * comma (grouped amounts below 1,00,000 in Indian grouping).
   */
  lemma ParsePriceAgreesWithOneSeparator(g: string)
    requires AtMostOneComma(g)
    ensures ParsePrice("Rs. " + g) == ParsePriceIntended("Rs. " + g)
  {
    RemoveCurrencyPrefix(g);
    RemoveFirstCommaIsWithout(g);
  }

  lemma LakhStripsPrefix()
    ensures RemoveFirst("Rs. 1,00,000", "Rs. ") == "1,00,000"
  {
    assert "Rs. 1,00,000" == "Rs. " + "1,00,000";
    RemoveCurrencyPrefix("1,00,000");
  }

  lemma LakhLosesFirstComma()
    ensures RemoveFirst("1,00,000", ",") == "100,000"
  {
    var g := "1,00,000";
    RemoveFirstCharAt(g, ',', 1);
    assert g[..1] + g[2..] == "100,000";
  }

  lemma LakhRemainderReads()
    ensures ParseFloat("100,000") == Number(100)
  {
    assert "100,000" == "100" + ",000";
    assert DigitsValue("100") == 100 by {
      assert "100"[..2] == "10" && "10"[..1] == "1" && "1"[..0] == "";
    }
    assert AllDigits("100");
    ParseFloatReadsDigitPrefix("100", ",000");
  }

  lemma LakhWithoutCommas(g: string)
    requires g == "1,00,000"
    ensures Without(g, ',') == "100000"
  {
    assert g == "1" + [','] + "00" + [','] + "000";
    WithoutTwoSeparators("1", "00", "000", ',');
  }

  lemma LakhValue()
    ensures AllDigits("100000") && DigitsValue("100000") == 100000
  {
    assert "100000"[..5] == "10000" && "10000"[..4] == "1000";
    assert "1000"[..3] == "100";
    assert "100"[..2] == "10" && "10"[..1] == "1" && "1"[..0] == "";
  }

  lemma LakhAsWritten()
    ensures ParsePrice("Rs. 1,00,000") == Number(100)
  {
    LakhStripsPrefix();
    LakhLosesFirstComma();
    LakhRemainderReads();
  }

  lemma LakhIntended()
    ensures ParsePriceIntended("Rs. 1,00,000") == Number(100000)
  {
    assert "Rs. 1,00,000" == "Rs. " + "1,00,000";
    assert Grouped("1,00,000");
    ParsePriceIntendedReadsAllDigits("1,00,000");
    LakhWithoutCommas("1,00,000");
    LakhValue();
  }

  /**
   * A lakh-grouped price is misread: `"Rs. 1,00,000"` loses only its first
   * comma, becomes `"100,000"`, and `parseFloat` stops at the second comma,
   * where the intended reading gives one lakh.
   */
  lemma ParsePriceLakhCounterexample()
    ensures ParsePrice("Rs. 1,00,000") == Number(100)
    ensures ParsePriceIntended("Rs. 1,00,000") == Number(100000)
  {
    LakhAsWritten();
    LakhIntended();
  }
}
