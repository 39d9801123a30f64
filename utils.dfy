/** The helpers of `window.dashboardUtils`: tax-number formatting, the two
    bounded memo caches in front of the formatters, the percentage and
    yearly-income figures, and the cache cleanup. */
module Utils {
  import opened Common

  /** `_maxCacheSize`: a cache only grows while it holds fewer entries. */
  const MaxCacheSize: nat := 10000

  // ---------------------------------------------------------------------
  // Tax numbers (formatTaxNumber)
  // ---------------------------------------------------------------------

  predicate IsDigit(c: char) { '0' <= c <= '9' }

  /** `s.replace(/\D/g, '')`: the decimal digits of `s`, in order. */
  function Digits(s: string): (r: string)
    ensures |r| <= |s|
    ensures forall i :: 0 <= i < |r| ==> IsDigit(r[i])
    ensures |s| == 1 ==> r == (if IsDigit(s[0]) then s else "")
  {
    if s == [] then []
    else Digits(s[..|s| - 1]) + (if IsDigit(s[|s| - 1]) then [s[|s| - 1]] else [])
  }

  lemma {:induction false} DigitsAppend(a: string, b: string)
    ensures Digits(a + b) == Digits(a) + Digits(b)
  {
    if b == [] {
      assert a + b == a;
    } else {
      var b' := b[..|b| - 1];
      assert (a + b)[..|a + b| - 1] == a + b';
      DigitsAppend(a, b');
    }
  }

  /** The digit string holds exactly the digits of `s`. */
  lemma {:induction false} DigitsKept(s: string)
    ensures forall c :: c in Digits(s) <==> c in s && IsDigit(c)
  {
    if s != [] {
      DigitsKept(s[..|s| - 1]);
      assert s == s[..|s| - 1] + [s[|s| - 1]];
    }
  }

  /** A string of digits is its own digit string. */
  lemma {:induction false} DigitsOfDigits(s: string)
    requires forall i :: 0 <= i < |s| ==> IsDigit(s[i])
    ensures Digits(s) == s
  {
    if s != [] {
      DigitsOfDigits(s[..|s| - 1]);
    }
  }

  /** The formatted form of a non-empty tax number: when its digits number
      exactly eleven, they are regrouped as `DDDDDDDD-D-DD`; otherwise the
      input is returned as it is. */
  function TaxFormat(t: string): string {
    var cleaned := Digits(t);
    if |cleaned| == 11 then cleaned[..8] + "-" + cleaned[8..9] + "-" + cleaned[9..11]
    else t
  }

  /** `formatTaxNumber` without its cache: a missing or empty tax number
      gives the empty string. */
  function FormatTaxNumber(t: Option<string>): string {
    if t.None? || t.value == "" then "" else TaxFormat(t.value)
  }

  /** Eleven digits become 13 characters, dashes after the 8th and the 9th
      digit, and dropping the dashes gives the digits back. */
  lemma TaxFormatEleven(t: string)
    requires |Digits(t)| == 11
    ensures |TaxFormat(t)| == 13
    ensures TaxFormat(t)[8] == '-' && TaxFormat(t)[10] == '-'
    ensures Digits(TaxFormat(t)) == Digits(t)
  {
    RegroupedDigits(Digits(t));
  }

  /** Regrouping eleven digits with two dashes keeps the digits. */
  lemma RegroupedDigits(c: string)
    requires |c| == 11 && forall i :: 0 <= i < |c| ==> IsDigit(c[i])
    ensures Digits(c[..8] + "-" + c[8..9] + "-" + c[9..11]) == c
  {
    var x := c[..8] + "-" + c[8..9];
    DigitsDashed(c[..8], c[8..9]);
    DigitsDashed(x, c[9..11]);
    DigitsOfDigits(c[..8]);
    DigitsOfDigits(c[8..9]);
    DigitsOfDigits(c[9..11]);
    assert c[..8] + c[8..9] + c[9..11] == c;
  }

  /** A dash contributes no digit. */
  lemma DigitsDashed(a: string, b: string)
    ensures Digits(a + "-" + b) == Digits(a) + Digits(b)
  {
    var dash := "-";
    assert Digits(dash) == [] by {
      assert dash[..0] == [];
    }
    DigitsAppend(a, dash);
    DigitsAppend(a + dash, b);
  }

  /** Any other tax number is shown unchanged. */
  lemma TaxFormatOther(t: string)
    requires |Digits(t)| != 11
    ensures TaxFormat(t) == t
  {
  }

  /** Formatting a formatted tax number changes nothing. */
  lemma TaxFormatIdempotent(t: string)
    ensures TaxFormat(TaxFormat(t)) == TaxFormat(t)
  {
    if |Digits(t)| == 11 {
      TaxFormatEleven(t);
    }
  }

  // ---------------------------------------------------------------------
  // Figures (calculatePercentageChange, calculateYearlyIncome)
  // ---------------------------------------------------------------------

  /** `calculatePercentageChange`: the change in whole percent, rounded;
      from zero it is 100 for growth and 0 otherwise. */
  function PercentChange(oldValue: int, newValue: int): (r: int)
    ensures oldValue == 0 ==> r == (if newValue > 0 then 100 else 0)
    ensures oldValue != 0 ==>
              var exact := ((newValue - oldValue) as real / oldValue as real) * 100.0;
              exact - 0.5 < r as real <= exact + 0.5
  {
    if oldValue == 0 then (if newValue > 0 then 100 else 0)
    else Round(((newValue - oldValue) as real / oldValue as real) * 100.0)
  }

  /** `calculateYearlyIncome`: the yearly income a donor's share stands for
      (a donor gives 0.15 % of it), rounded; 0 without people. */
  function YearlyIncome(amount: int, people: int): (r: int)
    ensures people == 0 ==> r == 0
  {
    if people == 0 then 0 else Round(((amount as real / people as real) * 100.0) / 0.15)
  }

  /** The two ways the code writes the estimate agree: `x * 100 / 0.15` is
      `x / 0.0015`, i.e. `x * 2000 / 3`; the rounded value is within half
      a unit of it. */
  lemma YearlyIncomeForms(amount: int, people: int)
    requires people != 0
    ensures var x := amount as real / people as real;
            && (x * 100.0) / 0.15 == x / 0.0015
            && YearlyIncome(amount, people) == Round(x / 0.0015)
            && x * 2000.0 / 3.0 - 0.5 < YearlyIncome(amount, people) as real <= x * 2000.0 / 3.0 + 0.5
  {
    var x := amount as real / people as real;
    assert (x * 100.0) / 0.15 == x / 0.0015 == x * 2000.0 / 3.0;
  }

  // ---------------------------------------------------------------------
  // The utility object and its caches
  // ---------------------------------------------------------------------

  /** `window.dashboardUtils` with its two memo caches. The locale number
      formatter (`Intl.NumberFormat('hu-HU')`) is not modelled; it is the
      function `formatter` fixed at construction. */
  class DashboardUtils {
    const formatter: real -> string
    var formatCache: map<real, string>
    var taxNumberCache: map<string, string>

    /** Every cached value is what the formatter would compute now, and
        neither cache holds more than `MaxCacheSize` entries. */
    ghost predicate Valid()
      reads this
    {
      && |formatCache| <= MaxCacheSize
      && |taxNumberCache| <= MaxCacheSize
      && (forall x :: x in formatCache ==> formatCache[x] == formatter(x))
      && (forall t :: t in taxNumberCache ==> t != "" && taxNumberCache[t] == TaxFormat(t))
    }

    constructor (formatter: real -> string)
      ensures this.formatter == formatter
      ensures formatCache == map[] && taxNumberCache == map[]
      ensures Valid()
    {
      this.formatter := formatter;
      formatCache := map[];
      taxNumberCache := map[];
    }

    /** `formatHungarianNumber`: the cached string when there is one, the
        formatter's otherwise; a new result is cached while the cache has
        room. */
    method FormatHungarianNumber(number: real) returns (formatted: string)
      requires Valid()
      modifies this
      ensures Valid()
      ensures formatted == formatter(number)
      ensures formatCache == if number in old(formatCache) || |old(formatCache)| >= MaxCacheSize
                             then old(formatCache)
                             else old(formatCache)[number := formatted]
      ensures taxNumberCache == old(taxNumberCache)
    {
      if number in formatCache {
        return formatCache[number];
      }
      formatted := formatter(number);
      if |formatCache| < MaxCacheSize {
        formatCache := formatCache[number := formatted];
      }
    }

    /** `formatTaxNumber`: empty for a missing or empty tax number; else the
        cached string when there is one, the formatted one otherwise, which
        is cached while the cache has room. */
    method FormatTaxNumberCached(taxNumber: Option<string>) returns (formatted: string)
      requires Valid()
      modifies this
      ensures Valid()
      ensures formatted == FormatTaxNumber(taxNumber)
      ensures taxNumberCache ==
                if taxNumber.None? || taxNumber.value == "" || taxNumber.value in old(taxNumberCache)
                   || |old(taxNumberCache)| >= MaxCacheSize
                then old(taxNumberCache)
                else old(taxNumberCache)[taxNumber.value := formatted]
      ensures formatCache == old(formatCache)
    {
      if taxNumber.None? || taxNumber.value == "" {
        return "";
      }
      var t := taxNumber.value;
      if t in taxNumberCache {
        return taxNumberCache[t];
      }
      var cleaned := Digits(t);
      if |cleaned| == 11 {
        formatted := cleaned[..8] + "-" + cleaned[8..9] + "-" + cleaned[9..11];
      } else {
        formatted := t;
      }
      if |taxNumberCache| < MaxCacheSize {
        taxNumberCache := taxNumberCache[t := formatted];
      }
    }

    /** `cleanup`: both caches emptied. */
    method Cleanup()
      requires Valid()
      modifies this
      ensures formatCache == map[] && taxNumberCache == map[]
      ensures Valid()
    {
      formatCache := map[];
      taxNumberCache := map[];
    }
  }
}
