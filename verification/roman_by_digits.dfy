/**
 * A second, independent construction of Roman numerals, one decimal digit at
 * a time: thousands as repeated M, then hundreds, tens and units, each spelled
 * with that decade's one, five and ten digits. The main theorem is that the
 * greedy table walk of `RomanService.ToRoman` builds exactly this string.
 */
module RomanByDigits {
  import opened RomanService

  /** `k` copies of the character `c`. */
  function Repeat(c: char, k: nat): (s: string)
    ensures |s| == k
  {
    if k == 0 then "" else [c] + Repeat(c, k - 1)
  }

  /** The spelling of one decimal digit with the decade's one, five and ten digits. */
  function DigitSpelling(d: nat, one: char, five: char, ten: char): string
    requires d < 10
  {
    if d == 9 then [one, ten]
    else if d >= 5 then [five] + Repeat(one, d - 5)
    else if d == 4 then [one, five]
    else Repeat(one, d)
  }

  /**
   * The digit-by-digit numeral of the number with thousands `a`, hundreds
   * `h`, tens `t` and units `o`.
   */
  function ByDigits(a: nat, h: nat, t: nat, o: nat): string
    requires h < 10 && t < 10 && o < 10
  {
    Repeat('M', a)
      + (DigitSpelling(h, 'C', 'D', 'M')
      + (DigitSpelling(t, 'X', 'L', 'C')
      + DigitSpelling(o, 'I', 'V', 'X')))
  }

  /**
   * The part of a digit's spelling the greedy walk emits first: a nonzero
   * digit starts with its largest row (9, 5, 4 or 1 units) and continues
   * with the spelling of what is left.
   */
  function LeadUnits(d: nat): nat {
    if d == 9 then 9 else if d >= 5 then 5 else if d == 4 then 4 else 1
  }

  function LeadSymbol(d: nat, one: char, five: char, ten: char): string {
    if d == 9 then [one, ten] else if d >= 5 then [five] else if d == 4 then [one, five] else [one]
  }

  lemma SpellingStep(d: nat, one: char, five: char, ten: char)
    requires 1 <= d <= 9
    ensures LeadUnits(d) <= d
    ensures DigitSpelling(d, one, five, ten)
         == LeadSymbol(d, one, five, ten) + DigitSpelling(d - LeadUnits(d), one, five, ten)
  {
    if 5 < d < 9 {
      assert Repeat(one, d - 5) == [one] + Repeat(one, d - 6);
    } else if 1 < d < 4 {
      assert Repeat(one, d) == [one] + Repeat(one, d - 1);
    }
  }

  /** The row `find` selects is the table row whose value range holds `n`. */
  lemma FitIs(j: nat, n: nat)
    requires j < TableSize && Row(j).value <= n
    requires j == 0 || n < Row(j - 1).value
    ensures n >= 1 && Fit(n) == Row(j)
  {
    TableFacts();
    FindFromFirst(0, n);
    var i :| 0 <= i < TableSize && Row(i) == Fit(n) && forall k :: 0 <= k < i ==> Row(k).value > n;
    if i < j {
      assert Row(i).value >= Row(j - 1).value;
    }
  }

  /** The index of the row for a decade's leading units: 9, 5, 4 or 1 of them. */
  function RowIndex(first: nat, d: nat): nat {
    if d == 9 then first else if d >= 5 then first + 1 else if d == 4 then first + 2 else first + 3
  }

  /** When row `j` is the one that fits `n`, the walk emits its symbol and continues from `n` less its value. */
  lemma StepAt(j: nat, n: nat, m: nat)
    requires j < TableSize && Row(j).value <= n
    requires j == 0 || n < Row(j - 1).value
    requires m == n - Row(j).value
    ensures ToRoman(n) == Row(j).symbol + ToRoman(m)
  {
    FitIs(j, n);
    ToRomanStep(n, m);
  }

  /** While thousands remain, the walk emits M. */
  lemma ThousandsStep(a: nat, r: nat, n: nat, m: nat)
    requires a >= 1 && r < 1000 && n == 1000 * a + r && m == 1000 * (a - 1) + r
    ensures ToRoman(n) == "M" + ToRoman(m)
  {
    StepAt(0, n, m);
  }

  /** Below 1000, the walk emits the hundreds digit's leading row. */
  lemma HundredsStep(h: nat, r: nat, n: nat, m: nat)
    requires 1 <= h < 10 && r < 100 && n == 100 * h + r && m == 100 * (h - LeadUnits(h)) + r
    ensures ToRoman(n) == LeadSymbol(h, 'C', 'D', 'M') + ToRoman(m)
  {
    StepAt(RowIndex(1, h), n, m);
  }

  /** Below 100, the walk emits the tens digit's leading row. */
  lemma TensStep(t: nat, r: nat, n: nat, m: nat)
    requires 1 <= t < 10 && r < 10 && n == 10 * t + r && m == 10 * (t - LeadUnits(t)) + r
    ensures ToRoman(n) == LeadSymbol(t, 'X', 'L', 'C') + ToRoman(m)
  {
    StepAt(RowIndex(5, t), n, m);
  }

  /** Below 10, the walk emits the units digit's leading row. */
  lemma OnesStep(o: nat, m: nat)
    requires 1 <= o < 10 && m == o - LeadUnits(o)
    ensures ToRoman(o) == LeadSymbol(o, 'I', 'V', 'X') + ToRoman(m)
  {
    StepAt(RowIndex(9, o), o, m);
  }

  /** The greedy converter spells a number below 10 as its units digit. */
  lemma {:induction false} UnitsByDigits(n: nat, o: nat)
    requires o < 10 && n == o
    ensures ToRoman(n) == DigitSpelling(o, 'I', 'V', 'X')
    decreases o
  {
    if o >= 1 {
      SpellingStep(o, 'I', 'V', 'X');
      var m := o - LeadUnits(o);
      OnesStep(o, m);
      UnitsByDigits(m, m);
    }
  }

  /**
   * The string algebra shared by every induction step: if `x` is `lead`
   * followed by `rest + tail`, and `whole` is `lead + rest`, then `x` is
   * `whole + tail`.
   */
  lemma Chain(x: string, lead: string, rest: string, tail: string, whole: string)
    requires x == lead + (rest + tail) && whole == lead + rest
    ensures x == whole + tail
  {
    assert lead + (rest + tail) == lead + rest + tail;
  }

  /** The greedy converter spells a number below 100 as its tens digit, then its units digit. */
  lemma {:induction false} TensByDigits(n: nat, t: nat, o: nat)
    requires t < 10 && o < 10 && n == 10 * t + o
    ensures ToRoman(n) == DigitSpelling(t, 'X', 'L', 'C') + DigitSpelling(o, 'I', 'V', 'X')
    decreases t
  {
    var units := DigitSpelling(o, 'I', 'V', 'X');
    if t == 0 {
      UnitsByDigits(n, o);
      assert DigitSpelling(t, 'X', 'L', 'C') + units == units;
    } else {
      SpellingStep(t, 'X', 'L', 'C');
      var t' := t - LeadUnits(t);
      var m := 10 * t' + o;
      TensStep(t, o, n, m);
      TensByDigits(m, t', o);
      Chain(ToRoman(n), LeadSymbol(t, 'X', 'L', 'C'), DigitSpelling(t', 'X', 'L', 'C'), units, DigitSpelling(t, 'X', 'L', 'C'));
    }
  }

  /** The greedy converter spells a number below 1000 digit by digit. */
  lemma {:induction false} HundredsByDigits(n: nat, h: nat, t: nat, o: nat)
    requires h < 10 && t < 10 && o < 10 && n == 100 * h + 10 * t + o
    ensures ToRoman(n)
         == DigitSpelling(h, 'C', 'D', 'M') + (DigitSpelling(t, 'X', 'L', 'C') + DigitSpelling(o, 'I', 'V', 'X'))
    decreases h
  {
    var below := DigitSpelling(t, 'X', 'L', 'C') + DigitSpelling(o, 'I', 'V', 'X');
    if h == 0 {
      TensByDigits(n, t, o);
      assert DigitSpelling(h, 'C', 'D', 'M') + below == below;
    } else {
      SpellingStep(h, 'C', 'D', 'M');
      var h' := h - LeadUnits(h);
      var m := 100 * h' + 10 * t + o;
      HundredsStep(h, 10 * t + o, n, m);
      HundredsByDigits(m, h', t, o);
      Chain(ToRoman(n), LeadSymbol(h, 'C', 'D', 'M'), DigitSpelling(h', 'C', 'D', 'M'), below, DigitSpelling(h, 'C', 'D', 'M'));
    }
  }

  /** The greedy converter spells every number digit by digit. */
  lemma {:induction false} ToRomanByDigits(n: nat, a: nat, h: nat, t: nat, o: nat)
    requires h < 10 && t < 10 && o < 10 && n == 1000 * a + 100 * h + 10 * t + o
    ensures ToRoman(n) == ByDigits(a, h, t, o)
    decreases a
  {
    var below := DigitSpelling(h, 'C', 'D', 'M') + (DigitSpelling(t, 'X', 'L', 'C') + DigitSpelling(o, 'I', 'V', 'X'));
    if a == 0 {
      HundredsByDigits(n, h, t, o);
      assert Repeat('M', a) + below == below;
    } else {
      var m := 1000 * (a - 1) + 100 * h + 10 * t + o;
      ThousandsStep(a, 100 * h + 10 * t + o, n, m);
      ToRomanByDigits(m, a - 1, h, t, o);
      Chain(ToRoman(n), "M", Repeat('M', a - 1), below, Repeat('M', a));
    }
  }

  /** Every row of the table converts to its own symbol: 1 is I, 4 is IV, ..., 1000 is M. */
  lemma RowsConvert(j: nat)
    requires j < TableSize
    ensures ToRoman(Row(j).value) == Row(j).symbol
  {
    StepAt(j, Row(j).value, 0);
  }

  /* The digit spellings of the values the service's tests convert. */

  lemma Spells3()
    ensures ByDigits(0, 0, 0, 3) == "III"
  {
  }

  lemma Spells30()
    ensures ByDigits(0, 0, 3, 0) == "XXX"
  {
  }

  lemma Spells300()
    ensures ByDigits(0, 3, 0, 0) == "CCC"
  {
  }

  lemma Spells3000()
    ensures ByDigits(3, 0, 0, 0) == "MMM"
  {
  }

  lemma Spells1984()
    ensures ByDigits(1, 9, 8, 4) == "MCMLXXXIV"
  {
  }

  lemma Spells2023()
    ensures ByDigits(2, 0, 2, 3) == "MMXXIII"
  {
  }

  lemma Spells3999()
    ensures ByDigits(3, 9, 9, 9) == "MMMCMXCIX"
  {
  }

  lemma Spells1999()
    ensures ByDigits(1, 9, 9, 9) == "MCMXCIX"
  {
  }

  lemma Spells2888()
    ensures ByDigits(2, 8, 8, 8) == "MMDCCCLXXXVIII"
  {
  }

  lemma Spells3549()
    ensures ByDigits(3, 5, 4, 9) == "MMMDXLIX"
  {
  }

  /** Repeated symbols: 3, 30, 300 and 3000. */
  lemma ConvertsRepeats(n: nat, expected: string)
    requires (n, expected) in {(3, "III"), (30, "XXX"), (300, "CCC"), (3000, "MMM")}
    ensures ToRoman(n) == expected
  {
    if n == 3 {
      ToRomanByDigits(n, 0, 0, 0, 3);
      Spells3();
    } else if n == 30 {
      ToRomanByDigits(n, 0, 0, 3, 0);
      Spells30();
    } else if n == 300 {
      ToRomanByDigits(n, 0, 3, 0, 0);
      Spells300();
    } else {
      ToRomanByDigits(n, 3, 0, 0, 0);
      Spells3000();
    }
  }

  /** 1984, 2023 and 3999. */
  lemma ConvertsYears(n: nat, expected: string)
    requires (n, expected) in {(1984, "MCMLXXXIV"), (2023, "MMXXIII"), (3999, "MMMCMXCIX")}
    ensures ToRoman(n) == expected
  {
    if n == 1984 {
      ToRomanByDigits(n, 1, 9, 8, 4);
      Spells1984();
    } else if n == 2023 {
      ToRomanByDigits(n, 2, 0, 2, 3);
      Spells2023();
    } else {
      ToRomanByDigits(n, 3, 9, 9, 9);
      Spells3999();
    }
  }

  /** Mixed additive and subtractive spellings: 1999, 2888 and 3549. */
  lemma ConvertsCombinations(n: nat, expected: string)
    requires (n, expected) in {(1999, "MCMXCIX"), (2888, "MMDCCCLXXXVIII"), (3549, "MMMDXLIX")}
    ensures ToRoman(n) == expected
  {
    if n == 1999 {
      ToRomanByDigits(n, 1, 9, 9, 9);
      Spells1999();
    } else if n == 2888 {
      ToRomanByDigits(n, 2, 8, 8, 8);
      Spells2888();
    } else {
      ToRomanByDigits(n, 3, 5, 4, 9);
      Spells3549();
    }
  }

  /** 1, 4, 9, 42 and 999. */
  lemma ConvertsSmall(n: nat, expected: string)
    requires (n, expected) in {(1, "I"), (4, "IV"), (9, "IX"), (42, "XLII"), (999, "CMXCIX")}
    ensures ToRoman(n) == expected
  {
    if n == 1 {
      ToRomanByDigits(n, 0, 0, 0, 1);
    } else if n == 4 {
      ToRomanByDigits(n, 0, 0, 0, 4);
    } else if n == 9 {
      ToRomanByDigits(n, 0, 0, 0, 9);
    } else if n == 42 {
      ToRomanByDigits(n, 0, 0, 4, 2);
    } else {
      ToRomanByDigits(n, 0, 9, 9, 9);
    }
  }
}
