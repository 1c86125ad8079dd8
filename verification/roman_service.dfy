/**
 * The integer-to-Roman converter of backend/src/services/roman.ts: a greedy
 * recursive walk over a fixed table of thirteen (value, symbol) pairs sorted
 * by value, largest first.
 *
 * Besides the converter itself the module holds two reference definitions
 * used to state what it computes: `Tokens`, the sequence of table rows the
 * walk emits, and `Decode`, the usual reading of a Roman numeral in which a
 * digit standing before a larger one is subtracted.
 */
module RomanService {
  import opened Wrappers

  /** One row of the conversion table. */
  datatype Numeral = Numeral(value: nat, symbol: string)

  /** The conversion table, in the order the source lists it. */
  function Row(k: nat): Numeral
  {
    if k == 0 then Numeral(1000, "M")
    else if k == 1 then Numeral(900, "CM")
    else if k == 2 then Numeral(500, "D")
    else if k == 3 then Numeral(400, "CD")
    else if k == 4 then Numeral(100, "C")
    else if k == 5 then Numeral(90, "XC")
    else if k == 6 then Numeral(50, "L")
    else if k == 7 then Numeral(40, "XL")
    else if k == 8 then Numeral(10, "X")
    else if k == 9 then Numeral(9, "IX")
    else if k == 10 then Numeral(5, "V")
    else if k == 11 then Numeral(4, "IV")
    else Numeral(1, "I")
  }

  const TableSize := 13

  /** `x` is one of the table's rows. */
  predicate IsRow(x: Numeral) {
    exists k :: 0 <= k < TableSize && Row(k) == x
  }

  /** The seven Roman digits. */
  predicate IsRomanDigit(c: char) {
    c == 'I' || c == 'V' || c == 'X' || c == 'L' || c == 'C' || c == 'D' || c == 'M'
  }

  /** A string made only of Roman digits. */
  predicate RomanString(s: string) {
    forall k :: 0 <= k < |s| ==> IsRomanDigit(s[k])
  }

  lemma RomanStringConcat(a: string, b: string)
    requires RomanString(a) && RomanString(b)
    ensures RomanString(a + b)
  {
  }

  /** The value of a single Roman digit; zero for any other character. */
  function DigitValue(c: char): nat {
    match c
    case 'I' => 1
    case 'V' => 5
    case 'X' => 10
    case 'L' => 50
    case 'C' => 100
    case 'D' => 500
    case 'M' => 1000
    case _ => 0
  }

  /**
   * A row's symbol is made of Roman digits: a single digit worth the row's
   * value, or a subtractive pair, smaller digit first, worth their difference.
   */
  predicate WellFormedRow(row: Numeral) {
    && RomanString(row.symbol)
    && (|| (|row.symbol| == 1 && row.value == DigitValue(row.symbol[0]))
        || (&& |row.symbol| == 2
            && DigitValue(row.symbol[0]) < DigitValue(row.symbol[1])
            && row.value == DigitValue(row.symbol[1]) - DigitValue(row.symbol[0])))
  }

  /** The table is sorted by value, strictly decreasing. */
  predicate Descending() {
    forall i, j :: 0 <= i < j < TableSize ==> Row(i).value > Row(j).value
  }

  lemma TableFacts()
    ensures Descending()
    ensures forall k :: 0 <= k < TableSize ==> WellFormedRow(Row(k))
    ensures Row(TableSize - 1).value == 1
  {
  }

  /**
   * `Array.prototype.find` over the table from index `i` on: the first row
   * whose value does not exceed `n`, or None when no row fits. A row is
   * found whenever the last row (value 1) fits; `FindFromFirst` states
   * which row it is.
   */
  function FindFrom(i: nat, n: int): (r: Option<Numeral>)
    requires i <= TableSize
    ensures r.Some? ==> WellFormedRow(r.value) && 1 <= r.value.value <= n
    ensures i < TableSize && n >= 1 ==> r.Some?
    decreases TableSize - i
  {
    TableFacts();
    if i == TableSize then None
    else if Row(i).value <= n then Some(Row(i))
    else FindFrom(i + 1, n)
  }

  /** The search result is the first row from `i` on that fits. */
  lemma {:induction false} FindFromFirst(i: nat, n: int)
    requires i <= TableSize
    ensures FindFrom(i, n).Some? ==>
      exists j :: i <= j < TableSize && Row(j) == FindFrom(i, n).value && forall k :: i <= k < j ==> Row(k).value > n
    decreases TableSize - i
  {
    if i < TableSize && Row(i).value > n {
      FindFromFirst(i + 1, n);
    }
  }

  /** Since the table is sorted, the first row that fits is also the largest-valued one. */
  lemma FindFromLargest(i: nat, n: int)
    requires i <= TableSize
    ensures FindFrom(i, n).Some? ==>
      forall k :: i <= k < TableSize && Row(k).value <= n ==> Row(k).value <= FindFrom(i, n).value.value
  {
    FindFromFirst(i, n);
    TableFacts();
  }

  /** The search finds nothing exactly when no row from `i` on fits. */
  lemma {:induction false} FindFromNone(i: nat, n: int)
    requires i <= TableSize
    ensures FindFrom(i, n).None? <==> forall k :: i <= k < TableSize ==> Row(k).value > n
    decreases TableSize - i
  {
    if i < TableSize && Row(i).value > n {
      FindFromNone(i + 1, n);
    }
  }

  /**
   * The row the source's `find(...) || [0, '']` expression yields: the first
   * row that fits, or the placeholder row (0, "") when none does.
   */
  function Pick(n: nat): (row: Numeral)
    ensures n >= 1 ==> WellFormedRow(row) && 1 <= row.value <= n
    ensures n == 0 ==> row == Numeral(0, "")
  {
    FindFrom(0, n).GetOr(Numeral(0, ""))
  }

  /**
   * The converter. For a positive argument the search always succeeds, so
   * the placeholder is never used and each call subtracts at least 1; the
   * termination proof of this function is the proof of both.
   */
  function ToRoman(n: nat): (r: string)
    ensures RomanString(r)
    ensures r == "" <==> n == 0
    decreases n
  {
    if n == 0 then ""
    else
      var row := Pick(n);
      var rest := ToRoman(n - row.value);
      RomanStringConcat(row.symbol, rest);
      row.symbol + rest
  }

  /** The row `find` selects for a positive amount. */
  function Fit(n: nat): (row: Numeral)
    requires n >= 1
    ensures WellFormedRow(row) && 1 <= row.value <= n
  {
    Pick(n)
  }

  /** The selected row is a table row and no fitting row is larger. */
  lemma FitIsLargest(n: nat)
    requires n >= 1
    ensures IsRow(Fit(n))
    ensures forall k :: 0 <= k < TableSize && Row(k).value <= n ==> Row(k).value <= Fit(n).value
  {
    FindFromFirst(0, n);
    FindFromLargest(0, n);
  }

  /** A smaller amount never selects a larger row. */
  lemma FitMonotone(m: nat, n: nat)
    requires 1 <= m <= n
    ensures Fit(m).value <= Fit(n).value
  {
    FindFromFirst(0, m);
    var j :| 0 <= j < TableSize && Row(j) == Fit(m);
    assert Row(j).value == Fit(m).value <= n;
    FitIsLargest(n);
  }

  /** One step of the walk: the symbol of the selected row, then the rest. */
  lemma ToRomanStep(n: nat, m: nat)
    requires n >= 1 && m == n - Fit(n).value
    ensures ToRoman(n) == Fit(n).symbol + ToRoman(m)
  {
  }

  /** The table rows the walk emits, in order. */
  function Tokens(n: nat): seq<Numeral>
    decreases n
  {
    if n == 0 then [] else [Fit(n)] + Tokens(n - Fit(n).value)
  }

  /** The concatenated symbols of a sequence of rows. */
  function Spell(ts: seq<Numeral>): string {
    if ts == [] then "" else ts[0].symbol + Spell(ts[1..])
  }

  /** The sum of the values of a sequence of rows. */
  function ValueSum(ts: seq<Numeral>): int {
    if ts == [] then 0 else ts[0].value + ValueSum(ts[1..])
  }

  lemma TokensStep(n: nat, m: nat)
    requires n >= 1 && m == n - Fit(n).value
    ensures Tokens(n) == [Fit(n)] + Tokens(m)
  {
  }

  lemma SpellCons(x: Numeral, ts: seq<Numeral>)
    ensures Spell([x] + ts) == x.symbol + Spell(ts)
  {
    assert ([x] + ts)[1..] == ts;
  }

  lemma ValueSumCons(x: Numeral, ts: seq<Numeral>)
    ensures ValueSum([x] + ts) == x.value + ValueSum(ts)
  {
    assert ([x] + ts)[1..] == ts;
  }

  /** The converter's output is exactly the symbols of the emitted rows. */
  lemma {:induction false} ToRomanSpellsTokens(n: nat)
    ensures ToRoman(n) == Spell(Tokens(n))
    decreases n
  {
    if n > 0 {
      var m := n - Fit(n).value;
      ToRomanStep(n, m);
      TokensStep(n, m);
      ToRomanSpellsTokens(m);
      SpellCons(Fit(n), Tokens(m));
    }
  }

  /** Token round trip: the emitted rows' values add back up to the input. */
  lemma {:induction false} TokensSumToInput(n: nat)
    ensures ValueSum(Tokens(n)) == n
    decreases n
  {
    if n > 0 {
      var m := n - Fit(n).value;
      TokensStep(n, m);
      TokensSumToInput(m);
      ValueSumCons(Fit(n), Tokens(m));
    }
  }

  /** Every emitted row is a row of the table. */
  lemma {:induction false} TokensAreRows(n: nat)
    ensures forall i :: 0 <= i < |Tokens(n)| ==> IsRow(Tokens(n)[i])
    decreases n
  {
    if n > 0 {
      var m := n - Fit(n).value;
      TokensStep(n, m);
      TokensAreRows(m);
      FitIsLargest(n);
      forall i | 0 < i < |Tokens(n)|
        ensures IsRow(Tokens(n)[i])
      {
        assert Tokens(n)[i] == Tokens(m)[i - 1];
      }
    }
  }

  /**
   * The first emitted row is the row of the largest table value not
   * exceeding the input.
   */
  lemma TokensFirstIsLargest(n: nat)
    requires n >= 1
    ensures |Tokens(n)| >= 1 && Tokens(n)[0].value <= n
    ensures forall k :: 0 <= k < TableSize && Row(k).value <= n ==> Row(k).value <= Tokens(n)[0].value
  {
    TokensStep(n, n - Fit(n).value);
    FitIsLargest(n);
  }

  /** The emitted values never increase from left to right. */
  lemma {:induction false} TokensNonIncreasing(n: nat)
    ensures forall i, j :: 0 <= i < j < |Tokens(n)| ==> Tokens(n)[i].value >= Tokens(n)[j].value
    decreases n
  {
    if n > 0 {
      var m := n - Fit(n).value;
      var ts, rest := Tokens(n), Tokens(m);
      TokensStep(n, m);
      TokensNonIncreasing(m);
      if m > 0 {
        TokensStep(m, m - Fit(m).value);
        FitMonotone(m, n);
      }
      forall i, j | 0 <= i < j < |ts|
        ensures ts[i].value >= ts[j].value
      {
        if i == 0 {
          assert ts[j] == rest[j - 1];
          assert rest[0].value >= rest[j - 1].value;
        } else {
          assert ts[i] == rest[i - 1] && ts[j] == rest[j - 1];
        }
      }
    }
  }

  /**
   * The usual reading of a Roman numeral: each digit adds its value, except
   * that a digit directly followed by a larger one is subtracted.
   */
  function Decode(s: string): int
  {
    if |s| == 0 then 0
    else if |s| == 1 then DigitValue(s[0])
    else (if DigitValue(s[0]) < DigitValue(s[1]) then -(DigitValue(s[0]) as int) else DigitValue(s[0])) + Decode(s[1..])
  }

  /** Reading one digit in front of digits no larger than it. */
  lemma DecodeOne(c: char, rest: string)
    requires rest == [] || DigitValue(rest[0]) <= DigitValue(c)
    ensures Decode([c] + rest) == DigitValue(c) + Decode(rest)
  {
    if rest != [] {
      assert ([c] + rest)[1..] == rest;
    }
  }

  /** Reading a subtractive pair in front of digits no larger than the pair's value. */
  lemma DecodePair(c0: char, c1: char, rest: string)
    requires DigitValue(c0) < DigitValue(c1)
    requires rest == [] || DigitValue(rest[0]) <= DigitValue(c1) - DigitValue(c0)
    ensures Decode([c0, c1] + rest) == DigitValue(c1) - DigitValue(c0) + Decode(rest)
  {
    assert ([c0, c1] + rest)[1..] == [c1] + rest;
    DecodeOne(c1, rest);
  }

  /** Reading a row's symbol in front of digits no larger than its value. */
  lemma DecodeRow(row: Numeral, rest: string)
    requires WellFormedRow(row)
    requires rest == [] || DigitValue(rest[0]) <= row.value
    ensures Decode(row.symbol + rest) == row.value + Decode(rest)
  {
    var sym := row.symbol;
    if |sym| == 1 {
      assert sym == [sym[0]];
      DecodeOne(sym[0], rest);
    } else {
      assert sym == [sym[0], sym[1]];
      DecodePair(sym[0], sym[1], rest);
    }
  }

  /** The leading digit of a numeral is worth no more than its first row. */
  lemma LeadingDigit(n: nat)
    requires n >= 1
    ensures |ToRoman(n)| >= 1 && DigitValue(ToRoman(n)[0]) <= Fit(n).value
  {
    ToRomanStep(n, n - Fit(n).value);
    assert ToRoman(n)[0] == Fit(n).symbol[0];
  }

  /** Round trip: reading the converter's output gives back the input. */
  lemma {:induction false} DecodeToRoman(n: nat)
    ensures Decode(ToRoman(n)) == n
    decreases n
  {
    if n > 0 {
      var row := Fit(n);
      var m := n - row.value;
      ToRomanStep(n, m);
      DecodeToRoman(m);
      if m > 0 {
        LeadingDigit(m);
        FitMonotone(m, n);
      }
      DecodeRow(row, ToRoman(m));
    }
  }
}
