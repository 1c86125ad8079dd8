/**
 * The `GET /` handler of backend/src/routes/roman.ts: a three-way decision
 * on the optional `query` parameter. A missing or empty parameter is
 * answered 400 before any parsing; otherwise the parameter is read with
 * `parseInt(query, 10)`, and anything that is NaN, not positive or above
 * 3999 is answered 400; every other value is answered 200 with the value and
 * its Roman numeral.
 */
module RomanRoute {
  import opened Wrappers
  import opened JsParseInt
  import opened RomanService
  import opened RomanByDigits

  /** The JSON body: `{error}` on a rejected query, `{input, output}` on success. */
  datatype Body = ErrorBody(error: string) | ResultBody(input: int, output: string)

  datatype Response = Response(status: int, body: Body)

  const MissingQueryMessage := "Missing required query parameter: query"
  const InvalidInputMessage := "Invalid input. Please provide a positive integer between 1 and 3999."

  /** The largest number the route converts. */
  const MaxNumeral := 3999

  /** The route's acceptance test on a parsed value. */
  predicate Accepted(parsed: Option<int>) {
    parsed.Some? && 1 <= parsed.value <= MaxNumeral
  }

  /**
   * The handler. Only accepted values reach the converter, so its argument
   * is always at least 1; a successful answer's numeral reads back as its
   * input.
   */
  function HandleQuery(query: Option<string>): (r: Response)
    ensures r.status == 200 <==> r.body.ResultBody?
    ensures r.status == 200 || r.status == 400
    ensures r.body.ResultBody? ==> 1 <= r.body.input <= MaxNumeral && Decode(r.body.output) == r.body.input
    ensures r.body.ResultBody? ==> RomanString(r.body.output)
  {
    if query.None? || query.value == "" then
      Response(400, ErrorBody(MissingQueryMessage))
    else
      match ParseInt(query.value)
      case None => Response(400, ErrorBody(InvalidInputMessage))
      case Some(num) =>
        if num <= 0 || num > MaxNumeral then Response(400, ErrorBody(InvalidInputMessage))
        else
          DecodeToRoman(num);
          Response(200, ResultBody(num, ToRoman(num)))
  }

  /** An absent or empty parameter is reported as missing, and nothing else is. */
  lemma MissingExactly(query: Option<string>)
    ensures HandleQuery(query).body == ErrorBody(MissingQueryMessage) <==> query.None? || query.value == ""
  {
  }

  /**
   * A present parameter is answered 200 exactly when `parseInt` accepts it,
   * and then with the parsed value and its numeral.
   */
  lemma OkExactlyWhenAccepted(s: string)
    ensures HandleQuery(Some(s)).status == 200 <==> Accepted(ParseInt(s))
    ensures Accepted(ParseInt(s)) ==> HandleQuery(Some(s)).body == ResultBody(ParseInt(s).value, ToRoman(ParseInt(s).value))
  {
    if s == "" {
      assert ParseInt(s) == None;
    }
  }

  /** A non-empty parameter that `parseInt` rejects is answered "Invalid input". */
  lemma InvalidExactlyWhenRejected(s: string)
    requires s != ""
    ensures HandleQuery(Some(s)).body == ErrorBody(InvalidInputMessage) <==> !Accepted(ParseInt(s))
  {
  }

  /**
   * The decimal spelling of every number in range, with white space before
   * and any non-digit text after, is converted.
   */
  lemma ConvertsEverySpelling(ws: string, n: nat, rest: string)
    requires 1 <= n <= MaxNumeral
    requires AllWhiteSpace(ws)
    requires rest == [] || !IsDigit(rest[0])
    ensures HandleQuery(Some(ws + Show(n) + rest)) == Response(200, ResultBody(n, ToRoman(n)))
  {
    ParseIntShow(ws, n, rest);
  }

  /* The queries of the route's tests. Each literal is first spelled through
     `Show`, so that the general parsing lemmas apply to it; every lemma below
     states one fact, and the answers are assembled from them. */

  lemma SpellsZero()
    ensures "" + Show(0) + "" == "0"
  {
  }

  lemma SpellsMinusTen()
    ensures "" + "-" + Show(10) + "" == "-10"
  {
    assert Show(10) == "10";
  }

  lemma SpellsFourThousand()
    ensures "" + Show(4000) + "" == "4000"
  {
    assert Show(40) == "40";
    assert Show(400) == "400";
    assert Show(4000) == "4000";
  }

  lemma SpellsFraction()
    ensures "" + Show(42) + ".75" == "42.75"
  {
    assert Show(42) == "42";
  }

  /** "abc" has no digits: NaN. */
  lemma ParsesLetters()
    ensures ParseInt("abc") == None
  {
    ParseIntNoDigits("", "", "abc");
    assert "" + "" + "abc" == "abc";
  }

  lemma ParsesZero()
    ensures ParseInt("0") == Some(0)
  {
    ParseIntShow("", 0, "");
    SpellsZero();
  }

  lemma ParsesMinusTen()
    ensures ParseInt("-10") == Some(-10)
  {
    ParseIntNegative("", 10, "");
    SpellsMinusTen();
  }

  lemma ParsesFourThousand()
    ensures ParseInt("4000") == Some(4000)
  {
    ParseIntShow("", 4000, "");
    SpellsFourThousand();
  }

  /** "42.75" is read up to the decimal point. */
  lemma ParsesFraction()
    ensures ParseInt("42.75") == Some(42)
  {
    ParseIntShow("", 42, ".75");
    SpellsFraction();
  }

  /** A request without the parameter, or with an empty one, is answered 400 "Missing ...". */
  lemma AnswersMissingQuery()
    ensures HandleQuery(None) == Response(400, ErrorBody(MissingQueryMessage))
    ensures HandleQuery(Some("")) == Response(400, ErrorBody(MissingQueryMessage))
  {
  }

  lemma RejectsLetters()
    ensures HandleQuery(Some("abc")) == Response(400, ErrorBody(InvalidInputMessage))
  {
    ParsesLetters();
  }

  lemma RejectsZero()
    ensures HandleQuery(Some("0")) == Response(400, ErrorBody(InvalidInputMessage))
  {
    ParsesZero();
  }

  lemma RejectsNegative()
    ensures HandleQuery(Some("-10")) == Response(400, ErrorBody(InvalidInputMessage))
  {
    ParsesMinusTen();
  }

  lemma RejectsTooLarge()
    ensures HandleQuery(Some("4000")) == Response(400, ErrorBody(InvalidInputMessage))
  {
    ParsesFourThousand();
  }

  lemma ConvertsFortyTwo()
    ensures ToRoman(42) == "XLII"
  {
    ToRomanByDigits(42, 0, 0, 4, 2);
  }

  /** "42.75" is answered as 42: 200 with XLII. */
  lemma TruncatesFraction()
    ensures HandleQuery(Some("42.75")) == Response(200, ResultBody(42, "XLII"))
  {
    ParsesFraction();
    ConvertsFortyTwo();
  }

  /** A query that spells `n` is answered with `n` and its numeral. */
  lemma ConvertsQuery(n: nat, query: string, expected: string)
    requires 1 <= n <= MaxNumeral
    requires Show(n) == query && ToRoman(n) == expected
    ensures HandleQuery(Some(query)) == Response(200, ResultBody(n, expected))
  {
    ParseIntOfShow(n);
  }

  /** The decimal spellings of the smaller numbers the route's tests send. */
  lemma SpellsSmallNumbers(n: nat, query: string)
    requires (n, query) in {(1, "1"), (4, "4"), (9, "9"), (42, "42"), (999, "999")}
    ensures Show(n) == query
  {
    if n == 999 {
      assert Show(99) == "99";
    }
  }

  /** The decimal spellings of the four-digit numbers the route's tests send. */
  lemma SpellsYears(n: nat, query: string)
    requires (n, query) in {(2023, "2023"), (3999, "3999"), (1984, "1984")}
    ensures Show(n) == query
  {
    if n == 2023 {
      assert Show(202) == "202";
    } else if n == 3999 {
      assert Show(399) == "399";
    } else {
      assert Show(198) == "198";
    }
  }

  /** The route's successful test cases, the query being the number's decimal spelling. */
  lemma AnswersTestedNumbers(n: nat, query: string, expected: string)
    requires (n, query, expected) in {(1, "1", "I"), (4, "4", "IV"), (9, "9", "IX"), (42, "42", "XLII"),
                                      (999, "999", "CMXCIX"), (2023, "2023", "MMXXIII"),
                                      (3999, "3999", "MMMCMXCIX"), (1984, "1984", "MCMLXXXIV")}
    ensures HandleQuery(Some(query)) == Response(200, ResultBody(n, expected))
  {
    if n in {1984, 2023, 3999} {
      SpellsYears(n, query);
      ConvertsYears(n, expected);
    } else {
      SpellsSmallNumbers(n, query);
      ConvertsSmall(n, expected);
    }
    ConvertsQuery(n, query, expected);
  }
}
