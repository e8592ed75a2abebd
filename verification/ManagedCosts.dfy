/** The cost of a managed route, printed as a percentage and parsed back from the text. */
module ManagedCosts {
  import opened Text
  import opened Rounding
  import opened Routes

  const LOCAL_COST := "local cost"

  /** The digits `text` starts with. */
  function Digits(text: string): (n: nat)
    ensures n <= |text| && AllDigits(text[..n])
    ensures n < |text| ==> !IsDigit(text[n])
  {
    if text == "" || !IsDigit(text[0]) then 0
    else
      var n := 1 + Digits(text[1..]);
      assert text[..n] == [text[0]] + text[1..][..n - 1];
      n
  }

  /** The number in the first `-<digits>%` of a text. */
  function FindDiscount(text: string): Option<nat> {
    if text == "" then None
    else
      var n := Digits(text[1..]);
      if text[0] == '-' && n > 0 && n < |text[1..]| && text[1..][n] == '%' then Some(ParseNat(text[1..][..n]))
      else FindDiscount(text[1..])
  }

  lemma FindPrintedDiscount(n: nat)
    ensures FindDiscount("-" + NatText(n) + "%") == Some(n)
  {
    var digits := NatText(n);
    var text := "-" + digits + "%";
    assert text[1..] == digits + "%";
    DigitsBeforePercent(digits);
    assert (digits + "%")[..|digits|] == digits;
    ParseNatText(n);
  }

  lemma {:induction false} DigitsBeforePercent(digits: string)
    requires AllDigits(digits)
    ensures Digits(digits + "%") == |digits|
  {
    if digits != "" {
      assert (digits + "%")[1..] == digits[1..] + "%";
      DigitsBeforePercent(digits[1..]);
    } else {
      assert digits + "%" == "%";
    }
  }

  const DEFAULT_DISCOUNT: nat := 20

  /** The cost per million tokens a discount leaves, to three decimals. */
  function DiscountedCost(discount: int): real {
    RoundTo(0.72 * (100 - discount) as real / 100.0, 1000.0)
  }

  function EffectiveCost(estimatedCost: string): real {
    if estimatedCost == CUSTOMER_COST then 0.05
    else if estimatedCost == LOCAL_COST then 0.0
    else DiscountedCost(if FindDiscount(estimatedCost).Some? then FindDiscount(estimatedCost).value
                        else DEFAULT_DISCOUNT)
  }

  /** The whole percentage a managed pool of this hourly cost is advertised with. */
  function ManagedDiscount(hourly: real): (d: nat)
    ensures d >= 8
  {
    var x := 52.0 - hourly * 10.0;
    if x < 8.0 then 8 else x.Floor
  }

  function ManagedCostText(hourly: real): string {
    "-" + NatText(ManagedDiscount(hourly)) + "%"
  }

  /** The parsed cost is the cost of the percentage that was printed. */
  lemma PrintedCostRecovered(hourly: real)
    ensures EffectiveCost(ManagedCostText(hourly)) == DiscountedCost(ManagedDiscount(hourly))
  {
    FindPrintedDiscount(ManagedDiscount(hourly));
    var text := ManagedCostText(hourly);
    assert text[0] == '-' && CUSTOMER_COST[0] == 'c' && LOCAL_COST[0] == 'l';
  }

  /** The parsed cost is within half a thousandth of the advertised discount on 0.72. */
  lemma PrintedCostNear(hourly: real)
    ensures var exact := 0.72 * (100 - ManagedDiscount(hourly)) as real / 100.0;
            exact - 0.0005 <= EffectiveCost(ManagedCostText(hourly)) <= exact + 0.0005
  {
    PrintedCostRecovered(hourly);
    RoundToNear(0.72 * (100 - ManagedDiscount(hourly)) as real / 100.0, 1000.0);
  }

  lemma DiscountedCostMonotone(a: int, b: int)
    requires a <= b
    ensures DiscountedCost(b) <= DiscountedCost(a)
  {
    RoundToMonotone(0.72 * (100 - b) as real / 100.0, 0.72 * (100 - a) as real / 100.0, 1000.0);
  }

  lemma DiscountedCostPoints()
    ensures DiscountedCost(8) == 0.662 && DiscountedCost(52) == 0.346 && DiscountedCost(53) == 0.338
  {
    assert RoundHalfEven(662.4) == 662;
    assert RoundHalfEven(345.6) == 346;
    assert RoundHalfEven(338.4) == 338;
  }

  /** A higher hourly cost never makes a managed route look cheaper. */
  lemma ManagedCostMonotone(h0: real, h1: real)
    requires h0 <= h1
    ensures EffectiveCost(ManagedCostText(h0)) <= EffectiveCost(ManagedCostText(h1))
  {
    PrintedCostRecovered(h0);
    PrintedCostRecovered(h1);
    DiscountedCostMonotone(ManagedDiscount(h1), ManagedDiscount(h0));
  }

  /** A managed route costs between 0.346 and 0.662 exactly when its hourly cost is above -0.1;
      it never costs more than 0.662. */
  lemma ManagedCostRange(hourly: real)
    ensures EffectiveCost(ManagedCostText(hourly)) <= 0.662
    ensures EffectiveCost(ManagedCostText(hourly)) >= 0.346 <==> hourly > -0.1
  {
    PrintedCostRecovered(hourly);
    DiscountedCostPoints();
    var d := ManagedDiscount(hourly);
    DiscountedCostMonotone(8, d);
    if d <= 52 {
      DiscountedCostMonotone(d, 52);
    } else {
      DiscountedCostMonotone(53, d);
    }
  }

  // ---------------------------------------------------------------- costs that are not a percentage

  lemma {:induction false} NoMinusNoDiscount(text: string)
    requires '-' !in text
    ensures FindDiscount(text) == None
  {
    if text != "" {
      assert text[0] in text;
      NoMinusNoDiscount(text[1..]);
    }
  }

  /** A local route is free, a customer's costs 0.05, any other without a percentage is 20 percent off 0.72. */
  lemma OtherCosts(text: string)
    requires '-' !in text
    ensures EffectiveCost(text) == if text == "local cost" then 0.0 else if text == "customer cost" then 0.05 else 0.576
  {
    NoMinusNoDiscount(text);
    assert RoundHalfEven(576.0) == 576;
    assert DiscountedCost(20) == 0.576;
  }

  lemma DiscountedCostPositive(discount: int)
    requires discount <= 99
    ensures DiscountedCost(discount) > 0.0
  {
    DiscountedCostMonotone(discount, 99);
    assert RoundHalfEven(7.2) == 7;
    assert DiscountedCost(99) == 0.007;
  }

  /** The advertised percentage is the whole part of 52 less ten times the hourly cost, and at least 8. */
  lemma AdvertisedDiscount(hourly: real)
    ensures var d := ManagedDiscount(hourly);
            && d >= 8
            && (52.0 - hourly * 10.0 >= 8.0 ==> d as real <= 52.0 - hourly * 10.0 < d as real + 1.0)
            && (52.0 - hourly * 10.0 < 8.0 ==> d == 8)
  {
  }

  /** The first percentage after a minus sign counts, whatever stands around it. */
  lemma {:induction false} FirstDiscountCounts(before: string, n: nat, after: string)
    requires '-' !in before
    ensures FindDiscount(before + ("-" + NatText(n) + "%" + after)) == Some(n)
  {
    var text := "-" + NatText(n) + "%" + after;
    if before == "" {
      var digits := NatText(n);
      assert before + text == text && text[1..] == digits + "%" + after;
      DigitsThenPercent(digits, after);
      assert (digits + "%" + after)[..|digits|] == digits;
      ParseNatText(n);
    } else {
      assert (before + text)[0] == before[0] && before[0] in before;
      assert (before + text)[1..] == before[1..] + text;
      FirstDiscountCounts(before[1..], n, after);
    }
  }

  lemma {:induction false} DigitsThenPercent(digits: string, after: string)
    requires AllDigits(digits)
    ensures Digits(digits + "%" + after) == |digits|
  {
    if digits != "" {
      assert (digits + "%" + after)[1..] == digits[1..] + "%" + after;
      assert (digits + "%" + after)[0] == digits[0];
      DigitsThenPercent(digits[1..], after);
    } else {
      assert (digits + "%" + after)[0] == '%';
    }
  }
}
