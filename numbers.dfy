/**
 * `_format_number` (`f"{num:,}"`: decimal digits with a comma between
 * groups of three, counted from the right) and `_get_cost_color`.
 */
module Numbers {
  import opened Text

  predicate AllDigits(s: string) {
    forall i :: 0 <= i < |s| ==> IsDigit(s[i])
  }

  /** Inserts a comma before every group of three digits counted from the right. */
  function Group(ds: string): (s: string)
    requires AllDigits(ds)
    ensures |ds| >= 1 ==> |s| >= 1
    decreases |ds|
  {
    if |ds| <= 3 then ds
    else Group(ds[..|ds| - 3]) + [','] + ds[|ds| - 3..]
  }

  /** `f"{num:,}"` for an int. */
  function FormatNumber(n: int): string {
    if n < 0 then ['-'] + Group(Digits(-n)) else Group(Digits(n))
  }

  /** The text without its commas. */
  function StripCommas(s: string): string {
    if s == [] then []
    else StripCommas(s[..|s| - 1]) + (if s[|s| - 1] == ',' then [] else [s[|s| - 1]])
  }

  /** The shape of a grouped number: a leading group of one to three digits,
      then groups of exactly three digits, each after a comma. */
  predicate WellGrouped(s: string)
    decreases |s|
  {
    if |s| <= 3 then 1 <= |s| && AllDigits(s)
    else |s| >= 5 && s[|s| - 4] == ',' && AllDigits(s[|s| - 3..]) && WellGrouped(s[..|s| - 4])
  }

  lemma {:induction false} StripCommasAppend(a: string, b: string)
    ensures StripCommas(a + b) == StripCommas(a) + StripCommas(b)
    decreases |b|
  {
    if b == [] {
      assert a + b == a;
    } else {
      var init := b[..|b| - 1];
      assert (a + b)[..|a + b| - 1] == a + init;
      StripCommasAppend(a, init);
    }
  }

  lemma {:induction false} StripCommasOfDigits(ds: string)
    requires AllDigits(ds)
    ensures StripCommas(ds) == ds
  {
    if ds != [] {
      var init := ds[..|ds| - 1];
      assert IsDigit(ds[|ds| - 1]);
      StripCommasOfDigits(init);
      assert init + [ds[|ds| - 1]] == ds;
    }
  }

  /** Grouping only inserts commas, and in the right places. */
  lemma {:induction false} GroupCorrect(ds: string)
    requires |ds| >= 1 && AllDigits(ds)
    ensures StripCommas(Group(ds)) == ds
    ensures WellGrouped(Group(ds))
    ensures Group(ds)[0] == ds[0]
    decreases |ds|
  {
    if |ds| <= 3 {
      StripCommasOfDigits(ds);
    } else {
      var high := ds[..|ds| - 3];
      var low := ds[|ds| - 3..];
      GroupCorrect(high);
      GroupStep(Group(high), low);
      assert high + low == ds;
    }
  }

  /** One step of Group: appending a comma and three digits to a well-grouped text. */
  lemma GroupStep(g: string, low: string)
    requires WellGrouped(g) && |low| == 3 && AllDigits(low)
    ensures StripCommas(g + [','] + low) == StripCommas(g) + low
    ensures WellGrouped(g + [','] + low)
    ensures |g| >= 1 && (g + [','] + low)[0] == g[0]
  {
    var s := g + [','] + low;
    StripCommasAppend(g + [','], low);
    StripCommasAppend(g, [',']);
    assert StripCommas([',']) == StripCommas([]) + [];
    StripCommasOfDigits(low);
    assert s[..|s| - 4] == g;
    assert s[|s| - 3..] == low;
  }

  /** Reads a `{:,}` text back: an optional minus sign, then digits and commas. */
  function ParseGrouped(s: string): int
    requires AllDigits(StripCommas(if s != [] && s[0] == '-' then s[1..] else s))
  {
    if s != [] && s[0] == '-' then 0 - DecimalValue(StripCommas(s[1..])) else DecimalValue(StripCommas(s))
  }

  /** The formatted number reads back as the number, is well grouped after
      the sign, and carries a minus sign exactly when it is negative. */
  lemma FormatNumberRoundTrip(n: int)
    ensures var s := FormatNumber(n);
      && (s[0] == '-' <==> n < 0)
      && WellGrouped(if n < 0 then s[1..] else s)
      && AllDigits(StripCommas(if s != [] && s[0] == '-' then s[1..] else s))
      && ParseGrouped(s) == n
  {
    var m: nat := if n < 0 then -n else n;
    GroupCorrect(Digits(m));
    DigitsRoundTrip(m);
    var s := FormatNumber(n);
    if n < 0 {
      assert s[1..] == Group(Digits(m));
    }
  }

  /** A concrete instance: -1234567 is written -1,234,567. */
  lemma FormatMillion()
    ensures FormatNumber(-1234567) == "-1,234,567"
  {
    SevenDigits();
    SevenGrouped();
  }

  lemma SevenGrouped()
    ensures Group("1234567") == "1,234,567"
  {
    assert Group("1") == "1";
    assert Group("1234") == "1,234";
  }

  lemma SevenDigits()
    ensures Digits(1234567) == "1234567"
  {
    assert Digits(1) == "1";
    assert Digits(12) == "12";
    assert Digits(123) == "123";
    assert Digits(1234) == "1234";
    assert Digits(12345) == "12345";
    assert Digits(123456) == "123456";
  }

  datatype Color = Red | Yellow | Green

  /** `_get_cost_color` on a cost in cents: red from $50, yellow from $20, else green. */
  function CostColor(cents: int): (c: Color)
    ensures c == Red <==> cents >= 5000
    ensures c == Yellow <==> 2000 <= cents < 5000
    ensures c == Green <==> cents < 2000
  {
    if cents >= 5000 then Red else if cents >= 2000 then Yellow else Green
  }

  function Severity(c: Color): nat {
    match c
    case Green => 0
    case Yellow => 1
    case Red => 2
  }

  /** A larger cost never gets a milder colour. */
  lemma CostColorMonotone(a: int, b: int)
    requires a <= b
    ensures Severity(CostColor(a)) <= Severity(CostColor(b))
  {
  }
}
