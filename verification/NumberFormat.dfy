/** Thousands separators in the usage table. */
module NumberFormat {
  import opened Common

  function Digit(d: nat): char
    requires d < 10
  {
    ['0', '1', '2', '3', '4', '5', '6', '7', '8', '9'][d]
  }

  function Digits(n: nat): (d: string)
    ensures d != ""
  {
    if n < 10 then [Digit(n)] else Digits(n / 10) + [Digit(n % 10)]
  }

  function Decimal(n: int): string {
    if n < 0 then ['-'] + Digits(-n) else Digits(n)
  }

  /** Digits in groups of three from the right, with commas between them. */
  function Thousands(digits: string): string
    decreases |digits|
  {
    var n := |digits|;
    if n <= 3 then digits else Thousands(digits[..n - 3]) + "," + digits[n - 3..]
  }

  /** What the loop makes of any text: a comma before every third character from the right. */
  function Spaced(s: string): string {
    if s == "" then ""
    else [s[0]] + (if |s| > 1 && (|s| - 1) % 3 == 0 then "," else "") + Spaced(s[1..])
  }

  function Reversed(s: string): (r: string)
    ensures |r| == |s|
  {
    if s == "" then "" else Reversed(s[1..]) + [s[0]]
  }

  lemma {:induction false} ReversedOfMore(s: string, c: char)
    ensures Reversed(s + [c]) == [c] + Reversed(s)
    decreases |s|
  {
    if s == "" {
      assert "" + [c] == [c];
      assert Reversed([c]) == [] + [c];
      Empty([c]);
    } else {
      assert (s + [c])[0] == s[0] && (s + [c])[1..] == s[1..] + [c];
      ReversedOfMore(s[1..], c);
      Reassociate([c], Reversed(s[1..]), [s[0]]);
    }
  }

  function Gap(n: nat): string {
    if n > 0 && n % 3 == 0 then "," else ""
  }

  lemma GapReversed(result: string, n: nat)
    ensures Reversed(result + Gap(n)) == Gap(n) + Reversed(result)
  {
    if Gap(n) == "," {
      ReversedOfMore(result, ',');
      assert result + "," == result + [','];
    } else {
      Empty(result);
      Empty(Reversed(result));
    }
  }

  lemma SpacedOfMore(s: string)
    requires s != ""
    ensures Spaced(s) == [s[0]] + Gap(|s| - 1) + Spaced(s[1..])
  {
  }

  /** One more digit on the left. */
  lemma FormatStep(s: string, i: nat, result: string)
    requires i < |s| && Reversed(result) == Spaced(s[|s| - i..])
    ensures Reversed(result + Gap(i) + [s[|s| - 1 - i]]) == Spaced(s[|s| - 1 - i..])
  {
    var c, rest, more := s[|s| - 1 - i], s[|s| - i..], s[|s| - 1 - i..];
    assert more[0] == c && more[1..] == rest;
    GapReversed(result, i);
    ReversedOfMore(result + Gap(i), c);
    SpacedOfMore(more);
    Reassociate([c], Gap(i), Spaced(rest));
  }

  method FmtNum(n: int) returns (text: string)
    ensures text == Spaced(Decimal(n))
  {
    var s := Decimal(n);
    var result := "";
    for i := 0 to |s|
      invariant Reversed(result) == Spaced(s[|s| - i..])
    {
      FormatStep(s, i, result);
      Empty(result);
      if i > 0 && i % 3 == 0 {
        result := result + ",";
      }
      result := result + [s[|s| - 1 - i]];
    }
    assert s[0..] == s;
    text := Reversed(result);
  }

  lemma SpacedFirst(c: char, rest: string)
    ensures Spaced([c] + rest) == [c] + Gap(|rest|) + Spaced(rest)
  {
    First(c, rest);
  }

  lemma FourParts(a: string, b: string, c: string, d: string)
    ensures a + b + (c + "," + d) == (a + b + c) + "," + d
  {
  }

  lemma {:induction false} SpacedAppend(a: string, b: string)
    requires |b| == 3 && a != ""
    ensures Spaced(a + b) == Spaced(a) + "," + b
    decreases |a|
  {
    var c, rest := a[0], a[1..];
    assert a == [c] + rest;
    Reassociate([c], rest, b);
    SpacedFirst(c, rest + b);
    SpacedFirst(c, rest);
    if rest == "" {
      Empty(b);
      SpacedThree(b);
      Empty([c]);
    } else {
      SpacedAppend(rest, b);
      assert Gap(|rest + b|) == Gap(|rest|);
      FourParts([c], Gap(|rest|), Spaced(rest), b);
    }
  }

  lemma SpacedThree(b: string)
    requires |b| == 3
    ensures Spaced(b) == b
  {
    var b1, b2 := b[1..], b[2..];
    assert b1[1..] == b2 && b2[1..] == "";
    assert Spaced(b2) == [b[2]] + "" + "";
    assert Spaced(b1) == [b[1]] + "" + Spaced(b2);
    assert Spaced(b) == [b[0]] + "" + Spaced(b1);
    assert b == [b[0], b[1], b[2]];
  }

  /** On digits alone the loop groups as it should. */
  lemma {:induction false} SpacedGroups(digits: string)
    ensures Spaced(digits) == Thousands(digits)
    decreases |digits|
  {
    var n := |digits|;
    if n <= 3 {
      SpacedShort(digits);
    } else {
      SpacedGroups(digits[..n - 3]);
      SpacedAppend(digits[..n - 3], digits[n - 3..]);
      assert digits == digits[..n - 3] + digits[n - 3..];
    }
  }

  lemma SpacedShort(s: string)
    requires |s| <= 3
    ensures Spaced(s) == s
  {
    if |s| == 3 {
      SpacedThree(s);
    } else if |s| == 2 {
      assert s[1..][1..] == "" && Spaced(s[1..]) == [s[1]] + "" + "";
      assert s == [s[0], s[1]];
    } else if |s| == 1 {
      assert s[1..] == "" && s == [s[0]] + "" + "";
    } else {
      assert s == "";
    }
  }

  /**
   A number is printed as its digits in groups of three behind its sign, exactly
   unless it is negative with a multiple of three digits: then a comma follows
   the sign.
   */
  lemma PrintedInGroups(n: int)
    ensures Spaced(Decimal(n)) == (if n < 0 then ['-'] + Thousands(Digits(-n)) else Thousands(Digits(n))) <==>
            !(n < 0 && |Digits(-n)| % 3 == 0)
  {
    if n < 0 {
      var d := Digits(-n);
      SpacedGroups(d);
      assert Decimal(n)[1..] == d;
      if |d| % 3 == 0 {
        assert Spaced(Decimal(n))[1] == ',';
        ThousandsStarts(d);
        assert (['-'] + Thousands(d))[1] == d[0];
        DigitsAreNoCommas(-n, 0);
      } else {
        assert ['-'] + "" + Thousands(d) == ['-'] + Thousands(d);
      }
    } else {
      SpacedGroups(Digits(n));
    }
  }

  lemma {:induction false} ThousandsStarts(digits: string)
    requires digits != ""
    ensures Thousands(digits) != "" && Thousands(digits)[0] == digits[0]
    decreases |digits|
  {
    if |digits| > 3 {
      ThousandsStarts(digits[..|digits| - 3]);
    }
  }

  lemma {:induction false} DigitsAreNoCommas(n: nat, i: nat)
    requires i < |Digits(n)|
    ensures Digits(n)[i] != ','
  {
    if n >= 10 && i < |Digits(n / 10)| {
      DigitsAreNoCommas(n / 10, i);
    }
  }

  lemma CommaAfterSign()
    ensures Spaced(Decimal(-123)) == "-,123"
  {
    assert Digits(123 / 10) == Digits(12 / 10) + ['2'];
    assert Digits(123) == "123";
    assert Decimal(-123) == "-123" && "-123"[1..] == "123";
    SpacedThree("123");
  }

  // ---------------------------------------------------------------- reading a printed number

  function WithoutCommas(s: string): string {
    if s == "" then "" else (if s[0] == ',' then "" else [s[0]]) + WithoutCommas(s[1..])
  }

  /** The value of decimal digits. */
  function Value(digits: string): int
    decreases |digits|
  {
    if digits == "" then 0
    else 10 * Value(digits[..|digits| - 1]) + (digits[|digits| - 1] as int - '0' as int)
  }

  function Number(s: string): int {
    if s != "" && s[0] == '-' then -Value(s[1..]) else Value(s)
  }

  lemma {:induction false} DigitsHaveValue(n: nat)
    ensures Value(Digits(n)) == n
  {
    if n >= 10 {
      DigitsHaveValue(n / 10);
      Last(Digits(n / 10), Digit(n % 10));
    } else {
      assert Digits(n)[..0] == "";
    }
  }

  lemma {:induction false} DigitsStart(n: nat)
    ensures '0' <= Digits(n)[0] <= '9' && (n > 0 ==> Digits(n)[0] != '0')
  {
    if n >= 10 {
      DigitsStart(n / 10);
    }
  }

  lemma {:induction false} SpacedLosesCommas(s: string)
    requires ',' !in s
    ensures WithoutCommas(Spaced(s)) == s
  {
    if s != "" {
      var c, rest := s[0], s[1..];
      SpacedLosesCommas(rest);
      SpacedOfMore(s);
      if Gap(|rest|) == "" {
        Empty([c]);
        First(c, Spaced(rest));
      } else {
        var tail := "," + Spaced(rest);
        Reassociate([c], ",", Spaced(rest));
        First(c, tail);
        First(',', Spaced(rest));
        Empty(WithoutCommas(Spaced(rest)));
      }
    }
  }

  lemma DecimalHasNoCommas(n: int)
    ensures ',' !in Decimal(n)
  {
    var d := Digits(if n < 0 then -n else n);
    forall i | 0 <= i < |d| ensures d[i] != ',' {
      DigitsAreNoCommas(if n < 0 then -n else n, i);
    }
  }

  /** Whatever its commas, a printed number reads as the number, without a leading zero unless it is 0. */
  lemma PrintedNumberReadsBack(n: int)
    ensures Number(WithoutCommas(Spaced(Decimal(n)))) == n
    ensures n != 0 ==> var s := WithoutCommas(Spaced(Decimal(n))); s[if n < 0 then 1 else 0] != '0'
  {
    var d := Digits(if n < 0 then -n else n);
    DecimalHasNoCommas(n);
    SpacedLosesCommas(Decimal(n));
    DigitsHaveValue(if n < 0 then -n else n);
    DigitsStart(if n < 0 then -n else n);
    assert n < 0 ==> Decimal(n)[1..] == d;
  }
}
