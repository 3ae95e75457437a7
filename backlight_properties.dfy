/** Properties of the brightness adjustment in src/main.rs, stated over the
    functions of module Backlight. */
module BacklightProperties {
  import opened Wrappers
  import opened RustText
  import opened Backlight

  /** With a maximum below 100 the percent unit is 0, so every amount in either
      direction leaves an in-range brightness where it is. */
  lemma SmallMaxChangesNothing(dir: AdjustDirection, amount: nat, maxForUnit: int, current: int, maxForClamp: int)
    requires InU32(amount) && 0 <= maxForUnit < 100 && InI32(maxForClamp)
    requires 0 <= current <= maxForClamp
    ensures PercentUnit(maxForUnit) == 0
    ensures Corrected(dir, amount, maxForUnit, current, maxForClamp) == Some(current)
  {
    assert AsI32(amount) * PercentUnit(maxForUnit) == 0;
  }

  /** Inc and Dec move the same distance in opposite directions from the
      current value when neither result is clamped. */
  lemma IncDecSymmetric(amount: nat, maxForUnit: int, current: int, maxForClamp: int)
    requires InU32(amount) && InI32(maxForUnit) && InI32(current) && InI32(maxForClamp)
    requires InI32(AsI32(amount) * PercentUnit(maxForUnit)) && AsI32(amount) * PercentUnit(maxForUnit) != I32_MIN
    requires 0 <= current - AsI32(amount) * PercentUnit(maxForUnit) <= maxForClamp
    requires 0 <= current + AsI32(amount) * PercentUnit(maxForUnit) <= maxForClamp
    ensures Corrected(Inc, amount, maxForUnit, current, maxForClamp).Some?
    ensures Corrected(Dec, amount, maxForUnit, current, maxForClamp).Some?
    ensures Corrected(Inc, amount, maxForUnit, current, maxForClamp).value - current
         == current - Corrected(Dec, amount, maxForUnit, current, maxForClamp).value
  {
  }

  /** The signed adjustments of the two directions are each other's negation
      whenever both are computed without overflow. */
  lemma AdjustmentsOpposite(amount: nat, unit: int)
    requires InU32(amount) && InI32(unit)
    requires Adjustment(Dec, amount, unit).Some?
    ensures Adjustment(Inc, amount, unit).Some?
    ensures Adjustment(Inc, amount, unit).value == -Adjustment(Dec, amount, unit).value
  {
  }

  /** For a non-negative maximum and an amount that keeps its value through the
      `as i32` cast, Inc never lowers an in-range brightness and Dec never
      raises it. */
  lemma DirectionIsMonotone(dir: AdjustDirection, amount: nat, maxForUnit: int, current: int, maxForClamp: int)
    requires 0 <= amount <= I32_MAX && 0 <= maxForUnit <= I32_MAX && InI32(maxForClamp)
    requires 0 <= current <= maxForClamp
    requires Corrected(dir, amount, maxForUnit, current, maxForClamp).Some?
    ensures dir == Inc ==> Corrected(dir, amount, maxForUnit, current, maxForClamp).value >= current
    ensures dir == Dec ==> Corrected(dir, amount, maxForUnit, current, maxForClamp).value <= current
  {
    var u := PercentUnit(maxForUnit);
    assert u >= 0 && amount * u >= 0;
  }

  /** The `as i32` cast turns an amount of 2^31 or more into a negative
      number, so such an "increase" lowers the brightness: with max 937 and
      `-a 4294967295`, Inc takes 500 to 491. */
  lemma HugeIncLowers()
    ensures AsI32(0xFFFF_FFFF) == -1
    ensures Corrected(Inc, 0xFFFF_FFFF, 937, 500, 937) == Some(491)
  {
    assert PercentUnit(937) == 9;
  }

  /** From a brightness read above the maximum the same cast "increase" ends
      on the maximum: the small step down still leaves the sum above it
      (unit 9), or there is no step at all (unit 0). */
  lemma HugeIncFromAboveMax()
    ensures Corrected(Inc, 0xFFFF_FFFF, 937, 1000, 937) == Some(937)
    ensures Corrected(Inc, 0xFFFF_FFFF, 50, 1000, 937) == Some(937)
  {
    assert PercentUnit(937) == 9 && PercentUnit(50) == 0;
  }

  /** An increase by at least the whole clamp range lands on the maximum from
      any in-range start, and doing it again stays there. */
  lemma IncSaturates(amount: nat, maxForUnit: int, current: int, maxForClamp: int)
    requires InU32(amount) && InI32(maxForUnit) && 0 <= current <= maxForClamp
    requires AsI32(amount) * PercentUnit(maxForUnit) >= maxForClamp
    requires maxForClamp + AsI32(amount) * PercentUnit(maxForUnit) <= I32_MAX
    ensures Corrected(Inc, amount, maxForUnit, current, maxForClamp) == Some(maxForClamp)
    ensures Corrected(Inc, amount, maxForUnit, maxForClamp, maxForClamp) == Some(maxForClamp)
  {
  }

  /** `n` runs of the program's arithmetic, each starting from the previous
      result; `None` once a run overflows. */
  function Repeat(n: nat, dir: AdjustDirection, amount: nat, maxForUnit: int, current: int, maxForClamp: int): (r: Option<int>)
    requires InU32(amount) && InI32(maxForUnit) && InI32(current) && InI32(maxForClamp)
    ensures n == 0 ==> r == Some(current)
    ensures n > 0 && r.Some? && maxForClamp >= 0 ==> 0 <= r.value <= maxForClamp
  {
    if n == 0 then Some(current)
    else
      match Corrected(dir, amount, maxForUnit, current, maxForClamp)
      case None => None
      case Some(next) => Repeat(n - 1, dir, amount, maxForUnit, next, maxForClamp)
  }

  /** Repeating a saturating increase any positive number of times converges to
      the maximum and stays there. */
  lemma {:induction false} RepeatedIncStaysAtMax(n: nat, amount: nat, maxForUnit: int, current: int, maxForClamp: int)
    requires n > 0
    requires InU32(amount) && InI32(maxForUnit) && 0 <= current <= maxForClamp
    requires AsI32(amount) * PercentUnit(maxForUnit) >= maxForClamp
    requires maxForClamp + AsI32(amount) * PercentUnit(maxForUnit) <= I32_MAX
    ensures Repeat(n, Inc, amount, maxForUnit, current, maxForClamp) == Some(maxForClamp)
  {
    IncSaturates(amount, maxForUnit, current, maxForClamp);
    if n > 1 {
      RepeatedIncStaysAtMax(n - 1, amount, maxForUnit, maxForClamp, maxForClamp);
    }
  }

  /** A direction other than exactly "inc" or "dec", or none, shows usage and
      touches no file, whatever the amount says. */
  lemma OtherDirectionShowsUsage(d: Option<string>, a: Option<string>, brightness: Option<string>,
                                 maxFirst: Option<string>, maxSecond: Option<string>)
    requires d != Some("inc") && d != Some("dec")
    ensures Run(Args(d, a), brightness, maxFirst, maxSecond) == ShowUsage
  {
  }

  /** The text "5" is read as the amount 5. */
  lemma FiveParsesAsFive()
    ensures ParseAmount(Some("5")) == Success(5)
  {
    assert NatToDecimal(5) == "5";
    TrimKeepsTrimmed("5");
    ParseU32Rendered(5);
  }

  /** Leaving out `-a` is the same as `-a 5`. */
  lemma MissingAmountIsFive(d: Option<string>, brightness: Option<string>,
                            maxFirst: Option<string>, maxSecond: Option<string>)
    ensures Run(Args(d, None), brightness, maxFirst, maxSecond)
         == Run(Args(d, Some("5")), brightness, maxFirst, maxSecond)
  {
    FiveParsesAsFive();
    assert ParseAmount(None) == ParseAmount(Some("5"));
  }

  /** A brightness file whose trimmed text is not an `i32` gets nothing written. */
  lemma NotANumberWritesNothing(dir: AdjustDirection, amount: nat, brightness: string,
                                maxFirst: Option<string>, maxSecond: Option<string>)
    requires InU32(amount)
    requires ParseI32(Trim(brightness)).None?
    ensures WrittenText(AdjustBrightness(dir, amount, Some(brightness), maxFirst, maxSecond)).None?
  {
  }

  /** The maximum written in the usual sysfs form reads back as itself. */
  lemma MaxReadsBack(m: int)
    requires InI32(m)
    ensures ReadMax(Some(IntToDecimal(m) + "\n")) == Success(m)
  {
    RenderedLineReadsBack(m);
  }

  /** With both reads of the maximum giving `max` and the brightness text
      reading as `current`, adjust_brightness writes the rendering of the
      arithmetic's result. */
  lemma AdjustOnReadableFiles(dir: AdjustDirection, amount: nat, text: string, current: int,
                              maxFile: Option<string>, max: int)
    requires InU32(amount)
    requires ReadMax(maxFile) == Success(max) && ParseI32(Trim(text)) == Some(current)
    requires Corrected(dir, amount, max, current, max).Some?
    ensures AdjustBrightness(dir, amount, Some(text), maxFile, maxFile)
         == Written(Corrected(dir, amount, max, current, max).value,
                    IntToDecimal(Corrected(dir, amount, max, current, max).value) + "\n")
  {
  }

  /** Two runs one after the other through the files, the second reading what
      the first wrote, agree with the arithmetic applied twice. */
  lemma TwoRunsCompose(dir: AdjustDirection, amount: nat, brightness: string, current: int, max: int)
    requires InU32(amount) && 0 <= max <= I32_MAX
    requires ParseI32(Trim(brightness)) == Some(current)
    requires Repeat(2, dir, amount, max, current, max).Some?
    ensures
      var maxFile := Some(IntToDecimal(max) + "\n");
      var first := AdjustBrightness(dir, amount, Some(brightness), maxFile, maxFile);
      first.Written? &&
      AdjustBrightness(dir, amount, Some(first.text), maxFile, maxFile)
        == Written(Repeat(2, dir, amount, max, current, max).value,
                   IntToDecimal(Repeat(2, dir, amount, max, current, max).value) + "\n")
  {
    var maxFile := Some(IntToDecimal(max) + "\n");
    MaxReadsBack(max);
    var v1 := Corrected(dir, amount, max, current, max).value;
    AdjustOnReadableFiles(dir, amount, brightness, current, maxFile, max);
    var text1 := IntToDecimal(v1) + "\n";
    RenderedLineReadsBack(v1);
    assert Repeat(2, dir, amount, max, current, max) == Repeat(1, dir, amount, max, v1, max);
    AdjustOnReadableFiles(dir, amount, text1, v1, maxFile, max);
  }

  /** The decimal rendering of a three-digit number. */
  lemma ThreeDigits(a: nat, b: nat, c: nat)
    requires 1 <= a < 10 && b < 10 && c < 10
    ensures IntToDecimal(100 * a + 10 * b + c) == [Digit(a), Digit(b), Digit(c)]
  {
    var n := 100 * a + 10 * b + c;
    assert n / 10 == 10 * a + b && n % 10 == c;
    assert (10 * a + b) / 10 == a && (10 * a + b) % 10 == b;
    assert NatToDecimal(10 * a + b) == [Digit(a), Digit(b)];
  }

  lemma Decimal937()
    ensures IntToDecimal(937) == "937" && IntToDecimal(500) == "500" && IntToDecimal(590) == "590"
  {
    ThreeDigits(9, 3, 7);
    ThreeDigits(5, 0, 0);
    ThreeDigits(5, 9, 0);
  }

  /** The arithmetic of the example below: unit 9, adjustment +90, result 590. */
  lemma Example937Arithmetic()
    ensures PercentUnit(937) == 9
    ensures Corrected(Inc, 10, 937, 500, 937) == Some(590)
  {
    assert AsI32(10) * PercentUnit(937) == 90;
  }

  /** max_brightness = 937, brightness = 500, `-d inc -a 10`: the unit is 9, the
      adjustment +90, and "590\n" is written. */
  lemma Example937()
    ensures AdjustBrightness(Inc, 10, Some("500\n"), Some("937\n"), Some("937\n")) == Written(590, "590\n")
  {
    Example937Arithmetic();
    Decimal937();
    assert "937" + "\n" == "937\n" && "500" + "\n" == "500\n" && "590" + "\n" == "590\n";
    MaxReadsBack(937);
    RenderedLineReadsBack(500);
    AdjustOnReadableFiles(Inc, 10, "500\n", 500, Some("937\n"), 937);
  }
}
