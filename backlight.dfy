/** The brightness adjustment of src/main.rs as pure functions: choosing the
    direction and amount from the parsed command line (`main`), reading the
    maximum (`max_brightness`) and the read-compute-write of
    `adjust_brightness`. File contents are inputs: `None` for a file that could
    not be opened, `Some(text)` for what was read. */
module Backlight {
  import opened Wrappers
  import opened RustText

  datatype AdjustDirection = Inc | Dec

  /** The amount used when `-a` is absent. */
  const DEFAULT_AMOUNT: nat := 5

  /** What `opts.parse` hands to `main`: an error (for one, `-d` missing), or
      the values given for `-d` and `-a`. */
  datatype ParsedArgs = ArgsError | Args(direction: Option<string>, amount: Option<string>)

  /** The ways the program stops with a panic. */
  datatype Panic =
    | MaxBrightnessNotFound    // max_brightness: file cannot be opened
    | MaxBrightnessNotNumeric  // max_brightness: content is not an i32
    | NumericAmountRequired    // main: `-a` is not a u32
    | ArithmeticOverflow       // adjust_brightness: i32 arithmetic overflowed

  /** What one call of adjust_brightness does. */
  datatype Outcome =
    | Written(brightness: int, text: string)  // `text` is written to the brightness file
    | OpenFailed                              // brightness file not opened: reported, nothing written
    | NotANumber                              // brightness file not an i32: reported, nothing written
    | Panicked(cause: Panic)                  // the process stops, nothing written

  /** What one run of the program does. */
  datatype RunOutcome =
    | ShowUsage
    | Adjusted(dir: AdjustDirection, amount: nat, outcome: Outcome)
    | Aborted(cause: Panic)

  /** The `text` an outcome writes to the brightness file, if any. */
  function WrittenText(o: Outcome): (w: Option<string>)
    ensures w.Some? <==> o.Written?
  {
    if o.Written? then Some(o.text) else None
  }

  /** The `match m.opt_str("d")` of `main`: exactly "inc" and "dec" select a direction. */
  function ParseDirection(d: Option<string>): (r: Option<AdjustDirection>)
    ensures r == Some(Inc) <==> d == Some("inc")
    ensures r == Some(Dec) <==> d == Some("dec")
  {
    match d
    case Some(s) =>
      if s == "inc" then Some(Inc)
      else if s == "dec" then Some(Dec)
      else None
    case None => None
  }

  /** The `match m.opt_str("a")` of `main`: the trimmed text as a `u32`, 5 when
      absent, `Failure` when it does not parse (the `expect` panics). */
  function ParseAmount(a: Option<string>): (r: Result<nat, Panic>)
    ensures r.Success? ==> InU32(r.value)
    ensures a.None? ==> r == Success(DEFAULT_AMOUNT)
    ensures r.Failure? ==> r.error == NumericAmountRequired
    ensures a.Some? ==> (r.Success? <==> ParseU32(Trim(a.value)).Some?)
    ensures a.Some? && r.Success? ==> r.value == ParseU32(Trim(a.value)).value
  {
    match a
    case Some(s) =>
      (match ParseU32(Trim(s))
       case Some(n) => Success(n)
       case None => Failure(NumericAmountRequired))
    case None => Success(DEFAULT_AMOUNT)
  }

  /** max_brightness: the trimmed content of the max_brightness file as an `i32`. */
  function ReadMax(contents: Option<string>): (r: Result<int, Panic>)
    ensures r.Success? ==> InI32(r.value)
    ensures contents.None? ==> r == Failure(MaxBrightnessNotFound)
    ensures contents.Some? ==> (r.Success? <==> ParseI32(Trim(contents.value)).Some?)
    ensures r.Failure? && contents.Some? ==> r.error == MaxBrightnessNotNumeric
    ensures r.Success? ==> contents.Some? && r.value == ParseI32(Trim(contents.value)).value
  {
    match contents
    case None => Failure(MaxBrightnessNotFound)
    case Some(s) =>
      match ParseI32(Trim(s))
      case Some(m) => Success(m)
      case None => Failure(MaxBrightnessNotNumeric)
  }

  /** `max / 100` on `i32`, which truncates toward zero: the largest multiple of
      100 not beyond `max` on the side of zero, divided by 100. */
  function PercentUnit(max: int): (u: int)
    requires InI32(max)
    ensures InI32(u)
    ensures max >= 0 ==> 0 <= u && u * 100 <= max < u * 100 + 100
    ensures max < 0 ==> u <= 0 && u * 100 - 100 < max <= u * 100
  {
    if max >= 0 then max / 100 else -((-max) / 100)
  }

  /** `amount as i32`: the `i32` with the same 32 bits as the `u32`. */
  function AsI32(amount: nat): (r: int)
    requires InU32(amount)
    ensures InI32(r)
    ensures (r - amount) % 0x1_0000_0000 == 0
    ensures amount <= I32_MAX ==> r == amount
  {
    if amount <= I32_MAX then amount else amount - 0x1_0000_0000
  }

  /** `a op b` on `i32` in a build with overflow checks: `None` is the panic. */
  function CheckedI32(v: int): (r: Option<int>)
    ensures r.Some? <==> InI32(v)
    ensures r.Some? ==> r.value == v
  {
    if InI32(v) then Some(v) else None
  }

  /** The mathematical value of the adjustment for `dir`: plus or minus
      `amount` percent units. */
  function SignedAdjustment(dir: AdjustDirection, amount: nat, unit: int): int
    requires InU32(amount)
  {
    match dir
    case Inc => AsI32(amount) * unit
    case Dec => -(AsI32(amount) * unit)
  }

  /** Lines 49-52: `0 + amount as i32 * one_percent` for Inc and
      `0 - amount as i32 * one_percent` for Dec; `None` when a step overflows. */
  function Adjustment(dir: AdjustDirection, amount: nat, unit: int): (r: Option<int>)
    requires InU32(amount) && InI32(unit)
    ensures r.Some? <==> InI32(AsI32(amount) * unit) && (dir == Dec ==> AsI32(amount) * unit != I32_MIN)
    ensures r.Some? ==> r.value == SignedAdjustment(dir, amount, unit)
    ensures dir == Inc && r.Some? ==> r.value == AsI32(amount) * unit
    ensures dir == Dec && r.Some? ==> r.value == -(AsI32(amount) * unit)
  {
    match CheckedI32(AsI32(amount) * unit)
    case None => None
    case Some(p) =>
      match dir
      case Inc => CheckedI32(0 + p)
      case Dec => CheckedI32(0 - p)
  }

  /** Lines 53-54: `max(0, min(hi, sum))`. */
  function Clamp(sum: int, hi: int): (r: int)
    ensures 0 <= r
    ensures hi >= 0 ==> r <= hi
    ensures sum < 0 || hi < 0 ==> r == 0
    ensures 0 <= hi < sum ==> r == hi
    ensures 0 <= sum <= hi ==> r == sum
  {
    var upper := if sum < hi then sum else hi;  // cmp::min(hi, sum)
    if upper < 0 then 0 else upper               // cmp::max(0, upper)
  }

  /** The arithmetic of adjust_brightness once both reads of the maximum and the
      current value are known: the percent unit from `maxForUnit`, the signed
      adjustment, the sum with `current`, clamped to `[0, maxForClamp]`.
      `None` when an `i32` step overflows. */
  function Corrected(dir: AdjustDirection, amount: nat, maxForUnit: int, current: int, maxForClamp: int): (r: Option<int>)
    requires InU32(amount) && InI32(maxForUnit) && InI32(current) && InI32(maxForClamp)
    ensures r.Some? ==> 0 <= r.value && InI32(r.value)
    ensures r.Some? && maxForClamp >= 0 ==> r.value <= maxForClamp
    ensures r.Some? <==>
      Adjustment(dir, amount, PercentUnit(maxForUnit)).Some? &&
      InI32(current + SignedAdjustment(dir, amount, PercentUnit(maxForUnit)))
    ensures r.Some? ==> r.value == Clamp(current + SignedAdjustment(dir, amount, PercentUnit(maxForUnit)), maxForClamp)
  {
    match Adjustment(dir, amount, PercentUnit(maxForUnit))
    case None => None
    case Some(adjust) =>
      match CheckedI32(current + adjust)
      case None => None
      case Some(sum) => Some(Clamp(sum, maxForClamp))
  }

  /** adjust_brightness. `brightness` is the brightness file (`None`: it could not
      be opened for reading and writing); `maxFirst` and `maxSecond` are the
      max_brightness file as seen by the read at line 42 and the one at line 54.
      The first read comes before the open result is looked at; the second comes
      after the adjustment is computed and before it is added. */
  function AdjustBrightness(dir: AdjustDirection, amount: nat, brightness: Option<string>,
                            maxFirst: Option<string>, maxSecond: Option<string>): (r: Outcome)
    requires InU32(amount)
    ensures ReadMax(maxFirst).Failure? ==> r == Panicked(ReadMax(maxFirst).error)
    ensures ReadMax(maxFirst).Success? && brightness.None? ==> r == OpenFailed
    ensures ReadMax(maxFirst).Success? && brightness.Some? && ParseI32(Trim(brightness.value)).None? ==> r == NotANumber
    ensures ReadMax(maxFirst).Success? && brightness.Some? && ParseI32(Trim(brightness.value)).Some? ==>
      var adjust := Adjustment(dir, amount, PercentUnit(ReadMax(maxFirst).value));
      var current := ParseI32(Trim(brightness.value)).value;
      (adjust.None? ==> r == Panicked(ArithmeticOverflow)) &&
      (adjust.Some? && ReadMax(maxSecond).Failure? ==> r == Panicked(ReadMax(maxSecond).error)) &&
      (adjust.Some? && ReadMax(maxSecond).Success? && !InI32(current + adjust.value) ==> r == Panicked(ArithmeticOverflow))
    ensures r.Written? <==>
      ReadMax(maxFirst).Success? && ReadMax(maxSecond).Success? &&
      brightness.Some? && ParseI32(Trim(brightness.value)).Some? &&
      Corrected(dir, amount, ReadMax(maxFirst).value, ParseI32(Trim(brightness.value)).value, ReadMax(maxSecond).value).Some?
    ensures r.Written? ==>
      r.brightness == Corrected(dir, amount, ReadMax(maxFirst).value, ParseI32(Trim(brightness.value)).value, ReadMax(maxSecond).value).value
    ensures r.Written? ==> r.text == IntToDecimal(r.brightness) + "\n"
    ensures r.Written? ==> ParseI32(Trim(r.text)) == Some(r.brightness)
    ensures r.Written? ==> 0 <= r.brightness && r.brightness <= if ReadMax(maxSecond).value < 0 then 0 else ReadMax(maxSecond).value
  {
    match ReadMax(maxFirst)
    case Failure(e) => Panicked(e)
    case Success(maxForUnit) =>
      var unit := PercentUnit(maxForUnit);
      match brightness
      case None => OpenFailed
      case Some(text) =>
        match ParseI32(Trim(text))
        case None => NotANumber
        case Some(current) =>
          match Adjustment(dir, amount, unit)
          case None => Panicked(ArithmeticOverflow)
          case Some(adjust) =>
            match ReadMax(maxSecond)
            case Failure(e) => Panicked(e)
            case Success(maxForClamp) =>
              match CheckedI32(current + adjust)
              case None => Panicked(ArithmeticOverflow)
              case Some(sum) =>
                var corrected := Clamp(sum, maxForClamp);
                RenderedLineReadsBack(corrected);
                Written(corrected, IntToDecimal(corrected) + "\n")
  }

  /** main, from the parsed options on: the direction decides between usage and
      an adjustment; only then is the amount parsed. */
  function Run(args: ParsedArgs, brightness: Option<string>,
               maxFirst: Option<string>, maxSecond: Option<string>): (r: RunOutcome)
    ensures r == ShowUsage <==> args.ArgsError? || ParseDirection(args.direction).None?
    ensures r.Aborted? <==>
      args.Args? && ParseDirection(args.direction).Some? && ParseAmount(args.amount).Failure?
    ensures r.Aborted? ==> r.cause == NumericAmountRequired
    ensures r.Adjusted? <==>
      args.Args? && ParseDirection(args.direction).Some? && ParseAmount(args.amount).Success?
    ensures r.Adjusted? ==>
      args.Args? && ParseDirection(args.direction) == Some(r.dir) &&
      ParseAmount(args.amount) == Success(r.amount) && InU32(r.amount) &&
      r.outcome == AdjustBrightness(r.dir, r.amount, brightness, maxFirst, maxSecond)
  {
    match args
    case ArgsError => ShowUsage
    case Args(d, a) =>
      match ParseDirection(d)
      case None => ShowUsage
      case Some(dir) =>
        match ParseAmount(a)
        case Failure(e) => Aborted(e)
        case Success(amount) => Adjusted(dir, amount, AdjustBrightness(dir, amount, brightness, maxFirst, maxSecond))
  }
}
