# rxbacklight brightness adjustment in Dafny

rxbacklight is a command-line tool that changes a laptop backlight by a
percentage. It reads `max_brightness` and `brightness` from the backlight's
sysfs directory. It computes a new value and writes it back to `brightness`.
The whole program is `src/main.rs`. This project models its decision logic as
pure functions and proves properties of them.

- `wrappers.dfy`, module `Wrappers`: `Option` and `Result`.
- `rust_text.dfy`, module `RustText`: the Rust standard-library text handling
  the program relies on. That is `str::trim` (Unicode White_Space on both ends),
  `str::parse::<i32>` and `str::parse::<u32>` (an optional sign, then at least
  one ASCII digit, then a range check), and `{}` formatting of an integer. It
  also holds the `i32`/`u32` bounds.
- `backlight.dfy`, module `Backlight`: the program itself.
  - `ParseDirection` and `ParseAmount` model the option handling of `main`.
  - `ReadMax` models `max_brightness`.
  - `PercentUnit`, `AsI32`, `Adjustment` and `Clamp` model the arithmetic of
    `adjust_brightness`, and `Corrected` composes them.
  - `AdjustBrightness` models the whole read-compute-write step.
  - `Run` models `main` once the options have been parsed.
- `backlight_properties.dfy`, module `BacklightProperties`: lemmas about the
  above.

File contents are inputs. `None` stands for a file that could not be opened;
`Some(text)` is what was read. The two reads of `max_brightness` in one
adjustment are two separate inputs, `maxFirst` (line 42) and `maxSecond`
(line 54), because the program really reads the file twice. The order of
events follows the code:
1. The first maximum is read before the open result of `brightness` is
   looked at.
2. The adjustment is computed before the second maximum is read.
3. The second maximum is read before the addition.

A panic is an outcome (`Panicked`, `Aborted`), not a precondition. The panics
are a missing or non-numeric `max_brightness`, a non-numeric `-a`, and
`i32` overflow. Overflow is modelled with overflow checks on, as in a debug
build.

Where the code's behaviour differs from a plain reading of the tool's purpose,
the model follows the code:
- The percent unit is `max / 100` on `i32`. Rust's `/` truncates toward zero,
  not down. This only matters for a negative maximum, which `parse::<i32>`
  accepts.
- `amount as i32` reinterprets the bits of the `u32` amount. So an amount of
  2^31 or more becomes negative, and an "increase" by such an amount can lower
  the brightness, as `HugeIncLowers` shows. From a brightness within
  `[0, max]` it does not "clamp to the maximum": depending on the percent
  unit, a large amount moves the brightness the wrong way, leaves it unchanged
  (unit 0) or overflows the `i32` multiplication, which is a panic. From a
  brightness read above the maximum the same amount can end on the maximum,
  because the clamp pulls the sum down to it, as `HugeIncFromAboveMax` shows.
- The amount is parsed only after a valid direction has been chosen. So
  `-d up -a xyz` shows usage and does not panic.

## Model

| member | source | states |
|---|---|---|
| `RustText.LeadingWhitespace` | src/main.rs:48 | the count `trim` drops at the front: all of those characters are whitespace, and the next one is not |
| `RustText.TrailingWhitespace` | src/main.rs:48 | the count `trim` drops at the back: all of those characters are whitespace, and the one before them is not |
| `RustText.IsWhitespace` | src/main.rs:48 | `char::is_whitespace`, the full Unicode White_Space set; among ASCII exactly space and tab through carriage return, and never a digit or a sign |
| `RustText.Trim` | src/main.rs:30 | the trimmed text neither starts nor ends with whitespace, and the input is whitespace, then the result, then whitespace |
| `RustText.LeadingOfPadded` | src/main.rs:48 | a whitespace prefix put before text that starts with a non-space is exactly what the front trim drops |
| `RustText.TrailingOfPadded` | src/main.rs:48 | a whitespace suffix put after text that ends with a non-space is exactly what the back trim drops |
| `RustText.TrimSurrounded` | src/main.rs:48 | trimming undoes any whitespace put around text with no whitespace at its ends (inverse of `Trim`) |
| `RustText.TrimKeepsTrimmed` | src/main.rs:85 | text with no whitespace at its ends is left unchanged by `trim` |
| `RustText.DecimalDigits` | src/main.rs:48 | a value comes back exactly when the text is a non-empty run of ASCII digits |
| `RustText.SignedDecimal` | src/main.rs:85 | accepted exactly when the text is a non-empty digit run, optionally after `+`, or after `-` for a signed target; the value is the digits' value, negated after `-`, so an unsigned read is never negative |
| `RustText.ParseI32` | src/main.rs:48 | `parse::<i32>` succeeds exactly when the text is a well-formed signed decimal whose value fits in `i32`, and then gives that value |
| `RustText.ParseU32` | src/main.rs:85 | `parse::<u32>` succeeds exactly when the text is a well-formed unsigned decimal (optional `+`) whose value fits in `u32`, gives that value, and rejects a leading `-` |
| `RustText.NatToDecimal` | src/main.rs:56 | the rendering is non-empty ASCII digits with no leading zero (0 is exactly `"0"`), and its digits read back as the number |
| `RustText.IntToDecimal` | src/main.rs:56 | the `{}` rendering is non-empty, has no whitespace at its ends, is all digits with no leading zero for a non-negative value, and is `-` then digits with no leading zero for a negative one |
| `RustText.ParseRendered` | src/main.rs:56 | parsing the rendering of any `i32` as `i32` gives it back |
| `RustText.ParseU32Rendered` | src/main.rs:85 | `parse::<u32>` of the digits of any natural number gives it back when it fits in `u32`, and fails (overflow) when it does not |
| `RustText.ParseU32PlusRendered` | src/main.rs:85 | a leading `+` before the digits of a `u32` is accepted and gives the same value |
| `RustText.RenderedLineReadsBack` | src/main.rs:56 | the written line `"{}\n"`, trimmed and parsed the way line 48 does it, is the written value |
| `Backlight.ParseDirection` | src/main.rs:79-83 | Inc exactly for `"inc"`, Dec exactly for `"dec"`; anything else, or no `-d`, gives no direction |
| `Backlight.ParseAmount` | src/main.rs:84-87 | no `-a` gives 5; a present `-a` succeeds exactly when its trimmed text parses as `u32`, with that value, and otherwise fails with the amount panic |
| `Backlight.ReadMax` | src/main.rs:24-34 | a missing file is the not-found panic; otherwise it succeeds exactly when the trimmed text parses as `i32`, with that value, and fails with the not-numeric panic when it does not |
| `Backlight.PercentUnit` | src/main.rs:42 | `max / 100` truncated: for `max >= 0`, `100*u <= max < 100*u + 100`, with the mirror-image bounds for a negative max |
| `Backlight.AsI32` | src/main.rs:50-51 | `amount as i32` is the `i32` congruent to the amount modulo 2^32, and equals it when it fits |
| `Backlight.CheckedI32` | src/main.rs:50-54 | an `i32` operation with overflow checks: the exact value when it fits in `i32`, and the overflow panic (`None`) exactly when it does not |
| `Backlight.Adjustment` | src/main.rs:49-52 | the adjustment is `+amount*unit` for Inc and `-(amount*unit)` for Dec; it overflows exactly when the product leaves `i32` or Dec negates `i32::MIN` |
| `Backlight.Clamp` | src/main.rs:53-54 | `max(0, min(hi, sum))` piecewise: 0 below zero, `hi` above `hi`, the sum in between, 0 when `hi < 0`; never negative and never above a non-negative `hi` |
| `Backlight.Corrected` | src/main.rs:42-54 | the new brightness is the clamp of current plus the signed adjustment, it lies in `[0, maxForClamp]`, and it is defined exactly when no `i32` step overflows |
| `Backlight.AdjustBrightness` | src/main.rs:36-63 | the first max panic comes first; an unopened file gives `OpenFailed` and a non-numeric one `NotANumber`; after the brightness parses, in order: an overflowing adjustment panics, then a failing second max read panics with its cause, then an overflowing sum panics; a write happens exactly when all reads succeed and no overflow occurs; the text written is the decimal of `Corrected` plus `"\n"`, and it reads back as that value |
| `Backlight.Run` | src/main.rs:76-94 | usage exactly when getopts fails or the direction is invalid; the amount panic exactly when the direction is valid and `-a` does not parse; otherwise `adjust_brightness` runs with the chosen direction and the parsed amount |
| `BacklightProperties.SmallMaxChangesNothing` | src/main.rs:42 | a non-negative maximum below 100 gives a unit of 0, so any amount in either direction leaves an in-range brightness unchanged |
| `BacklightProperties.IncDecSymmetric` | src/main.rs:49-54 | without clamping, Inc and Dec move the same distance in opposite directions from the current value |
| `BacklightProperties.AdjustmentsOpposite` | src/main.rs:49-52 | whenever Dec's adjustment is computed, Inc's is too, and it is its negation |
| `BacklightProperties.DirectionIsMonotone` | src/main.rs:49-54 | with a non-negative maximum and an amount below 2^31, Inc never lowers and Dec never raises an in-range brightness |
| `BacklightProperties.HugeIncLowers` | src/main.rs:50 | the `as i32` cast makes Inc by 4294967295 take 500 to 491 when the maximum is 937 |
| `BacklightProperties.HugeIncFromAboveMax` | src/main.rs:42-54 | from brightness 1000 with maximum 937, Inc by 4294967295 ends on 937, both with unit 9 (read maximum 937) and unit 0 (read maximum 50) |
| `BacklightProperties.IncSaturates` | src/main.rs:49-54 | an Inc whose adjustment covers the whole range lands on `maxForClamp` from any in-range start, and stays there when applied again |
| `BacklightProperties.Repeat` | src/main.rs:42-54 | zero runs leave the value; after one or more runs, a defined result lies in `[0, maxForClamp]` |
| `BacklightProperties.RepeatedIncStaysAtMax` | src/main.rs:49-54 | any positive number of such saturating increases ends at the maximum |
| `BacklightProperties.OtherDirectionShowsUsage` | src/main.rs:79-90 | any `-d` value other than exactly `inc` or `dec`, or none, shows usage whatever `-a` says, so nothing is written |
| `BacklightProperties.FiveParsesAsFive` | src/main.rs:85 | the text `"5"` is read as the amount 5 |
| `BacklightProperties.MissingAmountIsFive` | src/main.rs:84-87 | a run without `-a` is the same as a run with `-a 5`, for every direction and file contents |
| `BacklightProperties.NotANumberWritesNothing` | src/main.rs:48-59 | a brightness file whose trimmed text is not an `i32` gets nothing written, whatever the max file holds |
| `BacklightProperties.MaxReadsBack` | src/main.rs:24-34 | a maximum in the usual one-line form is read as itself |
| `BacklightProperties.AdjustOnReadableFiles` | src/main.rs:44-56 | with both maxima reading `max` and the brightness reading `current`, the outcome is the written rendering of `Corrected` |
| `BacklightProperties.TwoRunsCompose` | src/main.rs:44-56 | a second run, reading what the first one wrote, writes the result of the arithmetic applied twice |
| `BacklightProperties.Example937Arithmetic` | src/main.rs:42-54 | max 937, brightness 500, `inc 10`: unit 9 and new brightness 590 |
| `BacklightProperties.Example937` | src/main.rs:42-56 | max 937, brightness 500, `inc 10`: `"590\n"` is written |

## Left out

- Opening, reading and writing the files, and the fixed `BASE_PATH` (src/main.rs:17, 25, 37-40). The file contents are inputs and the written text is an output.
- Errors from `read_to_string` and `write_fmt`, which the program ignores (`let _ =`, src/main.rs:29, 47, 56). The model takes the text that was read. A failed write is not represented.
- Where the write lands. The program writes on the handle it has just read to the end of. On the sysfs attribute this sets the value. On an ordinary file it would append. The model gives only the text written.
- getopts option parsing and the usage text (src/main.rs:19-22, 66-76, 93). The parsed `-d` and `-a` values, or a getopts error, are the input `ParsedArgs`.
- `argsv[0]` with no arguments at all (src/main.rs:74). The program name is not modelled.
- The `println!` status and error messages (src/main.rs:55, 58, 61). Only which outcome occurs is modelled.
- Wrap-around on `i32` overflow in a release build. Overflow is the debug-build panic `ArithmeticOverflow`.
- Concurrent runs racing on the brightness file (a lost update). This is concurrency outside the program.
