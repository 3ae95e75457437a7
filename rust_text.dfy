/** The parts of Rust's standard library that src/main.rs relies on to move
    integers in and out of text: `str::trim`, `str::parse::<i32>`,
    `str::parse::<u32>` and the `{}` formatting of an `i32`, together with the
    integer widths involved. */
module RustText {
  import opened Wrappers

  const I32_MIN: int := -0x8000_0000
  const I32_MAX: int := 0x7FFF_FFFF
  const U32_MAX: int := 0xFFFF_FFFF

  predicate InI32(x: int) { I32_MIN <= x <= I32_MAX }

  predicate InU32(x: int) { 0 <= x <= U32_MAX }

  /** `char::is_whitespace`: the characters with the Unicode White_Space
      property. Among ASCII characters these are space, tab, line feed,
      vertical tab, form feed and carriage return; no sign or digit is one. */
  function IsWhitespace(c: char): (b: bool)
    ensures (c as int) < 0x80 ==> (b <==> c == ' ' || '\t' <= c <= '\r')
    ensures b ==> !IsDigit(c) && c != '+' && c != '-'
  {
    ('\t' <= c <= '\r') || c == ' ' || c == '\U{85}' || c == '\U{A0}' || c == '\U{1680}'
    || ('\U{2000}' <= c <= '\U{200A}') || c == '\U{2028}' || c == '\U{2029}'
    || c == '\U{202F}' || c == '\U{205F}' || c == '\U{3000}'
  }

  predicate AllWhitespace(s: string) {
    forall i :: 0 <= i < |s| ==> IsWhitespace(s[i])
  }

  /** True when `s` neither starts nor ends with whitespace (the empty string included). */
  predicate Trimmed(s: string) {
    s == [] || (!IsWhitespace(s[0]) && !IsWhitespace(s[|s| - 1]))
  }

  /** The number of whitespace characters `str::trim_start` drops from `s`. */
  function LeadingWhitespace(s: string): (n: nat)
    ensures n <= |s|
    ensures forall i :: 0 <= i < n ==> IsWhitespace(s[i])
    ensures n < |s| ==> !IsWhitespace(s[n])
  {
    if |s| > 0 && IsWhitespace(s[0]) then 1 + LeadingWhitespace(s[1..]) else 0
  }

  /** The number of whitespace characters `str::trim_end` drops from `s`. */
  function TrailingWhitespace(s: string): (n: nat)
    ensures n <= |s|
    ensures forall i :: |s| - n <= i < |s| ==> IsWhitespace(s[i])
    ensures n < |s| ==> !IsWhitespace(s[|s| - 1 - n])
  {
    if |s| > 0 && IsWhitespace(s[|s| - 1]) then 1 + TrailingWhitespace(s[..|s| - 1]) else 0
  }

  /** `s` is `p` characters of whitespace, then `t`, then only whitespace. */
  predicate SurroundedBy(s: string, t: string, p: nat) {
    p + |t| <= |s| && t == s[p..p + |t|]
    && (forall i :: 0 <= i < p ==> IsWhitespace(s[i]))
    && (forall i :: p + |t| <= i < |s| ==> IsWhitespace(s[i]))
  }

  /** `str::trim`: `s` is some whitespace, then the result, then some whitespace,
      and the result neither starts nor ends with whitespace. */
  function Trim(s: string): (t: string)
    ensures Trimmed(t)
    ensures exists p: nat :: SurroundedBy(s, t, p)
  {
    var n := LeadingWhitespace(s);
    var m := TrailingWhitespace(s[n..]);
    var t := s[n..|s| - m];
    assert t == s[n..][..|s| - n - m];
    assert forall i :: n + |t| <= i < |s| ==> s[i] == s[n..][i - n];
    assert SurroundedBy(s, t, n);
    t
  }

  lemma {:induction false} LeadingOfPadded(w: string, x: string)
    requires AllWhitespace(w)
    requires x == [] || !IsWhitespace(x[0])
    ensures LeadingWhitespace(w + x) == |w|
  {
    if w != [] {
      assert (w + x)[1..] == w[1..] + x;
      LeadingOfPadded(w[1..], x);
    }
  }

  lemma {:induction false} TrailingOfPadded(x: string, w: string)
    requires AllWhitespace(w)
    requires x == [] || !IsWhitespace(x[|x| - 1])
    ensures TrailingWhitespace(x + w) == |w|
  {
    if w != [] {
      var w' := w[..|w| - 1];
      assert (x + w)[..|x + w| - 1] == x + w';
      TrailingOfPadded(x, w');
    } else {
      assert x + w == x;
    }
  }

  lemma TrimPaddedNonEmpty(pre: string, x: string, post: string)
    requires AllWhitespace(pre) && AllWhitespace(post) && x != [] && Trimmed(x)
    ensures Trim(pre + (x + post)) == x
  {
    var s := pre + (x + post);
    LeadingOfPadded(pre, x + post);
    assert s[|pre|..] == x + post;
    TrailingOfPadded(x, post);
    assert s[|pre|..|s| - |post|] == x;
  }

  /** Trimming undoes any whitespace put around a trimmed string. */
  lemma TrimSurrounded(pre: string, x: string, post: string)
    requires AllWhitespace(pre) && AllWhitespace(post) && Trimmed(x)
    ensures Trim(pre + x + post) == x
  {
    var s := pre + x + post;
    if x == [] {
      assert s == pre + post;
      assert AllWhitespace(s);
      LeadingOfPadded(s, []);
      assert s + [] == s;
    } else {
      assert s == pre + (x + post);
      TrimPaddedNonEmpty(pre, x, post);
    }
  }

  predicate IsDigit(c: char) { '0' <= c <= '9' }

  predicate AllDigits(s: string) {
    forall i :: 0 <= i < |s| ==> IsDigit(s[i])
  }

  function DigitValue(c: char): (d: nat)
    requires IsDigit(c)
    ensures d < 10
  {
    (c as int) - ('0' as int)
  }

  function Digit(d: nat): (c: char)
    requires d < 10
    ensures IsDigit(c) && DigitValue(c) == d
  {
    (('0' as int) + d) as char
  }

  /** The value of a string of decimal digits, most significant first. */
  function DigitsValue(s: string): nat
    requires AllDigits(s)
  {
    if s == [] then 0 else DigitsValue(s[..|s| - 1]) * 10 + DigitValue(s[|s| - 1])
  }

  /** A non-empty run of ASCII digits, read as an unbounded natural number. */
  function DecimalDigits(s: string): (r: Option<nat>)
    ensures r.Some? <==> s != [] && AllDigits(s)
  {
    if s != [] && AllDigits(s) then Some(DigitsValue(s)) else None
  }

  /** The unbounded value Rust's integer `from_str` reads from `s`: an optional
      `+`, or a `-` when the target type is signed, then at least one ASCII digit
      and nothing else. Range checking is left to the caller. */
  function SignedDecimal(s: string, signed: bool): (r: Option<int>)
    ensures r.Some? <==>
      (|s| > 1 && (s[0] == '+' || (signed && s[0] == '-')) && AllDigits(s[1..]))
      || (s != [] && AllDigits(s))
    ensures r.Some? && IsDigit(s[0]) ==> r.value == DigitsValue(s)
    ensures r.Some? && s[0] == '+' ==> r.value == DigitsValue(s[1..])
    ensures r.Some? && s[0] == '-' ==> signed && r.value == -(DigitsValue(s[1..]) as int)
    ensures !signed && r.Some? ==> r.value >= 0
  {
    if |s| > 0 && s[0] == '+' then
      match DecimalDigits(s[1..])
      case Some(n) => Some(n)
      case None => None
    else if signed && |s| > 0 && s[0] == '-' then
      match DecimalDigits(s[1..])
      case Some(n) => Some(-(n as int))
      case None => None
    else
      match DecimalDigits(s)
      case Some(n) => Some(n)
      case None => None
  }

  /** `str::parse::<i32>`: overflow is an error, so only in-range values come back. */
  function ParseI32(s: string): (r: Option<int>)
    ensures r.Some? ==> InI32(r.value)
    ensures r.Some? <==> SignedDecimal(s, true).Some? && InI32(SignedDecimal(s, true).value)
    ensures r.Some? ==> r.value == SignedDecimal(s, true).value
  {
    match SignedDecimal(s, true)
    case Some(v) => if InI32(v) then Some(v) else None
    case None => None
  }

  /** `str::parse::<u32>`: like `ParseI32`, but a leading `-` is an invalid digit. */
  function ParseU32(s: string): (r: Option<int>)
    ensures r.Some? ==> InU32(r.value)
    ensures r.Some? <==> SignedDecimal(s, false).Some? && InU32(SignedDecimal(s, false).value)
    ensures r.Some? ==> r.value == SignedDecimal(s, false).value
    ensures |s| > 0 && s[0] == '-' ==> r.None?
  {
    match SignedDecimal(s, false)
    case Some(v) => if InU32(v) then Some(v) else None
    case None => None
  }

  /** Decimal digits of `n`, no leading zero; reading them back gives `n`. */
  function NatToDecimal(n: nat): (s: string)
    ensures s != [] && AllDigits(s)
    ensures DigitsValue(s) == n
    ensures |s| > 1 ==> s[0] != '0'
    ensures n == 0 ==> s == "0"
  {
    if n < 10 then [Digit(n)]
    else
      var s := NatToDecimal(n / 10) + [Digit(n % 10)];
      assert s[..|s| - 1] == NatToDecimal(n / 10);
      s
  }

  /** `format!("{}", n)` for an integer: a `-` before the digits of a negative value. */
  function IntToDecimal(n: int): (s: string)
    ensures s != [] && Trimmed(s)
    ensures n >= 0 ==> AllDigits(s)
    ensures n >= 0 ==> |s| == 1 || s[0] != '0'
    ensures n < 0 ==> |s| > 1 && s[0] == '-' && AllDigits(s[1..]) && s[1] != '0'
  {
    if n < 0 then "-" + NatToDecimal(-n) else NatToDecimal(n)
  }

  /** Parsing the rendering of an `i32` gives it back. */
  lemma ParseRendered(n: int)
    requires InI32(n)
    ensures ParseI32(IntToDecimal(n)) == Some(n)
  {
    var s := IntToDecimal(n);
    if n < 0 {
      assert s[1..] == NatToDecimal(-n);
    } else {
      assert s[0] != '+' && s[0] != '-';
    }
  }

  /** The write/read round trip: the text `"{}\n"` written for `n`, trimmed and
      parsed as an `i32`, is `n` again. */
  lemma RenderedLineReadsBack(n: int)
    requires InI32(n)
    ensures ParseI32(Trim(IntToDecimal(n) + "\n")) == Some(n)
  {
    var s := IntToDecimal(n);
    assert AllWhitespace("\n");
    TrimSurrounded([], s, "\n");
    assert [] + s + "\n" == s + "\n";
    ParseRendered(n);
  }

  /** A trimmed string is left as it is by `trim`. */
  lemma TrimKeepsTrimmed(x: string)
    requires Trimmed(x)
    ensures Trim(x) == x
  {
    TrimSurrounded([], x, []);
    assert [] + x + [] == x;
  }

  /** `parse::<u32>` of the digits of `n` gives `n` back exactly when `n` fits
      in a `u32`, and `None` (overflow) otherwise. */
  lemma ParseU32Rendered(n: nat)
    ensures ParseU32(NatToDecimal(n)) == if InU32(n) then Some(n) else None
  {
    var s := NatToDecimal(n);
    assert IsDigit(s[0]);
    assert SignedDecimal(s, false) == Some(n);
  }

  /** A leading `+` is accepted by `parse::<u32>` and does not change the value. */
  lemma ParseU32PlusRendered(n: nat)
    requires InU32(n)
    ensures ParseU32("+" + NatToDecimal(n)) == Some(n)
  {
    var s := "+" + NatToDecimal(n);
    assert s[1..] == NatToDecimal(n);
    assert SignedDecimal(s, false) == Some(n);
  }
}
