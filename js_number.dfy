/** The two JavaScript string-to-number conversions the tracker relies on,
    following ECMA-262: `parseInt(s)` with no radix (section 19.2.5) and
    the `StringToNumber` grammar behind `isNaN(s)` (section 7.1.4.1).
    Results are exact integers; `-0` reads as `0`, and the rounding of
    numbers beyond 2^53 is not represented. */
module JsNumber {
  import opened Text

  // ---------------------------------------------------------------------
  // White space
  // ---------------------------------------------------------------------

  /** `StrWhiteSpaceChar`: the white space and line terminator code points. */
  predicate IsJsSpace(c: char) {
    var k := c as int;
    k == 0x09 || k == 0x0A || k == 0x0B || k == 0x0C || k == 0x0D || k == 0x20 || k == 0xA0 ||
    k == 0x1680 || (0x2000 <= k <= 0x200A) || k == 0x2028 || k == 0x2029 || k == 0x202F ||
    k == 0x205F || k == 0x3000 || k == 0xFEFF
  }

  /** `s` without its leading white space. */
  function TrimStart(s: string): string {
    if s == [] || !IsJsSpace(s[0]) then s else TrimStart(s[1..])
  }

  /** `TrimStart` drops exactly the leading white space: what it keeps is
      a suffix that starts with something else, and all it drops is white
      space. */
  lemma {:induction false} TrimStartDropsSpace(s: string)
    ensures var r := TrimStart(s);
            |r| <= |s| && r == s[|s| - |r|..] && (r == [] || !IsJsSpace(r[0])) &&
            forall i :: 0 <= i < |s| - |r| ==> IsJsSpace(s[i])
    decreases |s|
  {
    if s != [] && IsJsSpace(s[0]) {
      TrimStartDropsSpace(s[1..]);
      var r := TrimStart(s);
      assert forall i :: 1 <= i < |s| - |r| ==> s[i] == s[1..][i - 1];
    }
  }

  // ---------------------------------------------------------------------
  // Digits of radix 16
  // ---------------------------------------------------------------------

  predicate IsHexDigit(c: char) {
    IsDigit(c) || 'a' <= c <= 'f' || 'A' <= c <= 'F'
  }

  predicate IsHexDigits(s: string) {
    forall i :: 0 <= i < |s| ==> IsHexDigit(s[i])
  }

  /** The value of a hexadecimal digit: its place in `0123456789abcdef`,
      or in `0123456789ABCDEF` for an upper-case letter. */
  function HexDigitValue(c: char): (v: nat)
    requires IsHexDigit(c)
    ensures v < 16
    ensures "0123456789abcdef"[v] == c || "0123456789ABCDEF"[v] == c
  {
    if IsDigit(c) then DigitValue(c)
    else if 'a' <= c <= 'f' then (c as int) - ('a' as int) + 10
    else (c as int) - ('A' as int) + 10
  }

  /** The value of a string of hexadecimal digits, most significant first. */
  function HexValue(s: string): nat
    requires IsHexDigits(s)
  {
    if s == [] then 0 else HexValue(s[..|s| - 1]) * 16 + HexDigitValue(s[|s| - 1])
  }

  // ---------------------------------------------------------------------
  // parseInt
  // ---------------------------------------------------------------------

  /** The longest run of decimal digits at the start of `s`. */
  function LeadingDigits(s: string): (r: string)
    ensures r <= s && IsDigits(r)
    ensures |r| < |s| ==> !IsDigit(s[|r|])
  {
    if s == [] || !IsDigit(s[0]) then [] else [s[0]] + LeadingDigits(s[1..])
  }

  /** The longest run of hexadecimal digits at the start of `s`. */
  function LeadingHexDigits(s: string): (r: string)
    ensures r <= s && IsHexDigits(r)
    ensures |r| < |s| ==> !IsHexDigit(s[|r|])
  {
    if s == [] || !IsHexDigit(s[0]) then [] else [s[0]] + LeadingHexDigits(s[1..])
  }

  /** `0x` or `0X`, which switches `parseInt` to radix 16. */
  predicate HasHexPrefix(s: string) {
    |s| >= 2 && s[0] == '0' && (s[1] == 'x' || s[1] == 'X')
  }

  /** The value of the digits `parseInt` reads after the sign: hexadecimal
      after a `0x` prefix, decimal otherwise; `None` when there are none. */
  function Magnitude(u: string): Option<int> {
    if HasHexPrefix(u) then
      var d := LeadingHexDigits(u[2..]);
      if d == [] then None else Some(HexValue(d))
    else
      var d := LeadingDigits(u);
      if d == [] then None else Some(DigitsValue(d))
  }

  /** `parseInt(s)`: skip leading white space, take one sign, then the
      digits `Magnitude` reads; `None` stands for NaN. */
  function ParseInt(s: string): Option<int> {
    var t := TrimStart(s);
    if |t| >= 1 && t[0] == '-' then
      match Magnitude(t[1..])
      case None => None
      case Some(k) => Some(-k)
    else if |t| >= 1 && t[0] == '+' then Magnitude(t[1..])
    else Magnitude(t)
  }

  // ---------------------------------------------------------------------
  // isNaN
  // ---------------------------------------------------------------------

  predicate IsSign(c: char) {
    c == '+' || c == '-'
  }

  /** Whether `c` is a digit of radix 2, 8 or 16. */
  predicate IsRadixDigit(radix: nat, c: char) {
    if radix == 2 then c == '0' || c == '1'
    else if radix == 8 then '0' <= c <= '7'
    else IsHexDigit(c)
  }

  /** Where a left-to-right reading of a `StringNumericLiteral` stands:
      leading white space, after the sign, after a lone unsigned `0`, in
      the integer digits, after a point with no digit yet, in the
      fraction, after `e`, after the exponent's sign, in the exponent
      digits, after `0b`/`0o`/`0x`, in those digits, `k` letters into
      `Infinity`, in trailing white space, or off the grammar. */
  datatype LexState =
    | Lead | Signed | Zero | IntDigits | Point | Fraction
    | Exp | ExpSigned | ExpDigits | RadixStart(radix: nat) | RadixDigits(radix: nat)
    | Inf(k: nat) | Trail | Reject

  const InfinityWord := "Infinity"

  /** The states in which the text read so far can end. */
  predicate Accepting(st: LexState) {
    st.Lead? || st.Zero? || st.IntDigits? || st.Fraction? || st.ExpDigits? ||
    st.RadixDigits? || st == Inf(|InfinityWord|) || st.Trail?
  }

  /** One character of the literal grammar. */
  function Step(st: LexState, c: char): LexState {
    match st
    case Lead =>
      if IsJsSpace(c) then Lead else if IsSign(c) then Signed else if c == '0' then Zero
      else if IsDigit(c) then IntDigits else if c == '.' then Point else if c == 'I' then Inf(1) else Reject
    case Signed =>
      if IsDigit(c) then IntDigits else if c == '.' then Point else if c == 'I' then Inf(1) else Reject
    case Zero =>
      if IsDigit(c) then IntDigits else if c == '.' then Fraction else if c == 'e' || c == 'E' then Exp
      else if c == 'b' || c == 'B' then RadixStart(2) else if c == 'o' || c == 'O' then RadixStart(8)
      else if c == 'x' || c == 'X' then RadixStart(16) else if IsJsSpace(c) then Trail else Reject
    case IntDigits =>
      if IsDigit(c) then IntDigits else if c == '.' then Fraction else if c == 'e' || c == 'E' then Exp
      else if IsJsSpace(c) then Trail else Reject
    case Point =>
      if IsDigit(c) then Fraction else Reject
    case Fraction =>
      if IsDigit(c) then Fraction else if c == 'e' || c == 'E' then Exp else if IsJsSpace(c) then Trail else Reject
    case Exp =>
      if IsSign(c) then ExpSigned else if IsDigit(c) then ExpDigits else Reject
    case ExpSigned =>
      if IsDigit(c) then ExpDigits else Reject
    case ExpDigits =>
      if IsDigit(c) then ExpDigits else if IsJsSpace(c) then Trail else Reject
    case RadixStart(r) =>
      if IsRadixDigit(r, c) then RadixDigits(r) else Reject
    case RadixDigits(r) =>
      if IsRadixDigit(r, c) then RadixDigits(r) else if IsJsSpace(c) then Trail else Reject
    case Inf(k) =>
      if k < |InfinityWord| && c == InfinityWord[k] then Inf(k + 1)
      else if k == |InfinityWord| && IsJsSpace(c) then Trail else Reject
    case Trail =>
      if IsJsSpace(c) then Trail else Reject
    case Reject => Reject
  }

  /** The state after reading all of `s` from `st`. */
  function Lex(s: string, st: LexState): LexState
    decreases |s|
  {
    if s == [] then st else Lex(s[1..], Step(st, s[0]))
  }

  /** `!isNaN(s)`: `s` is white space around a `StrDecimalLiteral` (an
      optional sign, then `Infinity` or digits with an optional point,
      fraction and exponent) or a `NonDecimalIntegerLiteral` (`0b`, `0o`,
      `0x` and digits), or only white space, which reads as 0. */
  predicate IsNumeric(s: string) {
    Accepting(Lex(s, Lead))
  }

  // ---------------------------------------------------------------------
  // Decimal tokens
  // ---------------------------------------------------------------------

  lemma {:induction false} LeadingDigitsBeforeNonDigit(d: string, rest: string)
    requires IsDigits(d)
    requires rest == [] || !IsDigit(rest[0])
    ensures LeadingDigits(d + rest) == d
    decreases |d|
  {
    if d == [] {
      assert d + rest == rest;
    } else {
      assert (d + rest)[1..] == d[1..] + rest;
      LeadingDigitsBeforeNonDigit(d[1..], rest);
      assert [d[0]] + d[1..] == d;
    }
  }

  /** Decimal digits, then anything that neither continues them nor makes
      them a `0x` prefix, read as the digits. */
  lemma MagnitudeOfDigitsThen(d: string, rest: string)
    requires |d| >= 1 && IsDigits(d)
    requires rest == [] || (!IsDigit(rest[0]) && rest[0] != 'x' && rest[0] != 'X')
    ensures Magnitude(d + rest) == Some(DigitsValue(d) as int)
  {
    LeadingDigitsBeforeNonDigit(d, rest);
    var u := d + rest;
    assert u[0] == d[0];
    assert !HasHexPrefix(u) by {
      if |u| >= 2 {
        if |d| >= 2 { assert u[1] == d[1]; } else { assert u[1] == rest[0]; }
      }
    }
  }

  /** A trimmed token and a sign: `parseInt` starts right at it. */
  lemma TrimStartOfSignOrDigit(s: string)
    requires |s| >= 1 && (IsSign(s[0]) || IsDigit(s[0]))
    ensures TrimStart(s) == s
  {
  }

  /** `parseInt` stops where the digits of a decimal token end, unless a
      `0x` would follow a lone zero. */
  lemma ParseIntStopsAtNonDigit(t: string, rest: string)
    requires ParseDecimal(t).Some?
    requires rest == [] || (!IsDigit(rest[0]) && rest[0] != 'x' && rest[0] != 'X')
    ensures ParseInt(t + rest) == ParseDecimal(t)
  {
    var s := t + rest;
    assert s[0] == t[0];
    TrimStartOfSignOrDigit(s);
    if |t| >= 2 && IsSign(t[0]) && IsDigits(t[1..]) {
      MagnitudeOfDigitsThen(t[1..], rest);
      assert s[1..] == t[1..] + rest;
    } else {
      MagnitudeOfDigitsThen(t, rest);
    }
  }

  /** `parseInt` reads a decimal token exactly as `ParseDecimal` does. */
  lemma ParseIntOfDecimal(t: string)
    requires ParseDecimal(t).Some?
    ensures ParseInt(t) == ParseDecimal(t)
  {
    ParseIntStopsAtNonDigit(t, "");
    assert t + "" == t;
  }

  /** Decimal digits keep a reading in the integer digits. */
  lemma {:induction false} LexDigits(d: string, st: LexState)
    requires IsDigits(d) && (st.Zero? || st.IntDigits?)
    ensures Lex(d, st).Zero? || Lex(d, st).IntDigits?
    decreases |d|
  {
    if d != [] {
      LexDigits(d[1..], Step(st, d[0]));
    }
  }

  /** `isNaN` is false on a decimal token. */
  lemma DecimalIsNumeric(t: string)
    requires ParseDecimal(t).Some?
    ensures IsNumeric(t)
  {
    if |t| >= 2 && IsSign(t[0]) && IsDigits(t[1..]) {
      assert Lex(t, Lead) == Lex(t[1..], Signed);
      assert Lex(t[1..], Signed) == Lex(t[2..], IntDigits);
      LexDigits(t[2..], IntDigits);
    } else {
      assert Lex(t, Lead) == Lex(t[1..], Step(Lead, t[0]));
      LexDigits(t[1..], Step(Lead, t[0]));
    }
  }

  /** A token that starts with neither white space, a sign nor a digit is NaN to `parseInt`. */
  lemma ParseIntNoDigits(s: string)
    requires |s| >= 1 && !IsJsSpace(s[0]) && !IsSign(s[0]) && !IsDigit(s[0])
    ensures ParseInt(s) == None
  {
  }

  /** Leading white space does not change what `parseInt` reads. */
  lemma ParseIntSkipsSpace(c: char, s: string)
    requires IsJsSpace(c)
    ensures ParseInt([c] + s) == ParseInt(s)
  {
    assert ([c] + s)[1..] == s;
  }
}
