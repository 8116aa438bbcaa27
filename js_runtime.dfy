/**
 * The handful of JavaScript built-ins that the client code relies on, written out
 * over Dafny strings: `Number.prototype.toString` on integers, `parseInt` without a
 * radix, `String.prototype.includes`, `padStart`, `slice`, `split`, the default
 * code-unit string order used by `Array.prototype.toSorted()`, and JavaScript's
 * number and nullish values.
 */
module JsRuntime {
  import opened Wrappers

  // ---------------------------------------------------------------------------
  // Decimal text of integers
  // ---------------------------------------------------------------------------

  predicate IsDigit(c: char) {
    '0' <= c <= '9'
  }

  predicate AllDigits(s: string) {
    forall i :: 0 <= i < |s| ==> IsDigit(s[i])
  }

  function DigitChar(d: nat): (c: char)
    requires d < 10
    ensures IsDigit(c) && (c as int) - ('0' as int) == d
  {
    (('0' as int) + d) as char
  }

  /** `n.toString()` for a non-negative integer `n`: its decimal digits without leading zeros. */
  function NatToString(n: nat): (s: string)
    ensures |s| >= 1 && AllDigits(s)
    ensures s[0] == '0' ==> n == 0 && s == "0"
    decreases n
  {
    if n < 10 then [DigitChar(n)] else NatToString(n / 10) + [DigitChar(n % 10)]
  }

  /** `i.toString()` for an integer `i`: a minus sign for negative values, then the digits. */
  function IntToString(i: int): (s: string)
    ensures |s| >= 1
    ensures i >= 0 ==> s == NatToString(i)
    ensures i < 0 ==> s[0] == '-' && s[1..] == NatToString(-i)
  {
    if i < 0 then "-" + NatToString(-i) else NatToString(i)
  }

  /** The value of a string of decimal digits, most significant first. */
  function DecimalValue(s: string): nat
    requires AllDigits(s)
    decreases |s|
  {
    if s == [] then 0 else DecimalValue(s[..|s| - 1]) * 10 + ((s[|s| - 1] as int) - ('0' as int))
  }

  lemma {:induction false} DecimalValueOfNatToString(n: nat)
    ensures DecimalValue(NatToString(n)) == n
    decreases n
  {
    if n >= 10 {
      DecimalValueOfNatToString(n / 10);
      var s := NatToString(n);
      assert s[..|s| - 1] == NatToString(n / 10);
    }
  }

  /** Different integers are written differently. */
  lemma NatToStringInjective(a: nat, b: nat)
    requires NatToString(a) == NatToString(b)
    ensures a == b
  {
    DecimalValueOfNatToString(a);
    DecimalValueOfNatToString(b);
  }

  // ---------------------------------------------------------------------------
  // parseInt(s) with no radix argument
  // ---------------------------------------------------------------------------

  /** The characters `parseInt` skips before the number (StrWhiteSpaceChar: white space and line terminators). */
  predicate IsStrWhiteSpace(c: char) {
    c == '\t' || c == '\n' || c == '\U{000B}' || c == '\U{000C}' || c == '\r' || c == ' '
    || c == '\U{00A0}' || c == '\U{1680}' || ('\U{2000}' <= c <= '\U{200A}')
    || c == '\U{2028}' || c == '\U{2029}' || c == '\U{202F}' || c == '\U{205F}'
    || c == '\U{3000}' || c == '\U{FEFF}'
  }

  function TrimStart(s: string): (t: string)
    ensures |t| <= |s|
  {
    if s != [] && IsStrWhiteSpace(s[0]) then TrimStart(s[1..]) else s
  }

  /** `TrimStart` drops exactly the leading run of white space. */
  lemma {:induction false} TrimStartDropsWhiteSpace(s: string)
    ensures var t := TrimStart(s); t == s[|s| - |t|..]
    ensures var t := TrimStart(s); t != [] ==> !IsStrWhiteSpace(t[0])
    ensures var t := TrimStart(s); forall i :: 0 <= i < |s| - |t| ==> IsStrWhiteSpace(s[i])
    decreases |s|
  {
    if s != [] && IsStrWhiteSpace(s[0]) {
      TrimStartDropsWhiteSpace(s[1..]);
      var t := TrimStart(s);
      forall i | 0 <= i < |s| - |t| ensures IsStrWhiteSpace(s[i]) {
        if i > 0 {
          assert s[i] == s[1..][i - 1];
        }
      }
    }
  }

  /** The value of `c` as a digit in bases up to 36 (`0`-`9`, then letters in either case). */
  function DigitOf(c: char): nat {
    if '0' <= c <= '9' then (c as int) - ('0' as int)
    else if 'a' <= c <= 'z' then (c as int) - ('a' as int) + 10
    else if 'A' <= c <= 'Z' then (c as int) - ('A' as int) + 10
    else 36
  }

  /** The length of the longest prefix of `s` made of digits of the given radix. */
  function DigitRun(s: string, radix: nat): (n: nat)
    ensures n <= |s|
  {
    if s != [] && DigitOf(s[0]) < radix then 1 + DigitRun(s[1..], radix) else 0
  }

  /** `DigitRun` stops at the first character that is not a digit of the radix. */
  lemma {:induction false} DigitRunIsLongest(s: string, radix: nat)
    ensures var n := DigitRun(s, radix); forall i :: 0 <= i < n ==> DigitOf(s[i]) < radix
    ensures var n := DigitRun(s, radix); n < |s| ==> DigitOf(s[n]) >= radix
    decreases |s|
  {
    if s != [] && DigitOf(s[0]) < radix {
      DigitRunIsLongest(s[1..], radix);
      var n := DigitRun(s, radix);
      forall i | 0 <= i < n ensures DigitOf(s[i]) < radix {
        if i > 0 {
          assert s[i] == s[1..][i - 1];
        }
      }
      if n < |s| {
        assert s[n] == s[1..][n - 1];
      }
    }
  }

  /** The value of a string of digits of the given radix, most significant first. */
  function RadixValue(s: string, radix: nat): nat
    decreases |s|
  {
    if s == [] then 0 else RadixValue(s[..|s| - 1], radix) * radix + DigitOf(s[|s| - 1])
  }

  /**
   * `parseInt(s)`: skip leading white space, take an optional sign, read a `0x`/`0X`
   * prefix as base 16, and then the longest run of digits; `None` stands for `NaN`
   * (no digit at all). Precision loss above 2^53 is not modelled.
   */
  function ParseInt(s: string): Option<int> {
    var t := TrimStart(s);
    var negative := |t| > 0 && t[0] == '-';
    var u := if |t| > 0 && (t[0] == '-' || t[0] == '+') then t[1..] else t;
    var hex := |u| >= 2 && u[0] == '0' && (u[1] == 'x' || u[1] == 'X');
    var body := if hex then u[2..] else u;
    var radix := if hex then 16 else 10;
    var n := DigitRun(body, radix);
    var v: int := RadixValue(body[..n], radix);
    if n == 0 then None else Some(if negative then -v else v)
  }

  lemma {:induction false} DigitRunOfDigits(s: string)
    requires AllDigits(s)
    ensures DigitRun(s, 10) == |s|
    ensures RadixValue(s, 10) == DecimalValue(s)
    decreases |s|
  {
    if s != [] {
      DigitRunOfDigits(s[1..]);
      DigitRunOfDigits(s[..|s| - 1]);
    }
  }

  /**
   * `parseInt` of a run of decimal digits followed by text that does not start with
   * a digit is the value of those digits (unless they are the `0x` hexadecimal prefix).
   */
  lemma ParseIntOfDigits(digits: string, rest: string)
    requires |digits| >= 1 && AllDigits(digits)
    requires rest == [] || !IsDigit(rest[0])
    requires !(digits == "0" && rest != [] && (rest[0] == 'x' || rest[0] == 'X'))
    ensures ParseInt(digits + rest) == Some(DecimalValue(digits))
  {
    var s := digits + rest;
    assert s[0] == digits[0] && IsDigit(s[0]);
    if |s| >= 2 && s[0] == '0' {
      if |digits| >= 2 {
        assert s[1] == digits[1];
      } else {
        assert s[1] == rest[0];
      }
    }
    ParseIntDecimal(s);
    DigitRunPrefix(digits, rest);
    assert s[..|digits|] == digits;
    DigitRunOfDigits(digits);
  }

  /** Text that starts with a digit and not with `0x` is read as a decimal digit run. */
  lemma ParseIntDecimal(s: string)
    requires s != [] && IsDigit(s[0]) && !(|s| >= 2 && s[0] == '0' && (s[1] == 'x' || s[1] == 'X'))
    ensures ParseInt(s) == (if DigitRun(s, 10) == 0 then None else Some(RadixValue(s[..DigitRun(s, 10)], 10)))
  {
    assert !IsStrWhiteSpace(s[0]);
    assert TrimStart(s) == s;
  }

  /** `parseInt(n.toString())` gives back `n`. */
  lemma ParseIntOfNatToString(n: nat)
    ensures ParseInt(NatToString(n)) == Some(n)
  {
    var s := NatToString(n);
    assert s + "" == s;
    ParseIntOfDigits(s, "");
    DecimalValueOfNatToString(n);
  }

  /** Text that starts with something other than white space, a sign or a digit parses to `NaN`. */
  lemma ParseIntNoDigits(s: string)
    requires s != [] && !IsStrWhiteSpace(s[0]) && !IsDigit(s[0]) && s[0] != '-' && s[0] != '+'
    ensures ParseInt(s) == None
  {
    assert TrimStart(s) == s;
    assert DigitOf(s[0]) >= 10;
  }

  lemma {:induction false} DigitRunPrefix(digits: string, rest: string)
    requires AllDigits(digits)
    requires rest == [] || !IsDigit(rest[0])
    ensures DigitRun(digits + rest, 10) == |digits|
    decreases |digits|
  {
    if digits != [] {
      assert (digits + rest)[1..] == digits[1..] + rest;
      DigitRunPrefix(digits[1..], rest);
    } else if rest != [] {
      assert DigitOf(rest[0]) >= 10;
    }
  }

  // ---------------------------------------------------------------------------
  // Substring search, padding, slicing, splitting, replacing
  // ---------------------------------------------------------------------------

  predicate StartsWith(s: string, prefix: string) {
    |prefix| <= |s| && s[..|prefix|] == prefix
  }

  /** `h.includes(needle)`: the needle occurs at some position of `h`. */
  predicate Includes(h: string, needle: string)
    decreases |h|
  {
    StartsWith(h, needle) || (h != [] && Includes(h[1..], needle))
  }

  /** The needle occurs in `h` starting at offset `i`. */
  predicate OccursAt(h: string, needle: string, i: int) {
    0 <= i <= |h| - |needle| && h[i..i + |needle|] == needle
  }

  /** `Includes` holds exactly when the needle occurs at some offset. */
  lemma {:induction false} IncludesIff(h: string, needle: string)
    ensures Includes(h, needle) <==> exists i :: OccursAt(h, needle, i)
    decreases |h|
  {
    if StartsWith(h, needle) {
      assert h[0..|needle|] == h[..|needle|];
      assert OccursAt(h, needle, 0);
    } else if h != [] {
      IncludesIff(h[1..], needle);
      if Includes(h[1..], needle) {
        var i :| OccursAt(h[1..], needle, i);
        OccursShift(h, needle, i);
      } else {
        forall i | OccursAt(h, needle, i)
          ensures false
        {
          if i > 0 {
            OccursShift(h, needle, i - 1);
          }
        }
      }
    }
  }

  /** An occurrence at `i + 1` in `h` is an occurrence at `i` in its tail. */
  lemma OccursShift(h: string, needle: string, i: nat)
    requires h != []
    ensures OccursAt(h, needle, i + 1) <==> OccursAt(h[1..], needle, i)
  {
    if i + 1 <= |h| - |needle| {
      assert h[i + 1..i + 1 + |needle|] == h[1..][i..i + |needle|];
    }
  }

  /** `s.padStart(width, c)` with a one-character fill. */
  function PadStart(s: string, width: nat, c: char): (r: string)
    ensures |r| == if |s| >= width then |s| else width
    ensures r[|r| - |s|..] == s
    ensures forall i :: 0 <= i < |r| - |s| ==> r[i] == c
  {
    if |s| >= width then s else seq(width - |s|, _ => c) + s
  }

  /** A relative index as `slice` reads it: negative values count from the end, and both are clamped. */
  function RelativeIndex(len: nat, x: int): (r: nat)
    ensures r <= len
  {
    if x < 0 then (if len + x < 0 then 0 else len + x) else (if x > len then len else x)
  }

  /** `s.slice(start, end)`. */
  function Slice(s: string, start: int, end: int): (r: string)
    ensures |r| <= |s|
  {
    var from := RelativeIndex(|s|, start);
    var to := RelativeIndex(|s|, end);
    if from >= to then "" else s[from..to]
  }

  /** `s.split(sep)` for a one-character separator: the pieces between separators, at least one. */
  function Split(s: string, sep: char): (parts: seq<string>)
    ensures |parts| >= 1
    decreases |s|
  {
    if s == [] then [""]
    else
      var rest := Split(s[1..], sep);
      if s[0] == sep then [""] + rest else [[s[0]] + rest[0]] + rest[1..]
  }

  /** `s.replace(/\D+/g, rep)`: every maximal run of characters other than ASCII digits becomes `rep`. */
  function ReplaceNonDigitRuns(s: string, rep: string): string
    decreases |s|
  {
    if s == [] then ""
    else if IsDigit(s[0]) then [s[0]] + ReplaceNonDigitRuns(s[1..], rep)
    else rep + ReplaceNonDigitRuns(SkipNonDigits(s), rep)
  }

  function SkipNonDigits(s: string): (t: string)
    ensures |t| <= |s| && t == s[|s| - |t|..]
    ensures t != [] ==> IsDigit(t[0])
    ensures s != [] && !IsDigit(s[0]) ==> |t| < |s|
  {
    if s != [] && !IsDigit(s[0]) then SkipNonDigits(s[1..]) else s
  }

  // ---------------------------------------------------------------------------
  // The default string order of Array.prototype.sort / toSorted
  // ---------------------------------------------------------------------------

  /** `a` sorts before or together with `b` when both are compared code unit by code unit. */
  predicate CodeUnitLe(a: string, b: string)
    decreases |a|
  {
    a == [] || (b != [] && (a[0] < b[0] || (a[0] == b[0] && CodeUnitLe(a[1..], b[1..]))))
  }

  lemma {:induction false} CodeUnitLeTotal(a: string, b: string)
    ensures CodeUnitLe(a, b) || CodeUnitLe(b, a)
    decreases |a|
  {
    if a != [] && b != [] && a[0] == b[0] {
      CodeUnitLeTotal(a[1..], b[1..]);
    }
  }

  lemma {:induction false} CodeUnitLeTransitive(a: string, b: string, c: string)
    requires CodeUnitLe(a, b) && CodeUnitLe(b, c)
    ensures CodeUnitLe(a, c)
    decreases |a|
  {
    if a != [] && a[0] == b[0] && b[0] == c[0] {
      CodeUnitLeTransitive(a[1..], b[1..], c[1..]);
    }
  }

  lemma {:induction false} CodeUnitLeAntisymmetric(a: string, b: string)
    requires CodeUnitLe(a, b) && CodeUnitLe(b, a)
    ensures a == b
    decreases |a|
  {
    if a != [] {
      CodeUnitLeAntisymmetric(a[1..], b[1..]);
    }
  }

  // ---------------------------------------------------------------------------
  // JavaScript numbers and nullish values
  // ---------------------------------------------------------------------------

  /** A JavaScript number: `NaN`, a finite value, or an infinity. */
  datatype Number = NaN | Finite(value: real) | Infinity(negative: bool)

  /** `n < x` for a finite `x`; every comparison with `NaN` is false. */
  predicate LessThan(n: Number, x: real) {
    match n
    case NaN => false
    case Finite(v) => v < x
    case Infinity(negative) => negative
  }

  /** The number `parseInt` returns. */
  function FromParse(p: Option<int>): Number {
    match p
    case None => NaN
    case Some(i) => Finite(i as real)
  }

  /** A property read in JavaScript: absent, `null`, or a value. */
  datatype Js<+T> = Undefined | Null | Defined(value: T)

  /** `target == null`: true for both `null` and `undefined`. */
  predicate IsNullish<T>(target: Js<T>) {
    !target.Defined?
  }
}
