/**
 * The parts of JavaScript's string and number semantics that the application code relies on:
 * `\s` / `String.prototype.trim` white space, `Number.prototype.toString` for non-negative
 * integers, the global `parseInt`, the truncating `%` operator and truthiness of optional values.
 */
module Js {

  datatype Option<+T> = None | Some(value: T)

  /** The characters JavaScript's `\s` matches and `trim` removes (WhiteSpace and LineTerminator). */
  predicate IsSpace(c: char) {
    || c == '\t' || c == '\n' || c == '\U{B}' || c == '\U{C}' || c == '\r' || c == ' '
    || c == '\U{A0}' || c == '\U{1680}' || ('\U{2000}' <= c <= '\U{200A}')
    || c == '\U{2028}' || c == '\U{2029}' || c == '\U{202F}' || c == '\U{205F}'
    || c == '\U{3000}' || c == '\U{FEFF}'
  }

  /** The characters JavaScript's `.` does not match. */
  predicate IsLineTerminator(c: char) {
    c == '\n' || c == '\r' || c == '\U{2028}' || c == '\U{2029}'
  }

  predicate AllSpace(s: string) {
    forall i :: 0 <= i < |s| ==> IsSpace(s[i])
  }

  /** Leading white space removed: the result is a suffix of `s` that does not start with white space. */
  function TrimStart(s: string): (r: string)
    ensures |r| <= |s| && r == s[|s| - |r|..]
    ensures r == [] || !IsSpace(r[0])
    ensures AllSpace(s[..|s| - |r|])
  {
    if s != [] && IsSpace(s[0]) then TrimStart(s[1..]) else s
  }

  /** Trailing white space removed: the result is a prefix of `s` that does not end with white space. */
  function TrimEnd(s: string): (r: string)
    ensures |r| <= |s| && r == s[..|r|]
    ensures r == [] || !IsSpace(r[|r| - 1])
    ensures AllSpace(s[|r|..])
  {
    if s != [] && IsSpace(s[|s| - 1]) then TrimEnd(s[..|s| - 1]) else s
  }

  /** `String.prototype.trim`. */
  function Trim(s: string): string {
    TrimEnd(TrimStart(s))
  }

  /** The trimmed text is a contiguous piece of the input, with only white space cut off either side. */
  lemma {:induction false} TrimIsInnerSlice(s: string)
    ensures exists a, b :: 0 <= a <= b <= |s| && Trim(s) == s[a..b] && AllSpace(s[..a]) && AllSpace(s[b..])
  {
    var t := TrimStart(s);
    var r := TrimEnd(t);
    var a := |s| - |t|;
    SuffixSlices(s, a, |r|);
    assert Trim(s) == s[a..a + |r|];
    assert AllSpace(s[a + |r|..]);
  }

  lemma {:induction false} SuffixSlices<T>(s: seq<T>, a: nat, k: nat)
    requires a + k <= |s|
    ensures s[a..][..k] == s[a..a + k] && s[a..][k..] == s[a + k..]
  {
  }

  lemma {:induction false} AllSpaceTrimStart(s: string)
    requires AllSpace(s)
    ensures TrimStart(s) == []
  {
    if s != [] {
      AllSpaceTrimStart(s[1..]);
    }
  }

  /** `s.trim() === ''` exactly when every character of `s` is white space. */
  lemma {:induction false} TrimEmptyIff(s: string)
    ensures Trim(s) == [] <==> AllSpace(s)
  {
    var t := TrimStart(s);
    if Trim(s) == [] {
      assert t[|TrimEnd(t)|..] == t;
      assert AllSpace(t);
      assert t == [];
      assert s[..|s| - |t|] == s;
    }
    if AllSpace(s) {
      AllSpaceTrimStart(s);
    }
  }

  /** Trimming twice is trimming once. */
  lemma {:induction false} TrimIdempotent(s: string)
    ensures Trim(Trim(s)) == Trim(s)
  {
    var t := TrimStart(s);
    var r := TrimEnd(t);
    if r != [] {
      assert r[0] == t[0];
      assert TrimStart(r) == r;
      assert TrimEnd(r) == r;
    }
  }

  // ---------------------------------------------------------------- numbers as text

  function DigitChar(d: nat): char
    requires d < 10
  {
    (48 + d) as char
  }

  /** `String(n)` for a non-negative integer: its decimal digits, no sign, no leading zeros. */
  function Decimal(n: nat): (r: string)
    ensures |r| >= 1
    ensures forall i :: 0 <= i < |r| ==> '0' <= r[i] <= '9'
    ensures r[0] == '0' ==> n == 0
  {
    if n < 10 then [DigitChar(n)] else Decimal(n / 10) + [DigitChar(n % 10)]
  }

  /** `String(i)` for an integer. */
  function IntToString(i: int): string {
    if i >= 0 then Decimal(i) else "-" + Decimal(-i)
  }

  /**
   * The value `parseInt` gives a character as a digit: `0`-`9` are 0 to 9, letters of either case
   * are 10 to 35, and any other character is 36, a digit in no radix.
   */
  function DigitValue(c: char): (v: nat)
    ensures '0' <= c <= '9' ==> v == c as int - '0' as int && v < 10
    ensures 'a' <= c <= 'z' ==> v == c as int - 'a' as int + 10
    ensures 'A' <= c <= 'Z' ==> v == c as int - 'A' as int + 10
    ensures v < 36 <==> '0' <= c <= '9' || 'a' <= c <= 'z' || 'A' <= c <= 'Z'
    ensures v <= 36
  {
    if '0' <= c <= '9' then (c as int - 48) as nat
    else if 'a' <= c <= 'z' then (c as int - 97 + 10) as nat
    else if 'A' <= c <= 'Z' then (c as int - 65 + 10) as nat
    else 36
  }

  predicate IsRadixDigit(c: char, radix: nat) {
    DigitValue(c) < radix
  }

  /** The longest prefix of `s` made of digits of the given radix. */
  function DigitRun(s: string, radix: nat): (r: string)
    ensures |r| <= |s| && r == s[..|r|]
    ensures forall i :: 0 <= i < |r| ==> IsRadixDigit(r[i], radix)
    ensures |r| < |s| ==> !IsRadixDigit(s[|r|], radix)
  {
    if s != [] && IsRadixDigit(s[0], radix) then [s[0]] + DigitRun(s[1..], radix) else []
  }

  /** The value of a digit string read most significant digit first. */
  function DigitsValue(ds: string, radix: nat): nat {
    if ds == [] then 0
    else DigitsValue(ds[..|ds| - 1], radix) * radix + (if DigitValue(ds[|ds| - 1]) < radix then DigitValue(ds[|ds| - 1]) else 0)
  }

  /**
   * The global `parseInt(s)` with no radix argument: leading white space skipped, an optional sign,
   * a `0x`/`0X` prefix selecting radix 16, then the longest run of digits; `None` stands for `NaN`.
   */
  function ParseInt(s: string): Option<int> {
    var (body, radix, sign) := ParseBody(s);
    var run := DigitRun(body, radix);
    if run == [] then None else Some(sign * DigitsValue(run, radix))
  }

  /** What `parseInt` reads digits from: the text after white space, sign and radix prefix, the radix and the sign. */
  function ParseBody(s: string): (string, nat, int) {
    var t := TrimStart(s);
    var sign := if t != [] && t[0] == '-' then -1 else 1;
    var u := if t != [] && (t[0] == '-' || t[0] == '+') then t[1..] else t;
    if |u| >= 2 && u[0] == '0' && (u[1] == 'x' || u[1] == 'X') then (u[2..], 16, sign) else (u, 10, sign)
  }

  lemma {:induction false} DecimalValue(n: nat)
    ensures DigitsValue(Decimal(n), 10) == n
  {
    var d := Decimal(n);
    if n < 10 {
      assert DigitsValue(d, 10) == DigitsValue([], 10) * 10 + DigitValue(d[0]);
    } else {
      DecimalValue(n / 10);
      assert d[..|d| - 1] == Decimal(n / 10);
    }
  }

  lemma {:induction false} DigitRunOfDigits(s: string)
    requires forall i :: 0 <= i < |s| ==> '0' <= s[i] <= '9'
    ensures DigitRun(s, 10) == s
  {
    if s != [] {
      DigitRunOfDigits(s[1..]);
    }
  }

  /** A text that does not start with white space is left alone by `trimStart`. */
  lemma {:induction false} TrimStartNoLeadingSpace(s: string)
    requires s != [] && !IsSpace(s[0])
    ensures TrimStart(s) == s
  {
  }

  /** Once `parseInt` has settled on a body that is one whole run of digits, it reads that run. */
  lemma {:induction false} ParseWholeBody(s: string, d: string, radix: nat, sign: int, r: int)
    requires ParseBody(s) == (d, radix, sign)
    requires d != [] && DigitRun(d, radix) == d
    requires r == sign * DigitsValue(d, radix)
    ensures ParseInt(s) == Some(r)
  {
  }

  /** `parseInt(String(n)) === n` for every non-negative integer. */
  lemma {:induction false} ParseIntDecimal(n: nat)
    ensures ParseInt(Decimal(n)) == Some(n)
  {
    var d := Decimal(n);
    DecimalValue(n);
    DigitsBody(d);
    DigitRunOfDigits(d);
    ParseWholeBody(d, d, 10, 1, n);
  }

  /** `parseInt('-' + String(n)) === -n`. */
  lemma {:induction false} ParseIntNegative(n: nat)
    ensures ParseInt("-" + Decimal(n)) == Some(0 - n)
  {
    DecimalValue(n);
    ParseNegativeDigits(Decimal(n));
  }

  /** A minus sign followed by decimal digits reads as the negated value of the digits. */
  lemma {:induction false} ParseNegativeDigits(d: string)
    requires d != [] && forall i :: 0 <= i < |d| ==> '0' <= d[i] <= '9'
    ensures ParseInt("-" + d) == Some(0 - DigitsValue(d, 10))
  {
    var s := "-" + d;
    NegativeDigitsBody(d);
    DigitRunOfDigits(d);
    var r := 0 - DigitsValue(d, 10);
    ParseWholeBody(s, d, 10, -1, r);
  }

  /** A run of decimal digits is read in radix 10 with a positive sign. */
  lemma {:induction false} DigitsBody(d: string)
    requires d != [] && forall i :: 0 <= i < |d| ==> '0' <= d[i] <= '9'
    ensures ParseBody(d) == (d, 10, 1)
  {
    TrimStartNoLeadingSpace(d);
    if |d| >= 2 {
      assert '0' <= d[1] <= '9';
    }
  }

  /** A minus sign followed by decimal digits is read in radix 10 with a negative sign. */
  lemma {:induction false} NegativeDigitsBody(d: string)
    requires d != [] && forall i :: 0 <= i < |d| ==> '0' <= d[i] <= '9'
    ensures TrimStart("-" + d) == "-" + d
    ensures ParseBody("-" + d) == (d, 10, -1)
  {
    var s := "-" + d;
    TrimStartNoLeadingSpace(s);
    assert s[0] == '-' && s[1..] == d;
    if |d| >= 2 {
      assert '0' <= d[1] <= '9';
    }
  }

  /** JavaScript's `a % b`: the remainder of division truncated toward zero, carrying the sign of `a`. */
  function JsRem(a: int, b: int): (r: int)
    requires b != 0
    ensures a >= 0 ==> 0 <= r < (if b > 0 then b else -b)
    ensures a < 0 ==> -(if b > 0 then b else -b) < r <= 0
    ensures a >= 0 && b > 0 ==> r == a % b
  {
    var m := if b > 0 then b else -b;
    if a >= 0 then a % m else -((-a) % m)
  }

  /** A JSON number field is falsy when absent, `null` or `0`. */
  predicate TruthyInt(o: Option<int>) {
    o.Some? && o.value != 0
  }

  /** A JSON string field is falsy when absent, `null` or empty. */
  predicate TruthyText(o: Option<string>) {
    o.Some? && o.value != []
  }
}
