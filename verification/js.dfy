/** The JavaScript values the front end manipulates, and the few built-in
    operations its logic relies on: truthiness, `||`, strict equality, property
    access on plain records, ASCII case mapping, `String.prototype.includes`,
    `parseFloat`'s NaN test, and decimal rendering of row numbers and counts. */
module Js {

  datatype Option<+T> = None | Some(value: T)

  /** A primitive JavaScript value. Numbers are finite reals plus NaN; objects
      and arrays are given datatypes of their own where the source uses them. */
  datatype JsVal =
    | Undefined
    | Null
    | Bool(b: bool)
    | Num(x: real)
    | NaN
    | Str(s: string)

  /** ToBoolean: what `if (v)`, `v && …` and `v || …` test. */
  predicate Truthy(v: JsVal) {
    match v
    case Undefined => false
    case Null => false
    case Bool(b) => b
    case Num(x) => x != 0.0
    case NaN => false
    case Str(s) => s != ""
  }

  /** `a || b`: the first operand when it is truthy, otherwise the second. */
  function Or(a: JsVal, b: JsVal): JsVal {
    if Truthy(a) then a else b
  }

  /** `a || "fallback"` where the fallback is a string literal. */
  function OrText(a: JsVal, fallback: string): JsVal {
    Or(a, Str(fallback))
  }

  /** `a === b` on primitives: NaN is unequal to everything, itself included. */
  predicate StrictEq(a: JsVal, b: JsVal) {
    a != NaN && a == b
  }

  lemma StrictEqFacts(a: JsVal, b: JsVal)
    ensures StrictEq(a, b) ==> StrictEq(b, a)
    ensures !StrictEq(NaN, a)
    ensures a != NaN ==> StrictEq(a, a)
    ensures StrictEq(Undefined, b) <==> b == Undefined
  {
  }

  /** A plain object with primitive-valued properties: a decoded spreadsheet
      row, an alert, a user, a category, a device. */
  type Record = map<string, JsVal>

  /** `r.k`: an absent property reads as `undefined`. */
  function Get(r: Record, k: string): JsVal {
    if k in r then r[k] else Undefined
  }

  /** `r?.k` when `r` may itself be absent. */
  function GetOpt(r: Option<Record>, k: string): JsVal {
    if r.Some? then Get(r.value, k) else Undefined
  }

  // ---------------------------------------------------------------------------
  // Case mapping and substring search (ASCII letters only; see README)

  function LowerChar(c: char): char {
    if 'A' <= c <= 'Z' then (c as int + 32) as char else c
  }

  function UpperChar(c: char): char {
    if 'a' <= c <= 'z' then (c as int - 32) as char else c
  }

  /** `s.toLowerCase()` */
  function Lower(s: string): (r: string)
    ensures |r| == |s|
    ensures forall i :: 0 <= i < |s| ==> r[i] == LowerChar(s[i])
  {
    seq(|s|, i requires 0 <= i < |s| => LowerChar(s[i]))
  }

  /** `s.toUpperCase()` */
  function Upper(s: string): (r: string)
    ensures |r| == |s|
    ensures forall i :: 0 <= i < |s| ==> r[i] == UpperChar(s[i])
  {
    seq(|s|, i requires 0 <= i < |s| => UpperChar(s[i]))
  }

  /** `s.includes(q)`: `q` occurs at some offset of `s`. */
  predicate Includes(s: string, q: string) {
    exists i | 0 <= i <= |s| - |q| :: OccursAt(s, q, i)
  }

  predicate OccursAt(s: string, q: string, i: int)
    requires 0 <= i <= |s| - |q|
  {
    s[i..i + |q|] == q
  }

  lemma IncludesEmpty(s: string)
    ensures Includes(s, "")
  {
    assert OccursAt(s, "", 0);
  }

  lemma IncludesSelf(s: string)
    ensures Includes(s, s)
  {
    assert OccursAt(s, s, 0);
  }

  /** Case-insensitive search as the containers write it:
      `s.toLowerCase().includes(q.toLowerCase())`. Changing the case of ASCII
      letters in either operand does not change the answer. */
  predicate IncludesIgnoringCase(s: string, q: string) {
    Includes(Lower(s), Lower(q))
  }

  lemma LowerIdempotent(s: string)
    ensures Lower(Lower(s)) == Lower(s)
  {
  }

  lemma IncludesIgnoringCaseInvariant(s: string, q: string)
    ensures IncludesIgnoringCase(Lower(s), q) == IncludesIgnoringCase(s, q)
    ensures IncludesIgnoringCase(s, Upper(q)) == IncludesIgnoringCase(s, q)
  {
    LowerIdempotent(s);
    assert Lower(Upper(q)) == Lower(q);
  }

  // ---------------------------------------------------------------------------
  // parseFloat

  /** WhiteSpace and LineTerminator code points, which parseFloat skips. */
  predicate IsJsWhiteSpace(c: char) {
    var k := c as int;
    k == 0x9 || k == 0xA || k == 0xB || k == 0xC || k == 0xD || k == 0x20
    || k == 0xA0 || k == 0x1680 || (0x2000 <= k <= 0x200A) || k == 0x2028
    || k == 0x2029 || k == 0x202F || k == 0x205F || k == 0x3000 || k == 0xFEFF
  }

  predicate IsDigit(c: char) {
    '0' <= c <= '9'
  }

  /** The string with its leading white space removed. */
  function TrimStart(s: string): (r: string)
    ensures |r| <= |s| && r == s[|s| - |r|..]
    ensures r == [] || !IsJsWhiteSpace(r[0])
    ensures forall i :: 0 <= i < |s| - |r| ==> IsJsWhiteSpace(s[i])
  {
    if |s| > 0 && IsJsWhiteSpace(s[0]) then TrimStart(s[1..]) else s
  }

  /** Some prefix of the trimmed text is a StrDecimalLiteral: an optional sign
      followed by "Infinity", by a digit, or by "." and a digit. This is
      exactly when parseFloat does not answer NaN. */
  predicate HasNumericPrefix(s: string) {
    StartsUnsignedNumber(SkipSign(TrimStart(s)))
  }

  function SkipSign(t: string): string {
    if |t| > 0 && (t[0] == '+' || t[0] == '-') then t[1..] else t
  }

  predicate StartsUnsignedNumber(u: string) {
    (|u| > 0 && IsDigit(u[0]))
    || (|u| > 1 && u[0] == '.' && IsDigit(u[1]))
    || (|u| >= 8 && u[..8] == "Infinity")
  }

  /** `isNaN(parseFloat(v))`: parseFloat first converts its argument to a
      string. A finite number prints as a decimal literal; NaN, booleans, null
      and undefined print as words that have no numeric prefix. */
  predicate ParseFloatIsNaN(v: JsVal) {
    match v
    case Str(s) => !HasNumericPrefix(s)
    case Num(_) => false
    case _ => true
  }

  /** Only the prefix matters: "12abc" parses as 12, "  -.5kWh" as -0.5. */
  lemma NumericPrefixAccepted(sign: string, d: char, rest: string)
    requires sign == "" || sign == "-" || sign == "+"
    requires IsDigit(d)
    ensures !ParseFloatIsNaN(Str(sign + [d] + rest))
  {
    var s := sign + [d] + rest;
    assert s[0] == (if sign == "" then d else sign[0]);
    assert !IsJsWhiteSpace(s[0]);
    assert TrimStart(s) == s;
    if sign != "" {
      assert s[1..] == [d] + rest;
      assert SkipSign(s) == [d] + rest;
    } else {
      assert SkipSign(s) == s;
    }
  }

  /** A string whose first non-blank character is a letter never parses. */
  lemma LetterPrefixRejected(c: char, rest: string)
    requires 'a' <= c <= 'z'
    ensures ParseFloatIsNaN(Str([c] + rest))
  {
    var s := [c] + rest;
    assert !IsJsWhiteSpace(s[0]);
    assert TrimStart(s) == s;
    assert SkipSign(s) == s;
  }

  // ---------------------------------------------------------------------------
  // Decimal rendering of natural numbers (template literals such as `Row ${n}`)

  function DigitChar(d: nat): (c: char)
    requires d < 10
    ensures IsDigit(c) && c as int - '0' as int == d
  {
    ('0' as int + d) as char
  }

  /** The decimal numeral of `n`, without leading zeros. */
  function NatToString(n: nat): (s: string)
    ensures |s| >= 1
    ensures forall i :: 0 <= i < |s| ==> IsDigit(s[i])
    ensures s[0] == '0' ==> n == 0
    decreases n
  {
    if n < 10 then [DigitChar(n)] else NatToString(n / 10) + [DigitChar(n % 10)]
  }

  /** Reads a string of decimal digits back as a number. */
  function ParseNat(s: string): nat
    requires forall i :: 0 <= i < |s| ==> IsDigit(s[i])
  {
    if |s| == 0 then 0
    else ParseNat(s[..|s| - 1]) * 10 + DigitValue(s[|s| - 1])
  }

  function DigitValue(c: char): nat
    requires IsDigit(c)
  {
    c as int - '0' as int
  }

  /** Rendering loses nothing: the numeral reads back as the same number, so
      distinct row numbers give distinct messages. */
  lemma {:induction false} ParseNatToString(n: nat)
    ensures ParseNat(NatToString(n)) == n
    decreases n
  {
    if n >= 10 {
      var s := NatToString(n);
      assert s[..|s| - 1] == NatToString(n / 10);
      ParseNatToString(n / 10);
    }
  }

  lemma NatToStringInjective(m: nat, n: nat)
    requires NatToString(m) == NatToString(n)
    ensures m == n
  {
    ParseNatToString(m);
    ParseNatToString(n);
  }

  // ---------------------------------------------------------------------------
  // String length and splitting

  /** `s.length`: JavaScript counts UTF-16 code units, so a character outside
      the Basic Multilingual Plane counts twice. */
  function Utf16Length(s: string): (n: nat)
    ensures |s| <= n <= 2 * |s|
    ensures (forall i :: 0 <= i < |s| ==> (s[i] as int) < 0x10000) ==> n == |s|
  {
    if s == [] then 0
    else (if (s[0] as int) < 0x10000 then 1 else 2) + Utf16Length(s[1..])
  }

  /** `s.split(sep)[0]` for a one-character separator: the text before the
      first occurrence of `sep`, or all of `s` when there is none. */
  function BeforeFirst(s: string, sep: char): (r: string)
    ensures r <= s
    ensures sep !in r
    ensures |r| < |s| ==> s[|r|] == sep
  {
    if s == [] || s[0] == sep then [] else [s[0]] + BeforeFirst(s[1..], sep)
  }
}
