/**
  The PHP values that flow between the CRM API and the entity fields, and the
  PHP built-ins the adapter applies to them (`empty`, `is_numeric`, `reset`,
  string conversion), with PHP 7 semantics. Floats are not modelled.
 */
module Php {
  import opened PhpArray

  /** An array key: PHP casts every key to an integer or a string. */
  datatype Key = IntKey(i: int) | StrKey(s: string)

  datatype Value =
    | Null
    | Bool(b: bool)
    | Int(i: int)
    | Str(s: string)
    | Arr(entries: OMap<Key, Value>)

  /** `empty($v)`: NULL, FALSE, 0, "", "0" and the empty array. */
  predicate Empty(v: Value) {
    match v
    case Null => true
    case Bool(b) => !b
    case Int(i) => i == 0
    case Str(s) => s == "" || s == "0"
    case Arr(es) => es == []
  }

  /** `(bool) $v`, which for these values is the negation of `empty`. */
  predicate Truthy(v: Value) {
    !Empty(v)
  }

  /** `isset($v)` on an array element that reads as `v` (a missing element reads as NULL). */
  predicate IsSet(v: Value) {
    v != Null
  }

  /** `reset($v)`: the first element of an array, FALSE for an empty array, NULL (with a warning) otherwise. */
  function Reset(v: Value): (r: Value)
    ensures v.Arr? && v.entries != [] ==> r == v.entries[0].1
    ensures v.Arr? && v.entries == [] ==> r == Bool(false)
    ensures !v.Arr? ==> r == Null
  {
    match v
    case Arr(es) => if es == [] then Bool(false) else es[0].1
    case _ => Null
  }

  predicate IsDigit(c: char) {
    '0' <= c <= '9'
  }

  /** The whitespace PHP skips before a numeric string: space, \t, \n, \r, \v, \f. */
  predicate IsWhitespace(c: char) {
    c == ' ' || c == '\t' || c == '\n' || c == '\r' || c == '\U{000B}' || c == '\U{000C}'
  }

  /** The end of the run of whitespace that starts at `i`. */
  function WhitespaceEnd(s: string, i: nat): (j: nat)
    requires i <= |s|
    ensures i <= j <= |s|
    ensures forall k :: i <= k < j ==> IsWhitespace(s[k])
    ensures j < |s| ==> !IsWhitespace(s[j])
    decreases |s| - i
  {
    if i < |s| && IsWhitespace(s[i]) then WhitespaceEnd(s, i + 1) else i
  }

  /** The end of the run of decimal digits that starts at `i`. */
  function DigitsEnd(s: string, i: nat): (j: nat)
    requires i <= |s|
    ensures i <= j <= |s|
    ensures forall k :: i <= k < j ==> IsDigit(s[k])
    ensures j < |s| ==> !IsDigit(s[j])
    decreases |s| - i
  {
    if i < |s| && IsDigit(s[i]) then DigitsEnd(s, i + 1) else i
  }

  /** The end of an optional sign at `i`. */
  function SignEnd(s: string, i: nat): (j: nat)
    requires i <= |s|
    ensures i <= j <= |s|
  {
    if i < |s| && (s[i] == '+' || s[i] == '-') then i + 1 else i
  }

  /** The end of an optional exponent `[eE][+-]?digits` at `i`; `i` itself when none is complete there. */
  function ExponentEnd(s: string, i: nat): (j: nat)
    requires i <= |s|
    ensures i <= j <= |s|
  {
    if i < |s| && (s[i] == 'e' || s[i] == 'E') then
      var d := SignEnd(s, i + 1);
      var e := DigitsEnd(s, d);
      if e > d then e else i
    else i
  }

  /**
    PHP 7's numeric strings: leading whitespace, an optional sign, digits with
    an optional decimal point (at least one digit on either side of it), an
    optional exponent, and nothing after.
   */
  predicate IsNumericString(s: string) {
    var a := WhitespaceEnd(s, 0);
    var b := SignEnd(s, a);
    var c := DigitsEnd(s, b);
    var hasPoint := c < |s| && s[c] == '.';
    var d := if hasPoint then DigitsEnd(s, c + 1) else c;
    var mantissa := c > b || (hasPoint && d > c + 1);
    mantissa && ExponentEnd(s, d) == |s|
  }

  /** `is_numeric($v)`. */
  predicate IsNumeric(v: Value) {
    match v
    case Int(_) => true
    case Str(s) => IsNumericString(s)
    case _ => false
  }

  /** Every character of a numeric string is whitespace, a sign, a digit, a point or an exponent marker. */
  lemma NumericStringAlphabet(s: string, k: nat)
    requires IsNumericString(s) && k < |s|
    ensures IsWhitespace(s[k]) || IsDigit(s[k]) || s[k] in "+-.eE"
  {
    var a := WhitespaceEnd(s, 0);
    var b := SignEnd(s, a);
    var c := DigitsEnd(s, b);
    var d := if c < |s| && s[c] == '.' then DigitsEnd(s, c + 1) else c;
    if ExponentEnd(s, d) > d {
      var d' := SignEnd(s, d + 1);
      assert DigitsEnd(s, d') > d';
    }
  }

  /** A string holding a character outside that alphabet is not numeric. */
  lemma NotNumericWith(s: string, k: nat)
    requires k < |s| && !(IsWhitespace(s[k]) || IsDigit(s[k]) || s[k] in "+-.eE")
    ensures !IsNumericString(s)
  {
    if IsNumericString(s) {
      NumericStringAlphabet(s, k);
    }
  }

  predicate AllDigits(s: string) {
    forall k :: 0 <= k < |s| ==> IsDigit(s[k])
  }

  /** The number a run of decimal digits denotes, most significant digit first. */
  function DigitsValue(s: string): nat
    requires AllDigits(s)
  {
    if s == [] then 0
    else 10 * DigitsValue(s[..|s| - 1]) + (s[|s| - 1] as int - '0' as int)
  }

  /** The character for one decimal digit. */
  function DigitChar(d: nat): (c: char)
    requires d < 10
    ensures IsDigit(c) && c as int - '0' as int == d
  {
    '0' + d as char
  }

  /** The decimal digits of `n`. */
  function NatToString(n: nat): (s: string)
    ensures |s| > 0
    ensures AllDigits(s)
  {
    var digit := DigitChar(n % 10);
    if n < 10 then [digit] else NatToString(n / 10) + [digit]
  }

  /** The digits read back give `n`, and there is no leading zero except in "0" itself. */
  lemma {:induction false} NatToStringValue(n: nat)
    ensures DigitsValue(NatToString(n)) == n
    ensures NatToString(n)[0] == '0' ==> n == 0 && NatToString(n) == "0"
  {
    var s := NatToString(n);
    if n >= 10 {
      NatToStringValue(n / 10);
      assert s[..|s| - 1] == NatToString(n / 10);
      assert s[0] == NatToString(n / 10)[0];
    } else {
      assert s[..|s| - 1] == [];
    }
  }

  /** PHP's string conversion of an integer: its decimal digits, after a minus sign when negative. */
  function IntToString(i: int): (s: string)
    ensures forall k :: 0 <= k < |s| ==> IsDigit(s[k]) || s[k] == '-'
    ensures 0 <= i ==> s != [] && AllDigits(s) && DigitsValue(s) == i && (s[0] == '0' ==> s == "0")
    ensures i < 0 ==>
              |s| > 1 && s[0] == '-' && AllDigits(s[1..]) && DigitsValue(s[1..]) == -i && s[1] != '0'
  {
    if i < 0 then
      NatToStringValue(-i);
      assert ("-" + NatToString(-i))[1..] == NatToString(-i);
      "-" + NatToString(-i)
    else
      NatToStringValue(i);
      NatToString(i)
  }

  /** `(string) $v` for a scalar: NULL and FALSE become "", TRUE becomes "1". */
  function ScalarToString(v: Value): (s: string)
    requires !v.Arr?
    ensures v == Null || v == Bool(false) ==> s == ""
    ensures v == Bool(true) ==> s == "1"
    ensures v.Str? ==> s == v.s
    ensures v.Int? && 0 <= v.i ==> s != [] && AllDigits(s) && DigitsValue(s) == v.i && (s[0] == '0' ==> s == "0")
    ensures v.Int? && v.i < 0 ==>
              |s| > 1 && s[0] == '-' && AllDigits(s[1..]) && DigitsValue(s[1..]) == -v.i && s[1] != '0'
  {
    match v
    case Null => ""
    case Bool(b) => if b then "1" else ""
    case Int(i) => IntToString(i)
    case Str(s) => s
  }
}
