/**
 * The parts of JavaScript's value model and built-ins that the backend relies on:
 * the values JSON.parse can produce (plus `undefined`), truthiness, `||`,
 * property access, String.prototype.trim / startsWith / endsWith / padStart and
 * Number.prototype.toString on non-negative integers (exact for JavaScript's
 * safe integers below 2^53, printed without exponent below 10^21; the model's
 * naturals are unbounded).
 */
module Js {

  /** A JavaScript value as produced by JSON.parse, plus `undefined`.
      Numbers are reals: JSON text denotes finite numbers only, so NaN never occurs. */
  datatype Value =
    | Undefined
    | Null
    | Bool(b: bool)
    | Num(n: real)
    | Str(s: string)
    | Arr(items: seq<Value>)
    | Obj(fields: map<string, Value>)

  /** ECMAScript ToBoolean. */
  predicate Truthy(v: Value) {
    match v
    case Undefined => false
    case Null => false
    case Bool(b) => b
    case Num(n) => n != 0.0
    case Str(s) => s != ""
    case Arr(_) => true
    case Obj(_) => true
  }

  /** `a || b` */
  function Or(a: Value, b: Value): Value {
    if Truthy(a) then a else b
  }

  /** The outcome of reading `v.key`: a TypeError, or the value found. */
  datatype Access = Thrown | Got(value: Value)

  /** `v.key` for the keys the backend reads (none of them is an inherited property):
      null and undefined throw, an object yields its own field or undefined,
      every other value yields undefined. */
  function Get(v: Value, key: string): (a: Access)
    ensures a.Thrown? <==> v.Undefined? || v.Null?
    ensures a.Got? && v.Obj? && key in v.fields ==> a.value == v.fields[key]
    ensures a.Got? && !(v.Obj? && key in v.fields) ==> a.value == Undefined
    ensures a.Got? && Truthy(a.value) ==> v.Obj? && key in v.fields && Truthy(v.fields[key])
  {
    match v
    case Undefined => Thrown
    case Null => Thrown
    case Obj(fields) => Got(if key in fields then fields[key] else Undefined)
    case _ => Got(Undefined)
  }

  /** Reading back a field of an object literal gives the value written there,
      and every other key of the literal keeps its own value. */
  lemma GetWrittenField(fields: map<string, Value>, key: string, value: Value, other: string)
    ensures Get(Obj(fields[key := value]), key) == Got(value)
    ensures other != key ==> Get(Obj(fields[key := value]), other) == Get(Obj(fields), other)
  {
  }

  // ---------------------------------------------------------------- strings

  predicate StartsWith(s: string, prefix: string) {
    |prefix| <= |s| && s[..|prefix|] == prefix
  }

  predicate EndsWith(s: string, suffix: string) {
    |suffix| <= |s| && s[|s| - |suffix|..] == suffix
  }

  /** A concatenation starts with its left part and ends with its right part. */
  lemma ConcatAffixes(x: string, y: string)
    ensures StartsWith(x + y, x) && EndsWith(x + y, y)
  {
    assert (x + y)[..|x|] == x;
    assert (x + y)[|x + y| - |y|..] == y;
  }

  /** ECMAScript WhiteSpace and LineTerminator code points, the set String.prototype.trim removes. */
  predicate IsWhitespace(c: char) {
    || c == '\t' || c == '\n' || c == '\U{000B}' || c == '\U{000C}' || c == '\r'
    || c == ' ' || c == '\U{00A0}' || c == '\U{1680}'
    || ('\U{2000}' <= c && c <= '\U{200A}')
    || c == '\U{2028}' || c == '\U{2029}' || c == '\U{202F}' || c == '\U{205F}'
    || c == '\U{3000}' || c == '\U{FEFF}'
  }

  predicate AllWhitespace(s: string) {
    forall c :: c in s ==> IsWhitespace(c)
  }

  /** Drops the longest all-whitespace prefix. */
  function TrimStart(s: string): (r: string)
    ensures |r| <= |s| && r == s[|s| - |r|..]
    ensures AllWhitespace(s[..|s| - |r|])
    ensures r == [] || !IsWhitespace(r[0])
  {
    if s != [] && IsWhitespace(s[0]) then
      var r := TrimStart(s[1..]);
      assert s[..|s| - |r|] == [s[0]] + s[1..][..|s| - 1 - |r|];
      r
    else
      s
  }

  /** Drops the longest all-whitespace suffix. */
  function TrimEnd(s: string): (r: string)
    ensures |r| <= |s| && r == s[..|r|]
    ensures AllWhitespace(s[|r|..])
    ensures r == [] || !IsWhitespace(r[|r| - 1])
  {
    if s != [] && IsWhitespace(s[|s| - 1]) then
      var r := TrimEnd(s[..|s| - 1]);
      assert s[|r|..] == s[..|s| - 1][|r|..] + [s[|s| - 1]];
      r
    else
      s
  }

  /** String.prototype.trim: the result neither starts nor ends with whitespace. */
  function Trim(s: string): (r: string)
    ensures |r| <= |s|
    ensures r == [] || (!IsWhitespace(r[0]) && !IsWhitespace(r[|r| - 1]))
  {
    var t := TrimStart(s);
    var r := TrimEnd(t);
    assert r != [] ==> r[0] == t[0];
    r
  }

  /** Trim removes whitespace only: its result is a slice of the input and
      everything cut off on either side is whitespace. */
  lemma TrimRemovesOnlyWhitespace(s: string) returns (a: nat)
    ensures a + |Trim(s)| <= |s| && Trim(s) == s[a..a + |Trim(s)|]
    ensures AllWhitespace(s[..a]) && AllWhitespace(s[a + |Trim(s)|..])
  {
    var t := TrimStart(s);
    var r := TrimEnd(t);
    a := |s| - |t|;
    assert Trim(s) == r;
    SliceOfSuffix(s, a, |r|);
  }

  /** A prefix of the suffix from a is the slice from a, and what follows it is the rest of s. */
  lemma SliceOfSuffix(s: string, a: nat, n: nat)
    requires a + n <= |s|
    ensures s[a..][..n] == s[a..a + n] && s[a..][n..] == s[a + n..]
  {
  }

  /** Trimming is idempotent: a trimmed string has nothing left to trim. */
  lemma TrimIdempotent(s: string)
    ensures Trim(Trim(s)) == Trim(s)
  {
    var r := Trim(s);
    TrimNothingToRemove(r);
  }

  /** A string that neither starts nor ends with whitespace is its own trim. */
  lemma TrimNothingToRemove(s: string)
    requires s == [] || (!IsWhitespace(s[0]) && !IsWhitespace(s[|s| - 1]))
    ensures Trim(s) == s
  {
    assert TrimStart(s) == s;
    assert TrimEnd(s) == s;
  }

  // ---------------------------------------------------------------- digits

  predicate IsDigit(c: char) {
    '0' <= c <= '9'
  }

  predicate AllDigits(s: string) {
    forall c :: c in s ==> IsDigit(c)
  }

  function DigitChar(d: nat): (c: char)
    requires d < 10
    ensures IsDigit(c) && DigitValue(c) == d
  {
    (('0' as int) + d) as char
  }

  function DigitValue(c: char): nat
    requires IsDigit(c)
  {
    (c as int) - ('0' as int)
  }

  /** The number a string of decimal digits denotes (leading zeros allowed). */
  function DigitsValue(s: string): nat
    requires AllDigits(s)
  {
    if s == [] then 0 else DigitsValue(s[..|s| - 1]) * 10 + DigitValue(s[|s| - 1])
  }

  /** Number.prototype.toString() of a non-negative safe integer: its shortest decimal numeral.
      Reading the digits back gives n, there is no leading zero, and the numeral has
      one digit exactly below 10 and at most two exactly below 100. */
  function Dec(n: nat): (r: string)
    ensures |r| >= 1 && AllDigits(r) && DigitsValue(r) == n
    ensures r[0] == '0' ==> r == "0"
    ensures n < 10 <==> |r| == 1
    ensures n < 100 <==> |r| <= 2
  {
    if n < 10 then
      [DigitChar(n)]
    else
      var init := Dec(n / 10);
      var r := init + [DigitChar(n % 10)];
      assert r[..|r| - 1] == init;
      r
  }

  /** String.prototype.padStart(width, fill) with a one-character fill: only
      copies of `fill` are added, in front, and a string already at least
      `width` long comes back whole. */
  function PadStart(s: string, width: nat, fill: char): (r: string)
    ensures |r| == if |s| < width then width else |s|
    ensures r[|r| - |s|..] == s
    ensures forall k :: 0 <= k < |r| - |s| ==> r[k] == fill
  {
    if |s| < width then seq(width - |s|, _ => fill) + s else s
  }
}
