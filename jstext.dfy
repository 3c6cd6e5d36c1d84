/**
 * JavaScript strings as the analyzer and the page see them: sequences of
 * UTF-16 code units (so a lone surrogate is an ordinary element), together
 * with the few string operations of the ECMAScript library the core relies
 * on: splitting into code units, property lookup by a one-unit key,
 * String.prototype.trim, number-to-string conversion of a positive index,
 * and Array.prototype.slice(0, n).
 */
module JsText {

  /** One UTF-16 code unit. */
  type CodeUnit = c: int | 0 <= c < 0x1_0000

  /** A JavaScript string value. */
  type Text = seq<CodeUnit>

  datatype Option<+T> = None | Some(value: T)

  /** True if every character of `s` lies in the Basic Multilingual Plane. */
  predicate AllBmp(s: string) {
    forall i :: 0 <= i < |s| ==> s[i] as int < 0x1_0000
  }

  /**
   * The UTF-16 code units a JavaScript engine stores for the string `s`:
   * one unit per BMP character, a surrogate pair for any other character.
   */
  function Utf16(s: string): (t: Text)
    ensures |t| >= |s|
    ensures AllBmp(s) ==> |t| == |s| && forall i :: 0 <= i < |s| ==> t[i] == s[i] as int
  {
    if s == [] then []
    else
      var c := s[0] as int;
      var head: Text :=
        if c < 0x1_0000 then [c]
        else [0xD800 + (c - 0x1_0000) / 0x400, 0xDC00 + (c - 0x1_0000) % 0x400];
      head + Utf16(s[1..])
  }

  /** A code unit that is a Unicode scalar value on its own (not a surrogate). */
  predicate IsScalar(c: CodeUnit) {
    c < 0xD800 || 0xDFFF < c
  }

  /**
   * `table[key]` for a JavaScript object literal whose keys are one-character
   * strings, looked up with the one-unit string `[c]`. A surrogate unit never
   * equals such a key.
   */
  function Lookup<V>(table: map<char, V>, c: CodeUnit): (r: Option<V>)
    ensures r.Some? <==> IsScalar(c) && (c as char) in table
    ensures r.Some? ==> r.value == table[c as char]
  {
    if IsScalar(c) && (c as char) in table then Some(table[c as char]) else None
  }

  /**
   * `value || fallback` where `value` is the result of a property lookup that
   * yields a string or `undefined`: the empty string is falsy as well.
   */
  function OrElse<T>(value: Option<seq<T>>, fallback: seq<T>): (r: seq<T>)
    ensures value.Some? && value.value != [] ==> r == value.value
    ensures value.None? || value.value == [] ==> r == fallback
  {
    if value.Some? && value.value != [] then value.value else fallback
  }

  /** The test `/[一-鿿]/.test(c)` on a one-unit string. */
  predicate IsIdeograph(c: CodeUnit) {
    0x4E00 <= c <= 0x9FFF
  }

  /**
   * The code units that String.prototype.trim removes: the WhiteSpace
   * code points (TAB, VT, FF, ZWNBSP and the Space_Separator category) and
   * the LineTerminator code points of ECMA-262, section 12.2 and 12.3.
   */
  predicate IsJsWhitespace(c: CodeUnit) {
    || c == 0x09 || c == 0x0A || c == 0x0B || c == 0x0C || c == 0x0D
    || c == 0x20 || c == 0xA0 || c == 0x1680
    || (0x2000 <= c <= 0x200A)
    || c == 0x2028 || c == 0x2029 || c == 0x202F || c == 0x205F
    || c == 0x3000 || c == 0xFEFF
  }

  /** Drops leading white space. */
  function TrimStart(s: Text): (r: Text)
    ensures |r| <= |s| && r == s[|s| - |r|..]
    ensures forall i :: 0 <= i < |s| - |r| ==> IsJsWhitespace(s[i])
    ensures r != [] ==> !IsJsWhitespace(r[0])
  {
    if s != [] && IsJsWhitespace(s[0]) then TrimStart(s[1..]) else s
  }

  /** Drops trailing white space. */
  function TrimEnd(s: Text): (r: Text)
    ensures |r| <= |s| && r == s[..|r|]
    ensures forall i :: |r| <= i < |s| ==> IsJsWhitespace(s[i])
    ensures r != [] ==> !IsJsWhitespace(r[|r| - 1])
  {
    if s != [] && IsJsWhitespace(s[|s| - 1]) then TrimEnd(s[..|s| - 1]) else s
  }

  /** String.prototype.trim. */
  function Trim(s: Text): Text {
    TrimEnd(TrimStart(s))
  }

  /**
   * What trim returns: the slice of `s` left between a white-space prefix
   * and a white-space suffix, and neither end of it is white space.
   */
  lemma TrimIsSlice(s: Text) returns (start: nat)
    ensures start + |Trim(s)| <= |s|
    ensures Trim(s) == s[start..start + |Trim(s)|]
    ensures forall i :: 0 <= i < start ==> IsJsWhitespace(s[i])
    ensures forall i :: start + |Trim(s)| <= i < |s| ==> IsJsWhitespace(s[i])
    ensures Trim(s) != [] ==> !IsJsWhitespace(Trim(s)[0]) && !IsJsWhitespace(Trim(s)[|Trim(s)| - 1])
  {
    var t := TrimStart(s);
    start := |s| - |t|;
    var r := TrimEnd(t);
    assert r == t[..|r|];
    assert t == s[start..];
    forall i | start + |r| <= i < |s|
      ensures IsJsWhitespace(s[i])
    {
      assert s[i] == t[i - start];
    }
  }

  /** `!text.trim()`: the string is empty once trimmed. */
  predicate IsBlank(s: Text) {
    Trim(s) == []
  }

  /** A string is blank exactly when every one of its code units is white space. */
  lemma BlankIffAllWhitespace(s: Text)
    ensures IsBlank(s) <==> forall i :: 0 <= i < |s| ==> IsJsWhitespace(s[i])
  {
  }

  /** An ASCII decimal digit. */
  predicate IsDigit(c: CodeUnit) {
    0x30 <= c <= 0x39
  }

  /** `${n}` for a non-negative integer: its decimal digits, no leading zero. */
  function Decimal(n: nat): (t: Text)
    ensures t != [] && forall i :: 0 <= i < |t| ==> IsDigit(t[i])
    ensures |t| > 1 ==> t[0] != 0x30
  {
    if n < 10 then [0x30 + n] else Decimal(n / 10) + [0x30 + n % 10]
  }

  /** The number a string of decimal digits denotes. */
  function DecimalValue(t: Text): nat
    requires forall i :: 0 <= i < |t| ==> IsDigit(t[i])
  {
    if t == [] then 0
    else
      var last := t[|t| - 1];
      assert IsDigit(last);
      DecimalValue(t[..|t| - 1]) * 10 + (last - 0x30)
  }

  /** Reading back the digits that Decimal writes gives the number again. */
  lemma {:induction false} DecimalRoundTrip(n: nat)
    ensures DecimalValue(Decimal(n)) == n
  {
    if n >= 10 {
      var t := Decimal(n);
      assert t[..|t| - 1] == Decimal(n / 10);
      DecimalRoundTrip(n / 10);
    }
  }

  /** Decimal is injective: distinct numbers are written differently. */
  lemma DecimalInjective(m: nat, n: nat)
    requires Decimal(m) == Decimal(n)
    ensures m == n
  {
    DecimalRoundTrip(m);
    DecimalRoundTrip(n);
  }

  /** The length of the longest prefix of `t` made of decimal digits. */
  function DigitRun(t: Text): (k: nat)
    ensures k <= |t|
    ensures forall i :: 0 <= i < k ==> IsDigit(t[i])
    ensures k < |t| ==> !IsDigit(t[k])
  {
    if t != [] && IsDigit(t[0]) then 1 + DigitRun(t[1..]) else 0
  }

  /** The digit run of digits followed by a non-digit stops at the non-digit. */
  lemma {:induction false} DigitRunOfDigits(d: Text, rest: Text)
    requires forall i :: 0 <= i < |d| ==> IsDigit(d[i])
    requires rest != [] && !IsDigit(rest[0])
    ensures DigitRun(d + rest) == |d|
  {
    if d != [] {
      assert (d + rest)[1..] == d[1..] + rest;
      DigitRunOfDigits(d[1..], rest);
    } else {
      assert d + rest == rest;
    }
  }

  /** `Math.min` on natural numbers. */
  function Min(a: nat, b: nat): nat {
    if a <= b then a else b
  }

  /** `s.slice(0, n)` on an array: the first n elements, or all of them if fewer. */
  function Prefix<T>(s: seq<T>, n: nat): (r: seq<T>)
    ensures |r| == Min(n, |s|)
    ensures forall i :: 0 <= i < |r| ==> r[i] == s[i]
  {
    if n <= |s| then s[..n] else s
  }

  /** `xs` is `ys` with some elements left out, the rest in their order. */
  ghost predicate SubsequenceOf<T>(xs: seq<T>, ys: seq<T>)
    decreases |ys|
  {
    if ys == [] then xs == []
    else (xs != [] && xs[0] == ys[0] && SubsequenceOf(xs[1..], ys[1..])) || SubsequenceOf(xs, ys[1..])
  }
}
