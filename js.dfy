/** JavaScript semantics that the rest of the model relies on: optional and
    error-carrying values, the `\s`, `\d` and `\w` character classes, `trim`,
    `toLowerCase`, `includes`, `startsWith`, `splice(i, 1)`, the decimal
    rendering of integers in template strings, `Math.round`, `Math.ceil` on a
    quotient and the truncating `%` operator. */
module Js {

  datatype Option<+T> = None | Some(value: T)

  /** A value or the message of the `Error` that was thrown. */
  datatype Result<+T> = Ok(value: T) | Err(message: string)

  /** A request field that JavaScript treats as falsy: absent, or the empty
      string. */
  predicate Missing(field: Option<string>)
  {
    field.None? || field.value == ""
  }

  // ----- character classes -----

  /** The JavaScript `\s` class: WhiteSpace and LineTerminator code points. */
  predicate IsSpace(c: char)
  {
    c == ' ' || c == '\t' || c == '\n' || c == '\r' || c == '\U{000B}' || c == '\U{000C}'
    || c == '\U{00A0}' || c == '\U{1680}' || ('\U{2000}' <= c <= '\U{200A}')
    || c == '\U{2028}' || c == '\U{2029}' || c == '\U{202F}' || c == '\U{205F}'
    || c == '\U{3000}' || c == '\U{FEFF}'
  }

  /** The `\d` class. */
  predicate IsDigit(c: char)
  {
    '0' <= c <= '9'
  }

  /** The `\w` class. */
  predicate IsWordChar(c: char)
  {
    ('a' <= c <= 'z') || ('A' <= c <= 'Z') || IsDigit(c) || c == '_'
  }

  predicate NoSpace(s: string)
  {
    forall k | 0 <= k < |s| :: !IsSpace(s[k])
  }

  predicate AllDigits(s: string)
  {
    forall k | 0 <= k < |s| :: IsDigit(s[k])
  }

  // ----- String.prototype.trim -----

  function TrimStart(s: string): (r: string)
    ensures |r| <= |s| && r == s[|s| - |r|..]
    ensures r == [] || !IsSpace(r[0])
    ensures forall k | 0 <= k < |s| - |r| :: IsSpace(s[k])
  {
    if s != [] && IsSpace(s[0]) then TrimStart(s[1..]) else s
  }

  function TrimEnd(s: string): (r: string)
    ensures |r| <= |s| && r == s[..|r|]
    ensures r == [] || !IsSpace(r[|r| - 1])
    ensures forall k | |r| <= k < |s| :: IsSpace(s[k])
  {
    if s != [] && IsSpace(s[|s| - 1]) then TrimEnd(s[..|s| - 1]) else s
  }

  /** `s.trim()`: the longest slice of `s` that neither starts nor ends with
      white space, obtained by dropping only white space. */
  function Trim(s: string): (r: string)
    ensures |r| <= |s|
    ensures r == [] || (!IsSpace(r[0]) && !IsSpace(r[|r| - 1]))
  {
    TrimEnd(TrimStart(s))
  }

  lemma {:induction false} TrimOfNoSpace(s: string)
    requires NoSpace(s)
    ensures Trim(s) == s
  {
    if s != [] {
      assert !IsSpace(s[0]) && !IsSpace(s[|s| - 1]);
    }
  }

  /** A trimmed string is empty exactly when the original holds only white space. */
  lemma TrimEmptyIffAllSpace(s: string)
    ensures Trim(s) == [] <==> forall k | 0 <= k < |s| :: IsSpace(s[k])
  {
    var t := TrimStart(s);
    if t != [] {
      assert t[0] == s[|s| - |t|];
      assert Trim(s)[0] == t[0];
    }
  }

  /** Trimming twice changes nothing. */
  lemma TrimIdempotent(s: string)
    ensures Trim(Trim(s)) == Trim(s)
  {
    var r := Trim(s);
    assert TrimStart(r) == r;
    assert TrimEnd(r) == r;
  }

  // ----- String.prototype.toLowerCase (ASCII letters) -----

  function LowerChar(c: char): (d: char)
    ensures ('A' <= c <= 'Z') ==> d == (c as int + 32) as char
    ensures !('A' <= c <= 'Z') ==> d == c
  {
    if 'A' <= c <= 'Z' then (c as int + 32) as char else c
  }

  function ToLower(s: string): (r: string)
    ensures |r| == |s|
    ensures forall k | 0 <= k < |s| :: r[k] == LowerChar(s[k])
  {
    seq(|s|, k requires 0 <= k < |s| => LowerChar(s[k]))
  }

  /** Lower-casing works character by character. */
  lemma ToLowerAppend(a: string, b: string)
    ensures ToLower(a + b) == ToLower(a) + ToLower(b)
  {
    var l, r := ToLower(a + b), ToLower(a) + ToLower(b);
    forall k | 0 <= k < |a + b| ensures l[k] == r[k] {
      if k < |a| {
        assert (a + b)[k] == a[k];
      } else {
        assert (a + b)[k] == b[k - |a|];
      }
    }
  }

  /** A string without capitals is its own lower case. */
  lemma ToLowerNoCapitals(s: string)
    requires forall k | 0 <= k < |s| :: !('A' <= s[k] <= 'Z')
    ensures ToLower(s) == s
  {
    var l := ToLower(s);
    forall k | 0 <= k < |s| ensures l[k] == s[k] {
    }
  }

  // ----- String.prototype.length -----

  /** `s.length`: JavaScript counts UTF-16 code units, so a character
      beyond U+FFFF counts twice. */
  function Utf16Length(s: string): (n: nat)
    ensures |s| <= n <= 2 * |s|
  {
    if s == [] then 0 else Utf16Length(s[..|s| - 1]) + (if s[|s| - 1] as int >= 0x1_0000 then 2 else 1)
  }

  /** Every character lies in U+0000..U+FFFF, one code unit each. */
  predicate InBasicPlane(s: string)
  {
    forall k | 0 <= k < |s| :: s[k] as int < 0x1_0000
  }

  lemma {:induction false} BasicPlaneLength(s: string)
    requires InBasicPlane(s)
    ensures Utf16Length(s) == |s|
  {
    if s != [] {
      BasicPlaneLength(s[..|s| - 1]);
    }
  }

  /** Digits are one code unit each. */
  lemma DigitsLength(s: string)
    requires AllDigits(s)
    ensures Utf16Length(s) == |s|
  {
    BasicPlaneLength(s);
  }

  /** A string with a character beyond U+FFFF is longer in code units than
      in characters. */
  lemma {:induction false} AstralLength(s: string, k: nat)
    requires k < |s| && s[k] as int >= 0x1_0000
    ensures Utf16Length(s) > |s|
  {
    if k < |s| - 1 {
      AstralLength(s[..|s| - 1], k);
    }
  }

  // ----- includes, startsWith -----

  /** `s.includes(sub)`: some slice of `s` equals `sub`. */
  predicate Includes(s: string, sub: string)
  {
    exists i | 0 <= i <= |s| - |sub| :: sub <= s[i..]
  }

  lemma EverythingIncludesEmpty(s: string)
    ensures Includes(s, "")
  {
    assert "" <= s[0..];
  }

  predicate StartsWith(s: string, prefix: string)
  {
    |prefix| <= |s| && s[..|prefix|] == prefix
  }

  /** `s.includes("..")`. */
  predicate HasDoubleDot(s: string)
  {
    exists k | 0 <= k < |s| - 1 :: s[k] == '.' && s[k + 1] == '.'
  }

  lemma HasDoubleDotIsIncludes(s: string)
    ensures HasDoubleDot(s) <==> Includes(s, "..")
  {
    if HasDoubleDot(s) {
      var k :| 0 <= k < |s| - 1 && s[k] == '.' && s[k + 1] == '.';
      assert ".." <= s[k..];
    }
    if Includes(s, "..") {
      var i :| 0 <= i <= |s| - 2 && ".." <= s[i..];
      assert s[i] == s[i..][0] && s[i + 1] == s[i..][1];
    }
  }

  // ----- Array.prototype.splice(start, 1) -----

  /** The index `splice` starts at: a negative start counts from the end,
      and the result is clamped to `[0, |s|]`. */
  function SpliceStart(len: nat, start: int): (k: nat)
    ensures k <= len
    ensures 0 <= start <= len ==> k == start
  {
    if start < 0 then (if len + start < 0 then 0 else len + start)
    else if start > len then len
    else start
  }

  /** `s.splice(start, 1)` applied to a copy: the new contents. */
  function SpliceOne<T>(s: seq<T>, start: int): (r: seq<T>)
    ensures var k := SpliceStart(|s|, start);
      if k < |s| then r == s[..k] + s[k + 1..] else r == s
  {
    var k := SpliceStart(|s|, start);
    if k < |s| then s[..k] + s[k + 1..] else s
  }

  lemma SpliceOneInRange<T>(s: seq<T>, i: int)
    requires 0 <= i < |s|
    ensures |SpliceOne(s, i)| == |s| - 1
    ensures forall k | 0 <= k < i :: SpliceOne(s, i)[k] == s[k]
    ensures forall k | i <= k < |s| - 1 :: SpliceOne(s, i)[k] == s[k + 1]
  {
  }

  // ----- numbers -----

  /** Decimal digits of a natural number, most significant first. */
  function NatToString(n: nat): (r: string)
    ensures |r| >= 1 && AllDigits(r)
    ensures n > 0 ==> r[0] != '0'
    decreases n
  {
    if n < 10 then [DigitChar(n)] else NatToString(n / 10) + [DigitChar(n % 10)]
  }

  function DigitChar(d: nat): (c: char)
    requires d < 10
    ensures IsDigit(c)
    ensures d > 0 ==> c != '0'
  {
    ('0' as int + d) as char
  }

  /** The number a run of decimal digits denotes. */
  function DigitsValue(s: string): nat
    requires AllDigits(s)
  {
    if s == [] then 0 else 10 * DigitsValue(s[..|s| - 1]) + (s[|s| - 1] as int - '0' as int)
  }

  /** Reading the decimal rendering back gives the number. */
  lemma {:induction false} NatToStringRoundTrip(n: nat)
    ensures DigitsValue(NatToString(n)) == n
    decreases n
  {
    if n >= 10 {
      var r := NatToString(n);
      assert r[..|r| - 1] == NatToString(n / 10);
      NatToStringRoundTrip(n / 10);
    }
  }

  /** The length of the decimal rendering of `n`. */
  lemma {:induction false} NatToStringLength(n: nat, digits: nat)
    requires digits >= 1
    requires Pow10(digits - 1) <= n < Pow10(digits) || (n == 0 && digits == 1)
    ensures |NatToString(n)| == digits
    decreases digits
  {
    if n >= 10 {
      assert digits >= 2;
      Pow10Split(digits - 1);
      Pow10Split(digits - 2);
      NatToStringLength(n / 10, digits - 1);
    } else {
      Pow10AtLeast10(digits - 1);
    }
  }

  function Pow10(k: nat): (p: nat)
    ensures p >= 1
  {
    if k == 0 then 1 else 10 * Pow10(k - 1)
  }

  lemma Pow10Split(k: nat)
    ensures Pow10(k + 1) == 10 * Pow10(k)
  {
  }

  lemma {:induction false} Pow10AtLeast10(k: nat)
    ensures k >= 1 ==> Pow10(k) >= 10
  {
    if k > 1 { Pow10AtLeast10(k - 1); }
  }

  /** The rendering of an integer in a template string. */
  function IntToString(i: int): (r: string)
    ensures |r| >= 1
    ensures i >= 0 ==> r == NatToString(i)
  {
    if i < 0 then "-" + NatToString(-i) else NatToString(i)
  }

  /** `Math.round`: the nearest integer, halves rounded up. */
  function Round(x: real): (n: int)
    ensures n as real - 0.5 <= x < n as real + 0.5
  {
    (x + 0.5).Floor
  }

  /** `Math.floor(x / d)` for a positive integer divisor. */
  function FloorDiv(x: real, d: nat): (n: int)
    requires d > 0
    ensures n as real * d as real <= x < (n + 1) as real * d as real
  {
    var q := x / d as real;
    var n := q.Floor;
    assert q * d as real == x;
    MulMonotone(n as real, q, d as real);
    MulMonotone(q, n as real + 1.0, d as real);
    n
  }

  lemma MulMonotone(a: real, b: real, c: real)
    requires a <= b && c > 0.0
    ensures a * c <= b * c
    ensures a < b ==> a * c < b * c
  {
  }

  /** `Math.ceil(n / d)` on integers, for a positive divisor. */
  function CeilDiv(n: int, d: nat): (q: int)
    requires d > 0
    ensures (q - 1) * d < n <= q * d
  {
    (n + d - 1) / d
  }

  /** JavaScript's `%` on integers: the remainder of the division truncated
      toward zero, which takes the sign of the dividend. */
  function Rem(a: int, b: int): (r: int)
    requires b > 0
    ensures a >= 0 ==> 0 <= r < b && r == a % b
    ensures a < 0 ==> -b < r <= 0
  {
    if a >= 0 then a % b else -((-a) % b)
  }

  /** Concatenation is associative. */
  lemma ConcatAssoc<T>(x: seq<T>, y: seq<T>, z: seq<T>)
    ensures (x + y) + z == x + (y + z)
  {
  }
}
