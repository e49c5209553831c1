/**
 * The few JavaScript string built-ins the pages call, written out on `seq<char>`:
 * `trim`, `toLowerCase`, `includes`, `replace` of a one-character pattern, and `parseInt`
 * without a radix; plus the decimal rendering of an integer, used to state what
 * `parseInt` reads back.
 */
module JsText {
  import opened Wrappers

  /** WhiteSpace and LineTerminator code points of ECMA-262 (what `trim` removes). */
  predicate IsJsWhitespace(c: char) {
    c == '\t' || c == '\n' || c == '\U{B}' || c == '\U{C}' || c == '\r' || c == ' '
    || c == '\U{A0}' || c == '\U{1680}' || ('\U{2000}' <= c <= '\U{200A}')
    || c == '\U{2028}' || c == '\U{2029}' || c == '\U{202F}' || c == '\U{205F}'
    || c == '\U{3000}' || c == '\U{FEFF}'
  }

  /** `s.trimStart()` */
  function TrimStart(s: string): (r: string)
    ensures |r| <= |s| && r == s[|s| - |r|..]
    ensures r != [] ==> !IsJsWhitespace(r[0])
    ensures forall i :: 0 <= i < |s| - |r| ==> IsJsWhitespace(s[i])
  {
    if s != [] && IsJsWhitespace(s[0]) then TrimStart(s[1..]) else s
  }

  /** `s.trimEnd()` */
  function TrimEnd(s: string): (r: string)
    ensures |r| <= |s| && r == s[..|r|]
    ensures r != [] ==> !IsJsWhitespace(r[|r| - 1])
    ensures forall i :: |r| <= i < |s| ==> IsJsWhitespace(s[i])
  {
    if s != [] && IsJsWhitespace(s[|s| - 1]) then TrimEnd(s[..|s| - 1]) else s
  }

  /** `s.trim()` */
  function Trim(s: string): string {
    TrimEnd(TrimStart(s))
  }

  /** `s.trim()` is empty exactly when every character of `s` is white space. */
  lemma {:induction false} TrimEmptyIffAllWhitespace(s: string)
    ensures Trim(s) == "" <==> forall i :: 0 <= i < |s| ==> IsJsWhitespace(s[i])
  {
    if s != [] {
      if IsJsWhitespace(s[0]) {
        TrimEmptyIffAllWhitespace(s[1..]);
        assert forall i :: 1 <= i < |s| ==> s[i] == s[1..][i - 1];
      } else {
        TrimEndKeepsNonWhitespace(s);
      }
    }
  }

  lemma {:induction false} TrimEndKeepsNonWhitespace(s: string)
    requires s != [] && !IsJsWhitespace(s[0])
    ensures TrimEnd(s) != []
  {
    if IsJsWhitespace(s[|s| - 1]) {
      TrimEndKeepsNonWhitespace(s[..|s| - 1]);
    }
  }

  /** `toLowerCase` on one code point, for ASCII and the Latin-1 letters. */
  function LowerChar(c: char): (r: char)
    ensures ('A' <= c <= 'Z') ==> r as int == c as int + 32
    ensures !('A' <= c <= 'Z') && !('\U{C0}' <= c <= '\U{DE}') ==> r == c
  {
    // U+00C0..U+00DE are the Latin-1 capitals, except U+00D7 (the multiplication sign)
    if 'A' <= c <= 'Z' || ('\U{C0}' <= c <= '\U{DE}' && c != '\U{D7}')
    then (c as int + 32) as char
    else c
  }

  /** `s.toLowerCase()` */
  function ToLower(s: string): (r: string)
    ensures |r| == |s|
    ensures forall i :: 0 <= i < |s| ==> r[i] == LowerChar(s[i])
  {
    if s == [] then [] else [LowerChar(s[0])] + ToLower(s[1..])
  }

  /** `pattern` occurs in `s` starting at position `i`. */
  predicate OccursAt(s: string, pattern: string, i: nat) {
    i + |pattern| <= |s| && s[i..i + |pattern|] == pattern
  }

  /** `s.includes(pattern)` */
  predicate Includes(s: string, pattern: string) {
    exists i: nat :: i <= |s| && OccursAt(s, pattern, i)
  }

  /** `s.replace(from, to)` for one-character strings. */
  function ReplaceFirst(s: string, from: char, to: char): (r: string)
    ensures |r| == |s|
    ensures from !in s ==> r == s
  {
    if s == [] then []
    else if s[0] == from then [to] + s[1..]
    else [s[0]] + ReplaceFirst(s[1..], from, to)
  }

  /** Only the first occurrence of `from` is replaced; the rest of `s` is kept. */
  lemma {:induction false} ReplaceFirstChangesFirstOccurrence(s: string, from: char, to: char, k: nat)
    requires k < |s| && s[k] == from && from !in s[..k]
    ensures ReplaceFirst(s, from, to) == s[..k] + [to] + s[k + 1..]
  {
    if k > 0 {
      assert s[0] in s[..k];
      assert s[1..][..k - 1] == s[1..k];
      ReplaceFirstChangesFirstOccurrence(s[1..], from, to, k - 1);
    }
  }

  predicate IsDecimalDigit(c: char) {
    '0' <= c <= '9'
  }

  predicate IsHexDigit(c: char) {
    IsDecimalDigit(c) || ('a' <= c <= 'f') || ('A' <= c <= 'F')
  }

  function DigitValue(c: char): (v: nat)
    requires IsHexDigit(c)
    ensures v < 16
    ensures IsDecimalDigit(c) ==> v < 10
  {
    if IsDecimalDigit(c) then c as int - '0' as int
    else if 'a' <= c <= 'f' then c as int - 'a' as int + 10
    else c as int - 'A' as int + 10
  }

  predicate IsRadixDigit(c: char, radix: nat) {
    if radix == 16 then IsHexDigit(c) else IsDecimalDigit(c)
  }

  /** The longest prefix of `s` made of digits of the radix (10 or 16). */
  function LeadingDigits(s: string, radix: nat): (r: string)
    ensures |r| <= |s| && r == s[..|r|]
    ensures forall i :: 0 <= i < |r| ==> IsRadixDigit(r[i], radix)
    ensures |r| < |s| ==> !IsRadixDigit(s[|r|], radix)
    ensures AllRadixDigits(r, radix)
  {
    if s != [] && IsRadixDigit(s[0], radix) then [s[0]] + LeadingDigits(s[1..], radix) else []
  }

  predicate AllRadixDigits(ds: string, radix: nat) {
    forall i :: 0 <= i < |ds| ==> IsRadixDigit(ds[i], radix)
  }

  /** The value of a digit string, most significant digit first. */
  function DigitsValue(ds: string, radix: nat): nat
    requires AllRadixDigits(ds, radix)
  {
    if ds == [] then 0
    else
      var init := ds[..|ds| - 1];
      assert forall i :: 0 <= i < |init| ==> init[i] == ds[i];
      assert IsHexDigit(ds[|ds| - 1]);
      DigitsValue(init, radix) * radix + DigitValue(ds[|ds| - 1])
  }

  /** True when `u` starts with the `0x` or `0X` prefix that makes `parseInt` read hexadecimal. */
  predicate HasHexPrefix(u: string) {
    |u| >= 2 && u[0] == '0' && (u[1] == 'x' || u[1] == 'X')
  }

  /** `parseInt` after the sign: the longest run of digits, or `NaN` when there is none. */
  function ParseUnsigned(u: string): (r: Option<nat>)
    ensures r.None? <==> LeadingDigits(if HasHexPrefix(u) then u[2..] else u,
                                       if HasHexPrefix(u) then 16 else 10) == []
  {
    var radix := if HasHexPrefix(u) then 16 else 10;
    var digits := LeadingDigits(if HasHexPrefix(u) then u[2..] else u, radix);
    if digits == [] then None else Some(DigitsValue(digits, radix))
  }

  /**
   * `parseInt(s)` with no radix: leading white space is skipped, one sign is read, a
   * `0x`/`0X` prefix selects radix 16, and the longest run of digits that follows is the
   * value. No digit at all gives `NaN` (None here). `-0` is returned as 0.
   */
  function ParseInt(s: string): (r: Option<int>)
    ensures r.None? <==> ParseUnsigned(SignStripped(TrimStart(s))).None?
  {
    var t := TrimStart(s);
    match ParseUnsigned(SignStripped(t))
    case None => None
    case Some(m) =>
      var value: int := if t != [] && t[0] == '-' then -(m as int) else m;
      Some(value)
  }

  /** The text after an optional leading `+` or `-`. */
  function SignStripped(t: string): (u: string)
    ensures |u| <= |t|
  {
    if t != [] && (t[0] == '-' || t[0] == '+') then t[1..] else t
  }

  function DigitChar(d: nat): (c: char)
    requires d < 10
    ensures IsDecimalDigit(c) && DigitValue(c) == d
  {
    ('0' as int + d) as char
  }

  /** The decimal digits of `n`, without leading zeros. */
  function NatString(n: nat): (r: string)
    ensures r != []
    ensures forall i :: 0 <= i < |r| ==> IsDecimalDigit(r[i])
  {
    if n < 10 then [DigitChar(n)] else NatString(n / 10) + [DigitChar(n % 10)]
  }

  /** `String(n)` for an integer `n`. */
  function DecimalString(n: int): (r: string) {
    if n < 0 then "-" + NatString(-n) else NatString(n)
  }

  lemma {:induction false} NatStringValue(n: nat)
    ensures AllRadixDigits(NatString(n), 10)
    ensures DigitsValue(NatString(n), 10) == n
  {
    if n >= 10 {
      var s := NatString(n);
      assert s[..|s| - 1] == NatString(n / 10);
      NatStringValue(n / 10);
    }
  }

  lemma {:induction false} LeadingDigitsOfDigits(s: string)
    requires forall i :: 0 <= i < |s| ==> IsDecimalDigit(s[i])
    ensures LeadingDigits(s, 10) == s
  {
    if s != [] {
      LeadingDigitsOfDigits(s[1..]);
    }
  }

  lemma ParseUnsignedNatString(n: nat)
    ensures ParseUnsigned(NatString(n)) == Some(n)
  {
    var s := NatString(n);
    assert |s| >= 2 ==> IsDecimalDigit(s[1]);
    LeadingDigitsOfDigits(s);
    NatStringValue(n);
  }

  lemma TrimStartKeepsDigits(s: string)
    requires s != [] && (IsDecimalDigit(s[0]) || s[0] == '-')
    ensures TrimStart(s) == s
  {
  }

  lemma ParseIntNatString(n: nat)
    ensures ParseInt(NatString(n)) == Some(n)
  {
    ParseUnsignedNatString(n);
    ParseIntOfDigits(NatString(n), n);
  }

  lemma ParseIntOfDigits(s: string, n: nat)
    requires s != [] && IsDecimalDigit(s[0]) && ParseUnsigned(s) == Some(n)
    ensures ParseInt(s) == Some(n)
  {
    TrimStartKeepsDigits(s);
    assert SignStripped(s) == s;
  }

  /** `parseInt("")` is `NaN`. */
  lemma ParseIntEmpty()
    ensures ParseInt("") == None
  {
    assert TrimStart("") == "";
    assert SignStripped("") == "";
    assert !HasHexPrefix("");
    assert LeadingDigits("", 10) == [];
  }

  lemma ParseIntNegative(m: nat)
    requires m > 0
    ensures ParseInt("-" + NatString(m)) == Some(-(m as int))
  {
    var s := "-" + NatString(m);
    ParseUnsignedNatString(m);
    assert s[1..] == NatString(m);
    ParseIntOfNegatedDigits(s, m);
  }

  lemma ParseIntOfNegatedDigits(s: string, m: nat)
    requires s != [] && s[0] == '-' && ParseUnsigned(s[1..]) == Some(m)
    ensures ParseInt(s) == Some(-(m as int))
  {
    TrimStartKeepsDigits(s);
    assert SignStripped(s) == s[1..];
  }

  /** `parseInt(String(n)) === n`: parsing reads back any decimal rendering. */
  lemma ParseIntDecimalString(n: int)
    ensures ParseInt(DecimalString(n)) == Some(n)
  {
    var s := DecimalString(n);
    if n < 0 {
      var m: nat := -n;
      assert s == "-" + NatString(m);
      ParseIntNegative(m);
    } else {
      assert s == NatString(n);
      ParseIntNatString(n);
    }
  }
}
