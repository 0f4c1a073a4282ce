/** The JavaScript string and number primitives the system relies on:
    `parseInt` (section 19.2.5 of ECMA-262), `String.prototype.trim`,
    `toLowerCase`, `includes`/`startsWith`, `Array.prototype.join`, and the
    decimal rendering of an integer (`id.toString()`, `String(n)`). */
module JsText {
  import opened Wrappers

  /** A JavaScript number as it appears in this system: an integer or NaN. */
  datatype JsNumber = Int(value: int) | NaN {
    /** JavaScript truthiness of a number: NaN and 0 are falsy. */
    predicate Truthy() {
      Int? && value != 0
    }
  }

  // ---------------------------------------------------------------------
  // White space (StrWhiteSpaceChar: WhiteSpace and LineTerminator)
  // ---------------------------------------------------------------------

  /** The code points `trim` and `parseInt` skip: TAB, VT, FF, ZWNBSP, the
      space separators of category Zs, and the four line terminators. */
  predicate IsWhiteSpace(c: char) {
    var n := c as int;
    n == 0x09 || n == 0x0A || n == 0x0B || n == 0x0C || n == 0x0D || n == 0x20 ||
    n == 0xA0 || n == 0x1680 || (0x2000 <= n <= 0x200A) || n == 0x2028 || n == 0x2029 ||
    n == 0x202F || n == 0x205F || n == 0x3000 || n == 0xFEFF
  }

  /** The number of white-space characters `s` starts with. */
  function LeadingWhiteSpace(s: string): (n: nat)
    ensures n <= |s|
    ensures forall i :: 0 <= i < n ==> IsWhiteSpace(s[i])
    ensures n < |s| ==> !IsWhiteSpace(s[n])
  {
    if |s| > 0 && IsWhiteSpace(s[0]) then 1 + LeadingWhiteSpace(s[1..]) else 0
  }

  /** `s` with its leading white space removed. */
  function TrimStart(s: string): (r: string)
    ensures |r| <= |s| && r == s[|s| - |r|..]
    ensures |r| == |s| - LeadingWhiteSpace(s)
    ensures forall i :: 0 <= i < |s| - |r| ==> IsWhiteSpace(s[i])
    ensures r == [] || !IsWhiteSpace(r[0])
  {
    s[LeadingWhiteSpace(s)..]
  }

  /** `s` with its trailing white space removed. */
  function TrimEnd(s: string): (r: string)
    ensures |r| <= |s| && r == s[..|r|]
    ensures forall i :: |r| <= i < |s| ==> IsWhiteSpace(s[i])
    ensures r == [] || !IsWhiteSpace(r[|r| - 1])
  {
    if |s| > 0 && IsWhiteSpace(s[|s| - 1]) then TrimEnd(s[..|s| - 1]) else s
  }

  /** `String.prototype.trim`. */
  function Trim(s: string): (r: string)
    ensures r == [] || (!IsWhiteSpace(r[0]) && !IsWhiteSpace(r[|r| - 1]))
    ensures LeadingWhiteSpace(s) + |r| <= |s| && r == s[LeadingWhiteSpace(s)..LeadingWhiteSpace(s) + |r|]
    ensures forall i :: 0 <= i < LeadingWhiteSpace(s) ==> IsWhiteSpace(s[i])
    ensures forall i :: LeadingWhiteSpace(s) + |r| <= i < |s| ==> IsWhiteSpace(s[i])
  {
    var t := TrimStart(s);
    var r := TrimEnd(t);
    PrefixOfSuffix(s, LeadingWhiteSpace(s), t, r);
    r
  }

  /** A prefix `r` of the suffix `t == s[k..]`, followed in `t` by white
      space only, is the slice `s[k..k + |r|]`, followed in `s` by white
      space only. */
  lemma PrefixOfSuffix(s: string, k: nat, t: string, r: string)
    requires k <= |s| && t == s[k..] && |r| <= |t| && r == t[..|r|]
    requires forall i :: |r| <= i < |t| ==> IsWhiteSpace(t[i])
    ensures k + |r| <= |s| && r == s[k..k + |r|]
    ensures forall i :: k + |r| <= i < |s| ==> IsWhiteSpace(s[i])
  {
    forall i | k + |r| <= i < |s|
      ensures IsWhiteSpace(s[i])
    {
      assert s[i] == t[i - k];
    }
  }

  /** Trimming a string that has no white space at either end gives it back. */
  lemma TrimOfTrimmed(s: string)
    requires s == [] || (!IsWhiteSpace(s[0]) && !IsWhiteSpace(s[|s| - 1]))
    ensures Trim(s) == s
  {
  }

  // ---------------------------------------------------------------------
  // Case and substrings
  // ---------------------------------------------------------------------

  /** Lower-casing of one character (ASCII letters only). */
  function LowerChar(c: char): (r: char)
    ensures 'A' <= c <= 'Z' ==> r as int == c as int + 32
    ensures !('A' <= c <= 'Z') ==> r == c
  {
    if 'A' <= c <= 'Z' then (c as int + 32) as char else c
  }

  /** `toLowerCase` (ASCII letters only). */
  function ToLower(s: string): (r: string)
    ensures |r| == |s|
    ensures forall i :: 0 <= i < |s| ==> r[i] == LowerChar(s[i])
  {
    if s == [] then [] else [LowerChar(s[0])] + ToLower(s[1..])
  }

  /** Lower-casing works character by character, so it distributes over
      concatenation. */
  lemma ToLowerAppend(a: string, b: string)
    ensures ToLower(a + b) == ToLower(a) + ToLower(b)
  {
    assert forall i :: 0 <= i < |a + b| ==> ToLower(a + b)[i] == (ToLower(a) + ToLower(b))[i];
  }

  /** `s.startsWith(prefix)`. */
  predicate StartsWith(s: string, prefix: string) {
    |prefix| <= |s| && s[..|prefix|] == prefix
  }

  /** `s.includes(sub)`: `sub` occurs in `s` at some position. */
  predicate Contains(s: string, sub: string)
    decreases |s|
  {
    StartsWith(s, sub) || (|s| > 0 && Contains(s[1..], sub))
  }

  /** `sub` occurs in `s` starting at index `i`. */
  predicate OccursAt(s: string, sub: string, i: int) {
    0 <= i <= |s| - |sub| && s[i..i + |sub|] == sub
  }

  /** `Contains` holds exactly when `sub` occurs at some index of `s`. */
  lemma {:induction false} ContainsAt(s: string, sub: string)
    ensures Contains(s, sub) <==> exists i :: OccursAt(s, sub, i)
    decreases |s|
  {
    if StartsWith(s, sub) {
      assert OccursAt(s, sub, 0);
    } else if |s| > 0 {
      ContainsAt(s[1..], sub);
      if Contains(s[1..], sub) {
        var i :| OccursAt(s[1..], sub, i);
        assert OccursAt(s, sub, i + 1);
      }
      if exists i :: OccursAt(s, sub, i) {
        var i :| OccursAt(s, sub, i);
        assert i != 0;
        assert OccursAt(s[1..], sub, i - 1);
      }
    }
  }

  /** The empty string is contained in every string (an empty search term keeps all). */
  lemma ContainsEmpty(s: string)
    ensures Contains(s, "")
  {
  }

  /** A case-insensitive `contains` (Prisma's `mode: 'insensitive'`, and the
      dropdown's `label.toLowerCase().includes(term.toLowerCase())`). */
  predicate ContainsInsensitive(s: string, sub: string) {
    Contains(ToLower(s), ToLower(sub))
  }

  /** `parts.join(sep)`. */
  function Join(parts: seq<string>, sep: string): (r: string)
    ensures parts == [] ==> r == ""
    ensures |parts| == 1 ==> r == parts[0]
  {
    if parts == [] then ""
    else if |parts| == 1 then parts[0]
    else parts[0] + sep + Join(parts[1..], sep)
  }

  /** Joining one more part appends the separator and that part. */
  lemma {:induction false} JoinSnoc(parts: seq<string>, last: string, sep: string)
    requires parts != []
    ensures Join(parts + [last], sep) == Join(parts, sep) + sep + last
  {
    if |parts| > 1 {
      assert (parts + [last])[1..] == parts[1..] + [last];
      JoinSnoc(parts[1..], last, sep);
    }
  }

  // ---------------------------------------------------------------------
  // Number to string
  // ---------------------------------------------------------------------

  function DecimalDigit(d: nat): (c: char)
    requires d < 10
    ensures '0' <= c <= '9' && c as int - '0' as int == d
  {
    ('0' as int + d) as char
  }

  /** The decimal digits of `n`, most significant first, without leading zeros. */
  function NatToString(n: nat): (s: string)
    ensures |s| > 0 && forall i :: 0 <= i < |s| ==> '0' <= s[i] <= '9'
    ensures n > 0 ==> s[0] != '0'
  {
    if n < 10 then [DecimalDigit(n)] else NatToString(n / 10) + [DecimalDigit(n % 10)]
  }

  /** `k.toString()` for an integer `k`. */
  function IntToString(k: int): (s: string)
    ensures k < 0 ==> |s| > 1 && s[0] == '-' && s[1..] == NatToString(-k)
    ensures k >= 0 ==> s == NatToString(k)
  {
    if k < 0 then "-" + NatToString(-k) else NatToString(k)
  }

  /** `String(n)` for a number. */
  function NumberToString(n: JsNumber): string {
    match n
    case NaN => "NaN"
    case Int(k) => IntToString(k)
  }

  // ---------------------------------------------------------------------
  // parseInt (section 19.2.5 of ECMA-262)
  // ---------------------------------------------------------------------

  /** The value of `c` as a digit of radix 36 ('0'-'9', then 'a'-'z' or 'A'-'Z'). */
  function DigitValue(c: char): (d: Option<nat>)
    ensures d.Some? ==> d.value < 36
    ensures '0' <= c <= '9' ==> d == Some(c as int - '0' as int)
  {
    if '0' <= c <= '9' then Some(c as int - '0' as int)
    else if 'a' <= c <= 'z' then Some(c as int - 'a' as int + 10)
    else if 'A' <= c <= 'Z' then Some(c as int - 'A' as int + 10)
    else None
  }

  /** Whether `c` is a digit of the given radix. */
  predicate IsDigit(c: char, radix: nat) {
    DigitValue(c).Some? && DigitValue(c).value < radix
  }

  /** The length of the longest prefix of `s` made of digits of `radix`. */
  function DigitPrefixLength(s: string, radix: nat): (n: nat)
    ensures n <= |s|
    ensures forall i :: 0 <= i < n ==> IsDigit(s[i], radix)
    ensures n < |s| ==> !IsDigit(s[n], radix)
  {
    if |s| > 0 && IsDigit(s[0], radix) then 1 + DigitPrefixLength(s[1..], radix) else 0
  }

  /** The mathematical value of the digit string `z` read in `radix`. */
  function DigitsValue(z: string, radix: nat): nat
    requires forall i :: 0 <= i < |z| ==> IsDigit(z[i], radix)
    decreases |z|
  {
    if z == [] then 0
    else
      var prefix := z[..|z| - 1];
      assert forall i :: 0 <= i < |prefix| ==> prefix[i] == z[i];
      assert IsDigit(z[|z| - 1], radix);
      var high := DigitsValue(prefix, radix);
      ProductOfNats(high, radix);
      high * radix + DigitValue(z[|z| - 1]).value
  }

  lemma ProductOfNats(a: nat, b: nat)
    ensures a * b >= 0
  {
  }

  /** Whether the sign `parseInt` reads from the first character is minus. */
  predicate IsNegative(s: string) {
    |s| > 0 && s[0] == '-'
  }

  /** `s` without one leading '+' or '-'. */
  function StripSign(s: string): string {
    if |s| > 0 && (s[0] == '+' || s[0] == '-') then s[1..] else s
  }

  /** Whether `s` starts with "0x" or "0X". */
  predicate HasHexPrefix(s: string) {
    |s| >= 2 && s[0] == '0' && (s[1] == 'x' || s[1] == 'X')
  }

  /** The value of the longest digit prefix of `digits` in `base`, negated
      when `negative`; NaN if that prefix is empty. */
  function ParseDigits(digits: string, base: nat, negative: bool): JsNumber {
    var end := DigitPrefixLength(digits, base);
    if end == 0 then NaN
    else
      var magnitude: int := DigitsValue(digits[..end], base);
      Int(if negative then -magnitude else magnitude)
  }

  /** `parseInt(input, radix)`. A `radix` of 0 stands for an absent radix
      (ToInt32(undefined) is 0): base 10, or 16 after a "0x"/"0X" prefix. */
  function ParseInt(input: string, radix: int): JsNumber {
    var s := TrimStart(input);
    var unsigned := StripSign(s);
    if radix != 0 && (radix < 2 || radix > 36) then NaN
    else if (radix == 0 || radix == 16) && HasHexPrefix(unsigned) then
      ParseDigits(unsigned[2..], 16, IsNegative(s))
    else
      ParseDigits(unsigned, if radix == 0 then 10 else radix, IsNegative(s))
  }

  /** With radix 10, `parseInt` is NaN exactly when, after the leading white
      space and one optional sign, the string does not start with a decimal digit. */
  lemma ParseIntNaNIff(input: string)
    ensures ParseInt(input, 10).NaN? <==>
      var unsigned := StripSign(TrimStart(input));
      unsigned == [] || !('0' <= unsigned[0] <= '9')
  {
  }

  /** Reading back the decimal digits of `n` gives `n`. */
  lemma {:induction false} DigitsValueOfNatToString(n: nat)
    ensures forall i :: 0 <= i < |NatToString(n)| ==> IsDigit(NatToString(n)[i], 10)
    ensures DigitsValue(NatToString(n), 10) == n
  {
    var s := NatToString(n);
    if n >= 10 {
      DigitsValueOfNatToString(n / 10);
      assert s[..|s| - 1] == NatToString(n / 10);
    }
  }

  /** Leading white space does not change what `parseInt` returns. */
  lemma ParseIntSkipsWhiteSpace(c: char, s: string, radix: int)
    requires IsWhiteSpace(c)
    ensures ParseInt([c] + s, radix) == ParseInt(s, radix)
  {
    assert ([c] + s)[1..] == s;
    assert LeadingWhiteSpace([c] + s) == 1 + LeadingWhiteSpace(s);
    assert TrimStart([c] + s) == TrimStart(s);
  }

  /** The digits of `n` are read back whole, with the given sign. */
  lemma ParseDigitsOfNatToString(n: nat, negative: bool)
    ensures ParseDigits(NatToString(n), 10, negative) == Int(if negative then -(n as int) else n)
  {
    var digits := NatToString(n);
    DigitsValueOfNatToString(n);
    assert DigitPrefixLength(digits, 10) == |digits|;
    assert digits[..|digits|] == digits;
  }

  /** Round trip: `parseInt(k.toString())`, with radix 10 or with no radix,
      is `k` again (never NaN). */
  lemma ParseIntOfIntToString(k: int, radix: int)
    requires radix == 10 || radix == 0
    ensures ParseInt(IntToString(k), radix) == Int(k)
  {
    var n: nat := if k < 0 then -k else k;
    var s := IntToString(k);
    assert TrimStart(s) == s;
    assert StripSign(s) == NatToString(n);
    assert !HasHexPrefix(NatToString(n));
    ParseDigitsOfNatToString(n, IsNegative(s));
  }
}
