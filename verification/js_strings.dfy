/**
 * The JavaScript string built-ins the handlers and middleware call:
 * `trim`, `toLowerCase`, `includes`, `startsWith`/`slice`, `Array.prototype.join`
 * on strings, and the global `parseInt` without a radix.
 */
module JsStrings {
  import opened JsValues

  /** ECMAScript WhiteSpace and LineTerminator code points: what `trim` and `parseInt` skip. */
  predicate IsWhiteSpace(c: char) {
    c == '\t' || c == '\n' || c == '\U{000B}' || c == '\U{000C}' || c == '\r' || c == ' '
    || c == '\U{00A0}' || c == '\U{1680}' || ('\U{2000}' <= c <= '\U{200A}')
    || c == '\U{2028}' || c == '\U{2029}' || c == '\U{202F}' || c == '\U{205F}'
    || c == '\U{3000}' || c == '\U{FEFF}'
  }

  /** `s` with its leading white space removed. */
  function TrimStart(s: string): string {
    if s != [] && IsWhiteSpace(s[0]) then TrimStart(s[1..]) else s
  }

  /** `s` with its trailing white space removed. */
  function TrimEnd(s: string): string {
    if s != [] && IsWhiteSpace(s[|s| - 1]) then TrimEnd(s[..|s| - 1]) else s
  }

  /** `String.prototype.trim`. */
  function Trim(s: string): string {
    TrimEnd(TrimStart(s))
  }

  /** `s.trim().length === 0`. */
  predicate Blank(s: string) {
    Trim(s) == []
  }

  /** `TrimStart` removes a run of white space from the front, and nothing more. */
  lemma {:induction false} TrimStartRemovesLeadingSpace(s: string)
    ensures |TrimStart(s)| <= |s| && TrimStart(s) == s[|s| - |TrimStart(s)|..]
    ensures forall i :: 0 <= i < |s| - |TrimStart(s)| ==> IsWhiteSpace(s[i])
    ensures TrimStart(s) == [] || !IsWhiteSpace(TrimStart(s)[0])
  {
    if s != [] && IsWhiteSpace(s[0]) {
      var t := s[1..];
      TrimStartRemovesLeadingSpace(t);
      assert TrimStart(s) == TrimStart(t);
      assert s[|s| - |TrimStart(s)|..] == t[|t| - |TrimStart(t)|..];
      forall i | 0 <= i < |s| - |TrimStart(s)|
        ensures IsWhiteSpace(s[i])
      {
        if i > 0 {
          assert s[i] == t[i - 1];
        }
      }
    }
  }

  /** `TrimEnd` removes a run of white space from the back, and nothing more. */
  lemma {:induction false} TrimEndRemovesTrailingSpace(s: string)
    ensures |TrimEnd(s)| <= |s| && TrimEnd(s) == s[..|TrimEnd(s)|]
    ensures forall i :: |TrimEnd(s)| <= i < |s| ==> IsWhiteSpace(s[i])
    ensures TrimEnd(s) == [] || !IsWhiteSpace(TrimEnd(s)[|TrimEnd(s)| - 1])
  {
    if s != [] && IsWhiteSpace(s[|s| - 1]) {
      TrimEndRemovesTrailingSpace(s[..|s| - 1]);
    }
  }

  /** A string trims to nothing exactly when every character of it is white space. */
  lemma BlankIffAllWhiteSpace(s: string)
    ensures Blank(s) <==> forall i :: 0 <= i < |s| ==> IsWhiteSpace(s[i])
  {
    TrimStartRemovesLeadingSpace(s);
    TrimEndRemovesTrailingSpace(TrimStart(s));
  }

  /** The ASCII part of `toLowerCase`. */
  function LowerChar(c: char): char {
    if 'A' <= c <= 'Z' then (c as int + 32) as char else c
  }

  /** `String.prototype.toLowerCase`, folding A-Z only. */
  function Lower(s: string): string {
    seq(|s|, i requires 0 <= i < |s| => LowerChar(s[i]))
  }

  /** Lower-casing keeps the length, leaves no upper-case letter behind, and is idempotent. */
  lemma LowerProperties(s: string)
    ensures |Lower(s)| == |s|
    ensures forall i :: 0 <= i < |s| ==> !('A' <= Lower(s)[i] <= 'Z')
    ensures Lower(Lower(s)) == Lower(s)
  {
  }

  /** `t` occurs in `s` starting at index `i`. */
  predicate OccursAt(s: string, t: string, i: int) {
    0 <= i && i + |t| <= |s| && s[i..i + |t|] == t
  }

  /** `s.includes(t)`. */
  predicate Includes(s: string, t: string)
    decreases |s|
  {
    t <= s || (s != [] && Includes(s[1..], t))
  }

  /** `includes` finds `t` exactly when `t` occurs at some index of `s`. */
  lemma {:induction false} IncludesIffOccurs(s: string, t: string)
    ensures Includes(s, t) <==> exists i :: OccursAt(s, t, i)
    decreases |s|
  {
    if s == [] {
      if Includes(s, t) {
        assert OccursAt(s, t, 0);
      }
      if exists i :: OccursAt(s, t, i) {
        var i :| OccursAt(s, t, i);
        assert t == [];
        assert Includes(s, t);
      }
    } else {
      IncludesIffOccurs(s[1..], t);
      if t <= s {
        assert OccursAt(s, t, 0);
      } else if Includes(s[1..], t) {
        var i :| OccursAt(s[1..], t, i);
        assert s[1..][i..i + |t|] == s[i + 1..i + 1 + |t|];
        assert OccursAt(s, t, i + 1);
      }
      if exists i :: OccursAt(s, t, i) {
        var i :| OccursAt(s, t, i);
        if i == 0 {
          assert s[..|t|] == t;
          assert t <= s;
        } else {
          assert s[1..][i - 1..i - 1 + |t|] == s[i..i + |t|];
          assert OccursAt(s[1..], t, i - 1);
          assert Includes(s[1..], t);
        }
        assert Includes(s, t);
      }
    }
  }

  /** Whatever `b` includes, `a + b + c` includes too. */
  lemma IncludesWithin(a: string, b: string, c: string, t: string)
    requires Includes(b, t)
    ensures Includes(a + b + c, t)
  {
    IncludesIffOccurs(b, t);
    var i :| OccursAt(b, t, i);
    assert (a + b + c)[|a| + i..|a| + i + |t|] == b[i..i + |t|];
    assert OccursAt(a + b + c, t, |a| + i);
    IncludesIffOccurs(a + b + c, t);
  }

  /** `Array.prototype.join(sep)` on an array of strings. */
  function Join(xs: seq<string>, sep: string): string
    decreases |xs|
  {
    if |xs| == 0 then "" else if |xs| == 1 then xs[0] else xs[0] + sep + Join(xs[1..], sep)
  }

  /** Every joined element can be found in the joined string. */
  lemma {:induction false} JoinIncludes(xs: seq<string>, sep: string, k: nat)
    requires k < |xs|
    ensures Includes(Join(xs, sep), xs[k])
    decreases |xs|
  {
    if |xs| == 1 || k == 0 {
      assert xs[0] <= Join(xs, sep);
    } else {
      JoinIncludes(xs[1..], sep, k - 1);
      IncludesWithin(xs[0] + sep, Join(xs[1..], sep), "", xs[k]);
      assert xs[0] + sep + Join(xs[1..], sep) + "" == Join(xs, sep);
    }
  }

  /** The value of a character as a digit of radix up to 36, or 36 for a non-digit. */
  function DigitValue(c: char): (d: nat)
    ensures d <= 36
  {
    if '0' <= c <= '9' then c as int - '0' as int
    else if 'a' <= c <= 'z' then c as int - 'a' as int + 10
    else if 'A' <= c <= 'Z' then c as int - 'A' as int + 10
    else 36
  }

  predicate IsDigit(c: char, radix: nat) {
    DigitValue(c) < radix
  }

  /** The longest prefix of `s` made of digits of `radix`. */
  function DigitPrefix(s: string, radix: nat): (r: string)
    ensures r <= s
    ensures forall i :: 0 <= i < |r| ==> IsDigit(r[i], radix)
    ensures |r| < |s| ==> !IsDigit(s[|r|], radix)
  {
    if s != [] && IsDigit(s[0], radix) then [s[0]] + DigitPrefix(s[1..], radix) else []
  }

  /** The number a digit string denotes, most significant digit first. */
  function DigitsValue(ds: string, radix: nat): nat {
    if ds == [] then 0 else DigitsValue(ds[..|ds| - 1], radix) * radix + DigitValue(ds[|ds| - 1])
  }

  /** The digits at the start of `u` read in `radix`; `None` (NaN) when there is none. */
  function LeadingNumber(u: string, radix: nat): Option<nat> {
    var ds := DigitPrefix(u, radix);
    if ds == [] then None else Some(DigitsValue(ds, radix))
  }

  /** After the sign: a `0x`/`0X` prefix switches to radix 16, otherwise radix 10. */
  function ParseMagnitude(u: string): Option<nat> {
    if |u| >= 2 && u[0] == '0' && (u[1] == 'x' || u[1] == 'X') then LeadingNumber(u[2..], 16)
    else LeadingNumber(u, 10)
  }

  /**
   * `parseInt(s)` with no radix: skip leading white space, take one sign,
   * then the magnitude. `None` is NaN.
   */
  function ParseInt(s: string): Option<int> {
    var t := TrimStart(s);
    if t != [] && t[0] == '-' then
      match ParseMagnitude(t[1..])
      case None => None
      case Some(m) => Some(-(m as int))
    else if t != [] && t[0] == '+' then
      match ParseMagnitude(t[1..])
      case None => None
      case Some(m) => Some(m)
    else
      match ParseMagnitude(t)
      case None => None
      case Some(m) => Some(m)
  }

  function DigitChar(d: nat): (c: char)
    requires d < 10
    ensures DigitValue(c) == d
  {
    ('0' as int + d) as char
  }

  /** The decimal rendering of a natural number, as `String(n)` gives it. */
  function Decimal(n: nat): (r: string)
    ensures r != []
    ensures forall i :: 0 <= i < |r| ==> IsDigit(r[i], 10)
    ensures n > 0 ==> r[0] != '0'
    ensures n == 0 ==> r == "0"
  {
    if n < 10 then [DigitChar(n)] else Decimal(n / 10) + [DigitChar(n % 10)]
  }

  lemma {:induction false} DecimalValue(n: nat)
    ensures DigitsValue(Decimal(n), 10) == n
  {
    if n >= 10 {
      DecimalValue(n / 10);
      var r := Decimal(n);
      assert r[..|r| - 1] == Decimal(n / 10);
    }
  }

  lemma {:induction false} DigitPrefixOfDigits(ds: string, rest: string, radix: nat)
    requires forall i :: 0 <= i < |ds| ==> IsDigit(ds[i], radix)
    requires rest == [] || !IsDigit(rest[0], radix)
    ensures DigitPrefix(ds + rest, radix) == ds
  {
    if ds != [] {
      DigitPrefixOfDigits(ds[1..], rest, radix);
      assert (ds + rest)[1..] == ds[1..] + rest;
    }
  }

  /** Text that starts with a decimal digit and is not a `0x` prefix is read as decimal digits. */
  lemma ParseIntPlainDigits(s: string)
    requires s != [] && IsDigit(s[0], 10)
    requires |s| >= 2 && s[0] == '0' ==> s[1] != 'x' && s[1] != 'X'
    ensures ParseInt(s) == Some(DigitsValue(DigitPrefix(s, 10), 10))
  {
    assert !IsWhiteSpace(s[0]);
    assert TrimStart(s) == s;
    assert s[0] != '-' && s[0] != '+';
    assert ParseMagnitude(s) == LeadingNumber(s, 10);
    assert DigitPrefix(s, 10) != [];
  }

  /**
   * `parseInt` reads back the decimal rendering of a natural number, whatever
   * non-digit text follows it (`"2abc"` gives 2), except that `"0x..."` is hexadecimal.
   */
  lemma ParseIntDecimal(n: nat, rest: string)
    requires rest == [] || !IsDigit(rest[0], 10)
    requires n == 0 && rest != [] ==> rest[0] != 'x' && rest[0] != 'X'
    ensures ParseInt(Decimal(n) + rest) == Some(n)
  {
    var s := Decimal(n) + rest;
    assert s[0] == Decimal(n)[0];
    if n == 0 {
      assert s == "0" + rest;
      assert |s| >= 2 ==> s[1] == rest[0];
    }
    ParseIntPlainDigits(s);
    DigitPrefixOfDigits(Decimal(n), rest, 10);
    DecimalValue(n);
  }
}
