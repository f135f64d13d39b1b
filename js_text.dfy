/** The JavaScript string primitives the pages rely on: the white-space set shared
    by `String.prototype.trim`, `parseInt` and the regular-expression classes
    `\s`/`\S`, decimal digits, and `Number.prototype.toString` on integers. */
module JsText {

  /** ECMAScript WhiteSpace and LineTerminator code points. */
  predicate IsWs(c: char) {
    var n := c as int;
    n == 0x09 || n == 0x0A || n == 0x0B || n == 0x0C || n == 0x0D || n == 0x20
    || n == 0xA0 || n == 0x1680 || (0x2000 <= n <= 0x200A)
    || n == 0x2028 || n == 0x2029 || n == 0x202F || n == 0x205F
    || n == 0x3000 || n == 0xFEFF
  }

  /** Every character of `s` is white space (the empty string included). */
  predicate AllWs(s: string) {
    forall i :: 0 <= i < |s| ==> IsWs(s[i])
  }

  /** `s` with its leading white space removed. */
  function TrimStart(s: string): (r: string)
    ensures |r| <= |s| && r == s[|s| - |r|..]
    ensures AllWs(s[..|s| - |r|])
    ensures r == [] || !IsWs(r[0])
  {
    if |s| > 0 && IsWs(s[0]) then
      var t := TrimStart(s[1..]);
      assert s[..|s| - |t|] == [s[0]] + s[1..][..|s| - 1 - |t|];
      t
    else s
  }

  /** `s` with its trailing white space removed. */
  function TrimEnd(s: string): (r: string)
    ensures |r| <= |s| && r == s[..|r|]
    ensures AllWs(s[|r|..])
    ensures r == [] || !IsWs(r[|r| - 1])
  {
    if |s| > 0 && IsWs(s[|s| - 1]) then
      var t := TrimEnd(s[..|s| - 1]);
      assert s[|t|..] == s[..|s| - 1][|t|..] + [s[|s| - 1]];
      t
    else s
  }

  /** `r` is a slice of `s` with only white space before and after it. */
  predicate TrimmedFrom(r: string, s: string) {
    exists a :: 0 <= a && a + |r| <= |s| && r == s[a..a + |r|] && AllWs(s[..a]) && AllWs(s[a + |r|..])
  }

  /** `String.prototype.trim`. */
  function Trim(s: string): (r: string)
    ensures |r| <= |s|
    ensures TrimmedFrom(r, s)
    ensures r == [] || (!IsWs(r[0]) && !IsWs(r[|r| - 1]))
  {
    var t := TrimStart(s);
    TrimKeepsMiddle(s, t, TrimEnd(t));
    TrimEnd(t)
  }

  /** Trimming the start and then the end keeps a slice of `s` between two runs
      of white space. */
  lemma TrimKeepsMiddle(s: string, t: string, r: string)
    requires t == TrimStart(s) && r == TrimEnd(t)
    ensures TrimmedFrom(r, s)
    ensures r == [] || (!IsWs(r[0]) && !IsWs(r[|r| - 1]))
  {
    var a := |s| - |t|;
    SliceOfSlice(s, a, |r|);
    assert AllWs(s[a + |r|..]);
    assert 0 <= a && a + |r| <= |s| && r == s[a..a + |r|] && AllWs(s[..a]) && AllWs(s[a + |r|..]);
  }

  /** A slice taken from a suffix is a slice of the whole string. */
  lemma SliceOfSlice(s: string, a: nat, n: nat)
    requires a + n <= |s|
    ensures s[a..][..n] == s[a..a + n]
    ensures s[a..][n..] == s[a + n..]
  {
  }

  /** `!s.trim()`: the trimmed string is empty exactly when `s` is all white space. */
  lemma TrimEmptyIffBlank(s: string)
    ensures Trim(s) == [] <==> AllWs(s)
  {
    var t := TrimStart(s);
    var prefix := s[..|s| - |t|];
    assert s == prefix + t;
    if Trim(s) == [] {
      assert AllWs(t[|TrimEnd(t)|..]);
      assert t[|TrimEnd(t)|..] == t;
      assert t == [];
      assert s == prefix;
    } else {
      var r := TrimEnd(t);
      assert t != [];
      assert !IsWs(t[0]);
      assert s[|prefix|] == t[0];
    }
  }

  /** Skipping the white space in front of `ws + s` gives the same result as
      skipping it in front of `s`. */
  lemma {:induction false} TrimStartSkipsWs(ws: string, s: string)
    requires AllWs(ws)
    ensures TrimStart(ws + s) == TrimStart(s)
  {
    if ws != [] {
      assert (ws + s)[0] == ws[0] && IsWs(ws[0]);
      assert (ws + s)[1..] == ws[1..] + s;
      assert TrimStart(ws + s) == TrimStart(ws[1..] + s);
      TrimStartSkipsWs(ws[1..], s);
    } else {
      assert ws + s == s;
    }
  }

  predicate IsDigit(c: char) {
    '0' <= c <= '9'
  }

  predicate AllDigits(s: string) {
    forall i :: 0 <= i < |s| ==> IsDigit(s[i])
  }

  function DigitValue(c: char): (d: nat)
    requires IsDigit(c)
    ensures d <= 9
  {
    c as int - '0' as int
  }

  function DigitChar(d: nat): (c: char)
    requires d <= 9
    ensures IsDigit(c) && DigitValue(c) == d
  {
    ('0' as int + d) as char
  }

  /** The value of a string of decimal digits, most significant first. */
  function DigitsValue(ds: string): nat
    requires AllDigits(ds)
  {
    if ds == [] then 0 else DigitsValue(ds[..|ds| - 1]) * 10 + DigitValue(ds[|ds| - 1])
  }

  /** The longest prefix of `s` made of decimal digits. */
  function LeadingDigits(s: string): (r: string)
    ensures |r| <= |s| && r == s[..|r|]
    ensures AllDigits(r)
    ensures |r| == |s| || !IsDigit(s[|r|])
  {
    if |s| > 0 && IsDigit(s[0]) then [s[0]] + LeadingDigits(s[1..]) else []
  }

  lemma {:induction false} LeadingDigitsOfDigits(ds: string, rest: string)
    requires AllDigits(ds)
    requires rest == [] || !IsDigit(rest[0])
    ensures LeadingDigits(ds + rest) == ds
  {
    if ds != [] {
      assert (ds + rest)[1..] == ds[1..] + rest;
      LeadingDigitsOfDigits(ds[1..], rest);
    } else {
      assert ds + rest == rest;
    }
  }

  /** `Number.prototype.toString()` of a non-negative integer: decimal digits with
      no leading zero. */
  function ShowNat(n: nat): (r: string)
    ensures |r| >= 1 && AllDigits(r)
    ensures r[0] == '0' ==> n == 0 && r == "0"
  {
    if n < 10 then [DigitChar(n)] else ShowNat(n / 10) + [DigitChar(n % 10)]
  }

  /** `r` is the canonical decimal text of `n`: a `-` exactly when `n` is
      negative, then digits with no leading zero (unless the number is 0) whose
      value is the magnitude of `n`. */
  predicate CanonicalDecimal(r: string, n: int) {
    && r != []
    && (r[0] == '-' <==> n < 0)
    && var ds := if n < 0 then r[1..] else r;
       && ds != [] && AllDigits(ds)
       && (ds[0] == '0' ==> ds == "0")
       && DigitsValue(ds) == if n < 0 then -n else n
  }

  /** `Number.prototype.toString()` of an integer. */
  function ShowInt(n: int): (r: string)
    ensures CanonicalDecimal(r, n)
  {
    if n < 0 then
      DigitsValueOfShowNat(-n);
      assert ("-" + ShowNat(-n))[1..] == ShowNat(-n);
      "-" + ShowNat(-n)
    else
      DigitsValueOfShowNat(n);
      ShowNat(n)
  }

  /** Reading back what `ShowNat` wrote gives the number again. */
  lemma {:induction false} DigitsValueOfShowNat(n: nat)
    ensures DigitsValue(ShowNat(n)) == n
  {
    var s := ShowNat(n);
    if n >= 10 {
      DigitsValueOfShowNat(n / 10);
      assert s[..|s| - 1] == ShowNat(n / 10);
    }
  }
}
