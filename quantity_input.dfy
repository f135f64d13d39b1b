/** The quantity stepper (components/QuantityInput.tsx): a `-` button, a number
    field and a `+` button. Typed text is read the way base-10 `parseInt` reads
    it and clamped into `[min, max]` before it reaches the `onChange` handler. */
module QuantityInput {
  import opened Wrappers
  import opened JsText

  const DefaultMin: int := 1
  const DefaultMax: int := 99

  /** The sign `parseInt` reads after the leading white space: `-1`, `+1`, or no
      sign character at all. */
  function SignOf(t: string): int {
    if |t| > 0 && t[0] == '-' then -1 else 1
  }

  /** `t` with one leading `+` or `-` removed. */
  function Unsigned(t: string): (u: string)
    ensures u == t || (t != [] && (t[0] == '+' || t[0] == '-') && u == t[1..])
  {
    if |t| > 0 && (t[0] == '+' || t[0] == '-') then t[1..] else t
  }

  /** `parseInt(text, 10)`, with `None` standing for `NaN`: leading white space is
      skipped, then the sign and digits are read by `ReadSigned`. */
  function ParseInt(text: string): (r: Option<int>)
    ensures AllWs(text) ==> r.None?
    ensures text != [] && IsDigit(text[0]) ==> r.Some? && r.value >= 0
  {
    ReadSigned(TrimStart(text))
  }

  /** One optional sign, then the longest run of decimal digits; whatever follows
      is ignored, and no digit at all is `NaN`. */
  function ReadSigned(t: string): (r: Option<int>)
    ensures r.Some? <==> Unsigned(t) != [] && IsDigit(Unsigned(t)[0])
    ensures r.Some? && t[0] == '-' ==> r.value <= 0
    ensures r.Some? && t[0] != '-' ==> r.value >= 0
  {
    var ds := LeadingDigits(Unsigned(t));
    if ds == [] then None else Some(SignOf(t) * DigitsValue(ds))
  }

  /** A sign prefix as `parseInt` accepts it. */
  predicate IsSignPrefix(sign: string) {
    sign == "" || sign == "+" || sign == "-"
  }

  /** Skipping white space `ws` in front of a string that does not start with
      white space gives that string. */
  lemma TrimStartAfterWs(ws: string, t: string)
    requires AllWs(ws)
    requires t == [] || !IsWs(t[0])
    ensures TrimStart(ws + t) == t
  {
    TrimStartSkipsWs(ws, t);
  }

  /** A sign, at least one digit, then anything that does not start with a digit. */
  lemma ReadSignedNumber(sign: string, ds: string, rest: string)
    requires IsSignPrefix(sign)
    requires ds != [] && AllDigits(ds)
    requires rest == [] || !IsDigit(rest[0])
    ensures ReadSigned(sign + ds + rest) == Some((if sign == "-" then -1 else 1) * DigitsValue(ds))
  {
    var t := sign + ds + rest;
    if sign == "" {
      assert t == ds + rest;
      assert t[0] == ds[0];
      assert Unsigned(t) == ds + rest;
    } else {
      assert t[0] == sign[0];
      assert t[1..] == ds + rest;
      assert Unsigned(t) == ds + rest;
    }
    LeadingDigitsOfDigits(ds, rest);
  }

  /** White space, a sign, at least one digit, then anything that does not start
      with a digit: the value is the digits' value with the sign applied
      ("12abc" reads as 12, " -7" as -7). */
  lemma ParseIntReadsNumber(ws: string, sign: string, ds: string, rest: string)
    requires AllWs(ws) && IsSignPrefix(sign)
    requires ds != [] && AllDigits(ds)
    requires rest == [] || !IsDigit(rest[0])
    ensures ParseInt(ws + sign + ds + rest) == Some((if sign == "-" then -1 else 1) * DigitsValue(ds))
  {
    var t := sign + ds + rest;
    assert ws + sign + ds + rest == ws + t;
    assert t[0] == if sign == "" then ds[0] else sign[0];
    assert IsDigit(ds[0]);
    TrimStartAfterWs(ws, t);
    ReadSignedNumber(sign, ds, rest);
  }

  /** White space and a sign followed by no digit at all read as `NaN`. */
  lemma ParseIntNaN(ws: string, sign: string, rest: string)
    requires AllWs(ws) && IsSignPrefix(sign)
    requires rest == [] || (!IsDigit(rest[0]) && (sign == "" ==> !IsWs(rest[0]) && rest[0] != '+' && rest[0] != '-'))
    ensures ParseInt(ws + sign + rest) == None
  {
    var t := sign + rest;
    assert ws + sign + rest == ws + t;
    if sign == "" {
      assert t == rest;
    } else {
      assert t[0] == sign[0];
      assert t[1..] == rest;
    }
    assert Unsigned(t) == rest;
    assert LeadingDigits(rest) == [];
    assert t == [] || !IsWs(t[0]);
    TrimStartAfterWs(ws, t);
  }

  /** `parseInt` reads back what `Number.prototype.toString` writes for an integer. */
  lemma ParseIntShowInt(n: int)
    ensures ParseInt(ShowInt(n)) == Some(n)
  {
    var m: nat := if n < 0 then -n else n;
    var sign := if n < 0 then "-" else "";
    assert ShowInt(n) == sign + ShowNat(m);
    DigitsValueOfShowNat(m);
    ParseIntSignDigits(sign, ShowNat(m));
  }

  /** A sign and digits with nothing around them. */
  lemma ParseIntSignDigits(sign: string, ds: string)
    requires IsSignPrefix(sign) && ds != [] && AllDigits(ds)
    ensures ParseInt(sign + ds) == Some((if sign == "-" then -1 else 1) * DigitsValue(ds))
  {
    assert sign + ds == [] + sign + ds + [];
    ParseIntReadsNumber([], sign, ds, []);
  }

  /** The value the field's change handler computes: parse, map `NaN` to `min`,
      raise to `min`, then lower to `max`. */
  function ClampedValue(text: string, min: int, max: int): (v: int)
    ensures min <= max ==> min <= v <= max
    ensures ParseInt(text).None? ==> v == (if min <= max then min else max)
    ensures ParseInt(text).Some? && min <= ParseInt(text).value <= max ==> v == ParseInt(text).value
    ensures ParseInt(text).Some? && ParseInt(text).value < min ==> v == (if min <= max then min else max)
    ensures ParseInt(text).Some? && ParseInt(text).value > max ==> v == max
    ensures min > max ==> v == max
  {
    var parsed := ParseInt(text);
    var raw := if parsed.None? then min else parsed.value;
    var raised := if raw < min then min else raw;
    if raised > max then max else raised
  }

  /** Typing the decimal text of a number into a field with the default bounds
      sends that number clamped into 1..99. */
  lemma TypedNumberClamped(n: int)
    ensures ClampedValue(ShowInt(n), DefaultMin, DefaultMax) == if n < 1 then 1 else if n > 99 then 99 else n
  {
    ParseIntShowInt(n);
  }

  /** The field's change handler: it computes `ClampedValue` step by step and
      hands it to `onChange` when there is one. `sent` is the value passed to
      `onChange`, `None` when it is not called. */
  method HandleInputChange(text: string, min: int, max: int, hasOnChange: bool) returns (sent: Option<int>)
    ensures sent.Some? <==> hasOnChange
    ensures sent.Some? ==> sent.value == ClampedValue(text, min, max)
  {
    if hasOnChange {
      var parsed := ParseInt(text);
      var value := if parsed.None? then min else parsed.value;
      if value < min {
        value := min;
      }
      if value > max {
        value := max;
      }
      sent := Some(value);
    } else {
      sent := None;
    }
  }

  /** The `-` button is disabled at or below `min`. */
  predicate DecreaseDisabled(quantity: int, min: int) {
    quantity <= min
  }

  /** The `+` button is disabled at or above `max`. */
  predicate IncreaseDisabled(quantity: int, max: int) {
    quantity >= max
  }

  /** A caller that steps by one on an enabled button keeps an in-range quantity in
      range, and a disabled button is exactly one whose step would leave it. */
  lemma EnabledButtonsKeepRange(quantity: int, min: int, max: int)
    requires min <= quantity <= max
    ensures !DecreaseDisabled(quantity, min) <==> min <= quantity - 1
    ensures !IncreaseDisabled(quantity, max) <==> quantity + 1 <= max
    ensures !DecreaseDisabled(quantity, min) ==> min <= quantity - 1 <= max
    ensures !IncreaseDisabled(quantity, max) ==> min <= quantity + 1 <= max
  {
  }
}
