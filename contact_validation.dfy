/** The contact-form checks of the quote page (`validateForm`): a blank test per
    required field and the two regular expressions, written out as predicates. */
module ContactValidation {
  import opened Wrappers
  import opened Types
  import opened JsText

  datatype Field = FullName | Email | Phone | Address

  /** The two messages a field can carry: "... es requerido." and
      "El formato ... no es válido." */
  datatype FieldError = Required | InvalidFormat

  function FieldValue(d: ContactDetails, f: Field): string {
    match f
    case FullName => d.fullName
    case Email => d.email
    case Phone => d.phone
    case Address => d.address
  }

  /** `s[lo..hi]` holds no white space: a run of the class `\S`. */
  predicate NonWsRun(s: string, lo: int, hi: int)
    requires 0 <= lo <= hi <= |s|
  {
    forall k :: lo <= k < hi ==> !IsWs(s[k])
  }

  // ---------------------------------------------------------------------------
  // Email: the unanchored regular expression  \S+@\S+\.\S+

  /** The substring `s[p..q]` matches `\S+@\S+\.\S+` with its `@` at `i` and its
      `.` at `j`. */
  ghost predicate EmailMatchAt(s: string, p: int, i: int, j: int, q: int) {
    && 0 <= p < i && i + 1 < j && j + 1 < q <= |s|
    && NonWsRun(s, p, i) && s[i] == '@'
    && NonWsRun(s, i + 1, j) && s[j] == '.'
    && NonWsRun(s, j + 1, q)
  }

  /** What `/\S+@\S+\.\S+/.test(s)` answers: some substring of `s` matches. */
  ghost predicate EmailPattern(s: string) {
    exists p, i, j, q :: EmailMatchAt(s, p, i, j, q)
  }

  /** After the `@` at `i`: a `.` at least two places later, only non-white-space
      between them, and a non-white-space character after it. */
  predicate DotPartAfter(s: string, i: int)
    requires 0 <= i < |s|
  {
    exists j :: i + 1 < j < |s| - 1 && s[j] == '.' && !IsWs(s[j + 1]) && NonWsRun(s, i + 1, j)
  }

  /** The email test as the page evaluates it: an `@` with a non-white-space
      character before it and a dot part after it. */
  predicate EmailMatches(s: string) {
    exists i :: 1 <= i < |s| && s[i] == '@' && !IsWs(s[i - 1]) && DotPartAfter(s, i)
  }

  lemma EmailMatchesIffPattern(s: string)
    ensures EmailMatches(s) <==> EmailPattern(s)
  {
    if EmailMatches(s) {
      var i :| 1 <= i < |s| && s[i] == '@' && !IsWs(s[i - 1]) && DotPartAfter(s, i);
      var j :| i + 1 < j < |s| - 1 && s[j] == '.' && !IsWs(s[j + 1]) && NonWsRun(s, i + 1, j);
      assert EmailMatchAt(s, i - 1, i, j, j + 2);
    }
    if EmailPattern(s) {
      var p, i, j, q :| EmailMatchAt(s, p, i, j, q);
      assert !IsWs(s[i - 1]) && !IsWs(s[j + 1]);
      assert DotPartAfter(s, i);
    }
  }

  // ---------------------------------------------------------------------------
  // Phone: the anchored regular expression  ^\+?[0-9\s-]{7,20}$

  /** The character class `[0-9\s-]`. */
  predicate IsPhoneChar(c: char) {
    IsDigit(c) || IsWs(c) || c == '-'
  }

  /** `s` matches `^\+?[0-9\s-]{7,20}$` with the optional `+` taking `signLength`
      characters. */
  ghost predicate PhoneMatchWith(s: string, signLength: int) {
    && (signLength == 0 || (signLength == 1 && |s| >= 1 && s[0] == '+'))
    && 7 <= |s| - signLength <= 20
    && forall k :: signLength <= k < |s| ==> IsPhoneChar(s[k])
  }

  /** What `/^\+?[0-9\s-]{7,20}$/.test(s)` answers. */
  ghost predicate PhonePattern(s: string) {
    exists signLength :: PhoneMatchWith(s, signLength)
  }

  /** The string after one optional leading `+`. */
  function PhoneBody(s: string): (b: string)
    ensures b == s || (s != [] && s[0] == '+' && b == s[1..])
  {
    if |s| > 0 && s[0] == '+' then s[1..] else s
  }

  /** The phone test as the page evaluates it: drop one leading `+`, then 7 to 20
      characters of the class. */
  predicate PhoneMatches(s: string) {
    7 <= |PhoneBody(s)| <= 20 && forall k :: 0 <= k < |PhoneBody(s)| ==> IsPhoneChar(PhoneBody(s)[k])
  }

  lemma PhoneMatchesIffPattern(s: string)
    ensures PhoneMatches(s) <==> PhonePattern(s)
  {
    var b := PhoneBody(s);
    if PhoneMatches(s) {
      if |s| > 0 && s[0] == '+' {
        forall k | 1 <= k < |s| ensures IsPhoneChar(s[k]) {
          assert s[k] == b[k - 1];
        }
        assert PhoneMatchWith(s, 1);
      } else {
        assert PhoneMatchWith(s, 0);
      }
    }
    if PhonePattern(s) {
      var n :| PhoneMatchWith(s, n);
      if n == 0 {
        assert IsPhoneChar(s[0]);
        assert s[0] != '+';
      } else {
        forall k | 0 <= k < |b| ensures IsPhoneChar(b[k]) {
          assert b[k] == s[k + 1];
        }
      }
    }
  }

  // ---------------------------------------------------------------------------
  // The whole form

  /** The error `validateForm` records for field `f` holding `value`, in terms of
      the regular expressions' meaning; `address` is never checked. */
  ghost function ExpectedError(f: Field, value: string): Option<FieldError> {
    match f
    case FullName => if AllWs(value) then Some(Required) else None
    case Email =>
      if AllWs(value) then Some(Required)
      else if EmailPattern(value) then None else Some(InvalidFormat)
    case Phone =>
      if AllWs(value) then Some(Required)
      else if PhonePattern(value) then None else Some(InvalidFormat)
    case Address => None
  }

  /** `errors` is the error map `validateForm` builds for `d`: an entry for
      exactly the fields that fail, holding that field's error. */
  ghost predicate IsErrorMapFor(d: ContactDetails, errors: map<Field, FieldError>) {
    && (forall f :: f in errors <==> ExpectedError(f, FieldValue(d, f)).Some?)
    && (forall f :: f in errors ==> Some(errors[f]) == ExpectedError(f, FieldValue(d, f)))
  }

  /** No field of `d` fails. */
  ghost predicate FormValid(d: ContactDetails) {
    forall f :: ExpectedError(f, FieldValue(d, f)).None?
  }

  /** `validateForm` up to its `setFormErrors` call: each field is checked on its
      own, every failure is collected, and nothing stops at the first one. */
  method CollectErrors(d: ContactDetails) returns (errors: map<Field, FieldError>)
    ensures IsErrorMapFor(d, errors)
    ensures errors == map[] <==> FormValid(d)
  {
    var nameError := CheckFullName(d.fullName);
    var emailError := CheckEmail(d.email);
    var phoneError := CheckPhone(d.phone);
    errors := map[];
    if nameError.Some? {
      errors := errors[FullName := nameError.value];
    }
    if emailError.Some? {
      errors := errors[Email := emailError.value];
    }
    if phoneError.Some? {
      errors := errors[Phone := phoneError.value];
    }
    ErrorMapFromFields(d, errors);
    ErrorMapEmptyIffValid(d, errors);
  }

  /** The check of `fullName`: required only. */
  method CheckFullName(value: string) returns (error: Option<FieldError>)
    ensures error.Some? <==> AllWs(value)
    ensures error == ExpectedError(FullName, value)
  {
    TrimEmptyIffBlank(value);
    if Trim(value) == [] {
      error := Some(Required);
    } else {
      error := None;
    }
  }

  /** The check of `email`: required, then the email pattern. */
  method CheckEmail(value: string) returns (error: Option<FieldError>)
    ensures error.Some? <==> AllWs(value) || !EmailPattern(value)
    ensures error == ExpectedError(Email, value)
  {
    TrimEmptyIffBlank(value);
    if Trim(value) == [] {
      error := Some(Required);
    } else {
      var matched := TestEmail(value);
      error := if matched then None else Some(InvalidFormat);
    }
  }

  /** The check of `phone`: required, then the phone pattern. */
  method CheckPhone(value: string) returns (error: Option<FieldError>)
    ensures error.Some? <==> AllWs(value) || !PhonePattern(value)
    ensures error == ExpectedError(Phone, value)
  {
    TrimEmptyIffBlank(value);
    if Trim(value) == [] {
      error := Some(Required);
    } else {
      var matched := TestPhone(value);
      error := if matched then None else Some(InvalidFormat);
    }
  }

  /** `/\S+@\S+\.\S+/.test(s)`. */
  method TestEmail(s: string) returns (matched: bool)
    ensures matched <==> EmailPattern(s)
  {
    EmailMatchesIffPattern(s);
    matched := EmailMatches(s);
  }

  /** `/^\+?[0-9\s-]{7,20}$/.test(s)`. */
  method TestPhone(s: string) returns (matched: bool)
    ensures matched <==> PhonePattern(s)
  {
    PhoneMatchesIffPattern(s);
    matched := PhoneMatches(s);
  }

  /** Checking the four fields one by one establishes `IsErrorMapFor`. */
  lemma ErrorMapFromFields(d: ContactDetails, errors: map<Field, FieldError>)
    requires FullName in errors <==> ExpectedError(FullName, d.fullName).Some?
    requires FullName in errors ==> Some(errors[FullName]) == ExpectedError(FullName, d.fullName)
    requires Email in errors <==> ExpectedError(Email, d.email).Some?
    requires Email in errors ==> Some(errors[Email]) == ExpectedError(Email, d.email)
    requires Phone in errors <==> ExpectedError(Phone, d.phone).Some?
    requires Phone in errors ==> Some(errors[Phone]) == ExpectedError(Phone, d.phone)
    requires Address !in errors
    ensures IsErrorMapFor(d, errors)
  {
    forall f
      ensures f in errors <==> ExpectedError(f, FieldValue(d, f)).Some?
      ensures f in errors ==> Some(errors[f]) == ExpectedError(f, FieldValue(d, f))
    {
      if f == FullName {
      } else if f == Email {
      } else if f == Phone {
      } else {
        assert f == Address;
      }
    }
  }

  /** The error map is empty, so `validateForm` returns true, exactly when the
      form is valid. */
  lemma ErrorMapEmptyIffValid(d: ContactDetails, errors: map<Field, FieldError>)
    requires forall f :: f in errors <==> ExpectedError(f, FieldValue(d, f)).Some?
    ensures errors == map[] <==> FormValid(d)
  {
    if errors != map[] {
      var f :| f in errors;
      assert ExpectedError(f, FieldValue(d, f)).Some?;
    }
  }

  /** The form is valid exactly when every required field is filled in and both
      patterns match. */
  lemma ValidIff(d: ContactDetails)
    ensures FormValid(d) <==>
      !AllWs(d.fullName) && !AllWs(d.email) && EmailPattern(d.email)
      && !AllWs(d.phone) && PhonePattern(d.phone)
  {
    if FormValid(d) {
      assert ExpectedError(FullName, FieldValue(d, FullName)).None?;
      assert ExpectedError(Email, FieldValue(d, Email)).None?;
      assert ExpectedError(Phone, FieldValue(d, Phone)).None?;
    } else {
      var f :| ExpectedError(f, FieldValue(d, f)).Some?;
    }
  }

  /** At most one map fits: the errors are determined by the details. */
  lemma ErrorMapUnique(d: ContactDetails, e1: map<Field, FieldError>, e2: map<Field, FieldError>)
    requires IsErrorMapFor(d, e1) && IsErrorMapFor(d, e2)
    ensures e1 == e2
  {
    assert e1.Keys == e2.Keys;
  }

  /** `address` is never checked, so it never carries an error. */
  lemma AddressNeverChecked(d: ContactDetails, errors: map<Field, FieldError>)
    requires IsErrorMapFor(d, errors)
    ensures Address !in errors
    ensures errors.Keys <= {FullName, Email, Phone}
  {
  }

  // ---------------------------------------------------------------------------
  // The documented examples

  lemma EmailExamples()
    ensures ExpectedError(Email, "") == Some(Required)
    ensures ExpectedError(Email, "a@b") == Some(InvalidFormat)
    ensures ExpectedError(Email, "a@b.c") == None
  {
    assert !AllWs("a@b") by { assert !IsWs("a@b"[0]); }
    assert !AllWs("a@b.c") by { assert !IsWs("a@b.c"[0]); }
    assert EmailMatchAt("a@b.c", 0, 1, 3, 5);
  }

  lemma PhoneExamples()
    ensures ExpectedError(Phone, "12") == Some(InvalidFormat)
    ensures ExpectedError(Phone, "+1 234-567-8901") == None
  {
    assert !AllWs("12") by { assert !IsWs("12"[0]); }
    var s := "+1 234-567-8901";
    assert !AllWs(s) by { assert !IsWs(s[0]); }
    assert PhoneMatchWith(s, 1);
  }

  lemma FullNameExamples()
    ensures ExpectedError(FullName, "  ") == Some(Required)
    ensures ExpectedError(FullName, " Ana ") == None
  {
    assert !IsWs(" Ana "[1]);
  }
}
