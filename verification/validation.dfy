/** Format checks for the registration sub-flow: US phone numbers, e-mail addresses and
    full names. Each returns the normalised value or the message shown to the caller. */
module Validation {
  import opened Wrappers
  import opened Text

  datatype Validated = Valid(value: string) | Invalid(message: string)

  const PhoneRequired := "Phone number is required"
  const PhoneInvalid := "Please provide a 10-digit phone number"
  const EmailRequired := "Email address is required"
  const EmailInvalid := "Please provide a valid email address"
  const NameRequired := "Name is required"
  const NameTooShort := "Please provide your full name"
  const NameNeedsBoth := "Please provide both first and last name"

  // ---------------------------------------------------------------- phone

  /** A digit string has a US shape: ten digits, or eleven starting with the country code 1. */
  predicate UsDigits(digits: string) {
    |digits| == 10 || (|digits| == 11 && digits[0] == '1')
  }

  /** The ten national digits of a US-shaped digit string: the last ten. */
  function National(digits: string): (d: string)
    requires UsDigits(digits)
    ensures |d| == 10 && d == digits[|digits| - 10..]
  {
    if |digits| == 10 then digits else digits[1..]
  }

  /** "+1-AAA-BBB-CCCC". */
  function FormatPhone(d: string): (r: string)
    requires |d| == 10 && AllDigits(d)
    ensures |r| == 15
    ensures DigitsOf(r) == "1" + d
  {
    FormatPhoneDigits(d);
    "+1-" + d[0..3] + "-" + d[3..6] + "-" + d[6..10]
  }

  lemma DigitsOfJoin(x: string, sep: string, y: string)
    requires DigitsOf(sep) == []
    ensures DigitsOf(x + sep + y) == DigitsOf(x) + DigitsOf(y)
  {
    DigitsOfAppend(x, sep);
    DigitsOfAppend(x + sep, y);
  }

  lemma FormatPhoneDigits(d: string)
    requires |d| == 10 && AllDigits(d)
    ensures DigitsOf("+1-" + d[0..3] + "-" + d[3..6] + "-" + d[6..10]) == "1" + d
  {
    var a, b, c := d[0..3], d[3..6], d[6..10];
    var p1 := "+1-" + a;
    var p2 := p1 + "-" + b;
    var p3 := p2 + "-" + c;
    assert DigitsOf("-") == [];
    assert DigitsOf(p1) == "1" + a by {
      assert DigitsOf("+1-") == "1" by {
        assert "+1-"[1..] == "1-";
        assert "1-"[1..] == "-";
      }
      DigitsOfAppend("+1-", a);
      DigitsOfAllDigits(a);
    }
    assert DigitsOf(p2) == "1" + a + b by {
      DigitsOfJoin(p1, "-", b);
      DigitsOfAllDigits(b);
    }
    assert DigitsOf(p3) == "1" + a + b + c by {
      DigitsOfJoin(p2, "-", c);
      DigitsOfAllDigits(c);
    }
    assert d == a + b + c;
  }

  /** `validate_phone`: strips every non-digit, accepts a US shape, and normalises it. */
  function ValidatePhone(phone: string): (r: Validated)
    ensures phone == [] ==> r == Invalid(PhoneRequired)
    ensures phone != [] ==> (r.Valid? <==> UsDigits(DigitsOf(phone)))
    ensures phone != [] && r.Invalid? ==> r.message == PhoneInvalid
    ensures r.Valid? ==> |r.value| == 15
    ensures r.Valid? ==> DigitsOf(r.value) == "1" + DigitsOf(phone)[|DigitsOf(phone)| - 10..]
  {
    if phone == [] then Invalid(PhoneRequired)
    else
      var digits := DigitsOf(phone);
      if UsDigits(digits) then Valid(FormatPhone(National(digits))) else Invalid(PhoneInvalid)
  }

  /** A normalised phone validates to itself. */
  lemma ValidatePhoneIdempotent(phone: string)
    requires ValidatePhone(phone).Valid?
    ensures ValidatePhone(ValidatePhone(phone).value) == ValidatePhone(phone)
  {
    var v := ValidatePhone(phone).value;
    var d := National(DigitsOf(phone));
    assert DigitsOf(v) == "1" + d;
    assert National(DigitsOf(v)) == d;
  }

  // ---------------------------------------------------------------- e-mail

  predicate LocalChar(c: char) {
    IsAlnum(c) || c == '.' || c == '_' || c == '%' || c == '+' || c == '-'
  }

  predicate DomainChar(c: char) {
    IsAlnum(c) || c == '.' || c == '-'
  }

  /** `e` matches `^[a-zA-Z0-9._%+-]+@[a-zA-Z0-9.-]+\.[a-zA-Z]{2,}$` with the "@" at `at`
      and the final dot at `dot`. */
  ghost predicate EmailSplit(e: string, at: int, dot: int) {
    && 0 < at && at + 1 < dot && dot + 2 < |e|
    && e[at] == '@' && e[dot] == '.'
    && (forall i :: 0 <= i < at ==> LocalChar(e[i]))
    && (forall i :: at < i < dot ==> DomainChar(e[i]))
    && (forall i :: dot < i < |e| ==> IsLetter(e[i]))
  }

  ghost predicate MatchesEmailPattern(e: string) {
    exists at, dot :: EmailSplit(e, at, dot)
  }

  /** Decides the e-mail pattern: split at the only "@", then at the last dot of the domain. */
  function IsEmail(e: string): bool {
    match IndexOf(e, '@')
    case None => false
    case Some(at) =>
      var rest := e[at + 1..];
      && 0 < at
      && (forall i :: 0 <= i < at ==> LocalChar(e[i]))
      && (forall i :: 0 <= i < |rest| ==> DomainChar(rest[i]))
      && match LastIndexOf(rest, '.')
         case None => false
         case Some(k) => 0 < k && k + 2 < |rest| && forall i :: k < i < |rest| ==> IsLetter(rest[i])
  }

  lemma EmailPatternOfIsEmail(e: string)
    requires IsEmail(e)
    ensures MatchesEmailPattern(e)
  {
    var at := IndexOf(e, '@').value;
    var rest := e[at + 1..];
    var k := LastIndexOf(rest, '.').value;
    var dot := at + 1 + k;
    assert forall i :: at < i < |e| ==> e[i] == rest[i - at - 1];
    assert EmailSplit(e, at, dot);
  }

  lemma IsEmailOfEmailSplit(e: string, at: int, dot: int)
    requires EmailSplit(e, at, dot)
    ensures IsEmail(e)
  {
    var r0 := IndexOf(e, '@');
    assert r0 == Some(at) by {
      assert !LocalChar('@');
    }
    var rest := e[at + 1..];
    var k := dot - at - 1;
    assert forall i :: 0 <= i < |rest| ==> rest[i] == e[at + 1 + i];
    assert rest[k] == '.';
    var r := LastIndexOf(rest, '.');
    assert r == Some(k) by {
      assert !IsLetter('.');
    }
  }

  lemma IsEmailIffPattern(e: string)
    ensures IsEmail(e) <==> MatchesEmailPattern(e)
  {
    if IsEmail(e) {
      EmailPatternOfIsEmail(e);
    }
    if MatchesEmailPattern(e) {
      var at, dot :| EmailSplit(e, at, dot);
      IsEmailOfEmailSplit(e, at, dot);
    }
  }

  /** `validate_email`: the stripped text must match the pattern; the result is lower-cased. */
  function ValidateEmail(email: string): (r: Validated)
    ensures email == [] ==> r == Invalid(EmailRequired)
    ensures email != [] ==> (r.Valid? <==> MatchesEmailPattern(Strip(email)))
    ensures email != [] && r.Invalid? ==> r.message == EmailInvalid
    ensures r.Valid? ==> r.value == Lower(Strip(email))
  {
    if email == [] then Invalid(EmailRequired)
    else
      var cleaned := Strip(email);
      IsEmailIffPattern(cleaned);
      if IsEmail(cleaned) then Valid(Lower(cleaned)) else Invalid(EmailInvalid)
  }

  lemma LowerKeepsEmailSplit(e: string, at: int, dot: int)
    requires EmailSplit(e, at, dot)
    ensures EmailSplit(Lower(e), at, dot)
  {
  }

  lemma LowerKeepsLocalChar(x: char)
    requires LocalChar(x)
    ensures LocalChar(LowerChar(x)) && !IsSpace(LowerChar(x))
  {
  }

  /** Lower-casing a matching e-mail keeps it matching and free of surrounding white space. */
  lemma LowerEmailStaysClean(c: string, at: int, dot: int)
    requires EmailSplit(c, at, dot)
    ensures IsEmail(Lower(c)) && Strip(Lower(c)) == Lower(c)
  {
    var v := Lower(c);
    LowerKeepsEmailSplit(c, at, dot);
    IsEmailOfEmailSplit(v, at, dot);
    assert !IsSpace(v[0]) && !IsSpace(v[|v| - 1]) by {
      LowerKeepsLocalChar(c[0]);
      assert IsLetter(c[|c| - 1]);
    }
    StripUnchanged(v);
  }

  /** A normalised e-mail validates to itself. */
  lemma ValidateEmailIdempotent(email: string)
    requires ValidateEmail(email).Valid?
    ensures ValidateEmail(ValidateEmail(email).value) == ValidateEmail(email)
  {
    var c := Strip(email);
    var at, dot :| EmailSplit(c, at, dot);
    LowerEmailStaysClean(c, at, dot);
    LowerIdempotent(c);
    ValidateEmailOfClean(Lower(c));
  }

  lemma ValidateEmailOfClean(v: string)
    requires v != [] && Strip(v) == v && IsEmail(v)
    ensures ValidateEmail(v) == Valid(Lower(v))
  {
  }

  // ---------------------------------------------------------------- name

  /** `validate_name`: non-empty, at least two characters once stripped, and containing a space
      (an ASCII space, not any white space) between first and last name. */
  function ValidateName(name: string): (r: Validated)
    ensures name == [] ==> r == Invalid(NameRequired)
    ensures name != [] && |Strip(name)| < 2 ==> r == Invalid(NameTooShort)
    ensures name != [] && |Strip(name)| >= 2 && ' ' !in Strip(name) ==> r == Invalid(NameNeedsBoth)
    ensures r.Valid? <==> name != [] && |Strip(name)| >= 2 && ' ' in Strip(name)
    ensures r.Valid? ==> r.value == Strip(name)
  {
    if name == [] then Invalid(NameRequired)
    else
      var cleaned := Strip(name);
      if |cleaned| < 2 then Invalid(NameTooShort)
      else if ' ' !in cleaned then Invalid(NameNeedsBoth)
      else Valid(cleaned)
  }

  /** A validated name validates to itself. */
  lemma ValidateNameIdempotent(name: string)
    requires ValidateName(name).Valid?
    ensures ValidateName(ValidateName(name).value) == ValidateName(name)
  {
    StripIdempotent(name);
  }

  /** A name of white space alone is not "required" but "too short". */
  lemma BlankNameTooShort(name: string)
    requires name != [] && Blank(name)
    ensures ValidateName(name) == Invalid(NameTooShort)
  {
    StripEmptyIffBlank(name);
  }
}
