/** Registration-field validation (users/utils.py). */
module UserUtils {
  import opened Wrappers
  import opened Strings
  import Users

  // ---------------------------------------------------------------------------------------
  // validate_phone_number: `re.match(r'^\+?1?\d{9,15}$', phone_number)`

  /** `\d{9,15}$` against the rest of the input: 9 to 15 digits, and then the end of the input
      or a final newline (Python's `$` also matches just before one). */
  predicate MatchDigitsToEnd(t: string) {
    || (AllDigits(t) && 9 <= |t| <= 15)
    || (|t| >= 1 && t[|t| - 1] == '\n' && AllDigits(t[..|t| - 1]) && 9 <= |t| - 1 <= 15)
  }

  /** `1?` followed by the digits: with or without an initial '1'. */
  predicate MatchOptionalOne(t: string) {
    MatchDigitsToEnd(t) || (|t| >= 1 && t[0] == '1' && MatchDigitsToEnd(t[1..]))
  }

  /** `\+?` followed by the rest: with or without an initial '+'. */
  predicate MatchPhone(s: string) {
    (|s| >= 1 && s[0] == '+' && MatchOptionalOne(s[1..])) || MatchOptionalOne(s)
  }

  /** `validate_phone_number`: the empty number is accepted; any other must match the pattern. */
  predicate ValidatePhoneNumber(phone: string) {
    phone == "" || MatchPhone(phone)
  }

  /** The digits the pattern admits after the optional '+': 9 to 15 digits, or 16 digits
      when the first is a '1'. */
  predicate PhoneDigits(r: string) {
    AllDigits(r) && (9 <= |r| <= 15 || (|r| == 16 && r[0] == '1'))
  }

  /** The number without one final newline. */
  function DropFinalNewline(s: string): (r: string)
    ensures r <= s && |s| - 1 <= |r|
  {
    if |s| >= 1 && s[|s| - 1] == '\n' then s[..|s| - 1] else s
  }

  /** The shape of an accepted number, stated without the pattern: after dropping one final
      newline, an optional '+' and then the admitted digits. */
  predicate PhoneShape(s: string) {
    var core := DropFinalNewline(s);
    PhoneDigits(core) || (|core| >= 1 && core[0] == '+' && PhoneDigits(core[1..]))
  }

  lemma OptionalOneShape(t: string)
    ensures MatchOptionalOne(t) <==> PhoneDigits(DropFinalNewline(t))
  {
    var core := DropFinalNewline(t);
    if |t| >= 1 && t[|t| - 1] == '\n' {
      assert !AllDigits(t) by { assert !IsDigit(t[|t| - 1]); }
      if |t| >= 2 && t[0] == '1' {
        assert t[1..][..|t[1..]| - 1] == core[1..];
        assert t[1..][|t[1..]| - 1] == '\n';
      }
      if PhoneDigits(core) && |core| == 16 {
        assert t[1..][..|t[1..]| - 1] == core[1..];
        assert MatchDigitsToEnd(t[1..]);
      }
    } else {
      assert core == t;
      if |t| >= 1 && t[0] == '1' && |t| >= 2 {
        assert t[1..][|t[1..]| - 1] == t[|t| - 1];
      }
      if PhoneDigits(t) && |t| == 16 {
        assert MatchDigitsToEnd(t[1..]);
      }
    }
  }

  /** A non-empty number is accepted exactly when it has the shape above. */
  lemma PhoneNumberCharacterization(s: string)
    ensures ValidatePhoneNumber(s) <==> s == "" || PhoneShape(s)
  {
    OptionalOneShape(s);
    if |s| >= 1 && s[0] == '+' {
      OptionalOneShape(s[1..]);
      var core := DropFinalNewline(s);
      if |s| >= 2 && s[|s| - 1] == '\n' {
        assert DropFinalNewline(s[1..]) == core[1..];
      } else if |s| == 1 {
        assert s[1..] == [];
      } else {
        assert DropFinalNewline(s[1..]) == core[1..];
      }
      assert !PhoneDigits(core) by {
        if |core| >= 1 { assert !IsDigit(core[0]); }
      }
    } else {
      var core := DropFinalNewline(s);
      if |core| >= 1 {
        assert core[0] == s[0];
      }
    }
  }

  /** The number the registration tests use, a '+' and ten digits, passes. */
  lemma PhoneNumberAccepted()
    ensures ValidatePhoneNumber("+1234567890")
  {
    PhoneNumberCharacterization("+1234567890");
    assert AllDigits("+1234567890"[1..]);
  }

  /** Eight digits, a letter among the digits or a second '+' fail. */
  lemma PhoneNumberRejected()
    ensures !ValidatePhoneNumber("12345678")
    ensures !ValidatePhoneNumber("+12345678a0")
    ensures !ValidatePhoneNumber("++1234567890")
  {
    PhoneNumberCharacterization("12345678");
    PhoneNumberCharacterization("+12345678a0");
    assert !IsDigit("+12345678a0"[1..][8]);
    PhoneNumberCharacterization("++1234567890");
    assert !IsDigit("++1234567890"[1..][0]);
  }

  // ---------------------------------------------------------------------------------------
  // validate_user_data

  const EmailRequiredMsg := "Email is required"
  const EmailInvalidMsg := "Enter a valid email address"
  const PasswordMsg := "Password must be at least 8 characters long"
  const PhoneMsg := "Enter a valid phone number"

  /** The user-type message: the choices joined by ", ". */
  const UserTypeMsg := "User type must be one of: " + Join(Users.UserTypeNames, ", ")

  /** The user-type message lists the choices in declaration order. */
  lemma UserTypeMsgText()
    ensures UserTypeMsg == "User type must be one of: agent, investor, admin, user"
  {
    var names := Users.UserTypeNames;
    assert names[..1] == ["agent"];
    assert names[..2] == ["agent", "investor"] && names[..2][..1] == names[..1];
    assert names[..3] == ["agent", "investor", "admin"] && names[..3][..2] == names[..2];
    assert names[..3] == names[..|names| - 1];
    var j2 := Join(names[..2], ", ");
    assert j2 == "agent" + ", " + "investor";
    var j3 := Join(names[..3], ", ");
    assert j3 == j2 + ", " + "admin";
    assert Join(names, ", ") == j3 + ", " + "user";
  }

  /** `data.get(key, '')`. */
  function Get(data: map<string, string>, key: string): string {
    if key in data then data[key] else ""
  }

  /** The outcome of each check of `validate_user_data`. */
  datatype Checks = Checks(
    emailMissing: bool,
    emailInvalid: bool,
    passwordShort: bool,
    phoneInvalid: bool,
    userTypeInvalid: bool)

  /** The checks on `data`: the email is required once stripped and must then satisfy the
      email validator; the password needs 8 characters; a non-empty phone number must be
      valid; a non-empty user type must be one of the choices. */
  function RunChecks(data: map<string, string>, isValidEmail: string -> bool): (c: Checks)
    ensures c.emailMissing ==> !c.emailInvalid
  {
    var email := Strip(Get(data, "email"));
    var phone := Get(data, "phone_number");
    var userType := Get(data, "user_type");
    Checks(
      email == "",
      email != "" && !isValidEmail(email),
      |Get(data, "password")| < 8,
      phone != "" && !ValidatePhoneNumber(phone),
      userType != "" && userType !in Users.UserTypeNames)
  }

  /** The error dictionary for the outcomes: one entry per failed check, keyed by its field. */
  function ErrorsOf(c: Checks): map<string, string> {
    var e := if c.emailMissing then map["email" := EmailRequiredMsg]
             else if c.emailInvalid then map["email" := EmailInvalidMsg] else map[];
    var p := if c.passwordShort then e["password" := PasswordMsg] else e;
    var ph := if c.phoneInvalid then p["phone_number" := PhoneMsg] else p;
    if c.userTypeInvalid then ph["user_type" := UserTypeMsg] else ph
  }

  /** The errors `validate_user_data` collects. */
  function UserDataErrors(data: map<string, string>, isValidEmail: string -> bool): map<string, string> {
    ErrorsOf(RunChecks(data, isValidEmail))
  }

  /** Each check records its message under its field exactly when it fails, no other field
      is ever reported, and there is no error exactly when every check passes. */
  lemma ErrorsOfMeaning(c: Checks)
    requires c.emailMissing ==> !c.emailInvalid
    ensures ErrorsOf(c).Keys <= {"email", "password", "phone_number", "user_type"}
    ensures "email" in ErrorsOf(c) <==> c.emailMissing || c.emailInvalid
    ensures c.emailMissing ==> ErrorsOf(c)["email"] == EmailRequiredMsg
    ensures c.emailInvalid ==> ErrorsOf(c)["email"] == EmailInvalidMsg
    ensures "password" in ErrorsOf(c) <==> c.passwordShort
    ensures c.passwordShort ==> ErrorsOf(c)["password"] == PasswordMsg
    ensures "phone_number" in ErrorsOf(c) <==> c.phoneInvalid
    ensures c.phoneInvalid ==> ErrorsOf(c)["phone_number"] == PhoneMsg
    ensures "user_type" in ErrorsOf(c) <==> c.userTypeInvalid
    ensures c.userTypeInvalid ==> ErrorsOf(c)["user_type"] == UserTypeMsg
    ensures ErrorsOf(c) == map[] <==>
      !c.emailMissing && !c.emailInvalid && !c.passwordShort && !c.phoneInvalid && !c.userTypeInvalid
  {
    if c.emailMissing || c.emailInvalid || c.passwordShort || c.phoneInvalid || c.userTypeInvalid {
      assert "email" in ErrorsOf(c) || "password" in ErrorsOf(c) || "phone_number" in ErrorsOf(c)
        || "user_type" in ErrorsOf(c);
    }
  }

  /** In terms of the request data: the phone number is reported exactly when it is given and
      is not an optional '+', an optional '1' and 9 to 15 digits; the password exactly when it
      is shorter than 8; the user type exactly when it is given and not one of the choices. */
  lemma UserDataErrorsFields(data: map<string, string>, isValidEmail: string -> bool)
    ensures "phone_number" in UserDataErrors(data, isValidEmail) <==>
      (Get(data, "phone_number") != "" && !PhoneShape(Get(data, "phone_number")))
    ensures "password" in UserDataErrors(data, isValidEmail) <==> |Get(data, "password")| < 8
    ensures "user_type" in UserDataErrors(data, isValidEmail) <==>
      (Get(data, "user_type") != "" && Get(data, "user_type") !in Users.UserTypeNames)
    ensures "email" in UserDataErrors(data, isValidEmail) <==>
      (Strip(Get(data, "email")) == "" || !isValidEmail(Strip(Get(data, "email"))))
  {
    ErrorsOfMeaning(RunChecks(data, isValidEmail));
    PhoneNumberCharacterization(Get(data, "phone_number"));
  }

  /** `validate_user_data`, with the email validator as a parameter: it runs the checks in
      turn, collecting their errors by field, then raises them all together, or returns the
      data unchanged when there are none. */
  method ValidateUserData(data: map<string, string>, isValidEmail: string -> bool)
    returns (r: Result<map<string, string>, map<string, string>>)
    ensures r.Ok? <==> UserDataErrors(data, isValidEmail) == map[]
    ensures r.Ok? ==> r.value == data
    ensures r.Err? ==> r.error == UserDataErrors(data, isValidEmail)
  {
    ghost var c := RunChecks(data, isValidEmail);
    var errors: map<string, string> := map[];
    var email := Strip(Get(data, "email"));
    if email == "" {
      errors := errors["email" := EmailRequiredMsg];
    } else if !isValidEmail(email) {
      errors := errors["email" := EmailInvalidMsg];
    }
    ghost var e := errors;
    assert e == (if c.emailMissing then map["email" := EmailRequiredMsg]
                 else if c.emailInvalid then map["email" := EmailInvalidMsg] else map[]);
    var password := Get(data, "password");
    if |password| < 8 {
      errors := errors["password" := PasswordMsg];
    }
    ghost var p := errors;
    assert p == if c.passwordShort then e["password" := PasswordMsg] else e;
    var phone := Get(data, "phone_number");
    if phone != "" && !ValidatePhoneNumber(phone) {
      errors := errors["phone_number" := PhoneMsg];
    }
    ghost var ph := errors;
    assert ph == if c.phoneInvalid then p["phone_number" := PhoneMsg] else p;
    var userType := Get(data, "user_type");
    if userType != "" && userType !in Users.UserTypeNames {
      errors := errors["user_type" := UserTypeMsg];
    }
    assert errors == if c.userTypeInvalid then ph["user_type" := UserTypeMsg] else ph;
    assert errors == ErrorsOf(c);
    if errors != map[] {
      return Err(errors);
    }
    return Ok(data);
  }
}
