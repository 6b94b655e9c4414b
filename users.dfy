/** The user record and its manager (users/models.py). */
module Users {
  import opened Wrappers
  import opened Strings
  import opened Responses

  const AgentType := "agent"
  const InvestorType := "investor"
  const AdminType := "admin"
  const UserTypeDefault := "user"

  /** The `UserType` choices, in declaration order. */
  const UserTypeNames: seq<string> := [AgentType, InvestorType, AdminType, UserTypeDefault]

  /** The stored fields of a user that the rules read. `userType` is the stored text: the
      manager does not check it against the choices. `lastLogin` is in seconds. */
  datatype User = User(
    email: string,
    firstName: string,
    lastName: string,
    phoneNumber: string,
    userType: string,
    isStaff: bool,
    isSuperuser: bool,
    isActive: bool,
    lastLogin: Option<int>)

  /** The keyword arguments a caller may pass to `create_user`; `None` is "not passed". */
  datatype ExtraFields = ExtraFields(
    firstName: Option<string>,
    lastName: Option<string>,
    phoneNumber: Option<string>,
    userType: Option<string>,
    isStaff: Option<bool>,
    isSuperuser: Option<bool>,
    isActive: Option<bool>)

  const NoExtraFields := ExtraFields(None, None, None, None, None, None, None)

  const EmailRequiredMsg := "The Email field must be set"
  const StaffRequiredMsg := "Superuser must have is_staff=True."
  const SuperuserRequiredMsg := "Superuser must have is_superuser=True."

  /** `UserManager.create_user`: refuses an empty email; otherwise a user with the given
      fields and the model defaults for the rest (type "user", not staff, not superuser,
      active, never logged in). */
  function CreateUser(email: string, extra: ExtraFields): (r: Result<User, string>)
    ensures email == "" <==> r == Err(EmailRequiredMsg)
    ensures r.Ok? ==> r.value.email == email && r.value.lastLogin.None?
    ensures r.Ok? ==> r.value.isActive == extra.isActive.GetOr(true)
    ensures r.Ok? ==> r.value.userType == extra.userType.GetOr(UserTypeDefault)
    ensures r.Ok? ==> r.value.isStaff == extra.isStaff.GetOr(false)
    ensures r.Ok? ==> r.value.isSuperuser == extra.isSuperuser.GetOr(false)
    ensures r.Ok? ==> r.value.firstName == extra.firstName.GetOr("")
    ensures r.Ok? ==> r.value.lastName == extra.lastName.GetOr("")
    ensures r.Ok? ==> r.value.phoneNumber == extra.phoneNumber.GetOr("")
  {
    if email == "" then Err(EmailRequiredMsg)
    else Ok(User(
      email,
      extra.firstName.GetOr(""),
      extra.lastName.GetOr(""),
      extra.phoneNumber.GetOr(""),
      extra.userType.GetOr(UserTypeDefault),
      extra.isStaff.GetOr(false),
      extra.isSuperuser.GetOr(false),
      extra.isActive.GetOr(true),
      None))
  }

  /** `setdefault(flag, True)` followed by the `is not True` test, on the keyword argument as
      passed (any value; `None` is "not passed", `Some(Null)` an explicit `None`): the flag
      passes only when it was not passed or was passed as `True`. */
  function FlagDefaultsTrue(flag: Option<Value>): (ok: bool)
    ensures ok <==> flag == None || flag == Some(Bool(true))
  {
    flag.GetOr(Bool(true)) == Bool(true)
  }

  /** `UserManager.create_superuser`: `staff` and `superuser` are the `is_staff` and
      `is_superuser` keyword arguments as passed, `extra` the others. Both flags default to
      true; a caller who passes anything but `True` for either is refused (the staff check
      first); otherwise `create_user` with both flags set. */
  function CreateSuperuser(email: string, staff: Option<Value>, superuser: Option<Value>, extra: ExtraFields)
    : (r: Result<User, string>)
    ensures staff != None && staff != Some(Bool(true)) ==> r == Err(StaffRequiredMsg)
    ensures (staff == None || staff == Some(Bool(true))) && superuser != None && superuser != Some(Bool(true))
      ==> r == Err(SuperuserRequiredMsg)
    ensures r.Ok? ==> r.value.isStaff && r.value.isSuperuser
    ensures (staff == None || staff == Some(Bool(true))) && (superuser == None || superuser == Some(Bool(true))) ==>
      r == CreateUser(email, extra.(isStaff := Some(true), isSuperuser := Some(true)))
  {
    if !FlagDefaultsTrue(staff) then Err(StaffRequiredMsg)
    else if !FlagDefaultsTrue(superuser) then Err(SuperuserRequiredMsg)
    else CreateUser(email, extra.(isStaff := Some(true), isSuperuser := Some(true)))
  }

  /** A superuser exists exactly when the email is given and each flag was left out or
      passed as `True`; an explicit `None`, a `False` or a truthy non-boolean such as `1` is
      refused. A superuser created without extra fields has the default type. */
  lemma SuperuserFlags(email: string, staff: Option<Value>, superuser: Option<Value>, extra: ExtraFields)
    ensures CreateSuperuser(email, staff, superuser, extra).Ok? <==>
      email != "" && (staff == None || staff == Some(Bool(true)))
      && (superuser == None || superuser == Some(Bool(true)))
    ensures CreateSuperuser(email, Some(Null), None, extra) == Err(StaffRequiredMsg)
    ensures CreateSuperuser(email, None, Some(Int(1)), extra) == Err(SuperuserRequiredMsg)
    ensures CreateSuperuser(email, None, None, NoExtraFields).Ok? ==>
      CreateSuperuser(email, None, None, NoExtraFields).value.userType == UserTypeDefault
  {
  }

  /** `__str__`: the email. */
  function UserString(u: User): string {
    u.email
  }

  /** A created user prints as the email it was created with. */
  lemma CreatedUserString(email: string, extra: ExtraFields)
    requires email != ""
    ensures CreateUser(email, extra).Ok? && UserString(CreateUser(email, extra).value) == email
  {
  }

  /** `full_name`: first and last name joined by a space, surrounding whitespace stripped. */
  function FullName(u: User): (name: string)
    ensures name == [] || (!IsWhitespace(name[0]) && !IsWhitespace(name[|name| - 1]))
  {
    Strip(u.firstName + " " + u.lastName)
  }

  /** With names that carry no surrounding whitespace, the full name is "first last"; with
      one of them empty it is the other one; with both empty it is empty. */
  lemma FullNameCases(u: User)
    ensures u.firstName != "" && u.lastName != ""
      && !IsWhitespace(u.firstName[0]) && !IsWhitespace(u.lastName[|u.lastName| - 1])
      ==> FullName(u) == u.firstName + " " + u.lastName
    ensures u.firstName == "" && u.lastName == "" ==> FullName(u) == ""
  {
    var s := u.firstName + " " + u.lastName;
    if u.firstName != "" && u.lastName != ""
       && !IsWhitespace(u.firstName[0]) && !IsWhitespace(u.lastName[|u.lastName| - 1]) {
      assert s[0] == u.firstName[0] && s[|s| - 1] == u.lastName[|u.lastName| - 1];
      StripNoop(s);
    }
    if u.firstName == "" && u.lastName == "" {
      assert s == " ";
      assert TrimStart(s) == [] by {
        assert IsWhitespace(s[0]);
      }
    }
  }

  /** `get_display_name`: the full name when there is one, otherwise the email's part
      before the first '@'. */
  function DisplayName(u: User): (name: string)
    ensures FullName(u) != "" ==> name == FullName(u)
    ensures FullName(u) == "" ==> name <= u.email && '@' !in name
    ensures FullName(u) == "" && '@' in u.email ==> u.email[|name|] == '@'
  {
    if FullName(u) != "" then FullName(u) else BeforeFirst(u.email, '@')
  }

  /** `is_agent`. */
  predicate IsAgent(u: User) { u.userType == AgentType }

  /** `is_investor`. */
  predicate IsInvestor(u: User) { u.userType == InvestorType }

  /** A user is never both an agent and an investor; a user created without a type is
      neither, and one created with the type "agent" is an agent. */
  lemma UserTypeRoles(u: User, email: string, extra: ExtraFields)
    requires email != ""
    ensures !(IsAgent(u) && IsInvestor(u))
    ensures extra.userType.None? ==>
      !IsAgent(CreateUser(email, extra).value) && !IsInvestor(CreateUser(email, extra).value)
    ensures IsAgent(CreateUser(email, extra.(userType := Some(AgentType))).value)
  {
  }

  /** `update_last_login` at time `now`: the login time is stamped, nothing else changes. */
  function UpdateLastLogin(u: User, now: int): (r: User)
    ensures r.lastLogin == Some(now)
    ensures r.(lastLogin := u.lastLogin) == u
  {
    u.(lastLogin := Some(now))
  }
}
