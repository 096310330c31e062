/** Validation of the three web forms: registration, the lost/found report
    form and the put-for-adoption form. Validation collects every field's error
    the way the form framework does: each field is checked in declaration
    order (the field's own checks, then its clean_<field> hook when those
    passed), then the form-wide clean(). The form is valid when no error was
    collected. */
module Forms {
  import opened Models

  // Character classes used by the password rules (ASCII only).
  predicate IsLower(c: char) { 'a' <= c <= 'z' }
  predicate IsUpper(c: char) { 'A' <= c <= 'Z' }
  predicate IsDigit(c: char) { '0' <= c <= '9' }
  predicate IsAlnum(c: char) { IsLower(c) || IsUpper(c) || IsDigit(c) }

  predicate HasLower(p: string) { exists i :: 0 <= i < |p| && IsLower(p[i]) }
  predicate HasUpper(p: string) { exists i :: 0 <= i < |p| && IsUpper(p[i]) }
  predicate HasDigit(p: string) { exists i :: 0 <= i < |p| && IsDigit(p[i]) }
  predicate HasSpecial(p: string) { exists i :: 0 <= i < |p| && !IsAlnum(p[i]) }

  const MinPasswordLength: nat := 8

  /** Every password rule holds. */
  predicate IsStrong(p: string) {
    |p| >= MinPasswordLength && HasLower(p) && HasUpper(p) && HasDigit(p) && HasSpecial(p)
  }

  datatype PasswordError = TooShort | NoLowercase | NoUppercase | NoDigit | NoSpecial

  /** clean_password: the rules are tried in a fixed order and the first one
      that fails is reported; an empty password is not checked at all. */
  function CleanPassword(p: string): (err: Option<PasswordError>)
    ensures err.None? <==> p == "" || IsStrong(p)
    ensures err == Some(TooShort) <==> 0 < |p| < MinPasswordLength
    ensures err == Some(NoLowercase) <==> |p| >= MinPasswordLength && !HasLower(p)
    ensures err == Some(NoUppercase) <==> |p| >= MinPasswordLength && HasLower(p) && !HasUpper(p)
    ensures err == Some(NoDigit) <==>
              |p| >= MinPasswordLength && HasLower(p) && HasUpper(p) && !HasDigit(p)
    ensures err == Some(NoSpecial) <==>
              |p| >= MinPasswordLength && HasLower(p) && HasUpper(p) && HasDigit(p) && !HasSpecial(p)
  {
    if p == "" then None
    else if |p| < MinPasswordLength then Some(TooShort)
    else if !HasLower(p) then Some(NoLowercase)
    else if !HasUpper(p) then Some(NoUppercase)
    else if !HasDigit(p) then Some(NoDigit)
    else if !HasSpecial(p) then Some(NoSpecial)
    else None
  }

  /** The password used by the registration test is accepted. */
  lemma SamplePasswordAccepted()
    ensures CleanPassword("Password123!") == None
  {
    var p := "Password123!";
    assert IsUpper(p[0]) && IsLower(p[1]) && IsDigit(p[8]) && !IsAlnum(p[11]);
  }

  /** A password with no upper-case letter is refused for exactly that reason. */
  lemma LowercaseDigitsPasswordRefused()
    ensures CleanPassword("password123") == Some(NoUppercase)
  {
    var p := "password123";
    assert IsLower(p[0]);
    forall i | 0 <= i < |p| ensures !IsUpper(p[i]) {
      assert p[i] in "abcdefghijklmnopqrstuvwxyz0123456789";
    }
  }

  // ---------------------------------------------------------------- registration

  /** What the registration page submits, after whitespace stripping. */
  datatype RegistrationData = RegistrationData(
    username: string,
    email: string,
    firstName: string,
    age: Option<int>,
    city: string,
    phoneNumber: string,
    password: string,
    password2: string,
    isAdminRegistration: bool,
    adminPasscode: string)

  datatype RegistrationError =
    | UsernameRequired | UsernameTooLong | UsernameExists
    | EmailRequired | EmailExists
    | FirstNameTooLong | AgeNegative | CityTooLong | PhoneNumberTooLong
    | PasswordRequired | WeakPassword(reason: PasswordError)
    | Password2Required | PasswordMismatch
    | PasscodeRequired | PasscodeInvalid | AdminLimitReached

  predicate UsernameTaken(users: map<UserId, User>, username: string) {
    exists id :: id in users && users[id].username == username
  }

  predicate EmailTaken(users: map<UserId, User>, email: string) {
    exists id :: id in users && users[id].email == email
  }

  function UsernameErrors(username: string, users: map<UserId, User>): (errs: seq<RegistrationError>)
    ensures forall e :: e in errs ==> e in {UsernameRequired, UsernameTooLong, UsernameExists}
    ensures UsernameRequired in errs <==> username == ""
    ensures UsernameExists in errs <==> username != "" && |username| <= 150 && UsernameTaken(users, username)
  {
    if username == "" then [UsernameRequired]
    else if |username| > 150 then [UsernameTooLong]
    else if UsernameTaken(users, username) then [UsernameExists]
    else []
  }

  function EmailErrors(email: string, users: map<UserId, User>): (errs: seq<RegistrationError>)
    ensures forall e :: e in errs ==> e in {EmailRequired, EmailExists}
    ensures EmailExists in errs <==> email != "" && EmailTaken(users, email)
  {
    if email == "" then [EmailRequired]
    else if EmailTaken(users, email) then [EmailExists]
    else []
  }

  function OptionalFieldErrors(d: RegistrationData): (errs: seq<RegistrationError>)
    ensures forall e :: e in errs ==> e in {FirstNameTooLong, AgeNegative, CityTooLong, PhoneNumberTooLong}
  {
    (if |d.firstName| > 100 then [FirstNameTooLong] else [])
    + (if d.age.Some? && d.age.value < 0 then [AgeNegative] else [])
    + (if |d.city| > 100 then [CityTooLong] else [])
    + (if |d.phoneNumber| > 20 then [PhoneNumberTooLong] else [])
  }

  function PasswordErrors(password: string): (errs: seq<RegistrationError>)
    ensures forall e :: e in errs ==> e == PasswordRequired || e.WeakPassword?
    ensures errs == [] <==> password != "" && CleanPassword(password).None?
  {
    if password == "" then [PasswordRequired]
    else match CleanPassword(password)
      case Some(reason) => [WeakPassword(reason)]
      case None => []
  }

  /** clean_password2 compares against the cleaned password, which exists only
      when the password field produced no error. */
  function Password2Errors(password: string, password2: string): (errs: seq<RegistrationError>)
    ensures forall e :: e in errs ==> e in {Password2Required, PasswordMismatch}
    ensures PasswordMismatch in errs <==>
              password2 != "" && password != "" && CleanPassword(password).None? && password != password2
  {
    if password2 == "" then [Password2Required]
    else if PasswordErrors(password) == [] && password != password2 then [PasswordMismatch]
    else []
  }

  /** The form-wide clean(): the admin checks run only when the admin box is
      ticked, and the first one that fails is reported. */
  function AdminRegistrationError(d: RegistrationData, users: map<UserId, User>, configuredPasscode: string)
    : (err: Option<RegistrationError>)
    ensures !d.isAdminRegistration ==> err.None?
    ensures err.Some? ==> err.value in {PasscodeRequired, PasscodeInvalid, AdminLimitReached}
    ensures d.isAdminRegistration ==>
              (err.None? <==> d.adminPasscode != "" && d.adminPasscode == configuredPasscode
                               && AdminCount(users) < MaxAdmins)
    ensures err == Some(PasscodeRequired) <==> d.isAdminRegistration && d.adminPasscode == ""
    ensures err == Some(PasscodeInvalid) <==>
              d.isAdminRegistration && d.adminPasscode != "" && d.adminPasscode != configuredPasscode
    ensures err == Some(AdminLimitReached) <==>
              d.isAdminRegistration && d.adminPasscode != "" && d.adminPasscode == configuredPasscode
              && AdminCount(users) >= MaxAdmins
  {
    if !d.isAdminRegistration then None
    else if d.adminPasscode == "" then Some(PasscodeRequired)
    else if d.adminPasscode != configuredPasscode then Some(PasscodeInvalid)
    else if AdminCount(users) >= MaxAdmins then Some(AdminLimitReached)
    else None
  }

  /** An error is among the collected ones when one of the field checks collected it. */
  lemma InParts<T>(a: seq<T>, b: seq<T>, c: seq<T>, d: seq<T>, e: seq<T>, f: seq<T>, x: T)
    ensures x in a + b + c + d + e + f <==> x in a || x in b || x in c || x in d || x in e || x in f
  {
  }

  /** All errors the registration form collects, in the order it collects them. */
  function RegistrationErrors(d: RegistrationData, users: map<UserId, User>, configuredPasscode: string)
    : (errs: seq<RegistrationError>)
    ensures d.username == "" <==> UsernameRequired in errs
    ensures d.username != "" && |d.username| <= 150 && UsernameTaken(users, d.username) <==> UsernameExists in errs
    ensures d.email != "" && EmailTaken(users, d.email) <==> EmailExists in errs
    ensures d.password != "" && d.password2 != "" && CleanPassword(d.password).None? && d.password != d.password2
            <==> PasswordMismatch in errs
  {
    var username := UsernameErrors(d.username, users);
    var email := EmailErrors(d.email, users);
    var optional := OptionalFieldErrors(d);
    var password := PasswordErrors(d.password);
    var password2 := Password2Errors(d.password, d.password2);
    var admin := match AdminRegistrationError(d, users, configuredPasscode)
                 case Some(e) => [e]
                 case None => [];
    var errs := username + email + optional + password + password2 + admin;
    InParts(username, email, optional, password, password2, admin, UsernameRequired);
    InParts(username, email, optional, password, password2, admin, UsernameExists);
    InParts(username, email, optional, password, password2, admin, EmailExists);
    InParts(username, email, optional, password, password2, admin, PasswordMismatch);
    errs
  }

  /** When registration is acceptable, stated rule by rule. */
  predicate RegistrationAcceptable(d: RegistrationData, users: map<UserId, User>, configuredPasscode: string) {
    && d.username != "" && |d.username| <= 150 && !UsernameTaken(users, d.username)
    && d.email != "" && !EmailTaken(users, d.email)
    && |d.firstName| <= 100 && (d.age.Some? ==> d.age.value >= 0)
    && |d.city| <= 100 && |d.phoneNumber| <= 20
    && IsStrong(d.password) && d.password == d.password2
    && (d.isAdminRegistration ==>
          d.adminPasscode != "" && d.adminPasscode == configuredPasscode && AdminCount(users) < MaxAdmins)
  }

  /** The form is valid exactly when every rule holds. */
  lemma RegistrationValidIff(d: RegistrationData, users: map<UserId, User>, configuredPasscode: string)
    ensures RegistrationErrors(d, users, configuredPasscode) == [] <==>
            RegistrationAcceptable(d, users, configuredPasscode)
  {
    var errs := RegistrationErrors(d, users, configuredPasscode);
    if errs == [] {
      assert UsernameErrors(d.username, users) == [];
      assert EmailErrors(d.email, users) == [];
      assert OptionalFieldErrors(d) == [];
      assert PasswordErrors(d.password) == [];
      assert Password2Errors(d.password, d.password2) == [];
    }
  }

  /** Without the admin box ticked, the passcode and the admin limit are never looked at. */
  lemma NonAdminRegistrationIgnoresPasscode(d: RegistrationData, users: map<UserId, User>, configuredPasscode: string, otherPasscode: string)
    requires !d.isAdminRegistration
    ensures RegistrationErrors(d, users, configuredPasscode) == RegistrationErrors(d, users, otherPasscode)
    ensures RegistrationErrors(d, users, configuredPasscode) ==
            RegistrationErrors(d.(adminPasscode := otherPasscode), users, configuredPasscode)
    ensures forall e :: e in RegistrationErrors(d, users, configuredPasscode) ==>
              e != PasscodeRequired && e != PasscodeInvalid && e != AdminLimitReached
  {
    var d' := d.(adminPasscode := otherPasscode);
    assert OptionalFieldErrors(d') == OptionalFieldErrors(d);
    assert AdminRegistrationError(d', users, configuredPasscode).None?;
    var username := UsernameErrors(d.username, users);
    var email := EmailErrors(d.email, users);
    var optional := OptionalFieldErrors(d);
    var password := PasswordErrors(d.password);
    var password2 := Password2Errors(d.password, d.password2);
    assert RegistrationErrors(d, users, configuredPasscode) == username + email + optional + password + password2 + [];
    InParts(username, email, optional, password, password2, [], PasscodeRequired);
    InParts(username, email, optional, password, password2, [], PasscodeInvalid);
    InParts(username, email, optional, password, password2, [], AdminLimitReached);
  }

  /** An admin registration is refused once three admins exist, whatever else the form says. */
  lemma AdminRegistrationRefusedAtLimit(d: RegistrationData, users: map<UserId, User>, configuredPasscode: string)
    requires d.isAdminRegistration && AdminCount(users) >= MaxAdmins
    ensures RegistrationErrors(d, users, configuredPasscode) != []
  {
    RegistrationValidIff(d, users, configuredPasscode);
  }

  // ---------------------------------------------------------------- reports

  /** What the lost/found report page submits. Blank optional text fields
      arrive as empty strings, a blank age as None, no gender as "". */
  datatype ReportFormData = ReportFormData(
    petType: string,
    breed: string,
    color: string,
    petImage: Option<ImageRef>,
    location: string,
    contactInfo: string,
    name: string,
    age: Option<int>,
    gender: string)

  /** PetReportForm: required pet type, colour, image, location and contact;
      length limits; a non-negative age; a gender from the choices or none. */
  predicate ReportFormValid(f: ReportFormData): (valid: bool)
    ensures valid ==> f.petType != "" && f.color != "" && f.petImage.Some? && f.location != "" && f.contactInfo != ""
    ensures valid ==> f.gender == "" || f.gender in GenderChoices
    ensures valid ==> (f.age.Some? ==> f.age.value >= 0)
    ensures (&& f.petType != "" && f.color != "" && f.petImage.Some? && f.location != "" && f.contactInfo != ""
             && f.name == "" && f.breed == "" && f.age.None? && f.gender == ""
             && |f.petType| <= 50 && |f.color| <= 50 && |f.location| <= 255 && |f.contactInfo| <= 255)
            ==> valid
  {
    && f.petType != "" && |f.petType| <= 50
    && |f.breed| <= 100
    && f.color != "" && |f.color| <= 50
    && f.petImage.Some?
    && f.location != "" && |f.location| <= 255
    && f.contactInfo != "" && |f.contactInfo| <= 255
    && |f.name| <= 100
    && (f.age.Some? ==> f.age.value >= 0)
    && (f.gender == "" || f.gender in GenderChoices)
  }

  // ---------------------------------------------------------------- adoption

  /** What the put-for-adoption page submits: the fields the admin fills in. */
  datatype ListingFormData = ListingFormData(
    name: string,
    age: Option<int>,
    gender: string,
    description: string)

  /** PutForAdoptionForm, built from the listing's fields: a name of at most 100
      characters, a non-negative age, a declared gender and a description are
      all required. */
  predicate ListingFormValid(f: ListingFormData): (valid: bool)
    ensures valid ==> f.name != "" && f.age.Some? && f.age.value >= 0 && f.description != ""
    ensures valid ==> f.gender in GenderChoices
    ensures f.name == "" || f.age.None? || f.description == "" ==> !valid
  {
    && f.name != "" && |f.name| <= 100
    && f.age.Some? && f.age.value >= 0
    && f.gender in GenderChoices
    && f.description != ""
  }
}
