/**
 * The profile editing form: a record of twelve text fields, the change handler
 * that updates one field and clears its error, the validator (required fields and
 * the e-mail format), and the submit handler that shows a success message only
 * when validation passes.
 */
module ProfileEdit {
  import opened Text
  import opened EmailPattern

  /** The `name` attribute of each form input. */
  datatype Field =
    | Avatar | FullName | Email | Phone | Company | Address
    | City | State | Country | Bio | LinkedIn | Website

  datatype Profile = Profile(
    avatar: string, fullName: string, email: string, phone: string,
    company: string, address: string, city: string, state: string,
    country: string, bio: string, linkedin: string, website: string)

  /** Error messages keyed by field; a field mapped to "" shows no message. */
  type Errors = map<Field, string>

  /** The page state: the edited profile, the current errors and the success banner. */
  datatype Page = Page(user: Profile, errors: Errors, success: string)

  /** The outcome of `validate()`: its boolean result and the errors it records. */
  datatype Validation = Validation(ok: bool, errors: Errors)

  const DefaultUser := Profile(
    "", "John Doe", "john.doe@example.com", "+91 9876543210",
    "RealEstate AI", "123 Main Street", "Bengaluru", "Karnataka", "India",
    "Experienced real estate agent specializing in Bengaluru properties.", "", "")

  /** The page as first rendered: the default profile, no errors, no banner. */
  const InitialPage := Page(DefaultUser, map[], "")

  const SuccessMessage := "Profile updated successfully!"
  const EmailRequired := "Email is required"
  const InvalidEmail := "Invalid email"

  function Get(p: Profile, f: Field): string {
    match f
    case Avatar => p.avatar
    case FullName => p.fullName
    case Email => p.email
    case Phone => p.phone
    case Company => p.company
    case Address => p.address
    case City => p.city
    case State => p.state
    case Country => p.country
    case Bio => p.bio
    case LinkedIn => p.linkedin
    case Website => p.website
  }

  /** `{ ...user, [name]: value }`: the named field takes `v`, every other keeps its value. */
  function Set(p: Profile, f: Field, v: string): (r: Profile)
    ensures Get(r, f) == v
    ensures forall g :: g != f ==> Get(r, g) == Get(p, g)
  {
    match f
    case Avatar => p.(avatar := v)
    case FullName => p.(fullName := v)
    case Email => p.(email := v)
    case Phone => p.(phone := v)
    case Company => p.(company := v)
    case Address => p.(address := v)
    case City => p.(city := v)
    case State => p.(state := v)
    case Country => p.(country := v)
    case Bio => p.(bio := v)
    case LinkedIn => p.(linkedin := v)
    case Website => p.(website := v)
  }

  /** The fields that are rejected when blank, besides the e-mail. */
  predicate IsRequired(f: Field) {
    f in {FullName, Phone, Address, City, State, Country}
  }

  /** The message recorded for a blank required field. */
  function RequiredMessage(f: Field): string {
    match f
    case FullName => "Full Name is required"
    case Email => EmailRequired
    case Phone => "Phone is required"
    case Address => "Address is required"
    case City => "City is required"
    case State => "State is required"
    case Country => "Country is required"
    case _ => ""
  }

  const AllFields: set<Field> :=
    {Avatar, FullName, Email, Phone, Company, Address, City, State, Country, Bio, LinkedIn, Website}

  /** Whether `validate()` records an error for field `f` of profile `p`. For the
      e-mail the required check comes first; the format test only runs (on the
      untrimmed value) when the e-mail is not blank. */
  predicate HasError(p: Profile, f: Field) {
    if IsRequired(f) then IsBlank(Get(p, f))
    else if f == Email then IsBlank(p.email) || !IsValidEmail(p.email)
    else false
  }

  /** The e-mail is in error exactly when blank or malformed. */
  lemma EmailError(p: Profile)
    ensures Email in AllFields && !IsRequired(Email)
    ensures HasError(p, Email) <==> IsBlank(p.email) || !IsValidEmail(p.email)
  {
  }

  /** The message `validate()` records for field `f`, when it records one. */
  function ErrorMessage(p: Profile, f: Field): string {
    if f == Email && !IsBlank(p.email) then InvalidEmail else RequiredMessage(f)
  }

  /** `validate()`: builds a fresh error record, then reports whether it is empty. */
  function Validate(p: Profile): (r: Validation)
    ensures r.ok <==> forall f :: f !in r.errors
    ensures forall f :: IsRequired(f) ==>
      (f in r.errors <==> IsBlank(Get(p, f))) &&
      (f in r.errors ==> r.errors[f] == RequiredMessage(f))
    ensures Email in r.errors <==> IsBlank(p.email) || !IsValidEmail(p.email)
    ensures Email in r.errors && IsBlank(p.email) ==> r.errors[Email] == EmailRequired
    ensures Email in r.errors && !IsBlank(p.email) ==> r.errors[Email] == InvalidEmail
    ensures forall f :: f in r.errors ==> IsRequired(f) || f == Email
  {
    var errs := map f | f in AllFields && HasError(p, f) :: ErrorMessage(p, f);
    EmailError(p);
    assert forall f | IsRequired(f) ::
      && f in AllFields
      && (HasError(p, f) <==> IsBlank(Get(p, f)))
      && ErrorMessage(p, f) == RequiredMessage(f)
    by {
      forall f | IsRequired(f)
        ensures f in AllFields && (HasError(p, f) <==> IsBlank(Get(p, f)))
        ensures ErrorMessage(p, f) == RequiredMessage(f)
      {
        assert f != Email;
      }
    }
    // `Object.keys(newErrors).length === 0`: the record has no keys at all.
    var ok := errs == map[];
    assert ok <==> forall f :: f !in errs;
    Validation(ok, errs)
  }

  /** `handleChange`: sets the named field and blanks that field's error only. */
  function HandleChange(page: Page, f: Field, v: string): (r: Page)
    ensures Get(r.user, f) == v
    ensures forall g :: g != f ==> Get(r.user, g) == Get(page.user, g)
    ensures f in r.errors && r.errors[f] == ""
    ensures forall g :: g != f ==>
      (g in r.errors <==> g in page.errors) &&
      (g in page.errors ==> r.errors[g] == page.errors[g])
    ensures r.success == page.success
  {
    Page(Set(page.user, f, v), page.errors[f := ""], page.success)
  }

  /** `handleSubmit`: always records the validator's errors; shows the success banner
      only when they are empty, and otherwise leaves the banner as it was. */
  function HandleSubmit(page: Page): (r: Page)
    ensures r.user == page.user
    ensures r.errors == Validate(page.user).errors
    ensures Validate(page.user).ok ==> r.success == SuccessMessage
    ensures !Validate(page.user).ok ==> r.success == page.success
  {
    var v := Validate(page.user);
    if !v.ok then page.(errors := v.errors)
    else page.(errors := v.errors, success := SuccessMessage)
  }

  /** The banner's timer has fired: the success message is cleared. */
  function ExpireSuccess(page: Page): (r: Page)
    ensures r.user == page.user && r.errors == page.errors && r.success == ""
  {
    page.(success := "")
  }

  /** The form accepts a profile exactly when every required field has a non-space
      character and the e-mail matches the pattern; the optional fields play no part. */
  lemma ValidIffFieldsFilled(p: Profile)
    ensures Validate(p).ok <==>
      (forall f :: IsRequired(f) ==> !AllSpace(Get(p, f))) && MatchesPattern(p.email)
  {
    forall f ensures IsBlank(Get(p, f)) <==> AllSpace(Get(p, f)) {
      BlankIffAllSpace(Get(p, f));
    }
    ValidIffMatches(p.email);
    var v := Validate(p);
    if !v.ok {
      var f :| f in v.errors;
    }
  }

  /** A blank e-mail is reported as missing, never as malformed. */
  lemma BlankEmailIsRequired(p: Profile)
    requires IsBlank(p.email)
    ensures Validate(p).errors[Email] == EmailRequired
  {
  }

  /** Surrounding white space passes the required check (trim) but fails the format
      check, which runs on the untrimmed value. */
  lemma PaddedEmailIsInvalid(p: Profile)
    requires IsValidEmail(p.email)
    ensures Validate(p.(email := " " + p.email)).errors[Email] == InvalidEmail
    ensures Validate(p.(email := p.email + " ")).errors[Email] == InvalidEmail
  {
    var front := " " + p.email;
    var back := p.email + " ";
    assert 0 < IndexOf(p.email, '@');
    assert !AllSpace(front) by { assert !IsSpace(front[1]); }
    assert !AllSpace(back) by { assert !IsSpace(back[0]); }
    BlankIffAllSpace(front);
    BlankIffAllSpace(back);
    assert !IsValidEmail(front) by { assert IsSpace(front[0]); }
    assert !IsValidEmail(back) by { assert IsSpace(back[|back| - 1]); }
    EmailErrorOf(p.(email := front));
    EmailErrorOf(p.(email := back));
  }

  /** The e-mail error of a profile whose e-mail is present but malformed. */
  lemma EmailErrorOf(q: Profile)
    requires !IsBlank(q.email) && !IsValidEmail(q.email)
    ensures Validate(q).errors[Email] == InvalidEmail
  {
  }

  /** The shipped default profile passes validation, so submitting the untouched form
      shows the success banner. */
  lemma DefaultUserSubmits()
    ensures Validate(DefaultUser).ok
    ensures HandleSubmit(InitialPage).success == SuccessMessage
  {
    DefaultEmailValid();
    DefaultRequiredFilled();
  }

  lemma DefaultEmailValid()
    ensures !IsBlank(DefaultUser.email) && IsValidEmail(DefaultUser.email)
  {
    DefaultEmailMatches();
    DefaultEmailFilled();
  }

  /** The default e-mail passes the format test. */
  lemma DefaultEmailMatches()
    ensures IsValidEmail(DefaultUser.email)
  {
    var email := DefaultUser.email;
    assert email == "john.doe" + "@" + "example" + "." + "com";
    LowerRun("john.doe");
    LowerRun("example");
    LowerRun("com");
    assert email[..8] == "john.doe";
    assert email[9..16] == "example";
    assert email[17..] == "com";
    assert SplitAt(email, 8, 16);
    ValidIffMatches(email);
  }

  /** The default e-mail is not blank. */
  lemma DefaultEmailFilled()
    ensures !IsBlank(DefaultUser.email)
  {
    BlankIffAllSpace(DefaultUser.email);
    assert !IsSpace(DefaultUser.email[0]);
  }

  /** Lower-case letters and dots are all plain characters. */
  lemma LowerRun(t: string)
    requires |t| > 0 && forall k | 0 <= k < |t| :: 'a' <= t[k] <= 'z' || t[k] == '.'
    ensures PlainRun(t)
  {
  }

  lemma DefaultRequiredFilled()
    ensures forall f | IsRequired(f) :: !IsBlank(Get(DefaultUser, f))
  {
    forall f | IsRequired(f) ensures !IsBlank(Get(DefaultUser, f)) {
      var v := Get(DefaultUser, f);
      assert !IsSpace(v[0]);
      BlankIffAllSpace(v);
    }
  }
}
