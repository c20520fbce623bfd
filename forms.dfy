/**
 * The forms of socialnetwork/forms.py: the login and registration forms with
 * their field bounds, the username-uniqueness and password-match checks, and
 * the two model forms, which bind only the post text and only the profile's
 * bio and picture.
 *
 * A bound field behaves as Django's `CharField` does: a missing key reads as
 * the empty text, the value is stripped of surrounding whitespace, an empty
 * value fails a required field, and the validators of a nonempty stripped
 * value (`MaxLengthValidator` for the `max_length` bound, then
 * `ProhibitNullCharactersValidator`) each report their own error.
 */
module Forms {
  import opened Text
  import opened Models

  /** Submitted form data (`request.POST`): each key present or absent. */
  type FormData = map<string, string>

  /** The submitted text under `key`, the empty text when absent. */
  function Raw(data: FormData, key: string): string {
    if key in data then data[key] else ""
  }

  /** The declared form fields; `Name` gives the key each reads from the
      submitted data. */
  datatype Field = Username | Password | ConfirmPassword | Email | FirstName | LastName | Text | Bio | PictureField

  function Name(f: Field): string {
    match f
    case Username => "username"
    case Password => "password"
    case ConfirmPassword => "confirm_password"
    case Email => "email"
    case FirstName => "first_name"
    case LastName => "last_name"
    case Text => "text"
    case Bio => "bio"
    case PictureField => "picture"
  }

  datatype FieldError =
    | Required
    | TooLong(limit: nat)
    | NullCharacter
    | InvalidEmail
    | UsernameTaken
    | PasswordsDiffer
    | InvalidImage
    | FileAndClear

  /** `forms.CharField(max_length=…)`; a model field declared `blank=True`
      gives a field that is not required. */
  datatype CharField = CharField(maxLength: nat, required: bool)

  datatype FieldResult = Accepted(value: string) | Rejected(errors: seq<FieldError>)

  const UsernameField := CharField(20, true)
  const PasswordField := CharField(200, true)
  const EmailMaxLength: nat := 50
  const NameField := CharField(20, true)
  const PostTextField := CharField(TextMaxLength, true)
  const BioField := CharField(BioMaxLength, false)

  /** A stripped value that passes a text field's validators: within the
      bound and free of NUL characters. */
  predicate Fits(v: string, maxLength: nat) {
    |v| <= maxLength && '\0' !in v
  }

  /** Cleaning one text field: the stripped value is accepted when it is
      nonempty (or the field is optional) and passes the validators
      (`CleanCharErrors` says what a rejection reports). */
  function CleanChar(f: CharField, raw: string): (r: FieldResult)
    ensures r.Accepted? <==> (Trim(Python, raw) != [] || !f.required) && Fits(Trim(Python, raw), f.maxLength)
    ensures r.Accepted? ==> r.value == Trim(Python, raw)
  {
    var v := Trim(Python, raw);
    if v == [] then (if f.required then Rejected([Required]) else Accepted(v))
    else
      var errs := (if |v| > f.maxLength then [TooLong(f.maxLength)] else [])
                  + (if '\0' in v then [NullCharacter] else []);
      if errs == [] then Accepted(v) else Rejected(errs)
  }

  /** A rejected text field reports "required" alone when the stripped value
      is empty; otherwise it reports "too long" exactly when the value is
      over the bound and "null character" exactly when it holds a NUL, and
      nothing else. */
  lemma CleanCharErrors(f: CharField, raw: string)
    requires CleanChar(f, raw).Rejected?
    ensures var errors := CleanChar(f, raw).errors;
            && errors != []
            && (errors == [Required] <==> Trim(Python, raw) == [])
            && (forall e :: e in errors ==> e in [Required, TooLong(f.maxLength), NullCharacter])
            && (TooLong(f.maxLength) in errors <==> |Trim(Python, raw)| > f.maxLength)
            && (NullCharacter in errors <==> '\0' in Trim(Python, raw))
  {
    var v := Trim(Python, raw);
    if v != [] {
      assert Required !in CleanChar(f, raw).errors;
    }
  }

  /** `forms.EmailField(max_length=50)`: required; the address check (passed
      in as `isEmail`), the length bound and the NUL check, all reported. */
  function CleanEmail(raw: string, isEmail: string -> bool): (r: FieldResult)
    ensures r.Accepted? <==> Trim(Python, raw) != [] && isEmail(Trim(Python, raw)) && Fits(Trim(Python, raw), EmailMaxLength)
    ensures r.Accepted? ==> r.value == Trim(Python, raw)
  {
    var v := Trim(Python, raw);
    if v == [] then Rejected([Required])
    else
      var errs := (if isEmail(v) then [] else [InvalidEmail])
                  + (if |v| > EmailMaxLength then [TooLong(EmailMaxLength)] else [])
                  + (if '\0' in v then [NullCharacter] else []);
      if errs == [] then Accepted(v) else Rejected(errs)
  }

  /** What a form holds after validation: the cleaned values and, per field,
      the errors reported against it. */
  datatype FormState = FormState(cleaned: map<Field, string>, errors: map<Field, seq<FieldError>>)

  /** Binds the declared `fields`, each cleaned to `result(f)`: every
      declared field lands in exactly one of the cleaned data and the
      errors, holding its accepted value or its rejection's errors. */
  function Bind(fields: set<Field>, result: Field -> FieldResult): (st: FormState)
    ensures st.cleaned.Keys !! st.errors.Keys
    ensures st.cleaned.Keys + st.errors.Keys == fields
    ensures forall f :: f in st.cleaned ==> result(f) == Accepted(st.cleaned[f])
    ensures forall f :: f in st.errors ==> result(f) == Rejected(st.errors[f])
  {
    FormState(
      map f | f in fields && result(f).Accepted? :: result(f).value,
      map f | f in fields && result(f).Rejected? :: result(f).errors)
  }

  // ---------------------------------------------------------------------
  // LoginForm

  function LoginResult(data: FormData, f: Field): FieldResult {
    match f
    case Username => CleanChar(UsernameField, Raw(data, "username"))
    case Password => CleanChar(PasswordField, Raw(data, "password"))
    case _ => Rejected([])
  }

  function LoginForm(data: FormData): FormState {
    Bind({Username, Password}, f => LoginResult(data, f))
  }

  /** The login form is valid exactly when the stripped username has 1 to 20
      characters and the stripped password 1 to 200, neither holding a NUL
      character. */
  lemma LoginFormBounds(data: FormData)
    ensures var user := Trim(Python, Raw(data, "username"));
            var password := Trim(Python, Raw(data, "password"));
            LoginForm(data).errors == map[] <==>
              1 <= |user| && Fits(user, 20) && 1 <= |password| && Fits(password, 200)
  {
    var st := LoginForm(data);
    if st.errors == map[] {
      assert Username !in st.errors && Password !in st.errors;
    } else {
      var k :| k in st.errors;
    }
  }

  // ---------------------------------------------------------------------
  // RegisterForm

  /** `clean_username`: a username already held by a user is refused. */
  function CleanUsername(uname: string, taken: set<string>): (r: FieldResult)
    ensures r.Accepted? <==> uname !in taken
    ensures r.Accepted? ==> r.value == uname
  {
    if uname in taken then Rejected([UsernameTaken]) else Accepted(uname)
  }

  /** The registration values as submitted, read from the data under the
      fields' keys. */
  datatype RegisterInput = RegisterInput(
    username: string, password: string, confirmPassword: string,
    email: string, firstName: string, lastName: string)

  function ReadRegister(data: FormData): RegisterInput {
    RegisterInput(Raw(data, "username"), Raw(data, "password"), Raw(data, "confirm_password"),
                  Raw(data, "email"), Raw(data, "first_name"), Raw(data, "last_name"))
  }

  const RegisterFields: set<Field> :=
    {Username, Password, ConfirmPassword, Email, FirstName, LastName}

  /** The submitted value of a declared registration field. */
  function Submitted(i: RegisterInput, f: Field): string {
    match f
    case Username => i.username
    case Password => i.password
    case ConfirmPassword => i.confirmPassword
    case Email => i.email
    case FirstName => i.firstName
    case LastName => i.lastName
    case _ => ""
  }

  /** How each declared registration field cleans; the username is cleaned
      as a text field, then by `clean_username` when that succeeded. */
  function RegisterResult(i: RegisterInput, taken: set<string>, isEmail: string -> bool, f: Field): FieldResult {
    match f
    case Username =>
      (match CleanChar(UsernameField, i.username)
       case Accepted(u) => CleanUsername(u, taken)
       case Rejected(e) => Rejected(e))
    case Password => CleanChar(PasswordField, i.password)
    case ConfirmPassword => CleanChar(PasswordField, i.confirmPassword)
    case Email => CleanEmail(i.email, isEmail)
    case FirstName => CleanChar(NameField, i.firstName)
    case LastName => CleanChar(NameField, i.lastName)
    case _ => Rejected([])
  }

  /** The field declarations written out as conditions on the stripped
      values, none of which may hold a NUL character: username 1 to 20
      characters and not yet taken, each password 1 to 200, an address of 1
      to 50 characters, names 1 to 20. */
  predicate WithinBounds(i: RegisterInput, taken: set<string>, isEmail: string -> bool, f: Field) {
    var v := Trim(Python, Submitted(i, f));
    match f
    case Username => 1 <= |v| && Fits(v, 20) && v !in taken
    case Password => 1 <= |v| && Fits(v, 200)
    case ConfirmPassword => 1 <= |v| && Fits(v, 200)
    case Email => 1 <= |v| && Fits(v, EmailMaxLength) && isEmail(v)
    case FirstName => 1 <= |v| && Fits(v, 20)
    case LastName => 1 <= |v| && Fits(v, 20)
    case _ => false
  }

  /** A declared field cleans exactly when it is within its bounds, and then
      holds its stripped value. */
  lemma FieldAcceptedIff(i: RegisterInput, taken: set<string>, isEmail: string -> bool, f: Field)
    requires f in RegisterFields
    ensures RegisterResult(i, taken, isEmail, f).Accepted? <==> WithinBounds(i, taken, isEmail, f)
    ensures RegisterResult(i, taken, isEmail, f).Accepted? ==>
              RegisterResult(i, taken, isEmail, f).value == Trim(Python, Submitted(i, f))
  {
  }

  /** The per-field phase of registration validation. */
  function BoundRegister(i: RegisterInput, taken: set<string>, isEmail: string -> bool): FormState {
    Bind(RegisterFields, f => RegisterResult(i, taken, isEmail, f))
  }

  /** `add_error(field, e)`: records the error and drops the field's cleaned
      value. */
  function WithError(st: FormState, field: Field, e: FieldError): FormState {
    var prior := if field in st.errors then st.errors[field] else [];
    FormState(st.cleaned - {field}, st.errors[field := prior + [e]])
  }

  /** `clean`: two present, nonempty passwords that differ are reported
      against `confirm_password`. */
  function PasswordCheck(st: FormState): FormState {
    var pwd1 := if Password in st.cleaned then st.cleaned[Password] else "";
    var pwd2 := if ConfirmPassword in st.cleaned then st.cleaned[ConfirmPassword] else "";
    if pwd1 != "" && pwd2 != "" && pwd1 != pwd2 then WithError(st, ConfirmPassword, PasswordsDiffer)
    else st
  }

  /** The whole of registration validation: fields, then `clean`. */
  function ValidateRegister(i: RegisterInput, taken: set<string>, isEmail: string -> bool): FormState {
    PasswordCheck(BoundRegister(i, taken, isEmail))
  }

  /** A registration form bound to submitted data. The constructor binds and
      cleans the declared fields; `Clean` is the form's own `clean`. */
  class RegisterForm {
    const data: FormData
    var cleanedData: map<Field, string>
    var errors: map<Field, seq<FieldError>>

    function State(): FormState
      reads this
    {
      FormState(cleanedData, errors)
    }

    constructor (data: FormData, taken: set<string>, isEmail: string -> bool)
      ensures this.data == data
      ensures State() == BoundRegister(ReadRegister(data), taken, isEmail)
    {
      this.data := data;
      var st := BoundRegister(ReadRegister(data), taken, isEmail);
      cleanedData := st.cleaned;
      errors := st.errors;
    }

    method AddError(field: Field, e: FieldError)
      modifies this
      ensures State() == WithError(old(State()), field, e)
    {
      var prior := if field in errors then errors[field] else [];
      errors := errors[field := prior + [e]];
      cleanedData := cleanedData - {field};
    }

    method Clean()
      modifies this
      ensures State() == PasswordCheck(old(State()))
    {
      var pwd1 := if Password in cleanedData then cleanedData[Password] else "";
      var pwd2 := if ConfirmPassword in cleanedData then cleanedData[ConfirmPassword] else "";
      if pwd1 != "" && pwd2 != "" && pwd1 != pwd2 {
        AddError(ConfirmPassword, PasswordsDiffer);
      }
    }

    predicate IsValid()
      reads this
    {
      errors == map[]
    }
  }

  /** A username some user already holds is always refused. */
  lemma TakenUsernameRejected(i: RegisterInput, taken: set<string>, isEmail: string -> bool)
    requires Trim(Python, i.username) in taken
    ensures Username in ValidateRegister(i, taken, isEmail).errors
  {
    FieldAcceptedIff(i, taken, isEmail, Username);
  }

  /** The mismatch error is reported exactly when both password fields
      cleaned successfully and their stripped values differ. */
  lemma PasswordMismatchReported(i: RegisterInput, taken: set<string>, isEmail: string -> bool)
    ensures var st := ValidateRegister(i, taken, isEmail);
            (ConfirmPassword in st.errors && PasswordsDiffer in st.errors[ConfirmPassword])
            <==>
            (WithinBounds(i, taken, isEmail, Password) && WithinBounds(i, taken, isEmail, ConfirmPassword)
             && Trim(Python, i.password) != Trim(Python, i.confirmPassword))
  {
    var b := BoundRegister(i, taken, isEmail);
    var r1 := RegisterResult(i, taken, isEmail, Password);
    var r2 := RegisterResult(i, taken, isEmail, ConfirmPassword);
    FieldAcceptedIff(i, taken, isEmail, Password);
    FieldAcceptedIff(i, taken, isEmail, ConfirmPassword);
    if ConfirmPassword in b.errors {
      assert b.errors[ConfirmPassword] == r2.errors;
      assert PasswordsDiffer !in b.errors[ConfirmPassword];
    }
  }

  /** Registration validation passes exactly when every declared field is
      within its bounds and the two passwords agree; every declared field then
      holds its stripped value. */
  lemma ValidateRegisterIff(i: RegisterInput, taken: set<string>, isEmail: string -> bool)
    ensures ValidateRegister(i, taken, isEmail).errors == map[] <==>
              (forall f :: f in RegisterFields ==> WithinBounds(i, taken, isEmail, f))
              && Trim(Python, i.password) == Trim(Python, i.confirmPassword)
    ensures ValidateRegister(i, taken, isEmail).errors == map[] ==>
              var c := ValidateRegister(i, taken, isEmail).cleaned;
              && c.Keys == RegisterFields
              && (forall f :: f in RegisterFields ==> c[f] == Trim(Python, Submitted(i, f)))
  {
    var b := BoundRegister(i, taken, isEmail);
    var st := PasswordCheck(b);
    forall f | f in RegisterFields
      ensures RegisterResult(i, taken, isEmail, f).Accepted? <==> WithinBounds(i, taken, isEmail, f)
      ensures RegisterResult(i, taken, isEmail, f).Accepted? ==>
                RegisterResult(i, taken, isEmail, f).value == Trim(Python, Submitted(i, f))
    {
      FieldAcceptedIff(i, taken, isEmail, f);
    }
    PasswordMismatchReported(i, taken, isEmail);
    if forall f :: f in RegisterFields ==> WithinBounds(i, taken, isEmail, f) {
      assert b.cleaned.Keys == RegisterFields;
      assert b.errors.Keys == {};
      if Trim(Python, i.password) == Trim(Python, i.confirmPassword) {
        assert st == b;
      } else {
        assert ConfirmPassword in st.errors;
      }
    } else {
      var f :| f in RegisterFields && !WithinBounds(i, taken, isEmail, f);
      assert f in b.errors;
      assert f in st.errors;
    }
  }

  /** `clean` leaves the form as it is or reports against
      `confirm_password`. */
  lemma PasswordCheckAddsOnly(st: FormState)
    ensures PasswordCheck(st) == st || ConfirmPassword in PasswordCheck(st).errors
  {
  }

  /** What a valid registration form holds: each account field's stripped
      value, the username not yet taken. */
  lemma ValidRegisterCleaned(i: RegisterInput, taken: set<string>, isEmail: string -> bool)
    requires ValidateRegister(i, taken, isEmail).errors == map[]
    ensures var c := ValidateRegister(i, taken, isEmail).cleaned;
            && Username in c && c[Username] == Trim(Python, i.username) && Trim(Python, i.username) !in taken
            && Email in c && c[Email] == Trim(Python, i.email)
            && FirstName in c && c[FirstName] == Trim(Python, i.firstName)
            && LastName in c && c[LastName] == Trim(Python, i.lastName)
  {
    ValidFieldCleaned(i, taken, isEmail, Username);
    ValidFieldCleaned(i, taken, isEmail, Email);
    ValidFieldCleaned(i, taken, isEmail, FirstName);
    ValidFieldCleaned(i, taken, isEmail, LastName);
  }

  /** In a valid registration form each declared field holds its stripped
      value and is within its bounds. */
  lemma ValidFieldCleaned(i: RegisterInput, taken: set<string>, isEmail: string -> bool, f: Field)
    requires ValidateRegister(i, taken, isEmail).errors == map[] && f in RegisterFields
    ensures var c := ValidateRegister(i, taken, isEmail).cleaned;
            f in c && c[f] == Trim(Python, Submitted(i, f)) && WithinBounds(i, taken, isEmail, f)
  {
    var b := BoundRegister(i, taken, isEmail);
    PasswordCheckAddsOnly(b);
    FieldAcceptedIff(i, taken, isEmail, f);
    assert f !in b.errors;
  }

  // ---------------------------------------------------------------------
  // PostForm and ProfileForm

  /** `PostForm`: binds the `text` field only, so nothing else submitted
      (an author, a time) can reach the post. */
  function PostForm(data: FormData): (r: FieldResult)
    ensures r.Accepted? <==> 1 <= |Trim(Python, Raw(data, "text"))| && Fits(Trim(Python, Raw(data, "text")), TextMaxLength)
    ensures r.Accepted? ==> r.value == Trim(Python, Raw(data, "text"))
  {
    CleanChar(PostTextField, Raw(data, "text"))
  }

  /** The picture part of a profile submission: no file, the clear box, a
      file (with whether it reads as an image), or a file and the clear box. */
  datatype PictureInput = NoUpload | ClearPicture | Upload(file: Picture, isImage: bool) | UploadAndClear(file: Picture)

  /** The profile instance after `ProfileForm` validation and the errors
      found; fields that cleaned are already written to the instance, even
      when another field failed (the instance is saved only when there is no
      error). */
  datatype ProfileFormResult = ProfileFormResult(instance: Profile, errors: map<Field, seq<FieldError>>)

  /** `ProfileForm`: binds `bio` and `picture` only. */
  function ProfileForm(instance: Profile, data: FormData, upload: PictureInput): (r: ProfileFormResult)
    ensures r.instance.user == instance.user && r.instance.following == instance.following
    ensures r.errors.Keys <= {Bio, PictureField}
    ensures Bio in r.errors <==> !Fits(Trim(Python, Raw(data, "bio")), BioMaxLength)
    ensures r.instance.bio == if Bio in r.errors then instance.bio else Trim(Python, Raw(data, "bio"))
    ensures PictureField in r.errors <==> upload.UploadAndClear? || (upload.Upload? && !upload.isImage)
    ensures PictureField !in r.errors ==>
              r.instance.picture == match upload
                                    case NoUpload => instance.picture
                                    case ClearPicture => None
                                    case Upload(f, _) => Some(f)
                                    case UploadAndClear(_) => instance.picture
  {
    var bio := CleanChar(BioField, Raw(data, "bio"));
    var picture: Checked<Option<Picture>> :=
      match upload
      case NoUpload => Pass(instance.picture)
      case ClearPicture => Pass(None)
      case Upload(f, isImage) => if isImage then Pass(Some(f)) else Fail(InvalidImage)
      case UploadAndClear(_) => Fail(FileAndClear);
    var withBio := if bio.Accepted? then instance.(bio := bio.value) else instance;
    var withPicture := if picture.Pass? then withBio.(picture := picture.value) else withBio;
    var errors := (if bio.Rejected? then map[Bio := bio.errors] else map[])
                  + (if picture.Fail? then map[PictureField := [picture.error]] else map[]);
    ProfileFormResult(withPicture, errors)
  }

  datatype Checked<T> = Pass(value: T) | Fail(error: FieldError)
}
