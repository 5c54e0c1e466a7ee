/**
 * `AuthDialog` and its `PLinks` footer (src/components/AuthDialog.tsx): the
 * dialog's mode, the e-mail awaiting verification, the password visibility,
 * the form's values and the resend cooldown counter, changed step by step by
 * the event handlers. Mutations are recorded in a log instead of being sent;
 * their outcome arrives later through `OnSuccess` or `OnError`.
 */
module AuthDialog {
  import opened Wrappers
  import opened AuthTypes
  import opened AuthDialogInfo
  import opened AuthDialogContent
  import opened AuthDialogSchemas
  import opened ApiAuth
  import AuthContext

  /** One `mutation.mutate({ clickedType, values })` and the request `authQueries` builds for it. */
  datatype Mutation = Mutation(clickedType: AuthType, values: map<string, string>, request: Option<Request>)

  function MutationFor(clickedType: AuthType, values: map<string, string>): (m: Mutation)
    ensures m.clickedType == clickedType && m.values == values
    ensures m.request.Some? <==> clickedType != ForgotPassword
  {
    Mutation(clickedType, values, AuthQueries(clickedType, values))
  }

  /** The parts of the server's answer that `onSuccess` reads. */
  datatype AuthResponse = AuthResponse(email: string, accessToken: string)

  /** Seconds the resend button stays disabled. */
  const ResendCooldown: nat := 60

  /**
   * `useForm` keeps the `defaultValues` of its first render, when the mode is
   * LOGIN; `form.reset()` always goes back to these.
   */
  function FormDefaults(): (d: map<string, string>)
    ensures d.Keys == {"email", "password"}
  {
    ResolveAuthDialogInfo(Login).defaultValues
  }

  /** The names of the inputs rendered in a mode. */
  function RenderedNames(t: AuthType): (names: set<string>)
    ensures forall n :: n in names ==> IsContentName(n)
  {
    set f | f in ResolveAuthDialogContent(t) :: f.name
  }

  /**
   * VERIFY_ACCOUNT has no content entry, so the dialog renders the LOGIN inputs
   * (`email`, `password`) and nothing ever writes `verificationCode`, which the
   * VERIFY_ACCOUNT schema requires: no form the dialog can hold passes it.
   */
  lemma {:induction false} VerifyNeverAccepted(values: map<string, string>, isEmail: string -> bool)
    requires values.Keys <= {"email", "password", "fullName"}
    ensures !Accepts(VerifyAccount, values, isEmail)
    ensures "verificationCode" !in RenderedNames(VerifyAccount)
  {
    EveryModeHasSchema(VerifyAccount);
    assert VerificationCode in ResolveAuthDialogSchemas(VerifyAccount);
    assert FieldName(VerificationCode) !in values;
  }

  /** The names of the inputs rendered in a mode once VERIFY_ACCOUNT has its code input. */
  function IntendedRenderedNames(t: AuthType): (names: set<string>)
    ensures forall n :: n in names ==> IsContentName(n) || n == "verificationCode"
  {
    set f | f in IntendedDialogContent(t) :: f.name
  }

  /**
   * With the VERIFY_ACCOUNT entry in place the code can be typed in, and a
   * six-character code next to the e-mail kept from registration passes the schema.
   */
  lemma {:induction false} IntendedVerifyAccepted(values: map<string, string>, code: string, isEmail: string -> bool)
    requires "email" in values && isEmail(values["email"]) && |code| == 6
    ensures "verificationCode" in IntendedRenderedNames(VerifyAccount)
    ensures Accepts(VerifyAccount, values["verificationCode" := code], isEmail)
  {
    assert VerificationCodeField in IntendedDialogContent(VerifyAccount);
    EveryModeHasSchema(VerifyAccount);
    var v := values["verificationCode" := code];
    forall f | f in ResolveAuthDialogSchemas(VerifyAccount)
      ensures FieldName(f) in v && FieldOk(f, v[FieldName(f)], isEmail)
    {
      assert f == Email || f == VerificationCode;
    }
  }

  class AuthDialog {
    /** `type`: never RESEND_CODE. */
    var mode: AuthType
    var emailToVerify: string
    var showPassword: bool
    /** `counter` of `PLinks`. */
    var counter: nat
    /** What the form holds. */
    var formValues: map<string, string>
    var mutations: seq<Mutation>

    const dialog: AuthContext.AuthDialogStore
    const credentials: AuthContext.AuthCredentials

    predicate Valid()
      reads this
    {
      && mode != ResendCode
      && counter <= ResendCooldown
      && (mode != VerifyAccount ==> counter == 0)
      && formValues.Keys <= {"email", "password", "fullName", "verificationCode"}
    }

    constructor(dialog: AuthContext.AuthDialogStore, credentials: AuthContext.AuthCredentials)
      ensures Valid()
      ensures mode == Login && emailToVerify == "" && !showPassword && counter == 0
      ensures formValues == FormDefaults() && mutations == []
      ensures this.dialog == dialog && this.credentials == credentials
    {
      mode := Login;
      emailToVerify := "";
      showPassword := false;
      counter := 0;
      formValues := FormDefaults();
      mutations := [];
      this.dialog := dialog;
      this.credentials := credentials;
    }

    /** `setType(t)` followed by the `[type]` effect, which clears the counter outside VERIFY_ACCOUNT. */
    method SetType(t: AuthType)
      requires Valid() && t != ResendCode
      modifies this
      ensures Valid()
      ensures mode == t
      ensures counter == if t == VerifyAccount then old(counter) else 0
      ensures emailToVerify == old(emailToVerify) && showPassword == old(showPassword)
      ensures formValues == old(formValues) && mutations == old(mutations)
    {
      mode := t;
      if t != VerifyAccount {
        counter := 0;
      }
    }

    method ResetForm()
      modifies this
      ensures formValues == FormDefaults()
      ensures mode == old(mode) && emailToVerify == old(emailToVerify) && showPassword == old(showPassword)
      ensures counter == old(counter) && mutations == old(mutations)
    {
      formValues := FormDefaults();
    }

    method Mutate(clickedType: AuthType, values: map<string, string>)
      modifies this
      ensures mutations == old(mutations) + [MutationFor(clickedType, values)]
      ensures mode == old(mode) && emailToVerify == old(emailToVerify) && showPassword == old(showPassword)
      ensures counter == old(counter) && formValues == old(formValues)
    {
      mutations := mutations + [MutationFor(clickedType, values)];
    }

    /** The user types into one of the inputs of the current mode, VERIFY_ACCOUNT's code input included. */
    method EnterValue(name: string, value: string)
      requires Valid() && name in IntendedRenderedNames(mode)
      modifies this
      ensures Valid()
      ensures formValues == old(formValues)[name := value]
      ensures mode == old(mode) && emailToVerify == old(emailToVerify) && showPassword == old(showPassword)
      ensures counter == old(counter) && mutations == old(mutations)
    {
      formValues := formValues[name := value];
    }

    /** `onSuccess`: what a successful answer to a mutation of `clickedType` does. */
    method OnSuccess(clickedType: AuthType, data: AuthResponse)
      requires Valid()
      modifies this, credentials
      ensures Valid()
      ensures mutations == old(mutations) && showPassword == old(showPassword)
      ensures clickedType == Register ==>
        && mode == VerifyAccount && emailToVerify == data.email
        && formValues == old(formValues) && counter == old(counter)
        && credentials.accessToken == old(credentials.accessToken)
      ensures clickedType == VerifyAccount ==>
        && mode == Login && emailToVerify == old(emailToVerify)
        && formValues == FormDefaults() && counter == 0
        && credentials.accessToken == old(credentials.accessToken)
      ensures clickedType == Login ==>
        && mode == old(mode) && emailToVerify == old(emailToVerify)
        && formValues == old(formValues) && counter == old(counter)
        && credentials.accessToken == Some(data.accessToken)
      ensures clickedType !in {Register, VerifyAccount, Login} ==>
        && mode == old(mode) && emailToVerify == old(emailToVerify)
        && formValues == old(formValues) && counter == old(counter)
        && credentials.accessToken == old(credentials.accessToken)
      ensures credentials.imagePreview == old(credentials.imagePreview)
    {
      match clickedType
      case Register =>
        SetType(VerifyAccount);
        emailToVerify := data.email;
      case VerifyAccount =>
        SetType(Login);
        ResetForm();
      case Login =>
        credentials.SetCredentials(data.accessToken);
      case _ =>
    }

    /** `onError` only shows a toast. */
    method OnError(message: string)
      requires Valid()
      ensures Valid()
      ensures unchanged(this)
    {
    }

    /** `onSubmit`, called with the values the schema has parsed. */
    method OnSubmit(values: map<string, string>)
      requires Valid()
      modifies this, dialog
      ensures Valid()
      ensures mode == old(mode) && emailToVerify == old(emailToVerify) && showPassword == old(showPassword)
      ensures counter == old(counter) && formValues == old(formValues)
      ensures mode == VerifyAccount && "verificationCode" in values ==>
        && mutations == old(mutations) + [MutationFor(VerifyAccount, map["code" := values["verificationCode"], "email" := emailToVerify])]
        && dialog.isAuthDialogOpen == old(dialog.isAuthDialogOpen)
      ensures !(mode == VerifyAccount && "verificationCode" in values) ==>
        && mutations == old(mutations) + [MutationFor(mode, values)]
        && dialog.isAuthDialogOpen == (if mode == Login then false else old(dialog.isAuthDialogOpen))
    {
      if mode == VerifyAccount && "verificationCode" in values {
        var newValues := map["code" := values["verificationCode"], "email" := emailToVerify];
        Mutate(mode, newValues);
        return;
      }
      if mode == Login {
        dialog.SetAuthDialogOpen(false);
      }
      Mutate(mode, values);
    }

    /**
     * The submit button: `form.handleSubmit(onSubmit)` runs the current mode's
     * schema and calls `onSubmit` only when it accepts the form. In
     * VERIFY_ACCOUNT the code goes out with the e-mail kept from registration.
     */
    method Submit(isEmail: string -> bool)
      requires Valid()
      modifies this, dialog
      ensures Valid()
      ensures mode == old(mode) && formValues == old(formValues) && counter == old(counter)
      ensures emailToVerify == old(emailToVerify)
      ensures Parse(mode, formValues, isEmail).None? ==> mutations == old(mutations)
      ensures mode != VerifyAccount && Parse(mode, formValues, isEmail).Some? ==>
        mutations == old(mutations) + [MutationFor(mode, Parse(mode, formValues, isEmail).value)]
      ensures mode == VerifyAccount && Parse(mode, formValues, isEmail).Some? ==>
        && "verificationCode" in formValues
        && mutations == old(mutations) + [MutationFor(VerifyAccount, map["code" := formValues["verificationCode"], "email" := emailToVerify])]
      ensures mode == Login && Parse(mode, formValues, isEmail).Some? ==> !dialog.isAuthDialogOpen
    {
      var parsed := Parse(mode, formValues, isEmail);
      if parsed.Some? {
        if mode == VerifyAccount {
          AcceptedForm(mode, formValues, isEmail);
          EveryModeHasSchema(mode);
          assert FieldName(VerificationCode) in SchemaNames(mode);
        }
        OnSubmit(parsed.value);
      }
    }

    /** `handleOpenChange`: closing goes back to LOGIN with a fresh form; opening changes nothing else. */
    method HandleOpenChange(open: bool)
      requires Valid()
      modifies this, dialog
      ensures Valid()
      ensures dialog.isAuthDialogOpen == open
      ensures emailToVerify == old(emailToVerify) && showPassword == old(showPassword) && mutations == old(mutations)
      ensures !open ==> mode == Login && formValues == FormDefaults() && counter == 0
      ensures open ==> mode == old(mode) && formValues == old(formValues) && counter == old(counter)
    {
      dialog.SetAuthDialogOpen(open);
      if !open {
        SetType(Login);
        ResetForm();
      }
    }

    /** `handlePLinksClick`: RESEND_CODE resends the code; any other link switches mode. */
    method HandlePLinksClick(newType: AuthType)
      requires Valid()
      modifies this
      ensures Valid()
      ensures emailToVerify == old(emailToVerify) && showPassword == old(showPassword)
      ensures newType == ResendCode ==>
        && mutations == old(mutations) + [MutationFor(ResendCode, map["email" := emailToVerify])]
        && mode == old(mode) && formValues == old(formValues) && counter == old(counter)
      ensures newType != ResendCode ==>
        && mutations == old(mutations) && mode == newType && formValues == FormDefaults()
        && counter == (if newType == VerifyAccount then old(counter) else 0)
    {
      if newType == ResendCode {
        Mutate(ResendCode, map["email" := emailToVerify]);
        return;
      }
      SetType(newType);
      ResetForm();
    }

    /** `disabled={counter > 0}` on the resend button. */
    predicate ResendDisabled()
      reads this
    {
      counter > 0
    }

    /**
     * A click on the resend button, shown only in VERIFY_ACCOUNT: ignored while
     * it is disabled, otherwise `handleResend` resends and starts the cooldown.
     */
    method ClickResend()
      requires Valid() && mode == VerifyAccount
      modifies this
      ensures Valid()
      ensures mode == old(mode) && emailToVerify == old(emailToVerify) && formValues == old(formValues)
      ensures old(ResendDisabled()) ==> counter == old(counter) && mutations == old(mutations)
      ensures !old(ResendDisabled()) ==>
        && counter == ResendCooldown
        && mutations == old(mutations) + [MutationFor(ResendCode, map["email" := emailToVerify])]
    {
      if ResendDisabled() {
        return;
      }
      HandlePLinksClick(ResendCode);
      counter := ResendCooldown;
    }

    /** One second of the `[counter]` effect's timer: down by one while positive, never below zero. */
    method Tick()
      requires Valid()
      modifies this
      ensures Valid()
      ensures counter == if old(counter) > 0 then old(counter) - 1 else 0
      ensures mode == old(mode) && emailToVerify == old(emailToVerify) && formValues == old(formValues)
      ensures mutations == old(mutations) && showPassword == old(showPassword)
    {
      if counter > 0 {
        counter := counter - 1;
      }
    }

    /** The eye button next to a password input. */
    method TogglePassword()
      requires Valid()
      modifies this
      ensures Valid()
      ensures showPassword == !old(showPassword)
      ensures mode == old(mode) && emailToVerify == old(emailToVerify) && formValues == old(formValues)
      ensures counter == old(counter) && mutations == old(mutations)
    {
      showPassword := !showPassword;
    }
  }

  /** The inputs REGISTER and, once corrected, VERIFY_ACCOUNT render. */
  lemma RegisterAndVerifyInputs()
    ensures "fullName" in IntendedRenderedNames(Register)
    ensures "email" in IntendedRenderedNames(Register)
    ensures "password" in IntendedRenderedNames(Register)
    ensures "verificationCode" in IntendedRenderedNames(VerifyAccount)
  {
    assert FullNameField in IntendedDialogContent(Register);
    assert EmailField in IntendedDialogContent(Register);
    assert PasswordField in IntendedDialogContent(Register);
    assert VerificationCodeField in IntendedDialogContent(VerifyAccount);
  }

  /** A registration form with a valid name, e-mail and password parses to itself. */
  lemma {:induction false} RegistrationParses(fullName: string, email: string, password: string, isEmail: string -> bool)
    requires FullNameOk(fullName) && isEmail(email) && PasswordOk(password)
    ensures Parse(Register, map["fullName" := fullName, "email" := email, "password" := password], isEmail)
      == Some(map["fullName" := fullName, "email" := email, "password" := password])
  {
    var registered := map["fullName" := fullName, "email" := email, "password" := password];
    EveryModeHasSchema(Register);
    assert ResolveAuthDialogSchemas(Register) == {FullName, Email, Password};
    forall f | f in ResolveAuthDialogSchemas(Register)
      ensures FieldName(f) in registered && FieldOk(f, registered[FieldName(f)], isEmail)
    {
    }
    assert Accepts(Register, registered, isEmail);
    assert SchemaNames(Register) == registered.Keys by {
      assert FieldName(FullName) in SchemaNames(Register);
      assert FieldName(Email) in SchemaNames(Register);
      assert FieldName(Password) in SchemaNames(Register);
    }
    var parsed := Parse(Register, registered, isEmail).value;
    assert parsed.Keys == registered.Keys;
    assert parsed == registered;
  }

  /** Typing the three REGISTER inputs over the default form leaves exactly those three. */
  lemma RegistrationForm(defaults: map<string, string>, fullName: string, email: string, password: string)
    requires defaults.Keys == {"email", "password"}
    ensures defaults["fullName" := fullName]["email" := email]["password" := password]
      == map["fullName" := fullName, "email" := email, "password" := password]
  {
  }

  /** Typing the three REGISTER inputs into the default form. */
  method TypeRegistration(d: AuthDialog, fullName: string, email: string, password: string)
    requires d.Valid() && d.mode == Register && d.formValues == FormDefaults()
    modifies d
    ensures d.Valid() && d.mode == Register && d.emailToVerify == old(d.emailToVerify)
    ensures d.mutations == old(d.mutations)
    ensures d.formValues == map["fullName" := fullName, "email" := email, "password" := password]
  {
    RegisterAndVerifyInputs();
    ghost var defaults := d.formValues;
    d.EnterValue("fullName", fullName);
    d.EnterValue("email", email);
    d.EnterValue("password", password);
    RegistrationForm(defaults, fullName, email, password);
  }

  /** The REGISTER step of `RegisterThenVerify`: typing the three inputs and submitting. */
  method SubmitRegistration(d: AuthDialog, fullName: string, email: string, password: string, isEmail: string -> bool)
    requires d.Valid() && d.mode == Register && d.formValues == FormDefaults() && d.mutations == []
    requires FullNameOk(fullName) && isEmail(email) && PasswordOk(password)
    modifies d, d.dialog
    ensures d.Valid() && d.mode == Register && d.emailToVerify == old(d.emailToVerify)
    ensures "email" in d.formValues && d.formValues["email"] == email
    ensures d.mutations == [MutationFor(Register, map["fullName" := fullName, "email" := email, "password" := password])]
  {
    TypeRegistration(d, fullName, email, password);
    RegistrationParses(fullName, email, password, isEmail);
    d.Submit(isEmail);
  }

  /** The VERIFY_ACCOUNT step of `RegisterThenVerify`: typing the code and submitting. */
  method SubmitCode(d: AuthDialog, code: string, isEmail: string -> bool)
    requires d.Valid() && d.mode == VerifyAccount && "email" in d.formValues && isEmail(d.formValues["email"])
    requires CodeOk(code)
    modifies d, d.dialog
    ensures d.emailToVerify == old(d.emailToVerify)
    ensures d.mutations == old(d.mutations) + [MutationFor(VerifyAccount, map["code" := code, "email" := d.emailToVerify])]
  {
    RegisterAndVerifyInputs();
    d.EnterValue("verificationCode", code);
    IntendedVerifyAccepted(old(d.formValues), code, isEmail);
    d.Submit(isEmail);
  }

  /**
   * Registering and then typing the e-mailed code. With the VERIFY_ACCOUNT
   * input in place the second submit sends the code together with the e-mail
   * the registration answer returned.
   */
  method RegisterThenVerify(fullName: string, email: string, password: string, answer: AuthResponse, code: string,
                            isEmail: string -> bool)
      returns (sent: seq<Mutation>)
    requires FullNameOk(fullName) && isEmail(email) && PasswordOk(password) && CodeOk(code)
    ensures sent == [
      MutationFor(Register, map["fullName" := fullName, "email" := email, "password" := password]),
      MutationFor(VerifyAccount, map["code" := code, "email" := answer.email])]
  {
    var store := new AuthContext.AuthDialogStore();
    var credentials := new AuthContext.AuthCredentials();
    var d := new AuthDialog(store, credentials);
    d.HandlePLinksClick(Register);
    SubmitRegistration(d, fullName, email, password, isEmail);
    d.OnSuccess(Register, answer);
    SubmitCode(d, code, isEmail);
    sent := d.mutations;
  }
}
