/**
 * `resolveAuthDialogInfo` (src/helpers/resolveAuthDialogInfo.ts): title,
 * description, button text and form defaults per dialog mode, with the LOGIN
 * entry as fallback.
 */
module AuthDialogInfo {
  import opened AuthTypes

  datatype DialogInfo = DialogInfo(
    dialogTitle: string,
    dialogDescription: string,
    dialogButtonText: string,
    defaultValues: map<string, string>)

  /** `dialogInfoMap`: RESEND_CODE has no entry. */
  const DialogInfoMap: map<AuthType, DialogInfo> := map[
    Login := DialogInfo(
      "Login to your account",
      "Enter your email and password to login",
      "Login",
      map["email" := "", "password" := ""]),
    Register := DialogInfo(
      "Create an account",
      "Enter your full name, email and password to create an account",
      "Register",
      map["email" := "", "password" := "", "fullName" := ""]),
    ForgotPassword := DialogInfo(
      "Forgot password",
      "Enter your email to reset your password",
      "Reset password",
      map["email" := ""]),
    VerifyAccount := DialogInfo(
      "Verify your account",
      "Enter the verification code sent to your email to verify your account",
      "Verify",
      map["verificationCode" := ""])
  ]

  /** `dialogInfoMap[type] || dialogInfoMap[AuthTypes.LOGIN]`. */
  function ResolveAuthDialogInfo(t: AuthType): (r: DialogInfo)
    ensures r in DialogInfoMap.Values
    ensures forall k :: k in r.defaultValues ==> r.defaultValues[k] == ""
    ensures "email" in r.defaultValues || "verificationCode" in r.defaultValues
  {
    if t in DialogInfoMap then DialogInfoMap[t] else DialogInfoMap[Login]
  }

  /** Every mode but RESEND_CODE has its own entry; RESEND_CODE gets LOGIN's. */
  lemma EntryPerMode(t: AuthType)
    ensures t in DialogInfoMap <==> t != ResendCode
    ensures t != ResendCode ==> ResolveAuthDialogInfo(t) == DialogInfoMap[t]
    ensures ResolveAuthDialogInfo(ResendCode) == ResolveAuthDialogInfo(Login)
  {
  }

  /** The button texts. */
  lemma ButtonTexts()
    ensures ResolveAuthDialogInfo(Login).dialogButtonText == "Login"
    ensures ResolveAuthDialogInfo(Register).dialogButtonText == "Register"
    ensures ResolveAuthDialogInfo(ForgotPassword).dialogButtonText == "Reset password"
    ensures ResolveAuthDialogInfo(VerifyAccount).dialogButtonText == "Verify"
  {
  }

  /** The form fields each mode starts from: REGISTER adds `fullName` to LOGIN's. */
  lemma DefaultFields()
    ensures ResolveAuthDialogInfo(Login).defaultValues.Keys == {"email", "password"}
    ensures ResolveAuthDialogInfo(Register).defaultValues.Keys
         == ResolveAuthDialogInfo(Login).defaultValues.Keys + {"fullName"}
    ensures ResolveAuthDialogInfo(ForgotPassword).defaultValues.Keys == {"email"}
    ensures ResolveAuthDialogInfo(VerifyAccount).defaultValues.Keys == {"verificationCode"}
  {
  }
}
