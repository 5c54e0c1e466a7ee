/**
 * `resolveAuthDialogContent` (src/helpers/resolveAuthDialogContent.ts): the
 * input fields the dialog renders per mode, with the LOGIN fields as fallback.
 */
module AuthDialogContent {
  import opened AuthTypes

  /** One rendered input: its HTML `type`, form `name`, `label` and `placeholder`. */
  datatype ContentField = ContentField(inputType: string, name: string, caption: string, placeholder: string)

  const FullNameField: ContentField := ContentField("text", "fullName", "Full Name", "Enter your full name")
  const EmailField: ContentField := ContentField("email", "email", "Email", "Enter your email")
  const PasswordField: ContentField := ContentField("password", "password", "Password", "Enter your password")

  /** `TContentName` of src/types/AuthDialog.ts. */
  predicate IsContentName(name: string) {
    name == "email" || name == "password" || name == "fullName"
  }

  /** The input type that goes with each name. */
  function InputTypeOf(name: string): string {
    if name == "fullName" then "text" else name
  }

  /** `dialogContentMap`: neither VERIFY_ACCOUNT nor RESEND_CODE has an entry. */
  const DialogContentMap: map<AuthType, seq<ContentField>> := map[
    Login := [EmailField, PasswordField],
    Register := [FullNameField, EmailField, PasswordField],
    ForgotPassword := [EmailField]
  ]

  /** `dialogContentMap[type] || dialogContentMap[AuthTypes.LOGIN]`. */
  function ResolveAuthDialogContent(t: AuthType): (r: seq<ContentField>)
    ensures 1 <= |r| <= 3
    ensures forall i :: 0 <= i < |r| ==> IsContentName(r[i].name) && r[i].inputType == InputTypeOf(r[i].name)
    ensures forall i, j :: 0 <= i < j < |r| ==> r[i].name != r[j].name
    ensures r[|r| - 1].name != "fullName"
  {
    if t in DialogContentMap then DialogContentMap[t] else DialogContentMap[Login]
  }

  function Names(fields: seq<ContentField>): (r: seq<string>)
    ensures |r| == |fields|
    ensures forall i :: 0 <= i < |r| ==> r[i] == fields[i].name
  {
    if fields == [] then [] else [fields[0].name] + Names(fields[1..])
  }

  /** The field names per mode, in render order. */
  lemma FieldsPerMode()
    ensures Names(ResolveAuthDialogContent(Login)) == ["email", "password"]
    ensures Names(ResolveAuthDialogContent(Register)) == ["fullName", "email", "password"]
    ensures Names(ResolveAuthDialogContent(ForgotPassword)) == ["email"]
  {
  }

  /** The two modes without an entry show the LOGIN fields. */
  lemma MissingModesFallBack()
    ensures ResolveAuthDialogContent(VerifyAccount) == ResolveAuthDialogContent(Login)
    ensures ResolveAuthDialogContent(ResendCode) == ResolveAuthDialogContent(Login)
    ensures VerifyAccount !in DialogContentMap && ResendCode !in DialogContentMap
  {
  }

  /** No mode renders a `verificationCode` input. */
  lemma NoCodeInput(t: AuthType)
    ensures forall f :: f in ResolveAuthDialogContent(t) ==> f.name != "verificationCode"
  {
  }

  /** The input the verification step evidently needs: six OTP digits named `verificationCode`. */
  const VerificationCodeField: ContentField :=
    ContentField("text", "verificationCode", "Verification Code", "Enter the verification code")

  /** `dialogContentMap` with the VERIFY_ACCOUNT entry it lacks. */
  function IntendedDialogContent(t: AuthType): (r: seq<ContentField>)
    ensures t == VerifyAccount ==> r == [VerificationCodeField]
    ensures t != VerifyAccount ==> r == ResolveAuthDialogContent(t)
  {
    if t == VerifyAccount then [VerificationCodeField] else ResolveAuthDialogContent(t)
  }
}
