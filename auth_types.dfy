/** The `AuthTypes` enum (src/constants/index.ts): the modes of the authentication dialog. */
module AuthTypes {

  datatype AuthType = Login | Register | ForgotPassword | VerifyAccount | ResendCode

  /** The enum's string value. */
  function Value(t: AuthType): string {
    match t
    case Login => "login"
    case Register => "register"
    case ForgotPassword => "forgot-password"
    case VerifyAccount => "verify-account"
    case ResendCode => "resend-code"
  }

  /** Distinct modes have distinct string values. */
  lemma ValueInjective(a: AuthType, b: AuthType)
    ensures Value(a) == Value(b) <==> a == b
  {
    assert Value(ForgotPassword)[0] == 'f' && Value(VerifyAccount)[0] == 'v';
    assert Value(Login)[0] == 'l' && Value(Register)[2] == 'g' && Value(ResendCode)[2] == 's';
  }
}
