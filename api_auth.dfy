/**
 * `authQueries` (src/api/auth.ts): which endpoint, body and HTTP method each
 * dialog mode sends. The fetch itself is not part of this model.
 */
module ApiAuth {
  import opened Wrappers
  import opened AuthTypes

  datatype Request = Request(path: string, body: map<string, string>, httpMethod: string)

  /** The `switch`; `None` is the `null` of the default branch. */
  function AuthQueries(t: AuthType, data: map<string, string>): (r: Option<Request>)
    ensures r.Some? <==> t != ForgotPassword
    ensures r.Some? ==> r.value.httpMethod == "POST"
    ensures t == Register ==> r.value.body.Keys == data.Keys + {"role"} && r.value.body["role"] == "patient"
    ensures t == Register ==> forall k :: k in data && k != "role" ==> r.value.body[k] == data[k]
    ensures t in {Login, VerifyAccount, ResendCode} ==> r.value.body == data
  {
    match t
    case Register => Some(Request("/auth/register", data["role" := "patient"], "POST"))
    case Login => Some(Request("/auth/login", data, "POST"))
    case VerifyAccount => Some(Request("/auth/verify", data, "POST"))
    case ResendCode => Some(Request("/auth/resend", data, "POST"))
    case _ => None
  }

  /** Each mode goes to its own endpoint. */
  lemma Endpoints(data: map<string, string>)
    ensures AuthQueries(Register, data).value.path == "/auth/register"
    ensures AuthQueries(Login, data).value.path == "/auth/login"
    ensures AuthQueries(VerifyAccount, data).value.path == "/auth/verify"
    ensures AuthQueries(ResendCode, data).value.path == "/auth/resend"
  {
  }

  /** A role the caller put in the data is overridden: `role` comes after the spread. */
  lemma RoleOverridden(data: map<string, string>)
    requires "role" in data && data["role"] == "admin"
    ensures AuthQueries(Register, data).value.body["role"] == "patient"
  {
  }
}
