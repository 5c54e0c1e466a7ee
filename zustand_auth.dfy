/**
 * The token-only variant of the stores, src/zustand/auth.ts: the credentials
 * store holds and persists nothing but the access token.
 */
module ZustandAuth {
  import opened Wrappers

  /** What `partialize` keeps: `{ accessToken }` alone. */
  datatype PersistedToken = PersistedToken(accessToken: Option<string>)

  class AuthCredentials {
    var accessToken: Option<string>

    constructor()
      ensures accessToken == None
    {
      accessToken := None;
    }

    method SetCredentials(token: string)
      modifies this
      ensures accessToken == Some(token)
    {
      accessToken := Some(token);
    }

    method ClearCredentials()
      modifies this
      ensures accessToken == None
    {
      accessToken := None;
    }

    function Partialize(): (p: PersistedToken)
      reads this
      ensures p.accessToken == accessToken
    {
      PersistedToken(accessToken)
    }

    method Rehydrate(p: PersistedToken)
      modifies this
      ensures Partialize() == p
    {
      accessToken := p.accessToken;
    }
  }

  class AuthDialogStore {
    var isAuthDialogOpen: bool

    constructor()
      ensures !isAuthDialogOpen
    {
      isAuthDialogOpen := false;
    }

    method SetAuthDialogOpen(open: bool)
      modifies this
      ensures isAuthDialogOpen == open
    {
      isAuthDialogOpen := open;
    }
  }
}
