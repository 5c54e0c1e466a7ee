/**
 * The zustand stores of src/context/auth.ts: the persisted credentials store
 * (`useAuthCredentials`) and the auth dialog's open flag (`useAuthDialog`).
 * Each `set({...})` merges into the state, so a setter changes its own field only.
 */
module AuthContext {
  import opened Wrappers

  /** What `partialize` hands to the storage: the token and the image preview. */
  datatype PersistedCredentials = PersistedCredentials(accessToken: Option<string>, imagePreview: Option<string>)

  class AuthCredentials {
    /** `null` is `None`. */
    var accessToken: Option<string>
    /** `undefined` is `None`. */
    var imagePreview: Option<string>

    constructor()
      ensures accessToken == None && imagePreview == None
    {
      accessToken := None;
      imagePreview := None;
    }

    method SetImagePreview(url: Option<string>)
      modifies this
      ensures imagePreview == url
      ensures accessToken == old(accessToken)
    {
      imagePreview := url;
    }

    method SetCredentials(token: string)
      modifies this
      ensures accessToken == Some(token)
      ensures imagePreview == old(imagePreview)
    {
      accessToken := Some(token);
    }

    /** Whatever the token was, it is `null` afterwards; so a second call changes nothing. */
    method ClearCredentials()
      modifies this
      ensures accessToken == None
      ensures imagePreview == old(imagePreview)
    {
      accessToken := None;
    }

    /** `partialize`: exactly the two data fields, none of the setters. */
    function Partialize(): (p: PersistedCredentials)
      reads this
      ensures p.accessToken == accessToken && p.imagePreview == imagePreview
    {
      PersistedCredentials(accessToken, imagePreview)
    }

    /**
     * Rehydration from storage: the persisted fields are merged over the
     * initial state, so projecting again gives back what was stored.
     */
    method Rehydrate(p: PersistedCredentials)
      modifies this
      ensures Partialize() == p
    {
      accessToken := p.accessToken;
      imagePreview := p.imagePreview;
    }
  }

  class AuthDialogStore {
    var isAuthDialogOpen: bool

    constructor()
      ensures !isAuthDialogOpen
    {
      isAuthDialogOpen := false;
    }

    method SetAuthDialogOpen(open: bool)
      modifies this
      ensures isAuthDialogOpen == open
    {
      isAuthDialogOpen := open;
    }
  }
}
