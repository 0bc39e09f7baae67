/** src/core/hooks/authStore.ts: a three-field state layered on the
    logged-in storage slot. */
module AuthStore {
  import opened Types
  import opened StorageService

  class Auth {
    var isAuthenticated: bool
    var isLoading: bool
    var error: Option<string>
    const storage: Storage

    /** The initial state: not authenticated, loading, no error. */
    constructor (storage: Storage)
      ensures !isAuthenticated && isLoading && error == None
      ensures this.storage == storage
    {
      isAuthenticated := false;
      isLoading := true;
      error := None;
      this.storage := storage;
    }

    /** `authStore_initializeAuth`: authenticated exactly when the stored
        logged-in email is truthy (so "" reads as logged out). Reading the
        slot cannot fail, so the exception branch of the source is never taken. */
    method InitializeAuth()
      modifies this
      ensures isAuthenticated == TruthyOpt(storage.loggedIn)
      ensures !isLoading && error == None
    {
      isLoading, error := true, None;
      var user := storage.loggedIn;
      isAuthenticated, isLoading := TruthyOpt(user), false;
    }

    /** `authStore_login`: stores the email and marks the session
        authenticated, keeping the loading flag; a storage exception
        propagates (`err`) before any field is set. */
    method Login(email: string) returns (err: Option<string>)
      modifies this, storage
      ensures err == storage.writeFailure
      ensures storage.users == old(storage.users) && isLoading == old(isLoading)
      ensures err.None? ==> storage.loggedIn == Some(email) && isAuthenticated && error == None
      ensures err.Some? ==>
        storage.loggedIn == old(storage.loggedIn) && isAuthenticated == old(isAuthenticated) && error == old(error)
    {
      err := storage.LoginUser(email);
      if err.None? {
        isAuthenticated, error := true, None;
      }
    }

    /** `authStore_logout`: clears the stored email and the session. */
    method Logout()
      modifies this, storage
      ensures storage.loggedIn == None && storage.users == old(storage.users)
      ensures !isAuthenticated && error == None && isLoading == old(isLoading)
    {
      storage.LogoutUser();
      isAuthenticated, error := false, None;
    }
  }

  /** A logout is not undone by a later initialisation. */
  method LogoutThenInitialize(auth: Auth)
    modifies auth, auth.storage
    ensures !auth.isAuthenticated && !auth.isLoading && auth.storage.loggedIn == None
  {
    auth.Logout();
    auth.InitializeAuth();
  }

  /** A successful login survives a later initialisation exactly when the
      email is non-empty: `login("")` authenticates, but a reload reads
      the stored "" as logged out. */
  method LoginThenInitialize(auth: Auth, email: string) returns (err: Option<string>)
    modifies auth, auth.storage
    ensures err == auth.storage.writeFailure
    ensures err.None? ==> auth.isAuthenticated == (email != "")
  {
    err := auth.Login(email);
    auth.InitializeAuth();
  }
}
