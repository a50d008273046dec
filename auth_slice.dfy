/**
 * The login/logout session reducer. The login and logout requests are modelled
 * by their outcome; their one side effect, writing or removing the token in
 * durable storage, is done on the `storage` object.
 */
module AuthSlice {
  import opened Wrappers
  import opened Records
  import opened Requests
  import opened Storage

  /** The body of a successful login response, also the payload of `setCredentials`. */
  datatype Credentials = Credentials(user: User, token: string)

  const LoginFallback: string := "Login failed"

  class Session {
    const storage: LocalStorage
    var user: Option<User>
    var token: Option<string>
    var isLoading: bool
    var error: Option<string>
    var isAuthenticated: bool

    /** The initial state: nobody logged in. Storage is not read, whatever token it holds. */
    constructor (storage: LocalStorage)
      ensures this.storage == storage
      ensures user == None && token == None && !isLoading && error == None && !isAuthenticated
    {
      this.storage := storage;
      user := None;
      token := None;
      isLoading := false;
      error := None;
      isAuthenticated := false;
    }

    /** `clearError`: only `error` changes. */
    method ClearError()
      modifies this`error
      ensures error == None
    {
      error := None;
    }

    /** `setCredentials`: loading state and error are untouched. */
    method SetCredentials(payload: Credentials)
      modifies this`user, this`token, this`isAuthenticated
      ensures user == Some(payload.user) && token == Some(payload.token) && isAuthenticated
    {
      user := Some(payload.user);
      token := Some(payload.token);
      isAuthenticated := true;
    }

    /** `clearCredentials`: loading state and error are untouched. */
    method ClearCredentials()
      modifies this`user, this`token, this`isAuthenticated
      ensures user == None && token == None && !isAuthenticated
    {
      user := None;
      token := None;
      isAuthenticated := false;
    }

    /** Login pending: the session fields stay as they were. */
    method LoginPending()
      modifies this`isLoading, this`error
      ensures isLoading && error == None
    {
      isLoading := true;
      error := None;
    }

    /** A successful login: the token is stored under "token", then the session is set from the response. */
    method LoginFulfilled(payload: Credentials)
      modifies storage, this`isLoading, this`user, this`token, this`isAuthenticated, this`error
      ensures storage.entries == old(storage.entries)[TokenKey := payload.token]
      ensures user == Some(payload.user) && token == Some(payload.token)
      ensures isAuthenticated && !isLoading && error == None
    {
      storage.SetItem(TokenKey, payload.token);
      isLoading := false;
      user := Some(payload.user);
      token := Some(payload.token);
      isAuthenticated := true;
      error := None;
    }

    /**
     * A failed login: storage is untouched and the session is marked
     * unauthenticated, but `user` and `token` keep their earlier values.
     */
    method LoginRejected(serverError: Option<string>)
      modifies this`isLoading, this`error, this`isAuthenticated
      ensures !isLoading && !isAuthenticated
      ensures error == Some(RejectionMessage(serverError, LoginFallback))
      ensures error.Some? && error.value != ""
    {
      isLoading := false;
      error := Some(RejectionMessage(serverError, LoginFallback));
      isAuthenticated := false;
    }

    /** Logout (it cannot fail): the stored token is removed and the session cleared; `isLoading` is untouched. */
    method LogoutFulfilled()
      modifies storage, this`user, this`token, this`isAuthenticated, this`error
      ensures storage.entries == old(storage.entries) - {TokenKey}
      ensures user == None && token == None && !isAuthenticated && error == None
    {
      storage.RemoveItem(TokenKey);
      user := None;
      token := None;
      isAuthenticated := false;
      error := None;
    }
  }
}
