/** The session gate (src/contexts/AuthContext.jsx): `isAuthenticated`, `isLoading` and
    `error`, moved by the initial token check, login and logout, which also write the stored
    token and the client's default `Authorization` header. */
module AuthContext {
  import opened Wrappers
  import opened Browser
  import opened Api

  const DefaultLoginError: string := "Login failed. Please try again."

  /** `error.response?.data?.message || "Login failed. Please try again."`. */
  function LoginErrorMessage(f: Failure): (m: string)
    ensures m != ""
    ensures f.Http? && f.cause.Status? && f.cause.message.Some? && f.cause.message.value != "" ==>
              m == f.cause.message.value
    ensures !(f.Http? && f.cause.Status? && f.cause.message.Some? && f.cause.message.value != "") ==>
              m == DefaultLoginError
  {
    match f
    case Http(Status(_, Some(message))) => if message != "" then message else DefaultLoginError
    case _ => DefaultLoginError
  }

  /** A login reply the provider accepts: a body with a truthy token. */
  predicate LoginAccepted(reply: Reply<Option<LoginBody>>)
  {
    reply.Ok? && reply.value.Some? && TokenPresent(reply.value.value.token)
  }

  class AuthProvider {
    var isAuthenticated: bool
    var isLoading: bool
    var error: Option<string>
    const storage: LocalStorage
    const http: HttpDefaults

    /** The provider's initial state: not authenticated, loading, no error. */
    constructor (storage: LocalStorage, http: HttpDefaults)
      ensures this.storage == storage && this.http == http
      ensures !isAuthenticated && isLoading && error == None
    {
      this.storage := storage;
      this.http := http;
      isAuthenticated := false;
      isLoading := true;
      error := None;
    }

    /** `checkAuth`: a stored token is put in the default header and validated; a valid one
        authenticates, an invalid one is removed with the header. Loading ends in every case. */
    method CheckAuth(validation: Reply<()>)
      modifies this, storage, http
      ensures !isLoading && error == old(error)
      ensures storage.geoData == old(storage.geoData)
      ensures !TokenPresent(old(storage.authToken)) ==>
                isAuthenticated == old(isAuthenticated)
                && storage.authToken == old(storage.authToken) && http.authorization == old(http.authorization)
      ensures TokenPresent(old(storage.authToken)) && validation.Ok? ==>
                isAuthenticated && storage.authToken == old(storage.authToken)
                && http.authorization == Some(BearerHeader(old(storage.authToken).value))
      ensures TokenPresent(old(storage.authToken)) && validation.Err? ==>
                isAuthenticated == old(isAuthenticated)
                && storage.authToken == None && http.authorization == None
    {
      var token := storage.authToken;
      if TokenPresent(token) {
        http.authorization := Some(BearerHeader(token.value));
        if validation.Ok? {
          isAuthenticated := true;
        } else {
          storage.authToken := None;
          http.authorization := None;
        }
      }
      isLoading := false;
    }

    /** `login`: a reply with a truthy token stores it, sets the header and authenticates;
        anything else throws, with `error` set from the reply's message or the default text. */
    method Login(reply: Reply<Option<LoginBody>>) returns (r: Result<LoginBody, Failure>)
      modifies this, storage, http
      ensures isLoading == old(isLoading) && storage.geoData == old(storage.geoData)
      ensures LoginAccepted(reply) ==>
                r == Ok(reply.value.value) && isAuthenticated && error == None
                && storage.authToken == reply.value.value.token
                && http.authorization == Some(BearerHeader(reply.value.value.token.value))
                && RequestAuthorization(storage.authToken, http.authorization) == http.authorization
      ensures !LoginAccepted(reply) ==>
                r.Err? && error == Some(LoginErrorMessage(r.error))
                && isAuthenticated == old(isAuthenticated)
                && storage.authToken == old(storage.authToken) && http.authorization == old(http.authorization)
      ensures reply.Err? ==> r == Err(Http(reply.error))
      ensures reply.Ok? && !LoginAccepted(reply) ==> r == Err(InvalidResponse)
    {
      error := None;
      match reply {
        case Err(e) =>
          r := Err(Http(e));
        case Ok(data) =>
          if data.Some? && TokenPresent(data.value.token) {
            storage.authToken := data.value.token;
            http.authorization := Some(BearerHeader(data.value.token.value));
            isAuthenticated := true;
            r := Ok(data.value);
            return;
          }
          r := Err(InvalidResponse);
      }
      error := Some(LoginErrorMessage(r.error));
    }

    /** `logout`: from any state, the token and the header are removed and the session ends;
        later requests go out without an `Authorization` header. */
    method Logout()
      modifies this, storage, http
      ensures !isAuthenticated && storage.authToken == None && http.authorization == None
      ensures isLoading == old(isLoading) && error == old(error)
      ensures storage.geoData == old(storage.geoData)
      ensures RequestAuthorization(storage.authToken, http.authorization) == None
    {
      storage.authToken := None;
      http.authorization := None;
      isAuthenticated := false;
    }
  }

  /** Mounting the provider and running the initial check: it ends not loading, and
      authenticated exactly when a stored token validated. */
  method Mount(storage: LocalStorage, http: HttpDefaults, validation: Reply<()>) returns (p: AuthProvider)
    modifies storage, http
    ensures fresh(p) && p.storage == storage && p.http == http
    ensures !p.isLoading && p.error == None
    ensures p.isAuthenticated <==> TokenPresent(old(storage.authToken)) && validation.Ok?
  {
    p := new AuthProvider(storage, http);
    p.CheckAuth(validation);
  }
}
