/** The authentication slice: the session token, the signed-in flag and the
    two-factor challenge between a password login and its OTP confirmation.
    The browser's persisted token is passed in where the source reads it. */
module AuthSlice {
  import opened Common

  /** The body the server answers a sign-up, sign-in or OTP check with. In a
      two-factor challenge `jwt` is absent and `session` identifies the
      pending login. `twoFactorRequired` (its truthiness) and `sessionId`
      are the fields of those names in the body: the reducer reads them off
      a plain login's response as well as off a challenge. */
  datatype AuthResponse = AuthResponse(
    jwt: Option<string>,
    message: Option<string>,
    twoFactorAuthEnabled: bool,
    session: Option<string>,
    twoFactorRequired: bool,
    sessionId: Option<string>)

  /** What the login thunk fulfils with: either a challenge built from the
      response, or the response itself. */
  datatype LoginPayload =
    | TwoFactorChallenge(message: Option<string>, sessionId: Option<string>)
    | SignedIn(response: AuthResponse)

  /** The four thunks that can fail with a message. */
  datatype Operation = Register | Login | VerifyOtp | FetchUserProfile

  /** The actions the slice's reducer receives. */
  datatype Action =
    | Pending(op: Operation)
    | Rejected(op: Operation, message: string)
    | RegisterFulfilled(registered: AuthResponse)
    | LoginFulfilled(payload: LoginPayload)
    | VerifyOtpFulfilled(verified: AuthResponse)
    | FetchUserProfileFulfilled(profile: Json)
    | LogoutPending
    | LogoutFulfilled
    | LogoutRejected

  /** Where the session stands, read off the two flags. */
  datatype SessionPhase = Anonymous | TwoFactorPending | LoggedIn

  /** The token the slice starts with: the persisted one, with an empty
      string read as no token (`getItem(..) || null`). */
  function InitialJwt(persisted: Option<string>): (jwt: Option<string>)
    ensures jwt.Some? <==> Truthy(persisted)
    ensures jwt.Some? ==> jwt == persisted && jwt.value != ""
  {
    if Truthy(persisted) then persisted else None
  }

  /** The login thunk's result: a challenge exactly when the server reports
      two-factor authentication, carrying its message and session id;
      otherwise the response unchanged. */
  function LoginPayloadOf(response: AuthResponse): (payload: LoginPayload)
    ensures payload.TwoFactorChallenge? <==> response.twoFactorAuthEnabled
    ensures payload.TwoFactorChallenge? ==>
      payload.sessionId == response.session && payload.message == response.message
    ensures payload.SignedIn? ==> payload.response == response
  {
    if response.twoFactorAuthEnabled
    then TwoFactorChallenge(response.message, response.session)
    else SignedIn(response)
  }

  /** `action.payload.twoFactorRequired`, the test the reducer branches on:
      always set in a challenge, and whatever the response carries in a
      plain login. */
  predicate OpensChallenge(payload: LoginPayload)
  {
    match payload
    case TwoFactorChallenge(_, _) => true
    case SignedIn(response) => response.twoFactorRequired
  }

  /** `action.payload.sessionId` */
  function PayloadSessionId(payload: LoginPayload): Option<string>
  {
    match payload
    case TwoFactorChallenge(_, id) => id
    case SignedIn(response) => response.sessionId
  }

  /** The reducer opens a challenge for a login exactly when the server
      reports two-factor authentication or the response itself carries a
      truthy `twoFactorRequired`; the session id it keeps is the server's
      `session` in the first case and the response's `sessionId` in the
      second. */
  lemma LoginOpensChallenge(response: AuthResponse)
    ensures OpensChallenge(LoginPayloadOf(response)) <==>
      response.twoFactorAuthEnabled || response.twoFactorRequired
    ensures response.twoFactorAuthEnabled ==>
      PayloadSessionId(LoginPayloadOf(response)) == response.session
    ensures !response.twoFactorAuthEnabled ==>
      PayloadSessionId(LoginPayloadOf(response)) == response.sessionId
  {
  }

  /** The token the login thunk writes to storage, `None` when it writes
      nothing: a two-factor challenge persists no token, a plain login
      persists the token it fulfils the reducer with. */
  function LoginTokenWrite(response: AuthResponse): (write: Option<Option<string>>)
    ensures write.None? <==> LoginPayloadOf(response).TwoFactorChallenge?
    ensures write.Some? ==> write.value == LoginPayloadOf(response).response.jwt
  {
    if response.twoFactorAuthEnabled then None else Some(response.jwt)
  }

  /** The fixed message a thunk falls back to when the server sent none:
      a thunk rejects with `MessageOr(err, DefaultMessage(op))`. */
  function DefaultMessage(op: Operation): string
  {
    match op
    case Register => "Registration failed"
    case Login => "Login failed"
    case VerifyOtp => "OTP verification failed"
    case FetchUserProfile => "Failed to load profile"
  }

  /** The slice state (`AuthState` in the source), updated in place by the
      reducer. `user` is the profile as the server sent it. */
  class AuthState {
    var user: Json
    var jwt: Option<string>
    var loading: bool
    var error: Option<string>
    var isLoggedIn: bool
    var twoFactorRequired: bool
    var sessionId: Option<string>

    /** Holds in every state the reducer can reach: a token is only held
        while signed in, and a session id only while a challenge is open. */
    ghost predicate Valid()
      reads this
    {
      (jwt.Some? ==> isLoggedIn) && (sessionId.Some? ==> twoFactorRequired)
    }

    function Phase(): SessionPhase
      reads this
    {
      if isLoggedIn then LoggedIn
      else if twoFactorRequired then TwoFactorPending
      else Anonymous
    }

    /** `initialState`, given what storage holds under `user_jwt`: signed in
        exactly when a non-empty token was persisted. */
    constructor (persisted: Option<string>)
      ensures Valid()
      ensures jwt == InitialJwt(persisted)
      ensures isLoggedIn <==> Truthy(persisted)
      ensures user == JNull && !loading && error == None
      ensures !twoFactorRequired && sessionId == None
    {
      user := JNull;
      jwt := InitialJwt(persisted);
      loading := false;
      error := None;
      isLoggedIn := Truthy(persisted);
      twoFactorRequired := false;
      sessionId := None;
    }

    /** The slice's reducer (`extraReducers`). */
    method Reduce(action: Action)
      requires Valid()
      modifies this
      ensures Valid()
      // every pending: start loading, clear the error, nothing else
      ensures action.Pending? ==>
        loading && error == None && user == old(user) && jwt == old(jwt)
        && isLoggedIn == old(isLoggedIn) && twoFactorRequired == old(twoFactorRequired)
        && sessionId == old(sessionId)
      // every rejected: stop loading, keep the message, the session is untouched
      ensures action.Rejected? ==>
        !loading && error == Some(action.message) && user == old(user) && jwt == old(jwt)
        && isLoggedIn == old(isLoggedIn) && twoFactorRequired == old(twoFactorRequired)
        && sessionId == old(sessionId)
      ensures action.RegisterFulfilled? ==>
        !loading && jwt == action.registered.jwt && isLoggedIn && error == old(error)
        && user == old(user) && twoFactorRequired == old(twoFactorRequired)
        && sessionId == old(sessionId)
      // a challenge opens the two-factor step and leaves the token alone
      ensures action.LoginFulfilled? && OpensChallenge(action.payload) ==>
        !loading && twoFactorRequired && sessionId == PayloadSessionId(action.payload)
        && jwt == old(jwt) && isLoggedIn == old(isLoggedIn)
        && user == old(user) && error == old(error)
      ensures action.LoginFulfilled? && OpensChallenge(action.payload) ==>
        Phase() == (if old(isLoggedIn) then LoggedIn else TwoFactorPending)
      ensures action.LoginFulfilled? && !OpensChallenge(action.payload) ==>
        action.payload.SignedIn?
        && !loading && jwt == action.payload.response.jwt && isLoggedIn
        && !twoFactorRequired && sessionId == None
        && user == old(user) && error == old(error)
      ensures action.VerifyOtpFulfilled? ==>
        !loading && jwt == action.verified.jwt && isLoggedIn
        && !twoFactorRequired && sessionId == None
        && user == old(user) && error == old(error)
      ensures action.FetchUserProfileFulfilled? ==>
        !loading && user == action.profile && error == old(error) && jwt == old(jwt)
        && isLoggedIn == old(isLoggedIn) && twoFactorRequired == old(twoFactorRequired)
        && sessionId == old(sessionId)
      // logging out ends every session phase but leaves `loading` as it was
      ensures action.LogoutFulfilled? ==>
        jwt == None && !isLoggedIn && !twoFactorRequired && sessionId == None
        && user == JNull && error == None && loading == old(loading)
      ensures action.LogoutFulfilled? ==> Phase() == Anonymous
      ensures action.LoginFulfilled? && !OpensChallenge(action.payload) ==> Phase() == LoggedIn
      ensures action.VerifyOtpFulfilled? || action.RegisterFulfilled? ==> Phase() == LoggedIn
      ensures action.LogoutPending? || action.LogoutRejected? ==>
        user == old(user) && jwt == old(jwt) && loading == old(loading) && error == old(error)
        && isLoggedIn == old(isLoggedIn) && twoFactorRequired == old(twoFactorRequired)
        && sessionId == old(sessionId)
    {
      match action
      case Pending(_) =>
        loading := true;
        error := None;
      case Rejected(_, message) =>
        loading := false;
        error := Some(message);
      case RegisterFulfilled(registered) =>
        loading := false;
        jwt := registered.jwt;
        isLoggedIn := true;
      case LoginFulfilled(payload) =>
        loading := false;
        if OpensChallenge(payload) {
          twoFactorRequired := true;
          sessionId := PayloadSessionId(payload);
        } else {
          jwt := payload.response.jwt;
          isLoggedIn := true;
          twoFactorRequired := false;
          sessionId := None;
        }
      case VerifyOtpFulfilled(verified) =>
        loading := false;
        jwt := verified.jwt;
        isLoggedIn := true;
        twoFactorRequired := false;
        sessionId := None;
      case FetchUserProfileFulfilled(profile) =>
        loading := false;
        user := profile;
      case LogoutPending =>
      case LogoutFulfilled =>
        jwt := None;
        isLoggedIn := false;
        twoFactorRequired := false;
        sessionId := None;
        user := JNull;
        error := None;
      case LogoutRejected =>
    }
  }
}
