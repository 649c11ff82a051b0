/**
 * The session-based authentication routes of the Express server: register,
 * login, logout, e-mail verification, the password-reset pair, the
 * `/api/protected` guard and `/api/me`. Each handler is a ladder of checks
 * ending in a status code; the storage methods, bcrypt and the mailer it calls
 * are the fields of a `Backend`, each returning a value or throwing.
 */
module ServerAuth {
  import opened Wrappers
  import opened Http
  import Schema

  /** `req.session`: the user id written at login and the admin flag read by the product routes. */
  datatype Session = Session(userId: Option<int>, isAdmin: Option<bool>)

  /** The session of a client that has not logged in. */
  const FreshSession: Session := Session(None, None)

  /** `req.session.userId` is truthy (an id of 0 would not be). */
  predicate SignedIn(s: Session) {
    s.userId.Some? && s.userId.value != 0
  }

  /** `req.session.isAdmin` is truthy. */
  predicate IsAdmin(s: Session) {
    s.isAdmin == Some(true)
  }

  /** `user.emailVerified` is truthy. */
  predicate EmailVerified(u: User) {
    u.emailVerified == Some(true)
  }

  /** The calls the handlers make into storage, bcrypt and the mailer. */
  datatype Backend = Backend(
    getUserByUsername: string -> Call<Option<User>>,
    getUserByEmail: string -> Call<Option<User>>,
    getUserById: int -> Call<Option<User>>,
    createUser: Schema.InsertUser -> Call<User>,
    verifyEmail: string -> Call<bool>,
    setResetToken: Value -> Call<Option<string>>,
    resetPassword: (Value, string) -> Call<bool>,
    hashPassword: string -> Call<string>,
    comparePasswords: (string, string) -> Call<bool>,
    sendVerificationEmail: (string, string) -> Call<()>,
    sendPasswordResetEmail: (Value, string) -> Call<()>)

  /** A handler's response together with the session it leaves behind. */
  datatype SessionOutcome = SessionOutcome(response: Response, session: Session)

  /** The registration response, and the row passed to `createUser` if the handler got that far. */
  datatype RegisterOutcome = RegisterOutcome(response: Response, created: Option<Schema.InsertUser>)

  const RegistrationMessage: string := "Registration successful. Please check your email to verify your account."

  /** The five fields the registration response reports. */
  function Registered(u: User): RegisteredUser {
    RegisteredUser(u.id, u.username, u.email, u.emailVerified, u.isAdmin)
  }

  /** The body's three fields with the password replaced by its bcrypt hash. */
  function ToStore(data: Schema.InsertUser, hash: string): (r: Schema.InsertUser)
    ensures r.username == data.username && r.email == data.email && r.password == hash
  {
    data.(password := hash)
  }

  /**
   * POST /api/register. An invalid body is refused before any lookup; a taken
   * username is refused before the e-mail is looked at; only a new username
   * and e-mail reach `createUser`, which receives the hash of the password and
   * never the password itself. Any exception, including one from the mailer
   * after the row was created, becomes 500.
   */
  function Register(body: Schema.UserBody, isEmail: string -> bool, env: Backend): (r: RegisterOutcome)
    ensures !Schema.UserRules(body, isEmail) ==> r == RegisterOutcome(Error(400, "Invalid user data"), None)
    ensures Schema.UserRules(body, isEmail) && env.getUserByUsername(body.username.s) == Returns(None)
            && env.getUserByEmail(body.email.s).Returns? && env.getUserByEmail(body.email.s).result.Some? ==>
      r == RegisterOutcome(Error(400, "Email already registered"), None)
    ensures Schema.UserRules(body, isEmail)
            && env.getUserByUsername(body.username.s).Returns? && env.getUserByUsername(body.username.s).result.Some? ==>
      r == RegisterOutcome(Error(400, "Username already taken"), None)
    ensures r.created.Some? ==>
      && Schema.UserRules(body, isEmail)
      && env.getUserByUsername(body.username.s) == Returns(None)
      && env.getUserByEmail(body.email.s) == Returns(None)
      && env.hashPassword(body.password.s).Returns?
      && r.created.value == Schema.InsertUser(body.username.s, body.email.s, env.hashPassword(body.password.s).result)
    ensures r.response.status == 201 <==>
      r.created.Some? && env.createUser(r.created.value).Returns?
      && var u := env.createUser(r.created.value).result;
         (u.verificationToken.Some? && u.verificationToken.value != "" ==>
            env.sendVerificationEmail(body.email.s, u.verificationToken.value).Returns?)
    ensures r.response.status == 201 ==>
      r.response.body == RegisteredJson(RegistrationMessage, Registered(env.createUser(r.created.value).result))
    ensures Schema.UserRules(body, isEmail) && env.getUserByUsername(body.username.s).Throws? ==>
      r == RegisterOutcome(Error(500, "Registration failed"), None)
    ensures Schema.UserRules(body, isEmail) && env.getUserByUsername(body.username.s) == Returns(None)
            && env.getUserByEmail(body.email.s).Throws? ==>
      r == RegisterOutcome(Error(500, "Registration failed"), None)
    ensures Schema.UserRules(body, isEmail) && env.getUserByUsername(body.username.s) == Returns(None)
            && env.getUserByEmail(body.email.s) == Returns(None) && env.hashPassword(body.password.s).Throws? ==>
      r == RegisterOutcome(Error(500, "Registration failed"), None)
    ensures r.created.Some? && r.response.status != 201 ==> r.response == Error(500, "Registration failed")
    ensures Schema.UserRules(body, isEmail) && env.getUserByUsername(body.username.s) == Returns(None)
            && env.getUserByEmail(body.email.s) == Returns(None) && env.hashPassword(body.password.s).Returns? ==>
      r.created == Some(Schema.InsertUser(body.username.s, body.email.s, env.hashPassword(body.password.s).result))
    ensures r.response.status in {201, 400, 500}
  {
    match Schema.ParseUser(body, isEmail)
    case Failure(_) => RegisterOutcome(Error(400, "Invalid user data"), None)
    case Success(data) =>
      match env.getUserByUsername(data.username)
      case Throws => RegisterOutcome(Error(500, "Registration failed"), None)
      case Returns(Some(_)) => RegisterOutcome(Error(400, "Username already taken"), None)
      case Returns(None) =>
        match env.getUserByEmail(data.email)
        case Throws => RegisterOutcome(Error(500, "Registration failed"), None)
        case Returns(Some(_)) => RegisterOutcome(Error(400, "Email already registered"), None)
        case Returns(None) =>
          match env.hashPassword(data.password)
          case Throws => RegisterOutcome(Error(500, "Registration failed"), None)
          case Returns(hash) =>
            var row := ToStore(data, hash);
            match env.createUser(row)
            case Throws => RegisterOutcome(Error(500, "Registration failed"), Some(row))
            case Returns(user) =>
              var mailed :=
                if user.verificationToken.Some? && user.verificationToken.value != "" then
                  env.sendVerificationEmail(data.email, user.verificationToken.value).Returns?
                else true;
              if mailed then
                RegisterOutcome(Response(201, RegisteredJson(RegistrationMessage, Registered(user))), Some(row))
              else RegisterOutcome(Error(500, "Registration failed"), Some(row))
  }

  /** How a login attempt ends before the session is written: the user, or the refusal. */
  datatype Authentication = Authenticated(user: User) | Refused(response: Response)

  /**
   * The checks of POST /api/login, in order: an unknown username, then an
   * unverified e-mail (before any password comparison), then a wrong password.
   * Unknown user and wrong password get the same 401 message.
   */
  function Authenticate(username: string, password: string, env: Backend): (r: Authentication)
    ensures r.Authenticated? <==>
      && env.getUserByUsername(username).Returns? && env.getUserByUsername(username).result.Some?
      && EmailVerified(env.getUserByUsername(username).result.value)
      && env.comparePasswords(password, env.getUserByUsername(username).result.value.password) == Returns(true)
    ensures r.Authenticated? ==> r.user == env.getUserByUsername(username).result.value
    ensures env.getUserByUsername(username) == Returns(None) ==> r == Refused(Error(401, "Invalid credentials"))
    ensures env.getUserByUsername(username).Returns? && env.getUserByUsername(username).result.Some?
            && !EmailVerified(env.getUserByUsername(username).result.value) ==>
      r == Refused(Error(401, "Please verify your email first"))
    ensures env.getUserByUsername(username).Returns? && env.getUserByUsername(username).result.Some?
            && EmailVerified(env.getUserByUsername(username).result.value)
            && env.comparePasswords(password, env.getUserByUsername(username).result.value.password) == Returns(false) ==>
      r == Refused(Error(401, "Invalid credentials"))
    ensures env.getUserByUsername(username).Throws? ==> r == Refused(Error(500, "Login failed"))
    ensures env.getUserByUsername(username).Returns? && env.getUserByUsername(username).result.Some?
            && EmailVerified(env.getUserByUsername(username).result.value)
            && env.comparePasswords(password, env.getUserByUsername(username).result.value.password).Throws? ==>
      r == Refused(Error(500, "Login failed"))
    ensures r.Refused? ==> r.response.status in {401, 500}
  {
    match env.getUserByUsername(username)
    case Throws => Refused(Error(500, "Login failed"))
    case Returns(None) => Refused(Error(401, "Invalid credentials"))
    case Returns(Some(user)) =>
      if !EmailVerified(user) then Refused(Error(401, "Please verify your email first"))
      else
        match env.comparePasswords(password, user.password)
        case Throws => Refused(Error(500, "Login failed"))
        case Returns(false) => Refused(Error(401, "Invalid credentials"))
        case Returns(true) => Authenticated(user)
  }

  /**
   * POST /api/login: on success the session gets the user's id and the
   * response is the user without the password hash; the admin flag of the
   * session is never written; a refused attempt leaves the session alone.
   */
  function Login(username: string, password: string, session: Session, env: Backend): (r: SessionOutcome)
    ensures r.session.isAdmin == session.isAdmin
    ensures r.response.status == 200 <==> Authenticate(username, password, env).Authenticated?
    ensures r.response.status == 200 ==>
      var user := Authenticate(username, password, env).user;
      r.session == session.(userId := Some(user.id)) && r.response.body == UserJson(WithoutPassword(user))
    ensures r.response.status != 200 ==>
      r.session == session && r.response == Authenticate(username, password, env).response
  {
    match Authenticate(username, password, env)
    case Refused(response) => SessionOutcome(response, session)
    case Authenticated(user) =>
      SessionOutcome(Response(200, UserJson(WithoutPassword(user))), session.(userId := Some(user.id)))
  }

  /**
   * Login as it was evidently meant to work: like `Login`, but a successful
   * login also records in the session whether the user is an administrator.
   */
  function LoginRecordingAdmin(username: string, password: string, session: Session, env: Backend): (r: SessionOutcome)
    ensures r.response == Login(username, password, session, env).response
    ensures r.session.userId == Login(username, password, session, env).session.userId
    ensures Authenticate(username, password, env).Authenticated? ==>
      (IsAdmin(r.session) <==> Authenticate(username, password, env).user.isAdmin == Some(true))
    ensures Authenticate(username, password, env).Refused? ==> r.session == session
  {
    var outcome := Login(username, password, session, env);
    match Authenticate(username, password, env)
    case Refused(_) => outcome
    case Authenticated(user) =>
      outcome.(session := outcome.session.(isAdmin := Some(user.isAdmin == Some(true))))
  }

  /** For an unverified user the password is never compared: the outcome is the same whatever bcrypt would say. */
  lemma UnverifiedLoginIgnoresPassword(username: string, password: string, session: Session, env: Backend,
                                       compare: (string, string) -> Call<bool>)
    requires env.getUserByUsername(username).Returns? && env.getUserByUsername(username).result.Some?
    requires !EmailVerified(env.getUserByUsername(username).result.value)
    ensures Login(username, password, session, env.(comparePasswords := compare))
         == Login(username, password, session, env)
    ensures Login(username, password, session, env).response == Error(401, "Please verify your email first")
  {
  }

  /**
   * POST /api/logout: when the session store destroys the session the client is
   * signed out; when it reports an error the response is 500.
   */
  function Logout(session: Session, destroyFailed: bool): (r: SessionOutcome)
    ensures destroyFailed <==> r.response == Error(500, "Logout failed")
    ensures !destroyFailed ==> r.session == FreshSession && r.response == Response(200, MessageJson("Logged out successfully"))
    ensures r.session.isAdmin == session.isAdmin || r.session.isAdmin == None
  {
    if destroyFailed then SessionOutcome(Error(500, "Logout failed"), session)
    else SessionOutcome(Response(200, MessageJson("Logged out successfully")), FreshSession)
  }

  /**
   * GET /api/verify-email: only a non-empty string token reaches storage; a token
   * storage does not accept is 400, a storage failure 500.
   */
  function VerifyEmail(token: Value, env: Backend): (r: Response)
    ensures !(token.Str? && token.s != "") ==> r == Error(400, "Invalid token")
    ensures r.status == 200 <==> token.Str? && token.s != "" && env.verifyEmail(token.s) == Returns(true)
    ensures r.status == 200 ==> r.body == MessageJson("Email verified successfully")
    ensures token.Str? && token.s != "" && env.verifyEmail(token.s) == Returns(false) ==>
      r == Error(400, "Invalid or expired token")
    ensures token.Str? && token.s != "" && env.verifyEmail(token.s).Throws? ==> r == Error(500, "Email verification failed")
    ensures r.status in {200, 400, 500}
  {
    if !Truthy(token) || !token.Str? then Error(400, "Invalid token")
    else
      match env.verifyEmail(token.s)
      case Throws => Error(500, "Email verification failed")
      case Returns(false) => Error(400, "Invalid or expired token")
      case Returns(true) => Response(200, MessageJson("Email verified successfully"))
  }

  /** A reset token as the handler tests it: present and non-empty. */
  predicate IssuedToken(t: Option<string>) {
    t.Some? && t.value != ""
  }

  /**
   * POST /api/forgot-password: a missing e-mail is 400; an e-mail for which no
   * reset token is issued is 404; otherwise the reset mail is sent with the
   * issued token.
   */
  function ForgotPassword(email: Value, env: Backend): (r: Response)
    ensures !Truthy(email) ==> r == Error(400, "Email is required")
    ensures Truthy(email) && env.setResetToken(email).Returns? && !IssuedToken(env.setResetToken(email).result) ==>
      r == Error(404, "User not found")
    ensures r.status == 200 <==>
      && Truthy(email) && env.setResetToken(email).Returns? && IssuedToken(env.setResetToken(email).result)
      && env.sendPasswordResetEmail(email, env.setResetToken(email).result.value).Returns?
    ensures r.status == 200 ==> r.body == MessageJson("Password reset email sent")
    ensures Truthy(email) && env.setResetToken(email).Throws? ==> r == Error(500, "Failed to send reset email")
    ensures Truthy(email) && env.setResetToken(email).Returns? && IssuedToken(env.setResetToken(email).result)
            && env.sendPasswordResetEmail(email, env.setResetToken(email).result.value).Throws? ==>
      r == Error(500, "Failed to send reset email")
    ensures r.status in {200, 400, 404, 500}
  {
    if !Truthy(email) then Error(400, "Email is required")
    else
      match env.setResetToken(email)
      case Throws => Error(500, "Failed to send reset email")
      case Returns(token) =>
        if !IssuedToken(token) then Error(404, "User not found")
        else
          match env.sendPasswordResetEmail(email, token.value)
          case Throws => Error(500, "Failed to send reset email")
          case Returns(_) => Response(200, MessageJson("Password reset email sent"))
  }

  /** `hashPassword` on a request value: bcrypt rejects anything but a string by throwing. */
  function HashValue(password: Value, env: Backend): Call<string> {
    if password.Str? then env.hashPassword(password.s) else Throws
  }

  /**
   * POST /api/reset-password: both fields are required; storage receives the
   * token and the hash of the new password, and a refusal from it is 400.
   */
  function ResetPassword(token: Value, password: Value, env: Backend): (r: Response)
    ensures !Truthy(token) || !Truthy(password) ==> r == Error(400, "Token and password are required")
    ensures r.status == 200 <==>
      && Truthy(token) && password.Str? && password.s != ""
      && env.hashPassword(password.s).Returns?
      && env.resetPassword(token, env.hashPassword(password.s).result) == Returns(true)
    ensures r.status == 200 ==> r.body == MessageJson("Password reset successfully")
    ensures Truthy(token) && password.Str? && password.s != "" && env.hashPassword(password.s).Returns?
            && env.resetPassword(token, env.hashPassword(password.s).result) == Returns(false) ==>
      r == Error(400, "Invalid or expired token")
    ensures Truthy(token) && Truthy(password) && (!password.Str? || env.hashPassword(password.s).Throws?) ==>
      r == Error(500, "Password reset failed")
    ensures Truthy(token) && password.Str? && password.s != "" && env.hashPassword(password.s).Returns?
            && env.resetPassword(token, env.hashPassword(password.s).result).Throws? ==>
      r == Error(500, "Password reset failed")
    ensures r.status in {200, 400, 500}
  {
    if !Truthy(token) || !Truthy(password) then Error(400, "Token and password are required")
    else
      match HashValue(password, env)
      case Throws => Error(500, "Password reset failed")
      case Returns(hash) =>
        match env.resetPassword(token, hash)
        case Throws => Error(500, "Password reset failed")
        case Returns(false) => Error(400, "Invalid or expired token")
        case Returns(true) => Response(200, MessageJson("Password reset successfully"))
  }

  /** The `/api/protected` middleware: `None` lets the request through. */
  function ProtectedGuard(session: Session): (r: Option<Response>)
    ensures r.None? <==> SignedIn(session)
    ensures r.Some? ==> r.value == Error(401, "Unauthorized")
  {
    if !SignedIn(session) then Some(Error(401, "Unauthorized")) else None
  }

  /**
   * GET /api/me: 401 without a signed-in session, before storage is asked;
   * 404 for an id storage does not know; otherwise the stored user without the
   * password hash.
   */
  function Me(session: Session, env: Backend): (r: Response)
    ensures !SignedIn(session) ==> r == Error(401, "Not authenticated")
    ensures r.status == 200 <==>
      SignedIn(session) && env.getUserById(session.userId.value).Returns?
      && env.getUserById(session.userId.value).result.Some?
    ensures r.status == 200 ==>
      r.body == UserJson(WithoutPassword(env.getUserById(session.userId.value).result.value))
    ensures SignedIn(session) && env.getUserById(session.userId.value) == Returns(None) ==>
      r == Error(404, "User not found")
    ensures SignedIn(session) && env.getUserById(session.userId.value).Throws? ==>
      r == Error(500, "Failed to get user data")
    ensures r.status in {200, 401, 404, 500}
  {
    if !SignedIn(session) then Error(401, "Not authenticated")
    else
      match env.getUserById(session.userId.value)
      case Throws => Error(500, "Failed to get user data")
      case Returns(None) => Error(404, "User not found")
      case Returns(Some(user)) => Response(200, UserJson(WithoutPassword(user)))
  }

  /** A request that writes the session. */
  datatype SessionRequest = LoginRequest(username: string, password: string) | LogoutRequest(destroyFailed: bool)

  /** The session after a series of login and logout requests handled by this server. */
  function Replay(session: Session, requests: seq<SessionRequest>, env: Backend): Session
    decreases |requests|
  {
    if requests == [] then session
    else
      var next := match requests[0]
        case LoginRequest(username, password) => Login(username, password, session, env).session
        case LogoutRequest(destroyFailed) => Logout(session, destroyFailed).session;
      Replay(next, requests[1..], env)
  }

  /** No series of logins and logouts ever gives a fresh session the admin flag. */
  lemma {:induction false} ReplayNeverGrantsAdmin(session: Session, requests: seq<SessionRequest>, env: Backend)
    requires !IsAdmin(session)
    ensures !IsAdmin(Replay(session, requests, env))
    decreases |requests|
  {
    if requests != [] {
      var next := match requests[0]
        case LoginRequest(username, password) => Login(username, password, session, env).session
        case LogoutRequest(destroyFailed) => Logout(session, destroyFailed).session;
      ReplayNeverGrantsAdmin(next, requests[1..], env);
    }
  }
}
