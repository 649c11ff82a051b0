/**
 * The serverless login endpoint: it checks the credentials against the `users`
 * table, signs a JWT carrying the user's identity and admin flag, returns it in
 * the body and sets it as a cookie. Unlike the session server it does not look
 * at the e-mail verification flag.
 */
module ApiLogin {
  import opened Wrappers
  import opened Http
  import opened Strings
  import Jwt

  /** The response and the `Set-Cookie` header, when one is set. */
  datatype LoginReply = LoginReply(response: Response, setCookie: Option<string>)

  const BadCredentials: string := "Credenciales inválidas"

  /** The cookie's attributes; its lifetime is the seven days the token is signed for. */
  const CookieAttributes: string := [';'] + " Path=/; HttpOnly; Secure; SameSite=Strict; Max-Age=604800"

  /** What the token says about a user; a missing admin flag counts as false. */
  function PayloadOf(u: User): (r: Jwt.Payload)
    ensures r.userId == u.id && r.username == u.username && r.email == u.email
    ensures r.isAdmin <==> u.isAdmin == Some(true)
  {
    Jwt.Payload(u.id, u.username, u.email, u.isAdmin == Some(true))
  }

  /** The `Set-Cookie` value carrying the token. */
  function TokenCookie(token: string): string {
    "token=" + token + CookieAttributes
  }

  /**
   * The handler: only POST is served; an unknown username and a wrong password
   * get the same 401; a match signs the payload, sets the cookie and returns the
   * user without the password hash next to the token; a throw is 500.
   */
  function Login(verb: string, username: string, password: string,
                 findByUsername: string -> Call<Option<User>>,
                 compare: (string, string) -> Call<bool>,
                 sign: Jwt.Payload -> string): (r: LoginReply)
    ensures verb != "POST" ==> r == LoginReply(Error(405, "Method not allowed"), None)
    ensures r.response.status == 200 <==>
      && verb == "POST" && findByUsername(username).Returns? && findByUsername(username).result.Some?
      && compare(password, findByUsername(username).result.value.password) == Returns(true)
    ensures r.response.status == 200 ==>
      var user := findByUsername(username).result.value;
      var token := sign(PayloadOf(user));
      r.response.body == LoginJson(WithoutPassword(user), token) && r.setCookie == Some(TokenCookie(token))
    ensures r.setCookie.Some? <==> r.response.status == 200
    ensures verb == "POST" && findByUsername(username) == Returns(None) ==>
      r.response == Error(401, BadCredentials)
    ensures verb == "POST" && findByUsername(username).Returns? && findByUsername(username).result.Some?
            && compare(password, findByUsername(username).result.value.password) == Returns(false) ==>
      r.response == Error(401, BadCredentials)
    ensures verb == "POST" && findByUsername(username).Throws? ==>
      r == LoginReply(Error(500, "Error interno del servidor"), None)
    ensures verb == "POST" && findByUsername(username).Returns? && findByUsername(username).result.Some?
            && compare(password, findByUsername(username).result.value.password).Throws? ==>
      r == LoginReply(Error(500, "Error interno del servidor"), None)
    ensures r.response.status in {200, 401, 405, 500}
  {
    if verb != "POST" then LoginReply(Error(405, "Method not allowed"), None)
    else
      match findByUsername(username)
      case Throws => LoginReply(Error(500, "Error interno del servidor"), None)
      case Returns(None) => LoginReply(Error(401, BadCredentials), None)
      case Returns(Some(user)) =>
        match compare(password, user.password)
        case Throws => LoginReply(Error(500, "Error interno del servidor"), None)
        case Returns(false) => LoginReply(Error(401, BadCredentials), None)
        case Returns(true) =>
          var token := sign(PayloadOf(user));
          LoginReply(Response(200, LoginJson(WithoutPassword(user), token)), Some(TokenCookie(token)))
  }

  /** Whether the e-mail was verified makes no difference to whether the login succeeds. */
  lemma LoginIgnoresEmailVerification(verb: string, username: string, password: string,
                                      findByUsername: string -> Call<Option<User>>,
                                      compare: (string, string) -> Call<bool>,
                                      sign: Jwt.Payload -> string, verified: Option<bool>)
    requires findByUsername(username).Returns? && findByUsername(username).result.Some?
    ensures var user := findByUsername(username).result.value;
      var relabelled := (name: string) => if name == username then Returns(Some(user.(emailVerified := verified)))
                                          else findByUsername(name);
      Login(verb, username, password, relabelled, compare, sign).response.status
      == Login(verb, username, password, findByUsername, compare, sign).response.status
  {
  }

  /**
   * The name-value pair a browser sends back for the login cookie (the text
   * before its first attribute) yields the token again, for any token without
   * `=` or `;`, as a signed JWT is.
   */
  lemma {:induction false} TokenCookieRoundTrip(token: string)
    requires '=' !in token && ';' !in token
    ensures Split(TokenCookie(token), ';')[0] == "token=" + token
    ensures Jwt.GetTokenFromRequest(None, Some(Split(TokenCookie(token), ';')[0])) == Some(token)
  {
    var pair := "token=" + token;
    var attributes := " Path=/; HttpOnly; Secure; SameSite=Strict; Max-Age=604800";
    assert TokenCookie(token) == pair + [';'] + attributes;
    assert ';' !in pair;
    SplitAtFirst(pair, ';', attributes);
    Jwt.CookieRoundTrip(token);
  }
}
