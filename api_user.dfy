/**
 * The serverless "current user" endpoint: it reads the JWT from the request,
 * verifies it, and re-reads the user it names from the `users` table. Every
 * failure, including an exception, is answered with 200 and a `null` body.
 */
module ApiUser {
  import opened Wrappers
  import opened Http
  import Jwt
  import ApiLogin

  /**
   * The handler: only GET is served; a missing or empty token, one that fails
   * verification, or an id with no row each give `null`; otherwise the stored
   * user without the password hash. It never answers 500.
   */
  function CurrentUser(verb: string, authorization: Option<string>, cookie: Option<string>,
                       verify: string -> Jwt.Verification,
                       findById: int -> Call<Option<User>>): (r: Response)
    ensures verb != "GET" ==> r == Error(405, "Method not allowed")
    ensures verb == "GET" ==> r.status == 200
    ensures r.status == 200 ==> r.body == NullJson || r.body.UserJson?
    ensures r.body.UserJson? <==>
      && verb == "GET"
      && var token := Jwt.GetTokenFromRequest(authorization, cookie);
         token.Some? && token.value != "" && verify(token.value).Verified?
         && findById(verify(token.value).payload.userId).Returns?
         && findById(verify(token.value).payload.userId).result.Some?
    ensures r.body.UserJson? ==>
      var token := Jwt.GetTokenFromRequest(authorization, cookie).value;
      r.body.user == WithoutPassword(findById(verify(token).payload.userId).result.value)
  {
    if verb != "GET" then Error(405, "Method not allowed")
    else
      var token := Jwt.GetTokenFromRequest(authorization, cookie);
      if token.None? || token.value == "" then Response(200, NullJson)
      else
        match Jwt.VerifyToken(token.value, verify)
        case None => Response(200, NullJson)
        case Some(payload) =>
          match findById(payload.userId)
          case Throws => Response(200, NullJson)
          case Returns(None) => Response(200, NullJson)
          case Returns(Some(user)) => Response(200, UserJson(WithoutPassword(user)))
  }

  /**
   * The token the login endpoint issues, sent back in its cookie, identifies the
   * same user here: provided the signature check accepts what was signed, the
   * endpoint answers with that user's stored row.
   */
  lemma LoginThenCurrentUser(username: string, password: string,
                             findByUsername: string -> Call<Option<User>>,
                             compare: (string, string) -> Call<bool>,
                             sign: Jwt.Payload -> string, verify: string -> Jwt.Verification,
                             findById: int -> Call<Option<User>>)
    requires ApiLogin.Login("POST", username, password, findByUsername, compare, sign).response.status == 200
    requires forall p :: verify(sign(p)) == Jwt.Verified(p)
    requires forall p :: '=' !in sign(p) && ';' !in sign(p) && sign(p) != ""
    ensures var user := findByUsername(username).result.value;
      var token := sign(ApiLogin.PayloadOf(user));
      findById(user.id).Returns? && findById(user.id).result.Some? ==>
        CurrentUser("GET", None, Some("token=" + token), verify, findById)
        == Response(200, UserJson(WithoutPassword(findById(user.id).result.value)))
  {
    var user := findByUsername(username).result.value;
    var token := sign(ApiLogin.PayloadOf(user));
    Jwt.CookieRoundTrip(token);
  }
}
