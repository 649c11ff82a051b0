/**
 * The token helpers of the serverless API: where a request's JWT is read
 * from, and the null-on-failure wrapper around signature verification.
 * Signing and verifying themselves belong to the `jsonwebtoken` library and
 * are parameters here.
 */
module Jwt {
  import opened Wrappers
  import opened Strings

  datatype Payload = Payload(userId: int, username: string, email: string, isAdmin: bool)

  /** What `jwt.verify` does with a token: returns its payload, or throws. */
  datatype Verification = Verified(payload: Payload) | Threw

  /** `verifyToken`: the payload, or `null` instead of the exception. */
  function VerifyToken(token: string, verify: string -> Verification): (r: Option<Payload>)
    ensures r.None? <==> verify(token).Threw?
    ensures r.Some? ==> r.value == verify(token).payload
  {
    match verify(token)
    case Verified(payload) => Some(payload)
    case Threw => None
  }

  /** A cookie segment that, once trimmed, starts with `token=`. */
  predicate IsTokenSegment(segment: string) {
    StartsWith(Trim(segment), "token=")
  }

  /** `xs.find(p)`, as the index of the first element satisfying `p`. */
  function FindFirst(xs: seq<string>, p: string -> bool): (r: Option<nat>)
    ensures r.None? <==> forall k :: 0 <= k < |xs| ==> !p(xs[k])
    ensures r.Some? ==> r.value < |xs| && p(xs[r.value])
    ensures r.Some? ==> forall k :: 0 <= k < r.value ==> !p(xs[k])
  {
    if xs == [] then None
    else if p(xs[0]) then Some(0)
    else match FindFirst(xs[1..], p)
      case None => None
      case Some(k) => Some(k + 1)
  }

  lemma TokenSegmentHasEquals(segment: string)
    requires IsTokenSegment(segment)
    ensures '=' in segment
  {
    var t := TrimStart(segment);
    var u := TrimEnd(t);
    assert u[5] == '=';
    assert t[5] == u[5];
    assert segment[|segment| - |t| + 5] == t[5];
  }

  lemma {:induction false} SplitHasTwoPieces(s: string, sep: char)
    requires sep in s
    ensures |Split(s, sep)| >= 2
  {
    JoinSplit(s, sep);
  }

  /**
   * Segment `k` is the first token cookie among `segments`, and `v` is its second
   * `=`-piece: the text after its first `=`, up to the next `=` or its end.
   */
  predicate FirstTokenValue(segments: seq<string>, k: int, v: string) {
    && 0 <= k < |segments| && IsTokenSegment(segments[k])
    && (forall j :: 0 <= j < k ==> !IsTokenSegment(segments[j]))
    && |Split(segments[k], '=')| >= 2 && v == Split(segments[k], '=')[1]
  }

  /**
   * The value of the first `token=` cookie: `tokenCookie.split('=')[1]`. There is
   * none exactly when no `;`-segment is a token cookie; otherwise the value comes
   * from the first segment that is.
   */
  function CookieToken(cookies: string): (r: Option<string>)
    ensures r.None? ==> forall k :: 0 <= k < |Split(cookies, ';')| ==> !IsTokenSegment(Split(cookies, ';')[k])
    ensures r.Some? ==> exists k :: FirstTokenValue(Split(cookies, ';'), k, r.value)
  {
    var segments := Split(cookies, ';');
    match FindFirst(segments, IsTokenSegment)
    case None =>
      NoTokenFound(segments);
      None
    case Some(k) =>
      FirstTokenFound(segments, k);
      Some(Split(segments[k], '=')[1])
  }

  lemma NoTokenFound(segments: seq<string>)
    requires FindFirst(segments, IsTokenSegment).None?
    ensures forall k :: 0 <= k < |segments| ==> !IsTokenSegment(segments[k])
  {
    forall k | 0 <= k < |segments| ensures !IsTokenSegment(segments[k]) {
      assert !IsTokenSegment.requires(segments[k]) || !IsTokenSegment(segments[k]);
    }
  }

  lemma FirstTokenFound(segments: seq<string>, k: nat)
    requires FindFirst(segments, IsTokenSegment) == Some(k)
    ensures k < |segments| && |Split(segments[k], '=')| >= 2
    ensures FirstTokenValue(segments, k, Split(segments[k], '=')[1])
  {
    TokenSegmentHasEquals(segments[k]);
    SplitHasTwoPieces(segments[k], '=');
  }

  /**
   * `getTokenFromRequest`: an `Authorization` header starting with `Bearer `
   * yields the rest of the header and the cookies are not read; otherwise a
   * non-empty cookie header yields the value of its first `token=` cookie, and
   * there is a token exactly when some `;`-segment is one; otherwise there is no
   * token. (An empty header is falsy in the source, and never starts with `Bearer `.)
   */
  function GetTokenFromRequest(authorization: Option<string>, cookie: Option<string>): (r: Option<string>)
    ensures authorization.Some? && StartsWith(authorization.value, "Bearer ") ==>
      r == Some(authorization.value[7..])
    ensures !(authorization.Some? && StartsWith(authorization.value, "Bearer ")) && r.Some? ==>
      cookie.Some? && exists k :: FirstTokenValue(Split(cookie.value, ';'), k, r.value)
    ensures !(authorization.Some? && StartsWith(authorization.value, "Bearer ")) && r.None? ==>
      cookie.None? || forall k :: 0 <= k < |Split(cookie.value, ';')| ==> !IsTokenSegment(Split(cookie.value, ';')[k])
  {
    if authorization.Some? && StartsWith(authorization.value, "Bearer ") then
      Some(authorization.value[7..])
    else if cookie.Some? && cookie.value != "" then
      CookieToken(cookie.value)
    else
      assert cookie.Some? ==> Split(cookie.value, ';') == [""] && !IsTokenSegment("");
      None
  }

  /**
   * The value taken from a cookie segment is the text between its first and its
   * second `=` (or its end): no `=` before the first one, and none inside the value.
   */
  lemma {:induction false} SecondPieceSpec(segment: string)
    requires '=' in segment
    ensures |Split(segment, '=')| >= 2
    ensures var p := |Split(segment, '=')[0]|; var v := Split(segment, '=')[1];
      && p < |segment| && segment[p] == '=' && '=' !in segment[..p]
      && '=' !in v
      && StartsWith(segment[p + 1..], v)
      && (p + 1 + |v| == |segment| || segment[p + 1 + |v|] == '=')
  {
    SplitHasTwoPieces(segment, '=');
    var pieces := Split(segment, '=');
    SplitHead(segment, '=');
    var p := |pieces[0]|;
    SplitTail(segment, '=');
    var rest := segment[p + 1..];
    assert pieces[1] == Split(rest, '=')[0];
    SplitHead(rest, '=');
    assert segment[..p] == pieces[0];
  }

  lemma {:induction false} SplitWithoutSep(s: string, sep: char)
    requires sep !in s
    ensures Split(s, sep) == [s]
  {
    if s != [] {
      SplitWithoutSep(s[1..], sep);
      assert s == [s[0]] + s[1..];
    }
  }

  /**
   * The cookie `token=<t>` that login sets comes back as the same token, for any
   * token without `=` or `;` (a JWT is base64url text joined by dots).
   */
  lemma {:induction false} CookieRoundTrip(t: string)
    requires '=' !in t && ';' !in t
    ensures GetTokenFromRequest(None, Some("token=" + t)) == Some(t)
  {
    var s := "token=" + t;
    assert s == "token" + ['='] + t;
    SplitAtFirst("token", '=', t);
    SplitWithoutSep(t, '=');
    assert Split(s, '=') == ["token", t];
    assert ';' !in s;
    TokenPrefixSegment(s);
    SingleCookie(s);
  }

  /** A cookie header holding only the token cookie yields its second `=`-piece. */
  lemma SingleCookie(s: string)
    requires ';' !in s && IsTokenSegment(s) && |Split(s, '=')| >= 2
    ensures CookieToken(s) == Some(Split(s, '=')[1])
  {
    SplitWithoutSep(s, ';');
    assert FindFirst([s], IsTokenSegment) == Some(0);
  }

  /** Any segment that literally starts with `token=` is the token cookie, whatever follows. */
  lemma TokenPrefixSegment(s: string)
    requires StartsWith(s, "token=")
    ensures IsTokenSegment(s)
  {
    var t := TrimStart(s);
    assert s[0] == 't';
    assert t == s by {
      if |t| < |s| { assert false; }
    }
    var e := TrimEnd(s);
    assert s[5] == '=';
    assert |e| >= 6 by {
      if |e| < 6 { assert false; }
    }
    assert e[..6] == s[..6];
    assert Trim(s) == e;
  }

  /** A cookie header holding one cookie other than the token cookie yields nothing. */
  lemma LoneOtherCookie(s: string)
    requires ';' !in s && !IsTokenSegment(s)
    ensures CookieToken(s) == None
  {
    SplitWithoutSep(s, ';');
    assert FindFirst([s], IsTokenSegment) == None;
  }

  /** A lone cookie, trimmed already, whose text does not start with `token=` yields nothing. */
  lemma OtherNameIsNotToken(s: string)
    requires ';' !in s && s != [] && !IsWhitespace(s[0]) && !IsWhitespace(s[|s| - 1])
    requires !StartsWith(s, "token=")
    ensures CookieToken(s) == None
  {
    TrimTrimmed(s);
    LoneOtherCookie(s);
  }

  /** A cookie merely ending in `token` is not the token cookie. */
  lemma PrefixedNameIsNotToken()
    ensures CookieToken("mytoken=x") == None
  {
    var s := "mytoken=x";
    assert s[0] == 'm' && s[8] == 'x';
    OtherNameIsNotToken(s);
  }

  /** A cookie whose name continues past `token` is not the token cookie. */
  lemma LongerNameIsNotToken()
    ensures CookieToken("tokens=x") == None
  {
    var s := "tokens=x";
    assert s[0] == 't' && s[5] == 's' && s[7] == 'x';
    OtherNameIsNotToken(s);
  }
}
