/** `AuthInterceptor.preHandle`: which requests pass, and as whom.  The
    token parser is a parameter that may fail; it stands for the signature
    and expiry check and the claim extraction together.  The request
    attributes written on acceptance are returned in the `Principal`. */
module Auth {
  import opened Outcomes
  import opened Text
  import opened Tables
  import opened Users

  /** The subject and the `role` claim of a token that parsed. */
  datatype Claims = Claims(subject: Option<string>, role: Option<string>)

  /** A request that passes: on a public path, or as an authenticated user
      whose name and role the controllers then read. */
  datatype Access = Public | Principal(username: string, role: Option<string>)

  const LOGIN_PATH := "/api/users/login"
  const REGISTER_PATH := "/api/users/register"
  const PRODUCTS_PATH := "/api/products"
  const ADMIN_PATH := "/api/admin"
  const BEARER := "Bearer "

  /** Paths that need no token whatever the method ... */
  predicate OpenPath(path: string)
  {
    StartsWith(path, LOGIN_PATH) || StartsWith(path, REGISTER_PATH)
  }

  /** ... and requests that need none for their method. */
  predicate PublicRequest(path: string, httpMethod: string)
  {
    OpenPath(path) || (EqualsIgnoreCase("GET", httpMethod) && StartsWith(path, PRODUCTS_PATH))
  }

  /** The body of the `try`: every failure in it, whether the token does not
      parse, names no known user, or lacks the ADMIN role on an admin path,
      comes out as the one error "无效的token". */
  function Authenticate(users: map<nat, User>, path: string, claims: Option<Claims>): (r: Result<Access>)
    ensures r.Err? ==> r.error == InvalidToken
    ensures r.Ok? ==>
              && claims.Some? && claims.value.subject.Some?
              && r.value == Principal(claims.value.subject.value, claims.value.role)
              && ExistsByUsername(users, r.value.username)
              && (StartsWith(path, ADMIN_PATH) ==> r.value.role == Some("ADMIN"))
    ensures && claims.Some? && claims.value.subject.Some?
            && ExistsByUsername(users, claims.value.subject.value)
            && (StartsWith(path, ADMIN_PATH) ==> claims.value.role == Some("ADMIN"))
            ==> r == Ok(Principal(claims.value.subject.value, claims.value.role))
  {
    match claims
    case None => Err(InvalidToken)
    case Some(c) =>
      if c.subject.None? || !ExistsByUsername(users, c.subject.value) then Err(InvalidToken)
      else if StartsWith(path, ADMIN_PATH) && c.role != Some("ADMIN") then Err(InvalidToken)
      else Ok(Principal(c.subject.value, c.role))
  }

  /** `preHandle`. */
  function PreHandle(users: map<nat, User>, path: string, httpMethod: string, header: Option<string>,
                     parse: string -> Option<Claims>): (r: Result<Access>)
    ensures PublicRequest(path, httpMethod) ==> r == Ok(Public)
    ensures !PublicRequest(path, httpMethod) ==> r != Ok(Public)
    ensures r == Err(NotLoggedIn) <==>
              !PublicRequest(path, httpMethod) && (header.None? || !StartsWith(header.value, BEARER))
    ensures r.Err? ==> r.error == NotLoggedIn || r.error == InvalidToken
    ensures r.Ok? && r.value.Principal? ==>
              && header.Some? && StartsWith(header.value, BEARER)
              && parse(header.value[|BEARER|..]).Some?
              && Some(r.value.username) == parse(header.value[|BEARER|..]).value.subject
              && r.value.role == parse(header.value[|BEARER|..]).value.role
              && ExistsByUsername(users, r.value.username)
  {
    if OpenPath(path) then Ok(Public)
    else if EqualsIgnoreCase("GET", httpMethod) && StartsWith(path, PRODUCTS_PATH) then Ok(Public)
    else if header.None? || !StartsWith(header.value, BEARER) then Err(NotLoggedIn)
    else Authenticate(users, path, parse(header.value[7..]))
  }

  // ---------------------------------------------------------------------
  // What the decision promises.

  /** The token handed to the parser is what follows "Bearer ". */
  lemma TokenAfterBearer(users: map<nat, User>, path: string, httpMethod: string, token: string,
                         parse: string -> Option<Claims>)
    requires !PublicRequest(path, httpMethod)
    ensures PreHandle(users, path, httpMethod, Some(BEARER + token), parse) == Authenticate(users, path, parse(token))
  {
    assert StartsWith(BEARER + token, BEARER);
    assert (BEARER + token)[7..] == token;
  }

  /** A protected request with a "Bearer " token whose claims name a known
      user passes, as that user with the token's role, provided an admin
      path comes with the ADMIN role. */
  lemma KnownUserPasses(users: map<nat, User>, path: string, httpMethod: string, token: string,
                        parse: string -> Option<Claims>, claims: Claims)
    requires !PublicRequest(path, httpMethod)
    requires parse(token) == Some(claims)
    requires claims.subject.Some? && ExistsByUsername(users, claims.subject.value)
    requires StartsWith(path, ADMIN_PATH) ==> claims.role == Some("ADMIN")
    ensures PreHandle(users, path, httpMethod, Some(BEARER + token), parse)
              == Ok(Principal(claims.subject.value, claims.role))
  {
    TokenAfterBearer(users, path, httpMethod, token, parse);
  }

  /** An admin path is never public, so it passes only for a known user
      whose token carries the ADMIN role. */
  lemma AdminNeedsAdminRole(users: map<nat, User>, path: string, httpMethod: string, header: Option<string>,
                            parse: string -> Option<Claims>)
    requires StartsWith(path, ADMIN_PATH)
    ensures var r := PreHandle(users, path, httpMethod, header, parse);
            r.Ok? ==> r.value.Principal? && r.value.role == Some("ADMIN") && ExistsByUsername(users, r.value.username)
  {
    assert path[5] == 'a';
    assert !StartsWith(path, LOGIN_PATH) by { assert LOGIN_PATH[5] == 'u'; }
    assert !StartsWith(path, REGISTER_PATH) by { assert REGISTER_PATH[5] == 'u'; }
    assert !StartsWith(path, PRODUCTS_PATH) by { assert PRODUCTS_PATH[5] == 'p'; }
  }

  /** A product request with any method but GET (in any case) needs a
      valid token like every other path. */
  lemma ProductWritesNeedToken(users: map<nat, User>, path: string, httpMethod: string, header: Option<string>,
                               parse: string -> Option<Claims>)
    requires StartsWith(path, PRODUCTS_PATH)
    requires !EqualsIgnoreCase("GET", httpMethod)
    ensures var r := PreHandle(users, path, httpMethod, header, parse);
            r.Ok? ==> r.value.Principal? && ExistsByUsername(users, r.value.username)
  {
    assert path[5] == 'p';
    assert !StartsWith(path, LOGIN_PATH) by { assert LOGIN_PATH[5] == 'u'; }
    assert !StartsWith(path, REGISTER_PATH) by { assert REGISTER_PATH[5] == 'u'; }
  }

  /** The method check ignores case: "get" opens the catalogue as "GET" does. */
  lemma LowerCaseGetIsPublic(users: map<nat, User>, path: string, header: Option<string>,
                             parse: string -> Option<Claims>)
    requires StartsWith(path, PRODUCTS_PATH)
    ensures PreHandle(users, path, "get", header, parse) == Ok(Public)
  {
    assert FoldCase("get") == FoldCase("GET");
  }
}
