/**
 * The per-request bearer-token filter. Token validation and subject extraction are abstract
 * functions; the request details are an abstract value.
 */
module JwtFilter {
  import opened Wrappers
  import opened Errors
  import opened Repositories
  import opened Security
  import opened Entities
  import AppConstants

  /** The authentication placed in the security context: principal, authorities, details
      (the credentials are null). */
  datatype Authentication = Authentication(principal: UserInfoDetails, authorities: set<string>,
                                           details: string)

  /** The token an Authorization header carries: the text after a leading "Bearer ". */
  function BearerToken(header: Option<string>): (t: Option<string>)
    ensures t.Some? <==> && header.Some? && |header.value| >= |AppConstants.TOKEN_PREFIX|
                         && header.value[..|AppConstants.TOKEN_PREFIX|] == AppConstants.TOKEN_PREFIX
    ensures t.Some? ==> header.value == AppConstants.TOKEN_PREFIX + t.value
  {
    if header.Some? && |header.value| >= 7 && header.value[..7] == AppConstants.TOKEN_PREFIX then
      assert header.value == header.value[..7] + header.value[7..];
      Some(header.value[7..])
    else None
  }

  /** The token examined is the one the header was built from. */
  lemma BearerTokenRoundTrip(token: string)
    ensures BearerToken(Some(AppConstants.TOKEN_PREFIX + token)) == Some(token)
  {
    var h := AppConstants.TOKEN_PREFIX + token;
    assert h[..7] == AppConstants.TOKEN_PREFIX;
    assert h[7..] == token;
  }

  /** What one pass of the filter does to the security context. */
  datatype FilterStep = KeepContext | Bind(auth: Authentication) | Fail(failure: Failure)

  /**
   * The decision the filter takes: a header that carries a bearer token the validator
   * accepts binds the user loaded by the token's subject, with that user's authorities;
   * a failing lookup or a null role set propagates; anything else leaves the context.
   * Only a valid token reaches the lookup, so an invalid one never fails.
   */
  function Authenticate(header: Option<string>, db: Database, validateToken: string -> bool,
                        usernameFromToken: string -> string, details: string): (s: FilterStep)
    reads db
    requires db.Valid()
    ensures BearerToken(header).None? ==> s == KeepContext
    ensures BearerToken(header).Some? && !validateToken(BearerToken(header).value) ==> s == KeepContext
    ensures s.Bind? ==> var token := BearerToken(header).value;
                        && validateToken(token)
                        && LoadUserByUsername(db, usernameFromToken(token)) == Ok(s.auth.principal)
                        && GetUsername(s.auth.principal) == usernameFromToken(token)
                        && s.auth.principal.user.id in db.users
                        && db.users[s.auth.principal.user.id] == s.auth.principal.user
                        && GetAuthorities(s.auth.principal) == Ok(s.auth.authorities)
                        && s.auth.details == details
    ensures s.Fail? ==> s.failure.UsernameNotFound? || s.failure.Internal?
    ensures BearerToken(header).Some? && validateToken(BearerToken(header).value) ==>
              var lookup := LoadUserByUsername(db, usernameFromToken(BearerToken(header).value));
              && (lookup.Err? ==> s == Fail(lookup.failure))
              && (lookup.Ok? && lookup.value.user.roles.None? ==>
                    s == Fail(Internal("NullPointerException")))
              && (lookup.Ok? && lookup.value.user.roles.Some? ==>
                    s == Bind(Authentication(lookup.value, RoleNames(lookup.value.user.roles.value), details)))
    ensures s.KeepContext? <==> BearerToken(header).None? || !validateToken(BearerToken(header).value)
  {
    match BearerToken(header)
    case None => KeepContext
    case Some(token) =>
      if !validateToken(token) then KeepContext
      else match LoadUserByUsername(db, usernameFromToken(token))
        case Err(f) => Fail(f)
        case Ok(principal) =>
          match GetAuthorities(principal)
          case Err(f) => Fail(f)
          case Ok(authorities) => Bind(Authentication(principal, authorities, details))
  }

  /**
   * The filter as it runs on one request: `context` is the security context's
   * authentication, `chainCalls` counts the invocations of the rest of the filter chain.
   */
  class JwtAuthenticateFilter {
    var context: Option<Authentication>
    var chainCalls: nat

    constructor ()
      ensures context == None && chainCalls == 0
    {
      context := None;
      chainCalls := 0;
    }

    /**
     * doFilterInternal: binds an identity only on a valid bearer token, then continues the
     * chain exactly once; a failing lookup propagates before the chain is reached.
     */
    method DoFilterInternal(header: Option<string>, db: Database, validateToken: string -> bool,
                            usernameFromToken: string -> string, details: string)
        returns (r: Result<()>)
      requires db.Valid()
      modifies this
      ensures var step := Authenticate(header, db, validateToken, usernameFromToken, details);
              match step
              case KeepContext => r == Ok(()) && context == old(context) && chainCalls == old(chainCalls) + 1
              case Bind(auth) => r == Ok(()) && context == Some(auth) && chainCalls == old(chainCalls) + 1
              case Fail(f) => r == Err(f) && context == old(context) && chainCalls == old(chainCalls)
    {
      if header.Some? && |header.value| >= 7 && header.value[..7] == AppConstants.TOKEN_PREFIX {
        var token := header.value[7..];
        if validateToken(token) {
          var username := usernameFromToken(token);
          var loaded := LoadUserByUsername(db, username);
          if loaded.Err? {
            return Err(loaded.failure);
          }
          var userDetails := loaded.value;
          var authorities := GetAuthorities(userDetails);
          if authorities.Err? {
            return Err(authorities.failure);
          }
          var auth := Authentication(userDetails, authorities.value, "");
          auth := auth.(details := details);
          context := Some(auth);
        }
      }
      chainCalls := chainCalls + 1;
      r := Ok(());
    }
  }
}
