/**
 * The bearer-token filter run once per request: it reads the token from the
 * Authorization header and, when no authentication is present yet and the
 * token validates for its subject, stores an authentication, not marked
 * authenticated, whose principal is that subject.
 */
module JwtConfig {
  import opened Common
  import opened Jwt

  const BEARER_PREFIX := "Bearer "

  /**
   * A username/password authentication token with null credentials. The
   * two-argument constructor the filter uses leaves `authenticated` false.
   */
  datatype Authentication = Authentication(principal: string, authenticated: bool)

  /** The security context of the current request. */
  class SecurityContext {
    var authentication: Option<Authentication>

    constructor (authentication: Option<Authentication>)
      ensures this.authentication == authentication
    {
      this.authentication := authentication;
    }
  }

  /** The rest of the filter chain, counting how often the request is passed on. */
  class FilterChain {
    var invocations: nat

    constructor ()
      ensures invocations == 0
    {
      invocations := 0;
    }

    method DoFilter()
      modifies this
      ensures invocations == old(invocations) + 1
    {
      invocations := invocations + 1;
    }
  }

  /** How the filter ends: it passes the request on, or an exception escapes it. */
  datatype FilterOutcome = Continued | Threw

  /** The token of an Authorization header that starts with "Bearer ", without that prefix. */
  function BearerToken(header: Option<string>): (token: Option<string>)
    ensures token.Some? <==>
      header.Some? && |header.value| >= |BEARER_PREFIX| && header.value[..|BEARER_PREFIX|] == BEARER_PREFIX
    ensures token.Some? ==> BEARER_PREFIX + token.value == header.value
  {
    if header.Some? && |header.value| >= 7 && header.value[..7] == BEARER_PREFIX then Some(header.value[7..])
    else None
  }

  /** Prefixing a token with "Bearer " and extracting it again gives the token back. */
  lemma BearerTokenOfPrefixed(token: string)
    ensures BearerToken(Some(BEARER_PREFIX + token)) == Some(token)
  {
    assert (BEARER_PREFIX + token)[..7] == BEARER_PREFIX;
    assert (BEARER_PREFIX + token)[7..] == token;
  }

  /** The username the filter reads from the header: none without a bearer token or a subject claim. */
  function ClaimedUsername(header: Option<string>, jwtUtils: JwtUtils): Option<string> {
    match BearerToken(header)
    case None => None
    case Some(token) =>
      match jwtUtils.extractUsername(token)
      case Subject(username) => username
      case Unparseable => None
  }

  /**
   * `doFilterInternal`. Extracting the subject may throw, which ends the
   * filter before the chain is continued; on every other path the chain is
   * continued exactly once.
   */
  method DoFilterInternal(header: Option<string>, jwtUtils: JwtUtils, now: int,
                          context: SecurityContext, chain: FilterChain)
    returns (outcome: FilterOutcome)
    modifies context, chain
    ensures outcome == Threw <==>
      BearerToken(header).Some? && jwtUtils.extractUsername(BearerToken(header).value).Unparseable?
    ensures chain.invocations == old(chain.invocations) + (if outcome == Continued then 1 else 0)
    ensures old(context.authentication).Some? ==> context.authentication == old(context.authentication)
    ensures BearerToken(header).None? ==> context.authentication == old(context.authentication)
    ensures context.authentication != old(context.authentication) <==>
      && outcome == Continued
      && old(context.authentication).None?
      && ClaimedUsername(header, jwtUtils).Some?
      && jwtUtils.validateToken(BearerToken(header).value, ClaimedUsername(header, jwtUtils).value, now)
    ensures context.authentication != old(context.authentication) ==>
      context.authentication == Some(Authentication(ClaimedUsername(header, jwtUtils).value, false))
  {
    var username: Option<string> := None;
    var jwtToken: Option<string> := None;
    if header.Some? && |header.value| >= 7 && header.value[..7] == BEARER_PREFIX {
      jwtToken := Some(header.value[7..]);
      var extracted := jwtUtils.extractUsername(jwtToken.value);
      if extracted.Unparseable? {
        return Threw;
      }
      username := extracted.username;
    }
    if username.Some? && context.authentication.None? {
      if jwtUtils.validateToken(jwtToken.value, username.value, now) {
        context.authentication := Some(Authentication(username.value, false));
      }
    }
    chain.DoFilter();
    return Continued;
  }
}
