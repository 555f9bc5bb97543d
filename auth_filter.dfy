/** The JWT filter run before the authorization rules: which requests it
    skips, how the bearer token is taken from the Authorization header
    (section 2.1 of RFC 6750, with the scheme matched case-sensitively), and
    when it puts an authentication into the security context. Parsing and
    checking the token and loading the user are parameters. */
module AuthFilters {
  import opened Common
  import opened JavaStrings
  import opened SecurityRules

  /** shouldNotFilter: the authentication and actuator endpoints below
      their base paths. */
  predicate ShouldNotFilter(path: string) {
    StartsWith(path, "/api/auth/") || StartsWith(path, "/actuator/")
  }

  /** Every path the filter skips is one the rule table opens to everyone;
      the bare "/api/auth" is not skipped, although the rules open it. */
  lemma SkippedPathsAreOpen(verb: HttpMethod, path: string, caller: Option<seq<string>>)
    requires ShouldNotFilter(path)
    ensures Check(verb, path, caller) == Allowed
    ensures !ShouldNotFilter("/api/auth") && Check(verb, "/api/auth", caller) == Allowed
  {
    OpenEndpoints(verb, path, caller);
    OpenEndpoints(verb, "/api/auth", caller);
  }

  const Scheme: string := "Bearer "

  /** getTokenFromRequest: the header after its first seven characters,
      when the header has text and starts with "Bearer ". */
  function GetToken(header: Option<string>): (token: Option<string>)
    ensures token.Some? <==> header.Some? && HasText(header.value) && StartsWith(header.value, Scheme)
    ensures token.Some? ==> header.value == Scheme + token.value
  {
    if header.Some? && HasText(header.value) && StartsWith(header.value, Scheme) then
      assert header.value == header.value[..7] + header.value[7..];
      Some(header.value[7..])
    else None
  }

  /** Prefixing any token with the scheme gives a header the token is read
      back from; the scheme in another case gives none. */
  lemma GetTokenRoundTrip(token: string)
    ensures GetToken(Some(Scheme + token)) == Some(token)
    ensures GetToken(Some("bearer " + token)) == None
  {
    var h := Scheme + token;
    assert h[..7] == Scheme;
    assert !IsWhitespace(h[0]);
    var l := "bearer " + token;
    assert l[0] != Scheme[0];
  }

  /** What the user details service returns. */
  datatype UserDetails = UserDetails(username: string, authorities: seq<string>)

  datatype Authentication = Authentication(principal: UserDetails, authorities: seq<string>)

  /** The exceptions the filter catches, by the handler that takes them. */
  datatype Failure = Expired | AuthenticationFailure | OtherFailure

  /** What reading the subject of a token gives: the e-mail, or the
      exception it throws. */
  datatype Subject = Email(email: string) | Thrown(failure: Failure)

  /** The filter's effect on the request: the context left alone, an
      authentication put in, or the context cleared and the request handed
      to the entry point. */
  datatype Effect = Keep | Authenticate(authentication: Authentication) | Reject(failure: Failure)

  /** The decision flow of doFilterInternal. `subject` reads a token,
      `load` finds the user details of an e-mail (a missing user throws an
      authentication exception) and `valid` checks a token against them. */
  function Decision(
    header: Option<string>,
    subject: string -> Subject,
    load: string -> Option<UserDetails>,
    valid: (string, UserDetails) -> bool): (e: Effect)
    ensures GetToken(header).None? ==> e == Keep
    ensures e.Authenticate? <==> (
      && GetToken(header).Some?
      && subject(GetToken(header).value).Email?
      && load(subject(GetToken(header).value).email).Some?
      && HasText(subject(GetToken(header).value).email)
      && valid(GetToken(header).value, load(subject(GetToken(header).value).email).value))
    ensures e.Authenticate? ==>
      var details := load(subject(GetToken(header).value).email).value;
      e.authentication == Authentication(details, details.authorities)
    ensures e.Reject? <==> (
      && GetToken(header).Some?
      && (subject(GetToken(header).value).Thrown? || load(subject(GetToken(header).value).email).None?))
  {
    var token := GetToken(header);
    if token.None? then Keep
    else
      match subject(token.value)
      case Thrown(f) => Reject(f)
      case Email(email) =>
        var details := load(email);
        if details.None? then Reject(AuthenticationFailure)
        else if HasText(email) && valid(token.value, details.value) then
          Authenticate(Authentication(details.value, details.value.authorities))
        else Keep
  }

  /** A request is authenticated only through a header that is the scheme
      followed by a token the user's details accept. */
  lemma AuthenticatedOnlyByBearer(
    header: Option<string>, subject: string -> Subject, load: string -> Option<UserDetails>, valid: (string, UserDetails) -> bool)
    requires Decision(header, subject, load, valid).Authenticate?
    ensures exists token :: header == Some(Scheme + token) && subject(token).Email? && HasText(subject(token).email)
  {
    var token := GetToken(header).value;
    assert header == Some(Scheme + token);
  }

  /** What the filter hands on: the rest of the chain, or the entry point,
      which answers 401. */
  datatype Outcome = Continue | EntryPoint(failure: Failure)

  /** The security context of the request being filtered. */
  class SecurityContext {
    var authentication: Option<Authentication>

    constructor ()
      ensures authentication.None?
    {
      authentication := None;
    }
  }

  /** The filter: skipped paths go on untouched; otherwise the decision is
      applied to the context, and a rejected request goes to the entry point
      instead of down the chain. */
  method DoFilter(
    context: SecurityContext, path: string, header: Option<string>,
    subject: string -> Subject, load: string -> Option<UserDetails>, valid: (string, UserDetails) -> bool)
    returns (out: Outcome)
    modifies context
    ensures ShouldNotFilter(path) ==> out == Continue && context.authentication == old(context.authentication)
    ensures !ShouldNotFilter(path) ==>
      match Decision(header, subject, load, valid)
      case Keep => out == Continue && context.authentication == old(context.authentication)
      case Authenticate(a) => out == Continue && context.authentication == Some(a)
      case Reject(f) => out == EntryPoint(f) && context.authentication.None?
  {
    if ShouldNotFilter(path) {
      return Continue;
    }
    var effect := Decision(header, subject, load, valid);
    match effect
    case Keep =>
      out := Continue;
    case Authenticate(a) =>
      context.authentication := Some(a);
      out := Continue;
    case Reject(f) =>
      context.authentication := None;
      out := EntryPoint(f);
  }

  /** The authorities the rules see after the filter: those of the
      authentication it put in, if any. Each request starts with an empty
      context, the session being stateless. A rejected request never reaches
      the rules, since `DoFilter` hands it to the entry point instead; for it
      the None returned here stands for no caller at all, not for a request
      that continues unauthenticated. */
  function CallerAfter(path: string, header: Option<string>,
    subject: string -> Subject, load: string -> Option<UserDetails>, valid: (string, UserDetails) -> bool): (caller: Option<seq<string>>)
    ensures caller.Some? ==> !ShouldNotFilter(path) && Decision(header, subject, load, valid).Authenticate?
  {
    if !ShouldNotFilter(path) && Decision(header, subject, load, valid).Authenticate? then
      Some(Decision(header, subject, load, valid).authentication.authorities)
    else None
  }

  /** A request without an Authorization header reaches the rules
      unauthenticated, so a path outside the open and public ones is
      answered 401. */
  lemma NoHeaderIsUnauthorized(verb: HttpMethod, path: string,
    subject: string -> Subject, load: string -> Option<UserDetails>, valid: (string, UserDetails) -> bool)
    requires !Under(path, "/actuator") && !Under(path, "/api/auth")
    requires !Under(path, "/api/menu") && !Under(path, "/api/categories")
    ensures CallerAfter(path, None, subject, load, valid).None?
    ensures Check(verb, path, CallerAfter(path, None, subject, load, valid)) == Unauthorized
  {
    OthersNeedAuthentication(verb, path, None);
  }
}
