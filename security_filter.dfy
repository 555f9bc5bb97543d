/** The authorization rules of the HTTP security chain: an ordered table of
    (method, path pattern, requirement) rules of which the first that
    matches a request decides, with "authenticated" for every request no
    rule names. */
module SecurityRules {
  import opened Common
  import opened JavaStrings

  datatype HttpMethod = GET | HEAD | POST | PUT | PATCH | DELETE | OPTIONS | TRACE

  /** What a rule demands of the caller. */
  datatype Access = PermitAll | HasAuthority(authority: string) | Authenticated

  /** A rule applies to the paths under `base` (the Ant pattern of `base`
      followed by a slash and two stars), for one HTTP method or, when `verb`
      is None, for every method. */
  datatype Rule = Rule(verb: Option<HttpMethod>, base: string, access: Access)

  /** The Ant pattern with a trailing double star: the base itself or any
      path below it. */
  predicate Under(path: string, base: string) {
    path == base || StartsWith(path, base + "/")
  }

  predicate Matches(rule: Rule, verb: HttpMethod, path: string) {
    (rule.verb.None? || rule.verb.value == verb) && Under(path, rule.base)
  }

  /** The rule table of the security filter chain, in order. */
  function Rules(): seq<Rule> {
    [ Rule(None, "/actuator", PermitAll),
      Rule(None, "/api/auth", PermitAll),
      Rule(Some(GET), "/api/menu", PermitAll),
      Rule(Some(POST), "/api/menu", HasAuthority("ADMIN")),
      Rule(Some(PUT), "/api/menu", HasAuthority("ADMIN")),
      Rule(Some(DELETE), "/api/menu", HasAuthority("ADMIN")),
      Rule(Some(GET), "/api/categories", PermitAll),
      Rule(Some(POST), "/api/categories", HasAuthority("ADMIN")),
      Rule(Some(PUT), "/api/categories", HasAuthority("ADMIN")),
      Rule(Some(DELETE), "/api/categories", HasAuthority("ADMIN")) ]
  }

  /** The requirement of the first matching rule, or Authenticated when no
      rule matches (anyRequest().authenticated()). */
  function Decide(rules: seq<Rule>, verb: HttpMethod, path: string): Access {
    if rules == [] then Authenticated
    else if Matches(rules[0], verb, path) then rules[0].access
    else Decide(rules[1..], verb, path)
  }

  /** The first rule that matches decides, whatever the rules after it say. */
  lemma {:induction false} DecideFirstMatch(rules: seq<Rule>, verb: HttpMethod, path: string, i: nat)
    requires i < |rules| && Matches(rules[i], verb, path)
    requires forall j :: 0 <= j < i ==> !Matches(rules[j], verb, path)
    ensures Decide(rules, verb, path) == rules[i].access
  {
    if i > 0 {
      assert !Matches(rules[0], verb, path);
      assert rules[1..][i - 1] == rules[i];
      forall j | 0 <= j < i - 1
        ensures !Matches(rules[1..][j], verb, path)
      {
        assert rules[1..][j] == rules[j + 1];
      }
      DecideFirstMatch(rules[1..], verb, path, i - 1);
    }
  }

  /** A request no rule matches needs an authenticated caller. */
  lemma {:induction false} DecideNoMatch(rules: seq<Rule>, verb: HttpMethod, path: string)
    requires forall i :: 0 <= i < |rules| ==> !Matches(rules[i], verb, path)
    ensures Decide(rules, verb, path) == Authenticated
  {
    if rules != [] {
      assert !Matches(rules[0], verb, path);
      forall j | 0 <= j < |rules| - 1
        ensures !Matches(rules[1..][j], verb, path)
      {
        assert rules[1..][j] == rules[j + 1];
      }
      DecideNoMatch(rules[1..], verb, path);
    }
  }

  /** The answer to a request: served, 401 from the entry point, or 403 from
      the access-denied handler. */
  datatype Verdict = Allowed | Unauthorized | Forbidden

  /** Applies a requirement to the caller's authorities, None when the
      request carries no authentication. */
  function Authorize(access: Access, caller: Option<seq<string>>): (v: Verdict)
    ensures access.PermitAll? ==> v == Allowed
    ensures !access.PermitAll? && caller.None? ==> v == Unauthorized
    ensures access.Authenticated? && caller.Some? ==> v == Allowed
    ensures access.HasAuthority? && caller.Some? ==> (v == Allowed <==> access.authority in caller.value)
    ensures v != Forbidden || (access.HasAuthority? && caller.Some?)
  {
    match access
    case PermitAll => Allowed
    case Authenticated => if caller.None? then Unauthorized else Allowed
    case HasAuthority(a) => if caller.None? then Unauthorized else if a in caller.value then Allowed else Forbidden
  }

  /** The verdict of the chain on a request. */
  function Check(verb: HttpMethod, path: string, caller: Option<seq<string>>): Verdict {
    Authorize(Decide(Rules(), verb, path), caller)
  }

  /** Actuator and authentication endpoints are open to everyone. */
  lemma OpenEndpoints(verb: HttpMethod, path: string, caller: Option<seq<string>>)
    requires Under(path, "/actuator") || Under(path, "/api/auth")
    ensures Decide(Rules(), verb, path) == PermitAll
    ensures Check(verb, path, caller) == Allowed
  {
    var rs := Rules();
    if !Under(path, "/actuator") {
      assert !Matches(rs[0], verb, path);
      DecideFirstMatch(rs, verb, path, 1);
    } else {
      DecideFirstMatch(rs, verb, path, 0);
    }
  }

  /** Two bases that differ at some position have no path in common. */
  lemma UnderDisjoint(path: string, a: string, b: string, k: nat)
    requires k < |a| && k < |b| && a[k] != b[k]
    requires Under(path, a)
    ensures !Under(path, b)
  {
    assert path[k] == a[k] by {
      if path != a {
        assert path[..|a| + 1] == a + "/";
        assert path[..|a| + 1][k] == a[k];
      }
    }
  }

  /** Reading menus and categories is public. */
  lemma PublicReads(path: string, caller: Option<seq<string>>)
    requires Under(path, "/api/menu") || Under(path, "/api/categories")
    ensures Check(GET, path, caller) == Allowed
  {
    var rs := Rules();
    if Under(path, "/api/menu") {
      UnderDisjoint(path, "/api/menu", "/actuator", 2);
      UnderDisjoint(path, "/api/menu", "/api/auth", 5);
      assert !Matches(rs[0], GET, path) && !Matches(rs[1], GET, path);
      DecideFirstMatch(rs, GET, path, 2);
    } else {
      UnderDisjoint(path, "/api/categories", "/actuator", 2);
      UnderDisjoint(path, "/api/categories", "/api/auth", 5);
      UnderDisjoint(path, "/api/categories", "/api/menu", 5);
      assert forall i :: 0 <= i < 6 ==> !Matches(rs[i], GET, path);
      DecideFirstMatch(rs, GET, path, 6);
    }
  }

  /** Writing menus and categories needs the ADMIN authority: without any
      authentication the answer is 401, without ADMIN (a CUSTOMER) 403. */
  lemma AdminWrites(verb: HttpMethod, path: string, caller: Option<seq<string>>)
    requires verb == POST || verb == PUT || verb == DELETE
    requires Under(path, "/api/menu") || Under(path, "/api/categories")
    ensures Decide(Rules(), verb, path) == HasAuthority("ADMIN")
    ensures caller.None? ==> Check(verb, path, caller) == Unauthorized
    ensures caller.Some? ==> (Check(verb, path, caller) == Allowed <==> "ADMIN" in caller.value)
    ensures caller.Some? && "ADMIN" !in caller.value ==> Check(verb, path, caller) == Forbidden
  {
    if Under(path, "/api/menu") {
      MenuWriteRule(verb, path);
    } else {
      CategoryWriteRule(verb, path);
    }
  }

  lemma MenuWriteRule(verb: HttpMethod, path: string)
    requires verb == POST || verb == PUT || verb == DELETE
    requires Under(path, "/api/menu")
    ensures Decide(Rules(), verb, path) == HasAuthority("ADMIN")
  {
    var rs := Rules();
    UnderDisjoint(path, "/api/menu", "/actuator", 2);
    UnderDisjoint(path, "/api/menu", "/api/auth", 5);
    var k := if verb == POST then 3 else if verb == PUT then 4 else 5;
    assert forall i :: 0 <= i < k ==> !Matches(rs[i], verb, path);
    DecideFirstMatch(rs, verb, path, k);
  }

  lemma CategoryWriteRule(verb: HttpMethod, path: string)
    requires verb == POST || verb == PUT || verb == DELETE
    requires Under(path, "/api/categories")
    ensures Decide(Rules(), verb, path) == HasAuthority("ADMIN")
  {
    var rs := Rules();
    UnderDisjoint(path, "/api/categories", "/actuator", 2);
    UnderDisjoint(path, "/api/categories", "/api/auth", 5);
    UnderDisjoint(path, "/api/categories", "/api/menu", 5);
    var k := if verb == POST then 7 else if verb == PUT then 8 else 9;
    assert forall i :: 0 <= i < k ==> !Matches(rs[i], verb, path);
    DecideFirstMatch(rs, verb, path, k);
  }

  /** Every request no rule names only needs an authenticated caller: 401
      without authentication, allowed with any. This covers the other
      endpoints and the methods the table does not list, such as PATCH on
      a menu. */
  lemma OthersNeedAuthentication(verb: HttpMethod, path: string, caller: Option<seq<string>>)
    requires !Under(path, "/actuator") && !Under(path, "/api/auth")
    requires Under(path, "/api/menu") || Under(path, "/api/categories") ==> verb !in {GET, POST, PUT, DELETE}
    ensures Decide(Rules(), verb, path) == Authenticated
    ensures Check(verb, path, caller) == (if caller.None? then Unauthorized else Allowed)
  {
    var rs := Rules();
    assert forall i :: 0 <= i < |rs| ==> !Matches(rs[i], verb, path);
    DecideNoMatch(rs, verb, path);
  }
}
