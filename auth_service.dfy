/** Registration and login: the request validators, the resolution of the
    requested role names, and the order in which login decides. Password
    encoding, password matching and token generation are opaque functions
    passed in. */
module AuthServices {
  import opened Common
  import opened JavaStrings
  import opened Accounts

  // ---------------------------------------------------------------------------
  // The e-mail pattern ^[A-Za-z0-9._%+-]+@[A-Za-z0-9.-]+\.[A-Za-z]{2,}$

  predicate AsciiLetter(c: char) {
    ('A' <= c <= 'Z') || ('a' <= c <= 'z')
  }

  /** The characters of the part before '@'. */
  predicate LocalChar(c: char) {
    AsciiLetter(c) || IsDigit(c) || c == '.' || c == '_' || c == '%' || c == '+' || c == '-'
  }

  /** The characters of the domain before its last label. */
  predicate DomainChar(c: char) {
    AsciiLetter(c) || IsDigit(c) || c == '.' || c == '-'
  }

  predicate AllChars(s: string, p: char -> bool) {
    forall i :: 0 <= i < |s| ==> p(s[i])
  }

  /** The pattern matches `s` with the '@' at `a` and the final '.' at `d`:
      a non-empty local part, a non-empty domain part, and a top-level label
      of two or more letters. */
  predicate EmailShape(s: string, a: nat, d: nat) {
    && 0 < a && a + 1 < d && d + 2 < |s|
    && s[a] == '@' && s[d] == '.'
    && AllChars(s[..a], LocalChar)
    && AllChars(s[a + 1..d], DomainChar)
    && AllChars(s[d + 1..], AsciiLetter)
  }

  /** String.matches with the registration pattern, as the regular
      expression reads: some split of the string fits it. */
  ghost predicate MatchesEmailPattern(s: string) {
    exists a: nat, d: nat :: EmailShape(s, a, d)
  }

  /** The same pattern decided without search: the '@' must be the last one
      and the final '.' the last one after it, since neither character can
      occur later in a match. */
  predicate IsRegistrationEmail(s: string) {
    var a := LastIndexOf(s, '@');
    a > 0 && AllChars(s[..a], LocalChar) && HasTopLevelLabel(s[a + 1..])
  }

  predicate HasTopLevelLabel(t: string) {
    var k := LastIndexOf(t, '.');
    k > 0 && k + 2 < |t| && AllChars(t[..k], DomainChar) && AllChars(t[k + 1..], AsciiLetter)
  }

  /** The check computes exactly the regular expression. */
  lemma RegistrationEmailMatchesPattern(s: string)
    ensures IsRegistrationEmail(s) <==> MatchesEmailPattern(s)
  {
    if IsRegistrationEmail(s) {
      RegistrationEmailSound(s);
    }
    if MatchesEmailPattern(s) {
      var a: nat, d: nat :| EmailShape(s, a, d);
      RegistrationEmailComplete(s, a, d);
    }
  }

  /** A string the check accepts fits the pattern at its last '@' and the
      last '.' after it. */
  lemma RegistrationEmailSound(s: string)
    requires IsRegistrationEmail(s)
    ensures MatchesEmailPattern(s)
  {
    var a := LastIndexOf(s, '@');
    var t := s[a + 1..];
    var k := LastIndexOf(t, '.');
    var d := a + 1 + k;
    assert s[a + 1..d] == t[..k];
    assert s[d + 1..] == t[k + 1..];
    assert EmailShape(s, a, d);
  }

  /** In any fit of the pattern the '@' is the last one and the '.' the last
      one after it, so the check accepts the string. */
  lemma RegistrationEmailComplete(s: string, a: nat, d: nat)
    requires EmailShape(s, a, d)
    ensures IsRegistrationEmail(s)
  {
    forall i | a < i < |s| ensures s[i] != '@' {
      if i < d {
        assert s[i] == s[a + 1..d][i - a - 1];
      } else if i > d {
        assert s[i] == s[d + 1..][i - d - 1];
      }
    }
    assert LastIndexOf(s, '@') == a;
    var t := s[a + 1..];
    var k := d - a - 1;
    forall i | k < i < |t| ensures t[i] != '.' {
      assert t[i] == s[d + 1..][i - k - 1];
    }
    assert LastIndexOf(t, '.') == k;
    assert t[..k] == s[a + 1..d];
    assert t[k + 1..] == s[d + 1..];
  }

  /** An address that passes the check is not blank. */
  lemma RegistrationEmailIsNotBlank(s: string)
    requires IsRegistrationEmail(s)
    ensures !IsBlank(s)
  {
    var a := LastIndexOf(s, '@');
    assert !IsWhitespace(s[a]);
  }

  // ---------------------------------------------------------------------------
  // Registration

  /** A registration request; e-mail, password and phone number are read
      without a null check, so they are always present here. */
  datatype RegistrationRequest = RegistrationRequest(
    name: Option<string>,
    email: string,
    password: string,
    phoneNumber: string,
    address: Option<string>,
    roles: Option<seq<string>>)

  /** validateRegistrationRequest: e-mail pattern, password length, phone
      format, phone length, in that order. A phone of ten or more digits
      passes; there is no upper bound. */
  function RegistrationCheck(req: RegistrationRequest): (e: Option<Error>)
    ensures e.None? <==>
      && IsRegistrationEmail(req.email)
      && Utf16Length(req.password) >= 6
      && AllDigits(req.phoneNumber) && |req.phoneNumber| >= 10
    ensures !IsRegistrationEmail(req.email) ==> e == Some(BadRequest("Invalid email format"))
    ensures e.Some? ==> e.value.BadRequest?
  {
    if !IsRegistrationEmail(req.email) then Some(BadRequest("Invalid email format"))
    else if Utf16Length(req.password) < 6 then Some(BadRequest("Password must be at least 6 characters long"))
    else if !AllDigits(req.phoneNumber) then Some(BadRequest("Invalid phone number format"))
    else if |req.phoneNumber| < 10 then Some(BadRequest("Phone number must not exceed 10 digits"))
    else None
  }

  /** Looks each requested name up in upper case; the first name with no
      role fails, naming the name as requested. */
  function ResolveEach(names: seq<string>, roles: map<string, Role>): (r: Result<seq<Role>>)
    ensures r.Ok? <==> forall i :: 0 <= i < |names| ==> ToUpper(names[i]) in roles
    ensures r.Ok? ==> |r.value| == |names| && forall i :: 0 <= i < |names| ==> r.value[i] == roles[ToUpper(names[i])]
    ensures r.Err? ==> exists i :: (
      && 0 <= i < |names| && ToUpper(names[i]) !in roles
      && (forall j :: 0 <= j < i ==> ToUpper(names[j]) in roles)
      && r.error == NotFound("Role '" + names[i] + "' Not Found"))
  {
    if names == [] then Ok([])
    else if ToUpper(names[0]) !in roles then Err(NotFound("Role '" + names[0] + "' Not Found"))
    else
      var rest := ResolveEach(names[1..], roles);
      if rest.Err? then
        var i :| (
          && 0 <= i < |names[1..]| && ToUpper(names[1..][i]) !in roles
          && (forall j :: 0 <= j < i ==> ToUpper(names[1..][j]) in roles)
          && rest.error == NotFound("Role '" + names[1..][i] + "' Not Found"));
        assert ToUpper(names[i + 1]) !in roles;
        rest
      else Ok([roles[ToUpper(names[0])]] + rest.value)
  }

  /** The roles a registration asks for, or the CUSTOMER role when the
      request names none. */
  function ResolveRoles(requested: Option<seq<string>>, roles: map<string, Role>): (r: Result<seq<Role>>)
    ensures requested.Some? && requested.value != [] ==> r == ResolveEach(requested.value, roles)
    ensures (requested.None? || requested.value == []) && "CUSTOMER" in roles ==> r == Ok([roles["CUSTOMER"]])
    ensures (requested.None? || requested.value == []) && "CUSTOMER" !in roles ==> r == Err(NotFound("Default CUSTOMER role Not Found"))
  {
    if requested.Some? && requested.value != [] then ResolveEach(requested.value, roles)
    else if "CUSTOMER" in roles then Ok([roles["CUSTOMER"]])
    else Err(NotFound("Default CUSTOMER role Not Found"))
  }

  /** The names of a list of roles, in the same order. */
  function RoleNames(rs: seq<Role>): (r: seq<string>)
    ensures |r| == |rs| && forall i :: 0 <= i < |rs| ==> r[i] == rs[i].name
  {
    seq(|rs|, i requires 0 <= i < |rs| => rs[i].name)
  }

  /** Every resolved role is named by the upper-cased request, and an empty
      or missing request resolves to exactly [CUSTOMER]. */
  lemma ResolvedRoleNames(requested: Option<seq<string>>, roles: map<string, Role>)
    requires RolesByName(roles)
    requires ResolveRoles(requested, roles).Ok?
    ensures requested.Some? && requested.value != [] ==>
      RoleNames(ResolveRoles(requested, roles).value) == seq(|requested.value|, i requires 0 <= i < |requested.value| => ToUpper(requested.value[i]))
    ensures requested.None? || requested.value == [] ==> RoleNames(ResolveRoles(requested, roles).value) == ["CUSTOMER"]
  {
  }

  /** register's decisions, in order: validation, an e-mail already
      registered, then role resolution. */
  function RegisterDecision(req: RegistrationRequest, users: map<nat, User>, roles: map<string, Role>): (r: Result<seq<Role>>)
    ensures RegistrationCheck(req).Some? ==> r == Err(RegistrationCheck(req).value)
    ensures RegistrationCheck(req).None? && EmailTaken(users, req.email) ==> r == Err(BadRequest("Email already exists"))
    ensures RegistrationCheck(req).None? && !EmailTaken(users, req.email) ==> r == ResolveRoles(req.roles, roles)
  {
    if RegistrationCheck(req).Some? then Err(RegistrationCheck(req).value)
    else if EmailTaken(users, req.email) then Err(BadRequest("Email already exists"))
    else ResolveRoles(req.roles, roles)
  }

  /** The user register saves: active, with the encoded password and the
      resolved roles. */
  function NewUser(id: nat, req: RegistrationRequest, encoded: string, rs: seq<Role>, now: int): User {
    User(id, req.name, req.email, encoded, Some(req.phoneNumber), req.address, None, rs, true, now)
  }

  // ---------------------------------------------------------------------------
  // Login

  datatype LoginRequest = LoginRequest(email: Option<string>, password: Option<string>)

  datatype LoginResponse = LoginResponse(token: string, roles: seq<string>)

  /** validateLoginRequest: a non-blank e-mail of the registration pattern,
      then a non-blank password of six or more characters. */
  function LoginCheck(req: LoginRequest): (e: Option<Error>)
    ensures e.None? <==>
      && req.email.Some? && IsRegistrationEmail(req.email.value)
      && req.password.Some? && !IsBlank(req.password.value) && Utf16Length(req.password.value) >= 6
    ensures e.Some? ==> e.value.BadRequest?
  {
    if req.email.None? || IsBlank(req.email.value) then Some(BadRequest("Email cannot be empty"))
    else if !IsRegistrationEmail(req.email.value) then Some(BadRequest("Invalid email format"))
    else if req.password.None? || IsBlank(req.password.value) then Some(BadRequest("Password cannot be empty"))
    else if Utf16Length(req.password.value) < 6 then Some(BadRequest("Password must be at least 6 characters long"))
    else None
  }

  /** login: after validation, an unknown e-mail, then an inactive account
      (before the password is looked at), then a wrong password; success
      yields a token for the e-mail and the user's role names. */
  function Login(req: LoginRequest, users: map<nat, User>, matches: (string, string) -> bool, generateToken: string -> string): (r: Result<LoginResponse>)
    requires Keyed(users) && UniqueEmails(users)
    ensures LoginCheck(req).Some? ==> r == Err(LoginCheck(req).value)
    ensures LoginCheck(req).None? && !EmailTaken(users, req.email.value) ==> r == Err(BadRequest("Invalid Email"))
    ensures r.Ok? <==> (
      && LoginCheck(req).None?
      && EmailTaken(users, req.email.value)
      && FindByEmail(users, req.email.value).value.active
      && matches(req.password.value, FindByEmail(users, req.email.value).value.password))
    ensures r.Ok? ==>
      r.value == LoginResponse(generateToken(req.email.value), RoleNames(FindByEmail(users, req.email.value).value.roles))
  {
    if LoginCheck(req).Some? then Err(LoginCheck(req).value)
    else
      var found := FindByEmail(users, req.email.value);
      if found.None? then Err(BadRequest("Invalid Email"))
      else if !found.value.active then Err(NotFound("Account not active, Please contact CUSTOMER support"))
      else if !matches(req.password.value, found.value.password) then Err(BadRequest("Invalid Password"))
      else Ok(LoginResponse(generateToken(found.value.email), RoleNames(found.value.roles)))
  }

  /** An inactive account is refused with NotFound whatever the password. */
  lemma InactiveAccountRefused(req: LoginRequest, users: map<nat, User>, id: nat, matches: (string, string) -> bool, generateToken: string -> string)
    requires Keyed(users) && UniqueEmails(users)
    requires LoginCheck(req).None?
    requires id in users && users[id].email == req.email.value && !users[id].active
    ensures Login(req, users, matches, generateToken) == Err(NotFound("Account not active, Please contact CUSTOMER support"))
  {
  }

  /** A user who registered can log in with the same e-mail and password,
      as long as the password is not blank, and gets the roles resolved at
      registration. */
  lemma LoginAfterRegister(
    req: RegistrationRequest, users: map<nat, User>, roles: map<string, Role>, id: nat,
    encode: string -> string, matches: (string, string) -> bool, generateToken: string -> string, now: int)
    requires Keyed(users) && UniqueEmails(users) && id !in users
    requires RegisterDecision(req, users, roles).Ok?
    requires !IsBlank(req.password) && matches(req.password, encode(req.password))
    ensures var after := users[id := NewUser(id, req, encode(req.password), RegisterDecision(req, users, roles).value, now)];
      && Keyed(after) && UniqueEmails(after)
      && Login(LoginRequest(Some(req.email), Some(req.password)), after, matches, generateToken)
         == Ok(LoginResponse(generateToken(req.email), RoleNames(RegisterDecision(req, users, roles).value)))
  {
    var u := NewUser(id, req, encode(req.password), RegisterDecision(req, users, roles).value, now);
    var after := users[id := u];
    PutKeepsEmailsUnique(users, id, u);
    RegistrationEmailIsNotBlank(req.email);
    assert id in after && after[id].email == req.email;
    var found := FindByEmail(after, req.email);
    assert found.value.id == id;
  }

  /** A password of six spaces passes registration but can never log in. */
  lemma BlankPasswordRegistersButCannotLogIn(req: RegistrationRequest, users: map<nat, User>, matches: (string, string) -> bool, generateToken: string -> string)
    requires Keyed(users) && UniqueEmails(users)
    requires IsRegistrationEmail(req.email) && AllDigits(req.phoneNumber) && |req.phoneNumber| >= 10
    requires req.password == "      "
    ensures RegistrationCheck(req).None?
    ensures Login(LoginRequest(Some(req.email), Some(req.password)), users, matches, generateToken) == Err(BadRequest("Password cannot be empty"))
  {
    RegistrationEmailIsNotBlank(req.email);
  }

  /** The password minimum counts UTF-16 units: three characters outside the
      Basic Multilingual Plane are six units and pass, while three ordinary
      characters do not. */
  lemma SurrogatePairsCountTwice(req: RegistrationRequest)
    requires IsRegistrationEmail(req.email) && AllDigits(req.phoneNumber) && |req.phoneNumber| >= 10
    ensures req.password == "\U{1F600}\U{1F600}\U{1F600}" ==> RegistrationCheck(req).None?
    ensures req.password == "abc" ==> RegistrationCheck(req) == Some(BadRequest("Password must be at least 6 characters long"))
  {
    if req.password == "\U{1F600}\U{1F600}\U{1F600}" {
      Utf16LengthOfAstral(req.password);
    }
    if req.password == "abc" {
      Utf16LengthOfBmp(req.password);
    }
  }

  class AuthService {
    const repo: UserRepository
    const roles: map<string, Role>

    ghost predicate Valid()
      reads this, repo
    {
      repo.Valid() && RolesByName(roles)
    }

    constructor (users: UserRepository, roleStore: map<string, Role>)
      requires users.Valid() && RolesByName(roleStore)
      ensures Valid() && repo == users && roles == roleStore
    {
      repo := users;
      roles := roleStore;
    }

    /** register: a refused request saves nothing; an accepted one saves an
        active user under the next id with the encoded password and the
        resolved roles. */
    method Register(req: RegistrationRequest, encode: string -> string, now: int) returns (r: Result<()>)
      requires Valid()
      modifies repo
      ensures Valid()
      ensures RegisterDecision(req, old(repo.users), roles).Err? ==>
        && r == Err(RegisterDecision(req, old(repo.users), roles).error)
        && repo.users == old(repo.users) && repo.nextId == old(repo.nextId)
      ensures RegisterDecision(req, old(repo.users), roles).Ok? ==>
        && r == Ok(())
        && repo.users == old(repo.users)[old(repo.nextId) :=
             NewUser(old(repo.nextId), req, encode(req.password), RegisterDecision(req, old(repo.users), roles).value, now)]
        && repo.nextId == old(repo.nextId) + 1
    {
      var decision := RegisterDecision(req, repo.users, roles);
      if decision.Err? {
        return Err(decision.error);
      }
      var u := NewUser(repo.nextId, req, encode(req.password), decision.value, now);
      PutKeepsEmailsUnique(repo.users, repo.nextId, u);
      repo.users := repo.users[repo.nextId := u];
      repo.nextId := repo.nextId + 1;
      r := Ok(());
    }
  }
}
