/** The account service of the logged-in user: who that user is, updating
    one's own account (validated fields, null meaning unchanged, a replaced
    profile image in object storage) and deactivating it. The authenticated
    e-mail, the UUID, the upload URL and the password encoder are
    parameters. */
module UserServices {
  import opened Common
  import opened JavaStrings
  import opened Accounts
  import opened AuthServices
  import opened External

  // ---------------------------------------------------------------------------
  // The e-mail pattern ^[A-Za-z0-9+_.-]+@[A-Za-z0-9.-]+$

  predicate UpdateLocalChar(c: char) {
    AsciiLetter(c) || IsDigit(c) || c == '+' || c == '_' || c == '.' || c == '-'
  }

  /** The pattern matches `s` with its '@' at `a`. */
  predicate UpdateEmailShape(s: string, a: nat) {
    && 0 < a && a + 1 < |s| && s[a] == '@'
    && AllChars(s[..a], UpdateLocalChar)
    && AllChars(s[a + 1..], DomainChar)
  }

  /** String.matches with the update pattern, as the regular expression
      reads. */
  ghost predicate MatchesUpdateEmailPattern(s: string) {
    exists a: nat :: UpdateEmailShape(s, a)
  }

  /** The same pattern decided at the last '@', the only place one can be. */
  predicate IsUpdateEmail(s: string) {
    var a := LastIndexOf(s, '@');
    a > 0 && a + 1 < |s| && AllChars(s[..a], UpdateLocalChar) && AllChars(s[a + 1..], DomainChar)
  }

  lemma UpdateEmailMatchesPattern(s: string)
    ensures IsUpdateEmail(s) <==> MatchesUpdateEmailPattern(s)
  {
    if IsUpdateEmail(s) {
      assert UpdateEmailShape(s, LastIndexOf(s, '@'));
    }
    if MatchesUpdateEmailPattern(s) {
      var a: nat :| UpdateEmailShape(s, a);
      forall i | a < i < |s| ensures s[i] != '@' {
        assert s[i] == s[a + 1..][i - a - 1];
      }
      assert LastIndexOf(s, '@') == a;
    }
  }

  /** An address registration accepts is accepted by an update unless its
      local part has a '%', which only the registration pattern allows. */
  lemma RegistrationEmailIsUpdateEmail(s: string)
    requires IsRegistrationEmail(s)
    ensures '%' !in s ==> IsUpdateEmail(s)
  {
    var a := LastIndexOf(s, '@');
    var t := s[a + 1..];
    var k := LastIndexOf(t, '.');
    forall i | 0 <= i < |t| ensures DomainChar(t[i]) {
      if i < k {
        assert t[i] == t[..k][i];
      } else if i > k {
        assert t[i] == t[k + 1..][i - k - 1];
      }
    }
    if '%' !in s {
      forall i | 0 <= i < a ensures UpdateLocalChar(s[..a][i]) {
        assert s[..a][i] == s[i];
        assert LocalChar(s[..a][i]);
      }
    }
  }

  /** The two patterns differ: a '%' before the '@' registers but cannot be
      set by an update. */
  lemma PercentRegistersButCannotUpdate()
    ensures IsRegistrationEmail("a%b@c.io") && !IsUpdateEmail("a%b@c.io")
  {
    var e := "a%b@c.io";
    assert e[3] == '@' && e[4] != '@' && e[5] != '@' && e[6] != '@' && e[7] != '@';
    assert e[0] != '@' && e[1] != '@' && e[2] != '@';
    assert LastIndexOf(e, '@') == 3;
    assert e[..3] == "a%b";
    PercentLocalPart();
    assert e[4..] == "c.io";
    DomainLabel();
  }

  lemma PercentLocalPart()
    ensures AllChars("a%b", LocalChar) && !AllChars("a%b", UpdateLocalChar)
  {
    assert "a%b"[1] == '%';
  }

  lemma DomainLabel()
    ensures HasTopLevelLabel("c.io")
  {
    var t := "c.io";
    assert t[1] == '.' && t[2] != '.' && t[3] != '.';
    assert LastIndexOf(t, '.') == 1;
    assert t[..1] == "c" && t[2..] == "io";
  }

  /** ... and an address without a top-level label can be set by an update
      but cannot register. */
  lemma BareDomainUpdatesButCannotRegister()
    ensures !IsRegistrationEmail("a@b") && IsUpdateEmail("a@b")
  {
    assert "a@b"[1] == '@' && "a@b"[2] != '@';
    assert LastIndexOf("a@b", '@') == 1;
    assert LastIndexOf("b", '.') == -1;
  }

  /** The pattern ^[0-9]{10}$. */
  predicate TenDigits(s: string) {
    |s| == 10 && AllDigits(s)
  }

  // ---------------------------------------------------------------------------
  // The update request

  /** The UserDTO of an update; any field may be null. */
  datatype UserUpdate = UserUpdate(
    name: Option<string>,
    email: Option<string>,
    phoneNumber: Option<string>,
    address: Option<string>,
    password: Option<string>,
    imageFile: Option<ImageFile>)

  /** validateUpdate: each field that is given must be well formed; the
      checks run name, e-mail, phone, password, image. */
  function UpdateCheck(dto: UserUpdate): (e: Option<Error>)
    ensures e.None? <==>
      && (dto.name.Some? ==> Trim(dto.name.value) != [])
      && (dto.email.Some? ==> IsUpdateEmail(dto.email.value))
      && (dto.phoneNumber.Some? ==> TenDigits(dto.phoneNumber.value))
      && (dto.password.Some? ==> Utf16Length(dto.password.value) >= 6)
      && (dto.imageFile.Some? ==> !dto.imageFile.value.isEmpty)
    ensures e.Some? ==> e.value.BadRequest?
  {
    if dto.name.Some? && Trim(dto.name.value) == [] then Some(BadRequest("Name cannot be empty"))
    else if dto.email.Some? && !IsUpdateEmail(dto.email.value) then Some(BadRequest("Invalid email format"))
    else if dto.phoneNumber.Some? && !TenDigits(dto.phoneNumber.value) then Some(BadRequest("Phone number must be exactly 10 digits"))
    else if dto.password.Some? && Utf16Length(dto.password.value) < 6 then Some(BadRequest("Password must be at least 6 characters"))
    else if dto.imageFile.Some? && dto.imageFile.value.isEmpty then Some(BadRequest("Image file cannot be empty"))
    else None
  }

  /** The update changes nothing and asks nothing of storage. */
  predicate EmptyUpdate(dto: UserUpdate) {
    dto.name.None? && dto.email.None? && dto.phoneNumber.None? && dto.address.None? && dto.password.None? && dto.imageFile.None?
  }

  /** getCurrentLoggedInUser: the active user with the authenticated e-mail. */
  function CurrentUser(users: map<nat, User>, email: string): (r: Result<User>)
    requires Keyed(users) && UniqueEmails(users)
    ensures !EmailTaken(users, email) ==> r == Err(NotFound("User not found"))
    ensures EmailTaken(users, email) && !FindByEmail(users, email).value.active ==> r == Err(NotFound("Account not active"))
    ensures r.Ok? <==> exists id :: id in users && users[id].email == email && users[id].active
    ensures r.Ok? ==> r.value.id in users && users[r.value.id] == r.value && r.value.email == email && r.value.active
  {
    var found := FindByEmail(users, email);
    if found.None? then Err(NotFound("User not found"))
    else if !found.value.active then Err(NotFound("Account not active"))
    else Ok(found.value)
  }

  /** The key a new profile image is uploaded under. */
  function ProfileKey(uuid: string, file: ImageFile): string {
    "profile/" + uuid + "_" + Spelled(file.originalFilename)
  }

  /** The storage calls of an update: with a non-empty image, the old
      image's key under "profile/" is deleted when the stored URL is
      non-empty, then the new image is uploaded; otherwise nothing. */
  function ProfileImageCalls(oldUrl: Option<string>, file: Option<ImageFile>, uuid: string): (calls: seq<StorageCall>)
    ensures file.None? || file.value.isEmpty <==> calls == []
    ensures calls != [] ==> calls[|calls| - 1] == Upload(ProfileKey(uuid, file.value))
    ensures calls != [] ==> (|calls| == 2 <==> oldUrl.Some? && oldUrl.value != "")
    ensures |calls| == 2 ==> calls[0] == Delete("profile/" + AfterLastSlash(oldUrl.value))
    ensures |calls| <= 2
  {
    if file.None? || file.value.isEmpty then []
    else
      var delete := if oldUrl.Some? && oldUrl.value != "" then [Delete("profile/" + AfterLastSlash(oldUrl.value))] else [];
      delete + [Upload(ProfileKey(uuid, file.value))]
  }

  /** Which of an update's profile-image calls complete, case by case: a
      throwing delete stops before any call, a throwing upload after the
      delete, and otherwise every call is made and only the save can still
      throw. */
  lemma ProfileCallsUnderFault(oldUrl: Option<string>, file: Option<ImageFile>, uuid: string, fault: Option<CallStep>)
    ensures var calls := ProfileImageCalls(oldUrl, file, uuid);
      var replacing := file.Some? && !file.value.isEmpty;
      var deletes := oldUrl.Some? && oldUrl.value != "";
      && (replacing && deletes && fault == Some(DeleteObject) ==> CallsMade(calls, fault) == [] && Aborts(calls, fault))
      && (replacing && fault == Some(UploadObject) ==>
            CallsMade(calls, fault) == (if deletes then [Delete("profile/" + AfterLastSlash(oldUrl.value))] else [])
            && Aborts(calls, fault))
      && (!replacing || (!(deletes && fault == Some(DeleteObject)) && fault != Some(UploadObject)) ==>
            CallsMade(calls, fault) == calls && (Aborts(calls, fault) <==> fault == Some(WriteRepository)))
  {
    var calls := ProfileImageCalls(oldUrl, file, uuid);
    if file.Some? && !file.value.isEmpty && oldUrl.Some? && oldUrl.value != "" {
      assert calls == [Delete("profile/" + AfterLastSlash(oldUrl.value)), Upload(ProfileKey(uuid, file.value))];
    } else if file.Some? && !file.value.isEmpty {
      assert calls == [Upload(ProfileKey(uuid, file.value))];
    }
  }

  /** The e-mail of an update is rejected: it is new for this user and
      another user already has it. */
  predicate EmailClash(users: map<nat, User>, u: User, dto: UserUpdate) {
    dto.email.Some? && dto.email.value != u.email && EmailTaken(users, dto.email.value)
  }

  /** The user an update saves: each given field replaces the stored one,
      the password encoded; a null field is left as it was; a new image
      replaces the profile URL with the upload's URL. */
  function Applied(u: User, dto: UserUpdate, uuid: string, urlOf: string -> string, encode: string -> string): (r: User)
    ensures r.id == u.id && r.roles == u.roles && r.active == u.active && r.createdAt == u.createdAt
    ensures r.name == (if dto.name.Some? then dto.name else u.name)
    ensures r.email == (if dto.email.Some? then dto.email.value else u.email)
    ensures r.phoneNumber == (if dto.phoneNumber.Some? then dto.phoneNumber else u.phoneNumber)
    ensures r.address == (if dto.address.Some? then dto.address else u.address)
    ensures r.password == (if dto.password.Some? then encode(dto.password.value) else u.password)
    ensures r.profileUrl == (if dto.imageFile.Some? && !dto.imageFile.value.isEmpty then Some(urlOf(ProfileKey(uuid, dto.imageFile.value))) else u.profileUrl)
  {
    u.(
      name := if dto.name.Some? then dto.name else u.name,
      email := if dto.email.Some? then dto.email.value else u.email,
      phoneNumber := if dto.phoneNumber.Some? then dto.phoneNumber else u.phoneNumber,
      address := if dto.address.Some? then dto.address else u.address,
      password := if dto.password.Some? then encode(dto.password.value) else u.password,
      profileUrl := if dto.imageFile.Some? && !dto.imageFile.value.isEmpty then Some(urlOf(ProfileKey(uuid, dto.imageFile.value))) else u.profileUrl)
  }

  /** An empty update saves the user exactly as stored. */
  lemma EmptyUpdateKeepsUser(u: User, dto: UserUpdate, uuid: string, urlOf: string -> string, encode: string -> string)
    requires EmptyUpdate(dto)
    ensures Applied(u, dto, uuid, urlOf, encode) == u
    ensures ProfileImageCalls(u.profileUrl, dto.imageFile, uuid) == []
  {
  }

  /** The stored password after an update is never the raw one the request
      carried, as long as the encoder never returns its input. */
  lemma PasswordStoredEncoded(u: User, dto: UserUpdate, uuid: string, urlOf: string -> string, encode: string -> string)
    requires dto.password.Some?
    requires forall p :: encode(p) != p
    ensures Applied(u, dto, uuid, urlOf, encode).password != dto.password.value
  {
  }

  /** Saving an updated user whose e-mail did not clash keeps e-mails unique. */
  lemma AppliedKeepsEmailsUnique(users: map<nat, User>, u: User, dto: UserUpdate, uuid: string, urlOf: string -> string, encode: string -> string)
    requires Keyed(users) && UniqueEmails(users) && u.id in users && users[u.id] == u
    requires !EmailClash(users, u, dto)
    ensures UniqueEmails(users[u.id := Applied(u, dto, uuid, urlOf, encode)])
  {
    var v := Applied(u, dto, uuid, urlOf, encode);
    forall other | other in users && other != u.id ensures users[other].email != v.email {
      if dto.email.Some? && dto.email.value != u.email {
        assert !(other in users && users[other].email == dto.email.value);
      }
    }
    PutKeepsEmailsUnique(users, u.id, v);
  }

  // ---------------------------------------------------------------------------
  // The image clean-up when the e-mail clashes

  /** What updateOwnAccount does once the user is known and the request is
      valid: the storage calls it makes, and the user it saves or the error
      it ends with. The image is replaced before the e-mail is checked. */
  datatype UpdateOutcome = UpdateOutcome(calls: seq<StorageCall>, saved: Result<User>)

  function AsWritten(users: map<nat, User>, u: User, dto: UserUpdate, uuid: string, urlOf: string -> string, encode: string -> string): UpdateOutcome {
    var calls := ProfileImageCalls(u.profileUrl, dto.imageFile, uuid);
    if EmailClash(users, u, dto) then UpdateOutcome(calls, Err(BadRequest("Email already exists")))
    else UpdateOutcome(calls, Ok(Applied(u, dto, uuid, urlOf, encode)))
  }

  /** With a new image and an e-mail another user has, the old image is
      deleted from storage while the stored user, which is not saved, still
      points at it. */
  lemma AsWrittenDeletesReferencedImage(urlOf: string -> string, encode: string -> string)
    ensures
      var url := "https://bucket/profile/old.png";
      var u := User(1, Some("A"), "a@x.io", "h", None, None, Some(url), [], true, 0);
      var v := User(2, Some("B"), "b@x.io", "h", None, None, None, [], true, 0);
      var users := map[1 := u, 2 := v];
      var dto := UserUpdate(None, Some("b@x.io"), None, None, None, Some(ImageFile(Some("new.png"), false)));
      var out := AsWritten(users, u, dto, "id", urlOf, encode);
      && out.saved.Err?
      && Delete("profile/" + AfterLastSlash(url)) in out.calls
      && users[1].profileUrl == Some(url)
  {
    var u := User(1, Some("A"), "a@x.io", "h", None, None, Some("https://bucket/profile/old.png"), [], true, 0);
    var v := User(2, Some("B"), "b@x.io", "h", None, None, None, [], true, 0);
    var users := map[1 := u, 2 := v];
    assert users[2].email == "b@x.io";
    assert "b@x.io" != "a@x.io";
  }

  /** The intended order: the e-mail is checked before storage is touched,
      so a refused update leaves storage alone. */
  function Checked(users: map<nat, User>, u: User, dto: UserUpdate, uuid: string, urlOf: string -> string, encode: string -> string): (out: UpdateOutcome)
    ensures out.saved.Err? ==> out.calls == []
    ensures out.saved.Ok? ==> out == AsWritten(users, u, dto, uuid, urlOf, encode)
    ensures out.saved.Err? <==> EmailClash(users, u, dto)
  {
    if EmailClash(users, u, dto) then UpdateOutcome([], Err(BadRequest("Email already exists")))
    else UpdateOutcome(ProfileImageCalls(u.profileUrl, dto.imageFile, uuid), Ok(Applied(u, dto, uuid, urlOf, encode)))
  }

  /** Under the intended order, every deleted image belongs to a user that
      is saved with a new URL. */
  lemma CheckedDeletesOnlyReplacedImages(users: map<nat, User>, u: User, dto: UserUpdate, uuid: string, urlOf: string -> string, encode: string -> string, key: string)
    requires Delete(key) in Checked(users, u, dto, uuid, urlOf, encode).calls
    ensures Checked(users, u, dto, uuid, urlOf, encode).saved.Ok?
    ensures Checked(users, u, dto, uuid, urlOf, encode).saved.value.profileUrl == Some(urlOf(ProfileKey(uuid, dto.imageFile.value)))
  {
  }

  // ---------------------------------------------------------------------------
  // The service

  class UserService {
    const repo: UserRepository
    var storage: seq<StorageCall>
    var outbox: seq<Notification>

    ghost predicate Valid()
      reads this, repo
    {
      repo.Valid()
    }

    constructor (users: UserRepository)
      requires users.Valid()
      ensures Valid() && repo == users && storage == [] && outbox == []
    {
      repo := users;
      storage := [];
      outbox := [];
    }

    /** getCurrentLoggedInUser. */
    method GetCurrentLoggedInUser(email: string) returns (r: Result<User>)
      requires Valid()
      ensures r == CurrentUser(repo.users, email)
    {
      r := CurrentUser(repo.users, email);
    }

    /** updateOwnAccount: the user must be current and the request valid,
        else nothing happens; an e-mail that belongs to another user is then
        refused, and otherwise the image calls are made and the user saved.
        The e-mail is checked before storage is touched, as `Checked`
        states; the code as written is `AsWritten`. When `fault` names a
        call that throws, the calls before it stay made and the user is not
        saved. */
    method UpdateOwnAccount(email: string, dto: UserUpdate, uuid: string, urlOf: string -> string, encode: string -> string, fault: Option<CallStep>)
      returns (r: Result<()>)
      requires Valid()
      modifies this, repo
      ensures Valid() && repo.nextId == old(repo.nextId)
      ensures CurrentUser(old(repo.users), email).Err? ==>
        && r == Err(CurrentUser(old(repo.users), email).error)
        && repo.users == old(repo.users) && storage == old(storage)
      ensures CurrentUser(old(repo.users), email).Ok? && UpdateCheck(dto).Some? ==>
        && r == Err(UpdateCheck(dto).value)
        && repo.users == old(repo.users) && storage == old(storage)
      ensures CurrentUser(old(repo.users), email).Ok? && UpdateCheck(dto).None? ==>
        var u := CurrentUser(old(repo.users), email).value;
        var out := Checked(old(repo.users), u, dto, uuid, urlOf, encode);
        && (out.saved.Err? ==> r == Err(out.saved.error) && repo.users == old(repo.users) && storage == old(storage))
        && (out.saved.Ok? ==>
              && storage == old(storage) + CallsMade(out.calls, fault)
              && (Aborts(out.calls, fault) ==> r.Err? && r.error.Fault? && repo.users == old(repo.users))
              && (!Aborts(out.calls, fault) ==> r == Ok(()) && repo.users == old(repo.users)[u.id := out.saved.value]))
      ensures outbox == old(outbox)
    {
      var current := CurrentUser(repo.users, email);
      if current.Err? {
        return Err(current.error);
      }
      var check := UpdateCheck(dto);
      if check.Some? {
        return Err(check.value);
      }
      var u := current.value;
      var out := Checked(repo.users, u, dto, uuid, urlOf, encode);
      if out.saved.Err? {
        return Err(out.saved.error);
      }
      ProfileCallsUnderFault(u.profileUrl, dto.imageFile, uuid, fault);
      var file := dto.imageFile;
      if file.Some? && !file.value.isEmpty {
        if u.profileUrl.Some? && u.profileUrl.value != "" {
          if fault == Some(DeleteObject) {
            return Err(Fault("image delete failed"));
          }
          storage := storage + [Delete("profile/" + AfterLastSlash(u.profileUrl.value))];
        }
        if fault == Some(UploadObject) {
          return Err(Fault("image upload failed"));
        }
        storage := storage + [Upload(ProfileKey(uuid, file.value))];
      }
      if fault == Some(WriteRepository) {
        return Err(Fault("user save failed"));
      }
      AppliedKeepsEmailsUnique(repo.users, u, dto, uuid, urlOf, encode);
      repo.users := repo.users[u.id := out.saved.value];
      r := Ok(());
    }

    /** deactivateOwnAccount: the current user is saved inactive and sent
        one e-mail; without a current user, or when the save throws, nothing
        is saved or sent. */
    method DeactivateOwnAccount(email: string, saveFails: bool) returns (r: Result<()>)
      requires Valid()
      modifies this, repo
      ensures Valid() && repo.nextId == old(repo.nextId) && storage == old(storage)
      ensures CurrentUser(old(repo.users), email).Err? ==>
        && r == Err(CurrentUser(old(repo.users), email).error)
        && repo.users == old(repo.users) && outbox == old(outbox)
      ensures CurrentUser(old(repo.users), email).Ok? && saveFails ==>
        && r.Err? && r.error.Fault?
        && repo.users == old(repo.users) && outbox == old(outbox)
      ensures CurrentUser(old(repo.users), email).Ok? && !saveFails ==>
        var u := CurrentUser(old(repo.users), email).value;
        && r == Ok(())
        && repo.users == old(repo.users)[u.id := u.(active := false)]
        && outbox == old(outbox) + [DeactivationMail(u.email)]
    {
      var current := CurrentUser(repo.users, email);
      if current.Err? {
        return Err(current.error);
      }
      var u := current.value;
      if saveFails {
        return Err(Fault("user save failed"));
      }
      PutKeepsEmailsUnique(repo.users, u.id, u.(active := false));
      repo.users := repo.users[u.id := u.(active := false)];
      outbox := outbox + [DeactivationMail(u.email)];
      r := Ok(());
    }
  }

  function DeactivationMail(recipient: string): Notification {
    Notification(recipient, "Account Deactivated", "Your account has been deactivated. If this was a mistake, please contact support.")
  }

  /** After deactivation the account is no longer current, and logging in
      with it is refused as inactive whatever the password. */
  lemma DeactivatedAccountIsLockedOut(
    users: map<nat, User>, email: string, password: string,
    matches: (string, string) -> bool, generateToken: string -> string)
    requires Keyed(users) && UniqueEmails(users)
    requires CurrentUser(users, email).Ok?
    requires LoginCheck(LoginRequest(Some(email), Some(password))).None?
    ensures
      var u := CurrentUser(users, email).value;
      var after := users[u.id := u.(active := false)];
      && Keyed(after) && UniqueEmails(after)
      && CurrentUser(after, email) == Err(NotFound("Account not active"))
      && Login(LoginRequest(Some(email), Some(password)), after, matches, generateToken)
         == Err(NotFound("Account not active, Please contact CUSTOMER support"))
  {
    var u := CurrentUser(users, email).value;
    var after := users[u.id := u.(active := false)];
    PutKeepsEmailsUnique(users, u.id, u.(active := false));
    assert after[u.id].email == email;
    assert FindByEmail(after, email).value.id == u.id;
  }
}
