/**
 * UserService: read the caller's profile, update it field by field, change
 * the password, and the internal lookup by id. No result carries the
 * password hash.
 */
module UserService {
  import opened Common
  import opened Domain
  import opened Seqs
  import opened Database
  import opened UserTypes

  const UserNotFoundMessage := "User not found"
  const DeactivatedMessage := "Account is deactivated"
  const WrongPasswordMessage := "Current password is incorrect"
  const SamePasswordMessage := "New password must be different from current password"
  const PasswordChangedMessage := "Password changed successfully"

  /** getProfile: NotFound for an unknown id, otherwise every column but the password. */
  function GetProfile(users: seq<User>, userId: Id): (r: Result<Profile>)
    ensures r.Err? <==> forall u :: u in users ==> u.id != userId
    ensures r.Err? ==> r.error == NotFound(UserNotFoundMessage)
    ensures r.Ok? ==> exists u :: u in users && u.id == userId && r.value == ProfileOf(u)
  {
    match UserIndex(users, userId)
    case None => Err(NotFound(UserNotFoundMessage))
    case Some(i) => Ok(ProfileOf(users[i]))
  }

  /** getUserById: NotFound for an unknown id, otherwise id, email, names, role and isActive. */
  function GetUserById(users: seq<User>, userId: Id): (r: Result<UserSummary>)
    ensures r.Err? <==> forall u :: u in users ==> u.id != userId
    ensures r.Err? ==> r.error == NotFound(UserNotFoundMessage)
    ensures r.Ok? ==> exists u :: u in users && u.id == userId && r.value == SummaryOf(u)
  {
    match UserIndex(users, userId)
    case None => Err(NotFound(UserNotFoundMessage))
    case Some(i) => Ok(SummaryOf(users[i]))
  }

  /** Neither lookup reveals anything of a password hash: replacing one leaves both replies unchanged. */
  lemma LookupsIgnorePassword(users: seq<User>, userId: Id, i: nat, hashed: string)
    requires i < |users|
    ensures var users' := users[i := users[i].(password := hashed)];
      && GetProfile(users', userId) == GetProfile(users, userId)
      && GetUserById(users', userId) == GetUserById(users, userId)
  {
    var users' := users[i := users[i].(password := hashed)];
    IndexWhereAgrees(users, users', (u: User) => u.id == userId);
  }

  /** `...(v && { field: v })`: a truthy string overwrites, anything else keeps the stored value. */
  function IfTruthy(v: Option<string>, stored: string): string
  {
    if Truthy(v) then v.value else stored
  }

  /** `...(v && { field: new Date(v) })` for the nullable birth date: null and "" keep it. */
  function BirthDateUpdate(v: Field<string>, stored: Option<string>): Option<string>
  {
    if v.Given? && v.value != "" then Some(v.value) else stored
  }

  /** `...(v !== undefined && { field: v })`: null clears the field, a string sets it. */
  function UnlessUndefined(v: Field<string>, stored: Option<string>): Option<string>
  {
    match v
    case Absent => stored
    case Null => None
    case Given(s) => Some(s)
  }

  /** The row updateProfile writes. */
  function ApplyProfileUpdate(u: User, input: UpdateProfileInput): (v: User)
    ensures v.id == u.id && v.email == u.email && v.password == u.password
    ensures v.role == u.role && v.isActive == u.isActive && v.lastLogin == u.lastLogin
    ensures Truthy(input.firstName) ==> v.firstName == input.firstName.value
    ensures !Truthy(input.firstName) ==> v.firstName == u.firstName
    ensures Truthy(input.lastName) ==> v.lastName == input.lastName.value
    ensures !Truthy(input.lastName) ==> v.lastName == u.lastName
    ensures input.dateOfBirth.Given? && input.dateOfBirth.value != "" ==>
      v.dateOfBirth == Some(input.dateOfBirth.value)
    ensures input.dateOfBirth.Absent? || input.dateOfBirth.Null? || input.dateOfBirth == Given("") ==>
      v.dateOfBirth == u.dateOfBirth
    ensures input.phoneNumber.Given? ==> v.phoneNumber == Some(input.phoneNumber.value)
    ensures input.phoneNumber.Null? ==> v.phoneNumber.None?
    ensures input.phoneNumber.Absent? ==> v.phoneNumber == u.phoneNumber
    ensures input.address.Given? ==> v.address == Some(input.address.value)
    ensures input.address.Null? ==> v.address.None?
    ensures input.address.Absent? ==> v.address == u.address
    ensures input == UpdateProfileInput(None, None, Absent, Absent, Absent) ==> v == u
  {
    u.(firstName := IfTruthy(input.firstName, u.firstName),
       lastName := IfTruthy(input.lastName, u.lastName),
       phoneNumber := UnlessUndefined(input.phoneNumber, u.phoneNumber),
       dateOfBirth := BirthDateUpdate(input.dateOfBirth, u.dateOfBirth),
       address := UnlessUndefined(input.address, u.address))
  }

  /** Sending the same update twice has the effect of sending it once. */
  lemma ProfileUpdateIdempotent(u: User, input: UpdateProfileInput)
    ensures ApplyProfileUpdate(ApplyProfileUpdate(u, input), input) == ApplyProfileUpdate(u, input)
  {
  }

  /** The columns updateProfile selects for its reply. */
  datatype UpdatedProfile = UpdatedProfile(
    id: Id, email: string, firstName: string, lastName: string, phoneNumber: Option<string>,
    dateOfBirth: Option<string>, address: Option<string>, role: Role)

  function UpdatedProfileOf(u: User): UpdatedProfile
  {
    UpdatedProfile(u.id, u.email, u.firstName, u.lastName, u.phoneNumber, u.dateOfBirth, u.address, u.role)
  }

  /**
   * updateProfile: NotFound for an unknown user, BadRequest for a deactivated
   * one (neither changes anything); otherwise the user's row, and no other,
   * becomes ApplyProfileUpdate of it.
   */
  method UpdateProfile(db: Db, userId: Id, input: UpdateProfileInput) returns (r: Result<UpdatedProfile>)
    requires db.Wf()
    modifies db`users
    ensures db.Wf()
    ensures old(db.Valid()) ==> db.Valid()
    ensures UserIndex(old(db.users), userId).None? ==> r == Err(NotFound(UserNotFoundMessage)) && unchanged(db)
    ensures UserIndex(old(db.users), userId).Some? && !old(db.users[UserIndex(db.users, userId).value]).isActive ==>
      r == Err(BadRequest(DeactivatedMessage)) && unchanged(db)
    ensures r.Ok? <==>
      UserIndex(old(db.users), userId).Some? && old(db.users[UserIndex(db.users, userId).value]).isActive
    ensures r.Ok? ==>
      var i := UserIndex(old(db.users), userId).value;
      && db.users == old(db.users)[i := ApplyProfileUpdate(old(db.users[i]), input)]
      && r.value == UpdatedProfileOf(db.users[i])
  {
    var found := UserIndex(db.users, userId);
    if found.None? {
      return Err(NotFound(UserNotFoundMessage));
    }
    var i := found.value;
    if !db.users[i].isActive {
      return Err(BadRequest(DeactivatedMessage));
    }
    var updated := ApplyProfileUpdate(db.users[i], input);
    KeyPreservingUpdate(db.users, i, updated);
    db.users := db.users[i := updated];
    r := Ok(UpdatedProfileOf(updated));
  }

  /** Replacing a row by one with the same id and email keeps both unique. */
  lemma KeyPreservingUpdate(users: seq<User>, i: nat, v: User)
    requires i < |users| && v.id == users[i].id && v.email == users[i].email
    requires UserIdsUnique(users) && EmailsUnique(users)
    ensures UserIdsUnique(users[i := v]) && EmailsUnique(users[i := v])
    ensures forall u :: u in users[i := v] ==> u == v || u in users
  {
  }

  /**
   * changePassword: NotFound for an unknown user; Unauthorized when the
   * current password does not match (checked first); BadRequest when the new
   * password matches the stored hash; otherwise the stored hash becomes the
   * hash of the new password and nothing else changes.
   */
  method ChangePassword(db: Db, userId: Id, input: ChangePasswordInput, hash: string -> string)
    returns (r: Result<string>)
    requires db.Wf()
    modifies db`users
    ensures db.Wf()
    ensures old(db.Valid()) ==> db.Valid()
    ensures UserIndex(old(db.users), userId).None? ==> r == Err(NotFound(UserNotFoundMessage)) && unchanged(db)
    ensures UserIndex(old(db.users), userId).Some? ==>
      var stored := old(db.users[UserIndex(db.users, userId).value]).password;
      && (!PasswordMatches(hash, input.currentPassword, stored) ==>
            r == Err(Unauthorized(WrongPasswordMessage)) && unchanged(db))
      && (PasswordMatches(hash, input.currentPassword, stored) && PasswordMatches(hash, input.newPassword, stored) ==>
            r == Err(BadRequest(SamePasswordMessage)) && unchanged(db))
      && (r.Ok? <==> PasswordMatches(hash, input.currentPassword, stored)
                     && !PasswordMatches(hash, input.newPassword, stored))
    ensures r.Ok? ==>
      var i := UserIndex(old(db.users), userId).value;
      && r.value == PasswordChangedMessage
      && db.users == old(db.users)[i := old(db.users[i]).(password := hash(input.newPassword))]
      && PasswordMatches(hash, input.newPassword, db.users[i].password)
      && !PasswordMatches(hash, input.currentPassword, db.users[i].password)
  {
    var found := UserIndex(db.users, userId);
    if found.None? {
      return Err(NotFound(UserNotFoundMessage));
    }
    var i := found.value;
    var user := db.users[i];
    if !PasswordMatches(hash, input.currentPassword, user.password) {
      return Err(Unauthorized(WrongPasswordMessage));
    }
    if PasswordMatches(hash, input.newPassword, user.password) {
      return Err(BadRequest(SamePasswordMessage));
    }
    var updated := user.(password := hash(input.newPassword));
    KeyPreservingUpdate(db.users, i, updated);
    db.users := db.users[i := updated];
    r := Ok(PasswordChangedMessage);
  }
}
