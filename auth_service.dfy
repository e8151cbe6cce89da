/**
 * AuthService: register a user under an unused email with a hashed
 * password, log in by email and password (recording the login time), and
 * check that a token's user still exists and is active. Token signing is a
 * parameter, like hashing.
 */
module AuthService {
  import opened Common
  import opened Domain
  import opened Database

  const EmailTakenMessage := "User with this email already exists"
  const InvalidCredentialsMessage := "Invalid email or password"
  const DeactivatedMessage := "Account has been deactivated"
  const InactiveUserMessage := "User not found or inactive"

  /** RegisterInput */
  datatype RegisterInput = RegisterInput(
    email: string, password: string, firstName: string, lastName: string,
    phoneNumber: Option<string>, dateOfBirth: Option<string>, address: Option<string>)

  /** The columns register selects for its reply. */
  datatype RegisteredUser = RegisteredUser(id: Id, email: string, firstName: string, lastName: string, role: Role)

  datatype RegisterResult = RegisterResult(user: RegisteredUser, token: string)
  datatype LoginResult = LoginResult(user: Profile, token: string)

  function PayloadOf(u: User): TokenPayload
  {
    TokenPayload(u.id, u.email, u.role)
  }

  /**
   * The row register creates: the password hashed, a falsy birth date stored
   * as null, and the schema defaults for the rest (role USER, active, never
   * logged in).
   */
  function NewUser(id: Id, input: RegisterInput, hash: string -> string): (u: User)
    ensures u.id == id && u.email == input.email && PasswordMatches(hash, input.password, u.password)
    ensures u.role == USER && u.isActive && u.lastLogin.None?
    ensures u.firstName == input.firstName && u.lastName == input.lastName
    ensures u.phoneNumber == input.phoneNumber && u.address == input.address
    ensures Truthy(input.dateOfBirth) ==> u.dateOfBirth == input.dateOfBirth
    ensures !Truthy(input.dateOfBirth) ==> u.dateOfBirth.None?
  {
    User(id, input.email, hash(input.password), input.firstName, input.lastName, input.phoneNumber,
         if Truthy(input.dateOfBirth) then input.dateOfBirth else None, input.address, USER, true, None)
  }

  /**
   * register: Conflict, creating nobody, when the email is taken; otherwise
   * one new user row, a reply without the password, and a token for it.
   */
  method Register(db: Db, input: RegisterInput, hash: string -> string, sign: TokenPayload -> string)
    returns (r: Result<RegisterResult>)
    requires db.Wf()
    modifies db`users, db`nextId
    ensures db.Wf()
    ensures old(db.Valid()) ==> db.Valid()
    ensures UserIndexByEmail(old(db.users), input.email).Some? ==>
      r == Err(Conflict(EmailTakenMessage)) && unchanged(db)
    ensures r.Ok? <==> UserIndexByEmail(old(db.users), input.email).None?
    ensures r.Ok? ==>
      var u := NewUser(old(db.nextId), input, hash);
      && db.users == old(db.users) + [u]
      && r.value.user == RegisteredUser(u.id, u.email, u.firstName, u.lastName, u.role)
      && r.value.token == sign(PayloadOf(u))
  {
    var existing := UserIndexByEmail(db.users, input.email);
    if existing.Some? {
      return Err(Conflict(EmailTakenMessage));
    }
    var u := NewUser(db.nextId, input, hash);
    db.users := db.users + [u];
    db.nextId := db.nextId + 1;
    r := Ok(RegisterResult(RegisteredUser(u.id, u.email, u.firstName, u.lastName, u.role), sign(PayloadOf(u))));
  }

  /**
   * login: an unknown email and a wrong password give the same Unauthorized;
   * a deactivated user is refused before the password is compared. On
   * success only that user's lastLogin changes, and the reply is the row as
   * read before that update, without the password.
   */
  method Login(db: Db, email: string, password: string, hash: string -> string,
               sign: TokenPayload -> string, now: Timestamp)
    returns (r: Result<LoginResult>)
    requires db.Wf()
    modifies db`users
    ensures db.Wf()
    ensures old(db.Valid()) ==> db.Valid()
    ensures UserIndexByEmail(old(db.users), email).None? ==>
      r == Err(Unauthorized(InvalidCredentialsMessage)) && unchanged(db)
    ensures UserIndexByEmail(old(db.users), email).Some? ==>
      var u := old(db.users[UserIndexByEmail(db.users, email).value]);
      && (!u.isActive ==> r == Err(Unauthorized(DeactivatedMessage)) && unchanged(db))
      && (u.isActive && !PasswordMatches(hash, password, u.password) ==>
            r == Err(Unauthorized(InvalidCredentialsMessage)) && unchanged(db))
      && (r.Ok? <==> u.isActive && PasswordMatches(hash, password, u.password))
    ensures r.Ok? ==>
      var i := UserIndexByEmail(old(db.users), email).value;
      var u := old(db.users[i]);
      && db.users == old(db.users)[i := u.(lastLogin := Some(now))]
      && r.value == LoginResult(ProfileOf(u), sign(PayloadOf(u)))
  {
    var found := UserIndexByEmail(db.users, email);
    if found.None? {
      return Err(Unauthorized(InvalidCredentialsMessage));
    }
    var i := found.value;
    var u := db.users[i];
    if !u.isActive {
      return Err(Unauthorized(DeactivatedMessage));
    }
    if !PasswordMatches(hash, password, u.password) {
      return Err(Unauthorized(InvalidCredentialsMessage));
    }
    db.users := db.users[i := u.(lastLogin := Some(now))];
    r := Ok(LoginResult(ProfileOf(u), sign(PayloadOf(u))));
  }

  /** verifyUser: Unauthorized when the user is missing or inactive, otherwise the user's summary. */
  function VerifyUser(users: seq<User>, userId: Id): (r: Result<UserSummary>)
    ensures r.Err? ==> r.error == Unauthorized(InactiveUserMessage)
    ensures r.Ok? ==> exists u :: u in users && u.id == userId && u.isActive && r.value == SummaryOf(u)
    ensures UserIdsUnique(users) ==> (r.Ok? <==> exists u :: u in users && u.id == userId && u.isActive)
    ensures r.Ok? ==> r.value.id == userId && r.value.isActive
  {
    match UserIndex(users, userId)
    case None => Err(Unauthorized(InactiveUserMessage))
    case Some(i) =>
      if !users[i].isActive then Err(Unauthorized(InactiveUserMessage))
      else Ok(SummaryOf(users[i]))
  }
}
