/** The user store: registration with trimming, case-insensitive duplicate
    rejection and password hashing; login by case-insensitive username.
    Hashing, password comparison and token issuing are opaque functions
    passed in by the caller. */
module UserService {
  import opened Wrappers
  import opened Ascii
  import opened Lookup
  import opened Models

  const DuplicateUsername := "same username already exists"
  const BadCredentials := "username or password is incorrect"

  /** bcrypt hashing, which may fail. */
  type Hasher = string -> Result<string>

  /** Whether a stored hash matches a plaintext password. */
  type PasswordCheck = (string, string) -> bool

  /** Token issuing for a stored user, which may fail. */
  type TokenIssuer = User -> Result<string>

  /** Some stored user has the username, ignoring case. */
  predicate UsernameTaken(db: Database, username: string) {
    exists i :: 0 <= i < |db.users| && SameIgnoringCase(db.users[i].username, username)
  }

  function UsernameIndex(users: seq<User>, username: string): (r: nat)
    ensures r <= |users|
    ensures r < |users| ==> SameIgnoringCase(users[r].username, username)
    ensures forall j :: 0 <= j < r ==> !SameIgnoringCase(users[j].username, username)
  {
    FirstIndex(users, (u: User) => SameIgnoringCase(u.username, username))
  }

  function CheckDuplicateExist(db: Database, username: string): (o: Outcome)
    ensures o.Pass? <==> !UsernameTaken(db, username)
    ensures o.Fail? ==> o.error == Failure(DuplicateUsername)
  {
    if UsernameIndex(db.users, username) < |db.users| then Fail(Failure(DuplicateUsername)) else Pass
  }

  /** The first stored user whose username matches ignoring case. */
  function GetUserByUsername(db: Database, username: string): (r: Result<User>)
    ensures r.Ok? <==> UsernameTaken(db, username)
    ensures r.Err? ==> r.error == Failure(BadCredentials)
    ensures r.Ok? ==> exists i :: 0 <= i < |db.users| && db.users[i] == r.value
                                  && SameIgnoringCase(r.value.username, username)
                                  && forall j :: 0 <= j < i ==> !SameIgnoringCase(db.users[j].username, username)
  {
    var k := UsernameIndex(db.users, username);
    if k < |db.users| then Ok(db.users[k]) else Err(Failure(BadCredentials))
  }

  /** The record a registration stores: trimmed name and username, the
      hash in place of the password, and the fresh identifier. */
  function Stored(user: User, id: Id, hashed: string): User {
    User(id, TrimSpace(user.name), TrimSpace(user.username), hashed)
  }

  /** Registers a user. A username already taken ignoring case, or a
      hashing failure, leaves the store unchanged. Otherwise the stored user
      is appended before the token is issued, so a token failure reports an
      error with the user already stored. */
  function Register(db: Database, user: User, id: Id, hash: Hasher, issue: TokenIssuer): (s: Step<Database, LoginResponse>)
    requires !KnownUser(db, id)
    ensures UsernameTaken(db, TrimSpace(user.username)) ==> s == Step(db, Err(Failure(DuplicateUsername)))
    ensures !UsernameTaken(db, TrimSpace(user.username)) && hash(TrimSpace(user.password)).Err? ==>
              s == Step(db, Err(hash(TrimSpace(user.password)).error))
    ensures !UsernameTaken(db, TrimSpace(user.username)) && hash(TrimSpace(user.password)).Ok? ==>
              var stored := Stored(user, id, hash(TrimSpace(user.password)).value);
              && s.state == db.(users := db.users + [stored])
              && (s.out.Ok? <==> issue(stored).Ok?)
              && (s.out.Ok? ==> s.out.value == LoginResponse(id, stored.name, stored.username, issue(stored).value))
    ensures s.out.Ok? ==> |s.state.users| == |db.users| + 1 && s.state.users[..|db.users|] == db.users
  {
    var name := TrimSpace(user.name);
    var username := TrimSpace(user.username);
    var password := TrimSpace(user.password);
    match CheckDuplicateExist(db, username)
    case Fail(e) => Step(db, Err(e))
    case Pass =>
      match hash(password)
      case Err(e) => Step(db, Err(e))
      case Ok(hashed) =>
        var stored := User(id, name, username, hashed);
        var db' := db.(users := db.users + [stored]);
        match issue(stored)
        case Err(e) => Step(db', Err(e))
        case Ok(token) => Step(db', Ok(LoginResponse(id, name, username, token)))
  }

  /** Logs a user in. An unknown username and a wrong password give the
      same error; on success the response echoes the stored user. */
  function Login(db: Database, login: Models.Login, check: PasswordCheck, issue: TokenIssuer): (r: Result<LoginResponse>)
    ensures !UsernameTaken(db, TrimSpace(login.username)) ==> r == Err(Failure(BadCredentials))
    ensures UsernameTaken(db, TrimSpace(login.username)) ==>
              var user := db.users[UsernameIndex(db.users, TrimSpace(login.username))];
              && (!check(user.password, TrimSpace(login.password)) ==> r == Err(Failure(BadCredentials)))
              && (r.Ok? <==> check(user.password, TrimSpace(login.password)) && issue(user).Ok?)
              && (r.Ok? ==> r.value == LoginResponse(user.id, user.name, user.username, issue(user).value))
  {
    var username := TrimSpace(login.username);
    var password := TrimSpace(login.password);
    match GetUserByUsername(db, username)
    case Err(e) => Err(e)
    case Ok(user) =>
      if !check(user.password, password) then Err(Failure(BadCredentials))
      else
        match issue(user)
        case Err(e) => Err(e)
        case Ok(token) => Ok(LoginResponse(user.id, user.name, user.username, token))
  }

  /** Logging in with the credentials just registered returns the same
      response the registration did, provided the hash verifies its own
      plaintext. */
  lemma RegisterThenLogin(db: Database, user: User, id: Id, hash: Hasher, check: PasswordCheck, issue: TokenIssuer)
    requires !KnownUser(db, id)
    requires forall p :: hash(p).Ok? ==> check(hash(p).value, p)
    requires Register(db, user, id, hash, issue).out.Ok?
    ensures Login(Register(db, user, id, hash, issue).state, Models.Login(user.username, user.password), check, issue)
         == Register(db, user, id, hash, issue).out
  {
    var username := TrimSpace(user.username);
    var password := TrimSpace(user.password);
    var stored := Stored(user, id, hash(password).value);
    assert !UsernameTaken(db, username);
    TrimSpaceIdempotent(user.username);
    TrimSpaceIdempotent(user.password);
    SameIgnoringCaseProperties(stored.username, username, username);
    AppendedIsFirstMatch(db, stored, username);
  }

  /** A user appended under a username no stored user has is the first
      match for that username. */
  lemma AppendedIsFirstMatch(db: Database, stored: User, username: string)
    requires !UsernameTaken(db, username)
    requires SameIgnoringCase(stored.username, username)
    ensures UsernameTaken(db.(users := db.users + [stored]), username)
    ensures UsernameIndex(db.users + [stored], username) == |db.users|
  {
    var users := db.users + [stored];
    assert users[|db.users|] == stored;
    assert forall j :: 0 <= j < |db.users| ==> users[j] == db.users[j];
  }

  /** Every login failure other than the shared bad-credentials message
      comes from token issuing for a matched user. */
  lemma LoginOtherFailuresFromToken(db: Database, login: Models.Login, check: PasswordCheck, issue: TokenIssuer)
    requires Login(db, login, check, issue).Err?
    requires Login(db, login, check, issue).error != Failure(BadCredentials)
    ensures UsernameTaken(db, TrimSpace(login.username))
    ensures issue(db.users[UsernameIndex(db.users, TrimSpace(login.username))]).Err?
  {
  }
}
