/** The legacy user store: the same registration and login logic as the
    service, with the same opaque hashing, comparison and token issuing. */
module LegacyUser {
  import opened Wrappers
  import opened Ascii
  import opened Models
  import opened UserService

  /** Registers a user: a username taken ignoring case or a hashing failure
      leaves the store unchanged; otherwise the trimmed user with the hash
      and the fresh identifier is appended before the token is issued. */
  function Register(db: Database, user: User, id: Id, hash: Hasher, issue: TokenIssuer): (s: Step<Database, LoginResponse>)
    requires !KnownUser(db, id)
    ensures UsernameTaken(db, TrimSpace(user.username)) ==> s == Step(db, Err(Failure(DuplicateUsername)))
    ensures !UsernameTaken(db, TrimSpace(user.username)) && hash(TrimSpace(user.password)).Ok? ==>
              s.state == db.(users := db.users + [Stored(user, id, hash(TrimSpace(user.password)).value)])
    ensures s.out.Ok? ==> s.out.value.id == id && s.out.value.username == TrimSpace(user.username)
  {
    var name := TrimSpace(user.name);
    var username := TrimSpace(user.username);
    var password := TrimSpace(user.password);
    match CheckDuplicateExist(db, username)
    case Fail(e) => Step(db, Err(e))
    case Pass =>
      match hash(password)
      case Err(e) => Step(db, Err(e))
      case Ok(hashed) =>
        var stored := User(id, name, username, hashed);
        var db' := db.(users := db.users + [stored]);
        var response := LoginResponse(id, name, username, "");
        match issue(stored)
        case Err(e) => Step(db', Err(e))
        case Ok(token) => Step(db', Ok(response.(token := token)))
  }

  /** Logs a user in: an unknown username and a wrong password give the
      same error, and a success echoes the matched stored user. */
  function Login(db: Database, login: Models.Login, check: PasswordCheck, issue: TokenIssuer): (r: Result<LoginResponse>)
    ensures !UsernameTaken(db, TrimSpace(login.username)) ==> r == Err(Failure(BadCredentials))
    ensures r.Ok? ==>
              var user := db.users[UsernameIndex(db.users, TrimSpace(login.username))];
              r.value.id == user.id && r.value.name == user.name && r.value.username == user.username
  {
    var username := TrimSpace(login.username);
    var password := TrimSpace(login.password);
    match GetUserByUsername(db, username)
    case Err(e) => Err(e)
    case Ok(user) =>
      if !check(user.password, password) then Err(Failure(BadCredentials))
      else
        var response := LoginResponse(user.id, user.name, user.username, "");
        match issue(user)
        case Err(e) => Err(e)
        case Ok(token) => Ok(response.(token := token))
  }

  /** The legacy registration behaves exactly as the service one. */
  lemma RegisterAgreesWithService(db: Database, user: User, id: Id, hash: Hasher, issue: TokenIssuer)
    requires !KnownUser(db, id)
    ensures Register(db, user, id, hash, issue) == UserService.Register(db, user, id, hash, issue)
  {
  }

  /** The legacy login behaves exactly as the service one. */
  lemma LoginAgreesWithService(db: Database, login: Models.Login, check: PasswordCheck, issue: TokenIssuer)
    ensures Login(db, login, check, issue) == UserService.Login(db, login, check, issue)
  {
  }
}
