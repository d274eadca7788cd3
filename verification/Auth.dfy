/**
 Logins, session rotation, logout, password reset and deactivation: what each
 use case does when it runs alone.  Row ids are insertion positions.  A refresh
 or reset token is represented by the digest that the tables store.
 */
module Auth {
  import opened Wrappers

  // Argon2 as an ideal hash: it verifies exactly its own password.
  datatype Password = Argon2(plain: string, outdated: bool)

  datatype User = User(username: string, email: string, password: Password, active: bool, failedLogins: nat,
                       lockedUntil: Option<int>, totp: bool)

  datatype Session = Session(user: nat, token: string, expires: int,
                             revoked: Option<string>, replacedBy: Option<nat>)

  datatype Purpose = EmailVerify | PasswordReset

  datatype Token = Token(user: nat, hash: string, purpose: Purpose, expires: int, used: bool)

  datatype Tables = Tables(users: seq<User>, sessions: seq<Session>, tokens: seq<Token>)

  const EMPTY := Tables([], [], [])

  // Lifetimes in seconds.
  const REFRESH_TTL: int := 30 * 24 * 60 * 60
  const RESET_TTL: int := 30 * 60

  // A second-factor input, with the verdict of the TOTP library on a code.
  datatype Totp = NoCode | Code(valid: bool)

  datatype UseCase =
    | Register(username: string, email: string, password: string)
    | Login(email: string, password: string, totp: Totp, newToken: string, now: int)
    | Refresh(token: string, newToken: string, now: int)
    | Logout(user: nat, token: string)
    | RevokeSession(user: nat, session: nat)
    | ForgotPassword(email: string, newToken: string, now: int)
    | ResetPassword(token: string, password: string, now: int)
    | Deactivate(user: nat)

  datatype Error =
    | EmailAlreadyExists | UsernameAlreadyExists | LoginFailed | AccountLocked | TotpRequired
    | InvalidRefreshToken | SessionExpired | SessionNotFound
    | ResetTokenInvalid | UserNotFound | UniqueViolation

  datatype Result = Completed | Issued(session: nat) | Raised(error: Error)

  datatype Outcome = Outcome(tables: Tables, result: Result)

  // ---------- lookups ----------

  function ByEmail(users: seq<User>, email: string): (i: Option<nat>)
    ensures i.Some? ==> i.value < |users| && users[i.value].email == email && users[i.value].active
    ensures i.None? ==> forall k :: 0 <= k < |users| ==> !(users[k].email == email && users[k].active)
  {
    if users == [] then None
    else
      var last := |users| - 1;
      if users[last].email == email && users[last].active then Some(last) else ByEmail(users[..last], email)
  }

  function ByUsername(users: seq<User>, username: string): (i: Option<nat>)
    ensures i.Some? ==> i.value < |users| && users[i.value].username == username && users[i.value].active
    ensures i.None? ==> forall k :: 0 <= k < |users| ==> !(users[k].username == username && users[k].active)
  {
    if users == [] then None
    else
      var last := |users| - 1;
      if users[last].username == username && users[last].active then Some(last)
      else ByUsername(users[..last], username)
  }

  predicate ActiveUser(users: seq<User>, user: nat) {
    user < |users| && users[user].active
  }

  predicate Live(s: Session) {
    s.revoked.None?
  }

  // get_by_token_hash: the unrevoked session with this digest.
  function ByToken(sessions: seq<Session>, token: string): (i: Option<nat>)
    ensures i.Some? ==> i.value < |sessions| && sessions[i.value].token == token && Live(sessions[i.value])
    ensures i.None? ==> forall k :: 0 <= k < |sessions| ==> !(sessions[k].token == token && Live(sessions[k]))
  {
    if sessions == [] then None
    else
      var last := |sessions| - 1;
      if sessions[last].token == token && Live(sessions[last]) then Some(last)
      else ByToken(sessions[..last], token)
  }

  // get_by_used_token_hash: a session with this digest whose reason is 'rotated'.
  function ByUsedToken(sessions: seq<Session>, token: string): (i: Option<nat>)
    ensures i.Some? ==> i.value < |sessions| && sessions[i.value].token == token
                        && sessions[i.value].revoked == Some("rotated")
    ensures i.None? ==> forall k :: 0 <= k < |sessions| ==>
              !(sessions[k].token == token && sessions[k].revoked == Some("rotated"))
  {
    if sessions == [] then None
    else
      var last := |sessions| - 1;
      if sessions[last].token == token && sessions[last].revoked == Some("rotated") then Some(last)
      else ByUsedToken(sessions[..last], token)
  }

  predicate Usable(t: Token, hash: string, purpose: Purpose, now: int) {
    t.hash == hash && t.purpose == purpose && !t.used && t.expires > now
  }

  function ValidByHash(tokens: seq<Token>, hash: string, purpose: Purpose, now: int): (i: Option<nat>)
    ensures i.Some? ==> i.value < |tokens| && Usable(tokens[i.value], hash, purpose, now)
    ensures i.None? ==> forall k :: 0 <= k < |tokens| ==> !Usable(tokens[k], hash, purpose, now)
  {
    if tokens == [] then None
    else
      var last := |tokens| - 1;
      if Usable(tokens[last], hash, purpose, now) then Some(last)
      else ValidByHash(tokens[..last], hash, purpose, now)
  }

  predicate TokenTaken(sessions: seq<Session>, token: string) {
    exists i :: 0 <= i < |sessions| && sessions[i].token == token
  }

  predicate HashTaken(tokens: seq<Token>, hash: string) {
    exists i :: 0 <= i < |tokens| && tokens[i].hash == hash
  }

  // The UNIQUE columns of users, inactive rows included.
  predicate NameTaken(users: seq<User>, username: string, email: string) {
    exists i :: 0 <= i < |users| && (users[i].username == username || users[i].email == email)
  }

  predicate LockedOut(u: User, now: int) {
    u.lockedUntil.Some? && u.lockedUntil.value > now
  }

  // ---------- writes ----------

  function Revoked(s: Session, reason: string): Session {
    s.(revoked := Some(reason))
  }

  function Rotated(s: Session, next: nat): Session {
    s.(revoked := Some("rotated"), replacedBy := Some(next))
  }

  // UPDATE users .. WHERE id = $1 touches no row when the id is unknown.
  function SetPassword(users: seq<User>, user: nat, hash: Password): (r: seq<User>)
    ensures |r| == |users|
  {
    if user < |users| then users[user := users[user].(password := hash)] else users
  }

  function RevokeAll(sessions: seq<Session>, user: nat, reason: string): (r: seq<Session>)
    ensures |r| == |sessions|
  {
    seq(|sessions|, i requires 0 <= i < |sessions| =>
      if sessions[i].user == user && Live(sessions[i]) then Revoked(sessions[i], reason) else sessions[i])
  }

  function UseUp(tokens: seq<Token>, user: nat, purpose: Purpose): (r: seq<Token>)
    ensures |r| == |tokens|
  {
    seq(|tokens|, i requires 0 <= i < |tokens| =>
      if tokens[i].user == user && tokens[i].purpose == purpose then tokens[i].(used := true) else tokens[i])
  }

  function NewSession(user: nat, token: string, now: int): Session {
    Session(user, token, now + REFRESH_TTL, None, None)
  }

  function NewResetToken(user: nat, hash: string, now: int): Token {
    Token(user, hash, PasswordReset, now + RESET_TTL, false)
  }

  // ---------- use cases ----------

  /** One use case run alone: either all of its writes happen or, when it raises, none. */
  function Perform(t: Tables, u: UseCase): Outcome {
    match u
    case Register(username, email, password) =>
      if ByEmail(t.users, email).Some? then Outcome(t, Raised(EmailAlreadyExists))
      else if ByUsername(t.users, username).Some? then Outcome(t, Raised(UsernameAlreadyExists))
      else if NameTaken(t.users, username, email) then Outcome(t, Raised(UniqueViolation))
      else Outcome(t.(users := t.users + [User(username, email, Argon2(password, false), true, 0, None, false)]), Completed)
    case Login(email, password, totp, newToken, now) =>
      (match ByEmail(t.users, email)
       case None => Outcome(t, Raised(LoginFailed))
       case Some(user) =>
         var row := t.users[user];
         if LockedOut(row, now) then Outcome(t, Raised(AccountLocked))
         else if row.password.plain != password then Outcome(t, Raised(LoginFailed))
         else if row.totp && totp != Code(true) then Outcome(t, Raised(TotpRequired))
         else if TokenTaken(t.sessions, newToken) then Outcome(t, Raised(UniqueViolation))
         else
           var hash := if row.password.outdated then Argon2(password, false) else row.password;
           Outcome(t.(users := t.users[user := row.(password := hash, failedLogins := 0, lockedUntil := None)],
                      sessions := t.sessions + [NewSession(user, newToken, now)]),
                   Issued(|t.sessions|)))
    case Refresh(token, newToken, now) =>
      (match ByToken(t.sessions, token)
       case None => Outcome(t, Raised(InvalidRefreshToken))
       case Some(prior) =>
         var s := t.sessions[prior];
         if s.expires < now || !ActiveUser(t.users, s.user) then Outcome(t, Raised(SessionExpired))
         else if LockedOut(t.users[s.user], now) then Outcome(t, Raised(AccountLocked))
         else if TokenTaken(t.sessions, newToken) then Outcome(t, Raised(UniqueViolation))
         else
           var next := |t.sessions|;
           Outcome(t.(sessions := t.sessions[prior := Rotated(s, next)]
                                  + [NewSession(s.user, newToken, now)]),
                   Issued(next)))
    case Logout(user, token) =>
      (match ByToken(t.sessions, token)
       case None => Outcome(t, Raised(SessionNotFound))
       case Some(i) =>
         if t.sessions[i].user != user then Outcome(t, Raised(SessionNotFound))
         else Outcome(t.(sessions := t.sessions[i := Revoked(t.sessions[i], "logout")]), Completed))
    case RevokeSession(user, i) =>
      if i >= |t.sessions| || t.sessions[i].user != user then Outcome(t, Raised(SessionNotFound))
      else Outcome(t.(sessions := t.sessions[i := Revoked(t.sessions[i], "user_revoked")]), Completed)
    case ForgotPassword(email, newToken, now) =>
      (match ByEmail(t.users, email)
       case None => Outcome(t, Completed)
       case Some(user) =>
         if HashTaken(t.tokens, newToken) then Outcome(t, Raised(UniqueViolation))
         else Outcome(t.(tokens := UseUp(t.tokens, user, PasswordReset) + [NewResetToken(user, newToken, now)]),
                      Completed))
    case ResetPassword(token, password, now) =>
      (match ValidByHash(t.tokens, token, PasswordReset, now)
       case None => Outcome(t, Raised(ResetTokenInvalid))
       case Some(i) =>
         var user := t.tokens[i].user;
         Outcome(Tables(SetPassword(t.users, user, Argon2(password, false)),
                        RevokeAll(t.sessions, user, "password_reset"),
                        t.tokens[i := t.tokens[i].(used := true)]),
                 Completed))
    case Deactivate(user) =>
      if !ActiveUser(t.users, user) then Outcome(t, Raised(UserNotFound))
      else Outcome(t.(users := t.users[user := t.users[user].(active := false)]), Completed)
  }
}
