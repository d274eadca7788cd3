/**
 The use cases statement by statement over one connection, each in its own
 transaction block, and the proof that each does what `Perform` says.  A raise
 inside a block rolls back whatever the block had written: the failed-login
 counter and the revocations that answer a reused refresh token included.
 */
module AuthService {
  import opened Wrappers
  import opened Auth

  // compute_lockout: 6 failures lock for 15 minutes, 10 for an hour.
  function Lockout(failures: nat, now: int): Option<int> {
    if failures >= 10 then Some(now + 60 * 60)
    else if failures >= 6 then Some(now + 15 * 60)
    else None
  }

  class Connection {
    var users: seq<User>
    var sessions: seq<Session>
    var tokens: seq<Token>
    var saved: Tables

    ghost function State(): Tables
      reads this
    {
      Tables(users, sessions, tokens)
    }

    constructor ()
      ensures State() == EMPTY
    {
      users, sessions, tokens := [], [], [];
      saved := EMPTY;
    }

    method Begin()
      modifies this`saved
      ensures saved == State()
    {
      saved := Tables(users, sessions, tokens);
    }

    method Rollback()
      modifies this
      ensures State() == old(saved)
    {
      users, sessions, tokens := saved.users, saved.sessions, saved.tokens;
    }

    // ---------- repositories ----------

    method IncrementFailedLogin(user: nat, count: nat, until: Option<int>)
      requires user < |users|
      modifies this`users
      ensures users == old(users)[user := old(users)[user].(failedLogins := count, lockedUntil := until)]
    {
      users := users[user := users[user].(failedLogins := count, lockedUntil := until)];
    }

    method UpdatePasswordHash(user: nat, hash: Password)
      modifies this`users
      ensures users == SetPassword(old(users), user, hash)
    {
      if user < |users| {
        users := users[user := users[user].(password := hash)];
      }
    }

    method CreateSession(session: Session) returns (id: Option<nat>)
      modifies this`sessions
      ensures TokenTaken(old(sessions), session.token) ==> id == None && sessions == old(sessions)
      ensures !TokenTaken(old(sessions), session.token) ==>
                id == Some(|old(sessions)|) && sessions == old(sessions) + [session]
    {
      id := None;
      if !exists i :: 0 <= i < |sessions| && sessions[i].token == session.token {
        id := Some(|sessions|);
        sessions := sessions + [session];
      }
    }

    // SessionRepository.rotate: insert the new session, then mark the old one.
    method Rotate(prior: nat, user: nat, newToken: string, now: int) returns (id: Option<nat>)
      requires prior < |sessions|
      modifies this`sessions
      ensures TokenTaken(old(sessions), newToken) ==> id == None && sessions == old(sessions)
      ensures !TokenTaken(old(sessions), newToken) ==>
        && id == Some(|old(sessions)|)
        && sessions == old(sessions)[prior := old(sessions)[prior].(revoked := Some("rotated"), replacedBy := id)]
                       + [NewSession(user, newToken, now)]
    {
      id := CreateSession(Session(user, newToken, now + REFRESH_TTL, None, None));
      if id.Some? {
        sessions := sessions[prior := sessions[prior].(revoked := Some("rotated"), replacedBy := id)];
      }
    }

    method Revoke(session: nat, reason: string)
      requires session < |sessions|
      modifies this`sessions
      ensures sessions == old(sessions)[session := Revoked(old(sessions)[session], reason)]
    {
      sessions := sessions[session := sessions[session].(revoked := Some(reason))];
    }

    method RevokeAllForUser(user: nat, reason: string)
      modifies this`sessions
      ensures |sessions| == |old(sessions)|
      ensures forall i :: 0 <= i < |sessions| ==>
        sessions[i] == if old(sessions)[i].user == user && Live(old(sessions)[i])
                       then old(sessions)[i].(revoked := Some(reason)) else old(sessions)[i]
      ensures forall i :: 0 <= i < |sessions| && sessions[i].user == user ==> !Live(sessions[i])
    {
      sessions := RevokeAll(sessions, user, reason);
    }

    method CreateToken(token: Token) returns (raised: bool)
      modifies this`tokens
      ensures raised <==> HashTaken(old(tokens), token.hash)
      ensures tokens == if raised then old(tokens) else old(tokens) + [token]
    {
      raised := exists i :: 0 <= i < |tokens| && tokens[i].hash == token.hash;
      if !raised {
        tokens := tokens + [token];
      }
    }

    method MarkUsed(token: nat)
      requires token < |tokens|
      modifies this`tokens
      ensures tokens == old(tokens)[token := old(tokens)[token].(used := true)]
    {
      tokens := tokens[token := tokens[token].(used := true)];
    }

    method InvalidateAllForUser(user: nat, purpose: Purpose)
      modifies this`tokens
      ensures |tokens| == |old(tokens)|
      ensures forall i :: 0 <= i < |tokens| ==>
        && tokens[i] == old(tokens)[i].(used := tokens[i].used)
        && (tokens[i].used <==> old(tokens)[i].used || (tokens[i].user == user && tokens[i].purpose == purpose))
    {
      tokens := UseUp(tokens, user, purpose);
    }

    // ---------- services ----------

    /** RegisterService.execute */
    method Register(username: string, email: string, password: string) returns (result: Result)
      modifies this
      ensures Outcome(State(), result) == Perform(old(State()), UseCase.Register(username, email, password))
    {
      Begin();
      var found := ByEmail(users, email);
      if found.Some? {
        Rollback();
        return Raised(EmailAlreadyExists);
      }
      found := ByUsername(users, username);
      if found.Some? {
        Rollback();
        return Raised(UsernameAlreadyExists);
      }
      if exists i :: 0 <= i < |users| && (users[i].username == username || users[i].email == email) {
        Rollback();
        return Raised(UniqueViolation);
      }
      users := users + [User(username, email, Argon2(password, false), true, 0, None, false)];
      return Completed;
    }

    /** LoginService.execute */
    method Login(email: string, password: string, totp: Totp, newToken: string, now: int) returns (result: Result)
      modifies this
      ensures Outcome(State(), result) == Perform(old(State()), UseCase.Login(email, password, totp, newToken, now))
    {
      Begin();
      var found := ByEmail(users, email);
      if found.None? {
        Rollback();
        return Raised(LoginFailed);
      }
      var user, row := found.value, users[found.value];
      if row.lockedUntil.Some? && row.lockedUntil.value > now {
        Rollback();
        return Raised(AccountLocked);
      }
      if row.password.plain != password {
        IncrementFailedLogin(user, row.failedLogins + 1, Lockout(row.failedLogins + 1, now));
        Rollback();
        return Raised(LoginFailed);
      }
      if row.password.outdated {
        UpdatePasswordHash(user, Argon2(password, false));
      }
      if row.totp && totp != Code(true) {
        Rollback();
        return Raised(TotpRequired);
      }
      IncrementFailedLogin(user, 0, None);
      var id := CreateSession(Session(user, newToken, now + REFRESH_TTL, None, None));
      if id.None? {
        Rollback();
        return Raised(UniqueViolation);
      }
      return Issued(id.value);
    }

    /** RefreshService._handle_possible_reuse: inside the block, the user is left with no live session. */
    method HandlePossibleReuse(token: string)
      modifies this`sessions
      ensures var used := ByUsedToken(old(sessions), token);
        if used.None? then sessions == old(sessions)
        else
          && sessions == RevokeAll(old(sessions), old(sessions)[used.value].user, "security_action")
          && forall i :: 0 <= i < |sessions| && sessions[i].user == old(sessions)[used.value].user ==> !Live(sessions[i])
    {
      var used := ByUsedToken(sessions, token);
      if used.Some? {
        RevokeAllForUser(sessions[used.value].user, "security_action");
      }
    }

    /** RefreshService.execute */
    method Refresh(token: string, newToken: string, now: int) returns (result: Result)
      modifies this
      ensures Outcome(State(), result) == Perform(old(State()), UseCase.Refresh(token, newToken, now))
    {
      Begin();
      var found := ByToken(sessions, token);
      if found.None? {
        HandlePossibleReuse(token);
        Rollback();
        return Raised(InvalidRefreshToken);
      }
      var session := sessions[found.value];
      if session.revoked.Some? || session.expires < now {
        Rollback();
        return Raised(SessionExpired);
      }
      if !ActiveUser(users, session.user) {
        Rollback();
        return Raised(SessionExpired);
      }
      var user := users[session.user];
      if user.lockedUntil.Some? && user.lockedUntil.value > now {
        Rollback();
        return Raised(AccountLocked);
      }
      var id := Rotate(found.value, session.user, newToken, now);
      if id.None? {
        Rollback();
        return Raised(UniqueViolation);
      }
      return Issued(id.value);
    }

    /** LogoutService.execute */
    method Logout(user: nat, token: string) returns (result: Result)
      modifies this
      ensures Outcome(State(), result) == Perform(old(State()), UseCase.Logout(user, token))
    {
      Begin();
      var found := ByToken(sessions, token);
      if found.None? || sessions[found.value].user != user {
        Rollback();
        return Raised(SessionNotFound);
      }
      Revoke(found.value, "logout");
      return Completed;
    }

    /** SessionManagementService.revoke_session */
    method RevokeSession(user: nat, session: nat) returns (result: Result)
      modifies this
      ensures Outcome(State(), result) == Perform(old(State()), UseCase.RevokeSession(user, session))
    {
      Begin();
      if session >= |sessions| || sessions[session].user != user {
        Rollback();
        return Raised(SessionNotFound);
      }
      Revoke(session, "user_revoked");
      return Completed;
    }

    /** PasswordResetService.forgot_password */
    method ForgotPassword(email: string, newToken: string, now: int) returns (result: Result)
      modifies this
      ensures Outcome(State(), result) == Perform(old(State()), UseCase.ForgotPassword(email, newToken, now))
    {
      Begin();
      var found := ByEmail(users, email);
      if found.None? {
        return Completed;
      }
      InvalidateAllForUser(found.value, PasswordReset);
      var raised := CreateToken(Token(found.value, newToken, PasswordReset, now + RESET_TTL, false));
      assert HashTaken(UseUp(old(tokens), found.value, PasswordReset), newToken) <==> HashTaken(old(tokens), newToken) by {
        UseUpKeepsHashes(old(tokens), found.value, PasswordReset, newToken);
      }
      if raised {
        Rollback();
        return Raised(UniqueViolation);
      }
      return Completed;
    }

    /** PasswordResetService.reset_password */
    method ResetPassword(token: string, password: string, now: int) returns (result: Result)
      modifies this
      ensures Outcome(State(), result) == Perform(old(State()), UseCase.ResetPassword(token, password, now))
    {
      Begin();
      var found := ValidByHash(tokens, token, PasswordReset, now);
      if found.None? {
        Rollback();
        return Raised(ResetTokenInvalid);
      }
      var user := tokens[found.value].user;
      UpdatePasswordHash(user, Argon2(password, false));
      MarkUsed(found.value);
      RevokeAllForUser(user, "password_reset");
      return Completed;
    }

    /** ProfileService.deactivate_account */
    method Deactivate(user: nat) returns (result: Result)
      modifies this
      ensures Outcome(State(), result) == Perform(old(State()), UseCase.Deactivate(user))
    {
      if !ActiveUser(users, user) {
        return Raised(UserNotFound);
      }
      Begin();
      users := users[user := users[user].(active := false)];
      return Completed;
    }
  }

  lemma UseUpKeepsHashes(tokens: seq<Token>, user: nat, purpose: Purpose, hash: string)
    ensures HashTaken(UseUp(tokens, user, purpose), hash) <==> HashTaken(tokens, hash)
  {
    var after := UseUp(tokens, user, purpose);
    forall i | 0 <= i < |tokens|
      ensures after[i].hash == tokens[i].hash
    {
    }
  }
}
