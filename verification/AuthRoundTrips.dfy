/** What one use case hands out and what a later one makes of it. */
module AuthRoundTrips {
  import opened Wrappers
  import opened Auth
  import opened AuthRuns

  lemma TokenFinds(sessions: seq<Session>, i: nat)
    requires DistinctTokens(sessions) && i < |sessions| && Live(sessions[i])
    ensures ByToken(sessions, sessions[i].token) == Some(i)
  {
  }

  // Only a login with the right password or a refresh of a live session issues a session, for that user.
  lemma IssuedTo(t: Tables, u: UseCase) returns (user: nat)
    requires Perform(t, u).result.Issued?
    ensures u.Login? || u.Refresh?
    ensures u.Login? ==> ByEmail(t.users, u.email) == Some(user) && t.users[user].password.plain == u.password
    ensures u.Refresh? ==> exists i :: 0 <= i < |t.sessions| && t.sessions[i].token == u.token
                             && Live(t.sessions[i]) && u.now <= t.sessions[i].expires && t.sessions[i].user == user
    ensures var t' := Perform(t, u).tables;
            |t'.sessions| == |t.sessions| + 1 && ActiveUser(t'.users, user)
            && t'.sessions[|t.sessions|] == NewSession(user, u.newToken, u.now)
  {
    user := if u.Login? then ByEmail(t.users, u.email).value else t.sessions[ByToken(t.sessions, u.token).value].user;
  }

  /**
   The refresh token that a login or a refresh hands out refreshes the session
   exactly for its lifetime, as long as the account is not locked and the next
   token's digest is unused.
   */
  lemma IssuedTokenRefreshesIff(t: Tables, u: UseCase, next: string, now: int)
    requires Inv(t) && Perform(t, u).result.Issued?
    ensures u.Login? || u.Refresh?
    ensures |Perform(t, u).tables.sessions| == |t.sessions| + 1
    ensures var t' := Perform(t, u).tables;
            var user := t'.sessions[|t.sessions|].user;
            user < |t'.users| &&
            (Perform(t', Refresh(u.newToken, next, now)).result.Issued? <==>
              (now <= u.now + 2592000 && !LockedOut(t'.users[user], now) && !TokenTaken(t'.sessions, next)))
  {
    var user := IssuedTo(t, u);
    PerformKeepsInv(t, u);
    TokenFinds(Perform(t, u).tables.sessions, |t.sessions|);
  }

  /** The token of a revoked session is dead for good: no refresh and no logout ever takes it again. */
  lemma RevokedTokenIsDead(t: Tables, run: seq<UseCase>, i: nat, newToken: string, now: int, user: nat)
    requires Inv(t) && i < |t.sessions| && !Live(t.sessions[i])
    ensures var later := After(t, run);
      && Perform(later, Refresh(t.sessions[i].token, newToken, now)) == Outcome(later, Raised(InvalidRefreshToken))
      && Perform(later, Logout(user, t.sessions[i].token)) == Outcome(later, Raised(SessionNotFound))
  {
    RunKeepsInv(t, run);
    RevocationIsPermanent(t, run, i);
    var later := After(t, run);
    assert Ages(t.sessions[i], later.sessions[i]);
    NotFound(later.sessions, i);
  }

  lemma NotFound(sessions: seq<Session>, i: nat)
    requires DistinctTokens(sessions) && i < |sessions| && !Live(sessions[i])
    ensures ByToken(sessions, sessions[i].token).None?
  {
  }

  /** After a logout no refresh with that token ever succeeds. */
  lemma LogoutIsFinal(t: Tables, user: nat, token: string, between: seq<UseCase>, newToken: string, now: int)
    requires Inv(t) && Perform(t, Logout(user, token)).result == Completed
    ensures var later := After(Perform(t, Logout(user, token)).tables, between);
            Perform(later, Refresh(token, newToken, now)) == Outcome(later, Raised(InvalidRefreshToken))
  {
    var out := Perform(t, Logout(user, token)).tables;
    PerformKeepsInv(t, Logout(user, token));
    RevokedTokenIsDead(out, between, ByToken(t.sessions, token).value, newToken, now, user);
  }

  // ---------- passwords ----------

  lemma {:induction false} SameEmails(a: seq<User>, b: seq<User>, email: string)
    requires |a| == |b| && forall i :: 0 <= i < |a| ==> a[i].email == b[i].email && a[i].active == b[i].active
    ensures ByEmail(a, email) == ByEmail(b, email)
  {
    if a != [] {
      SameEmails(a[..|a| - 1], b[..|b| - 1], email);
    }
  }

  predicate SecondFactor(u: User, totp: Totp) {
    u.totp ==> totp == Code(true)
  }

  /**
   After a password reset its user logs in with exactly the new password: no
   other password works, the old one included.
   */
  lemma ResetDecidesLogin(t: Tables, token: string, password: string, now: int,
                                             email: string, attempt: string, totp: Totp, newToken: string, later: int)
    requires Perform(t, ResetPassword(token, password, now)).result == Completed
    requires ByEmail(t.users, email) == Some(t.tokens[ValidByHash(t.tokens, token, PasswordReset, now).value].user)
    ensures var reset := Perform(t, ResetPassword(token, password, now)).tables;
            var row := t.users[ByEmail(t.users, email).value];
            Perform(reset, Login(email, attempt, totp, newToken, later)).result.Issued? <==>
              (attempt == password && !LockedOut(row, later) && SecondFactor(row, totp)
               && !TokenTaken(t.sessions, newToken))
  {
    var reset := Perform(t, ResetPassword(token, password, now)).tables;
    SameEmails(t.users, reset.users, email);
    RevokedTokens(t.sessions, t.tokens[ValidByHash(t.tokens, token, PasswordReset, now).value].user, newToken);
  }

  lemma RevokedTokens(sessions: seq<Session>, user: nat, token: string)
    ensures TokenTaken(RevokeAll(sessions, user, "password_reset"), token) <==> TokenTaken(sessions, token)
  {
    var after := RevokeAll(sessions, user, "password_reset");
    assert forall i :: 0 <= i < |sessions| ==> after[i].token == sessions[i].token;
  }

  // ---------- registration ----------

  ghost predicate UniqueNames(users: seq<User>) {
    forall i, j :: 0 <= i < j < |users| ==>
      users[i].username != users[j].username && users[i].email != users[j].email
  }

  lemma PerformKeepsNames(t: Tables, u: UseCase)
    requires UniqueNames(t.users)
    ensures UniqueNames(Perform(t, u).tables.users)
  {
  }

  /** Over any run usernames and emails stay unique, deactivated users included. */
  lemma {:induction false} NamesAreUnique(run: seq<UseCase>)
    ensures UniqueNames(After(EMPTY, run).users)
  {
    if run != [] {
      NamesAreUnique(run[..|run| - 1]);
      PerformKeepsNames(After(EMPTY, run[..|run| - 1]), run[|run| - 1]);
    }
  }

  /** A new user logs in at once, with exactly the password given. */
  lemma RegistrationDecidesLogin(t: Tables, username: string, email: string, password: string,
                                 attempt: string, totp: Totp, newToken: string, now: int)
    requires Perform(t, Register(username, email, password)).result == Completed
    ensures var after := Perform(t, Register(username, email, password)).tables;
            Perform(after, Login(email, attempt, totp, newToken, now)).result.Issued? <==>
              (attempt == password && !TokenTaken(t.sessions, newToken))
  {
    var users := Perform(t, Register(username, email, password)).tables.users;
    assert users[..|users| - 1] == t.users;
    assert ByEmail(users, email) == Some(|t.users|);
  }
}
