/**
 What each use case is for, written out on the rows: exactly when it succeeds,
 which error it raises otherwise, and every row it changes.
 */
module AuthMeaning {
  import opened Wrappers
  import opened Auth
  import opened AuthRuns
  import opened AuthRoundTrips

  // The active account with this email.
  predicate Account(t: Tables, user: nat, email: string) {
    user < |t.users| && t.users[user].email == email && t.users[user].active
  }

  predicate Locked(t: Tables, user: nat, now: int)
    requires user < |t.users|
  {
    t.users[user].lockedUntil.Some? && now < t.users[user].lockedUntil.value
  }

  predicate NewDigest(t: Tables, token: string) {
    forall i :: 0 <= i < |t.sessions| ==> t.sessions[i].token != token
  }

  lemma FindsAccount(users: seq<User>, user: nat)
    requires UniqueNames(users) && user < |users| && users[user].active
    ensures ByEmail(users, users[user].email) == Some(user)
  {
  }

  // ---------- registration ----------

  /** Registration succeeds exactly when no account, active or not, has the name or the email; it adds one row. */
  lemma RegisterIff(t: Tables, username: string, email: string, password: string)
    ensures var o := Perform(t, Register(username, email, password));
            var users := t.users;
            var emailTaken := exists i :: 0 <= i < |users| && users[i].email == email && users[i].active;
            var nameTaken := exists i :: 0 <= i < |users| && users[i].username == username && users[i].active;
      && (o.result == Raised(EmailAlreadyExists) <==> emailTaken)
      && (o.result == Raised(UsernameAlreadyExists) <==> !emailTaken && nameTaken)
      && (o.result == Completed <==>
            forall i :: 0 <= i < |users| ==> users[i].username != username && users[i].email != email)
      && (o.result == Completed ==>
            o.tables == Tables(users + [User(username, email, Argon2(password, false), true, 0, None, false)],
                               t.sessions, t.tokens))
  {
  }

  // ---------- login ----------

  /** A login succeeds exactly with the account's password, its second factor and no lock; every error has its one reason. */
  lemma LoginIff(t: Tables, user: nat, email: string, password: string, totp: Totp, newToken: string, now: int)
    requires UniqueNames(t.users) && Account(t, user, email)
    ensures var o, u := Perform(t, Login(email, password, totp, newToken, now)), t.users[user];
      && (o.result == Raised(AccountLocked) <==> Locked(t, user, now))
      && (o.result == Raised(LoginFailed) <==> !Locked(t, user, now) && u.password.plain != password)
      && (o.result == Raised(TotpRequired) <==>
            !Locked(t, user, now) && u.password.plain == password && u.totp && totp != Code(true))
      && (o.result.Issued? <==>
            !Locked(t, user, now) && u.password.plain == password && (u.totp ==> totp == Code(true))
            && NewDigest(t, newToken))
  {
    FindsAccount(t.users, user);
  }

  /** A login keeps the password, renews an outdated hash, clears the counter and adds one session of 30 days. */
  lemma LoginChanges(t: Tables, user: nat, email: string, password: string, totp: Totp, newToken: string, now: int)
    requires UniqueNames(t.users) && Account(t, user, email)
    requires Perform(t, Login(email, password, totp, newToken, now)).result.Issued?
    ensures var u := t.users[user];
      Perform(t, Login(email, password, totp, newToken, now)) == Outcome(
        Tables(t.users[user := User(u.username, u.email, Argon2(u.password.plain, false), true, 0, None, u.totp)],
               t.sessions + [Session(user, newToken, now + 2592000, None, None)],
               t.tokens),
        Issued(|t.sessions|))
  {
    FindsAccount(t.users, user);
  }

  /** Nobody logs in without an active account. */
  lemma StrangerCannotLogIn(t: Tables, email: string, password: string, totp: Totp, newToken: string, now: int)
    requires forall i :: 0 <= i < |t.users| ==> !(t.users[i].email == email && t.users[i].active)
    ensures Perform(t, Login(email, password, totp, newToken, now)) == Outcome(t, Raised(LoginFailed))
  {
  }

  /** After a login the same password, and no other, logs in again. */
  lemma LoginTwiceIff(t: Tables, user: nat, email: string, password: string, totp: Totp, newToken: string, now: int,
                      attempt: string, totp': Totp, newToken': string, now': int)
    requires UniqueNames(t.users) && Account(t, user, email)
    requires Perform(t, Login(email, password, totp, newToken, now)).result.Issued?
    ensures var after := Perform(t, Login(email, password, totp, newToken, now)).tables;
            Perform(after, Login(email, attempt, totp', newToken', now')).result.Issued? <==>
              (attempt == password && (t.users[user].totp ==> totp' == Code(true))
               && NewDigest(t, newToken') && newToken' != newToken)
  {
    var after := Perform(t, Login(email, password, totp, newToken, now)).tables;
    LoginIff(t, user, email, password, totp, newToken, now);
    LoginChanges(t, user, email, password, totp, newToken, now);
    assert forall i :: 0 <= i < |t.sessions| ==> after.sessions[i] == t.sessions[i];
    assert after.sessions[|t.sessions|].token == newToken;
    LoginIff(after, user, email, attempt, totp', newToken', now');
  }

  // ---------- sessions ----------

  /** A refresh succeeds exactly with the token of an unrevoked, unexpired session of an active, unlocked user. */
  lemma RefreshIff(t: Tables, i: nat, newToken: string, now: int)
    requires DistinctTokens(t.sessions) && i < |t.sessions|
    ensures var o, s := Perform(t, Refresh(t.sessions[i].token, newToken, now)), t.sessions[i];
            var good := now <= s.expires && s.user < |t.users| && t.users[s.user].active;
      && (o.result == Raised(InvalidRefreshToken) <==> s.revoked.Some?)
      && (o.result == Raised(SessionExpired) <==> s.revoked.None? && !good)
      && (o.result == Raised(AccountLocked) <==> s.revoked.None? && good && Locked(t, s.user, now))
      && (o.result.Issued? <==> s.revoked.None? && good && !Locked(t, s.user, now) && NewDigest(t, newToken))
      && (o.result.Issued? ==>
            o == Outcome(
              Tables(t.users,
                     t.sessions[i := Session(s.user, s.token, s.expires, Some("rotated"), Some(|t.sessions|))]
                       + [Session(s.user, newToken, now + 2592000, None, None)],
                     t.tokens),
              Issued(|t.sessions|)))
  {
    SessionFound(t.sessions, i);
  }

  lemma SessionFound(sessions: seq<Session>, i: nat)
    requires DistinctTokens(sessions) && i < |sessions|
    ensures ByToken(sessions, sessions[i].token) == if sessions[i].revoked.None? then Some(i) else None
  {
  }

  /** A logout succeeds exactly for the owner of an unrevoked session; it revokes that session and nothing else. */
  lemma LogoutIff(t: Tables, user: nat, i: nat)
    requires DistinctTokens(t.sessions) && i < |t.sessions|
    ensures var o, s := Perform(t, Logout(user, t.sessions[i].token)), t.sessions[i];
      && (o.result == Completed <==> s.revoked.None? && s.user == user)
      && (o.result != Completed ==> o.result == Raised(SessionNotFound))
      && (o.result == Completed ==>
            o.tables == Tables(t.users,
                               t.sessions[i := Session(s.user, s.token, s.expires, Some("logout"), s.replacedBy)],
                               t.tokens))
  {
    SessionFound(t.sessions, i);
  }

  /** A token that no session has is refused by refresh and logout. */
  lemma UnknownTokenIsRefused(t: Tables, token: string, newToken: string, now: int, user: nat)
    requires NewDigest(t, token)
    ensures Perform(t, Refresh(token, newToken, now)) == Outcome(t, Raised(InvalidRefreshToken))
    ensures Perform(t, Logout(user, token)) == Outcome(t, Raised(SessionNotFound))
  {
  }

  /** A session is revoked exactly by its owner, and its token is dead from then on, whatever happens. */
  lemma RevokeSessionIff(t: Tables, user: nat, i: nat, run: seq<UseCase>, newToken: string, now: int)
    requires Inv(t)
    ensures var o := Perform(t, RevokeSession(user, i));
      && (o.result == Completed <==> i < |t.sessions| && t.sessions[i].user == user)
      && (o.result != Completed ==> o.result == Raised(SessionNotFound))
      && (o.result == Completed ==>
            var s, later := t.sessions[i], After(o.tables, run);
            && o.tables == Tables(t.users,
                 t.sessions[i := Session(s.user, s.token, s.expires, Some("user_revoked"), s.replacedBy)], t.tokens)
            && Perform(later, Refresh(s.token, newToken, now)) == Outcome(later, Raised(InvalidRefreshToken)))
  {
    var o := Perform(t, RevokeSession(user, i));
    if o.result == Completed {
      PerformKeepsInv(t, RevokeSession(user, i));
      RevokedTokenIsDead(o.tables, run, i, newToken, now, user);
    }
  }

  // ---------- password reset ----------

  /** A reset request spends the account's earlier links and adds one that lasts half an hour. */
  lemma ForgotPasswordMeans(t: Tables, user: nat, email: string, newToken: string, now: int)
    requires UniqueNames(t.users) && Account(t, user, email)
    ensures var o := Perform(t, ForgotPassword(email, newToken, now));
      && (o.result == Completed <==> forall k :: 0 <= k < |t.tokens| ==> t.tokens[k].hash != newToken)
      && (o.result == Completed ==>
            && o.tables.users == t.users && o.tables.sessions == t.sessions
            && |o.tables.tokens| == |t.tokens| + 1
            && o.tables.tokens[|t.tokens|] == Token(user, newToken, PasswordReset, now + 1800, false)
            && forall k :: 0 <= k < |t.tokens| ==>
                 o.tables.tokens[k] == if t.tokens[k].user == user && t.tokens[k].purpose == PasswordReset
                                       then t.tokens[k].(used := true) else t.tokens[k])
  {
    FindsAccount(t.users, user);
  }

  /** For an email nobody has, a reset request quietly does nothing. */
  lemma ForgotPasswordTellsNothing(t: Tables, email: string, newToken: string, now: int)
    requires forall i :: 0 <= i < |t.users| ==> !(t.users[i].email == email && t.users[i].active)
    ensures Perform(t, ForgotPassword(email, newToken, now)) == Outcome(t, Completed)
  {
  }

  lemma TokenFound(tokens: seq<Token>, k: nat, now: int)
    requires OneUnused(tokens) && k < |tokens| && tokens[k].purpose == PasswordReset
    ensures ValidByHash(tokens, tokens[k].hash, PasswordReset, now)
         == if !tokens[k].used && now < tokens[k].expires then Some(k) else None
  {
  }

  /** A reset succeeds exactly with an unused, unexpired link. */
  lemma ResetIff(t: Tables, k: nat, password: string, now: int)
    requires OneUnused(t.tokens) && k < |t.tokens|
    ensures var o, link := Perform(t, ResetPassword(t.tokens[k].hash, password, now)), t.tokens[k];
      && (o.result == Completed <==> link.purpose == PasswordReset && !link.used && now < link.expires)
      && (o.result != Completed ==> o.result == Raised(ResetTokenInvalid))
  {
    if t.tokens[k].purpose == PasswordReset {
      TokenFound(t.tokens, k, now);
    }
  }

  /** A reset replaces its user's password, revokes that user's sessions and spends the link: nothing else changes. */
  lemma ResetChanges(t: Tables, k: nat, password: string, now: int)
    requires OneUnused(t.tokens) && k < |t.tokens|
    requires Perform(t, ResetPassword(t.tokens[k].hash, password, now)).result == Completed
    ensures var after, user := Perform(t, ResetPassword(t.tokens[k].hash, password, now)).tables, t.tokens[k].user;
      && |after.users| == |t.users| && |after.sessions| == |t.sessions|
      && (forall i :: 0 <= i < |t.users| ==>
            after.users[i] == if i == user then t.users[i].(password := Argon2(password, false)) else t.users[i])
      && (forall i :: 0 <= i < |t.sessions| ==>
            after.sessions[i] == if t.sessions[i].user == user && t.sessions[i].revoked.None?
                                 then t.sessions[i].(revoked := Some("password_reset")) else t.sessions[i])
      && after.tokens == t.tokens[k := t.tokens[k].(used := true)]
  {
    ResetIff(t, k, password, now);
    TokenFound(t.tokens, k, now);
  }

  /**
   The link a reset request mails works exactly until 1800 seconds after the
   request, unless it was spent in between; at once, it is unspent.
   */
  lemma NewLinkWorksIff(t: Tables, user: nat, email: string, newToken: string, now: int,
                        between: seq<UseCase>, password: string, now': int)
    requires Inv(t) && UniqueNames(t.users) && Account(t, user, email)
    requires Perform(t, ForgotPassword(email, newToken, now)).result == Completed
    ensures var later, k := After(Perform(t, ForgotPassword(email, newToken, now)).tables, between), |t.tokens|;
      && k < |later.tokens|
      && (Perform(later, ResetPassword(newToken, password, now')).result == Completed <==>
            !later.tokens[k].used && now' < now + 1800)
      && (between == [] ==> !later.tokens[k].used)
  {
    var asked := Perform(t, ForgotPassword(email, newToken, now)).tables;
    ForgotPasswordMeans(t, user, email, newToken, now);
    PerformKeepsInv(t, ForgotPassword(email, newToken, now));
    RunKeepsInv(asked, between);
    assert Spends(asked.tokens[|t.tokens|], After(asked, between).tokens[|t.tokens|]);
    ResetIff(After(asked, between), |t.tokens|, password, now');
  }

  // ---------- deactivation ----------

  /** Deactivation succeeds exactly for an active user, and makes that user, and no other, inactive. */
  lemma DeactivateIff(t: Tables, user: nat)
    ensures var o := Perform(t, Deactivate(user));
      && (o.result == Completed <==> user < |t.users| && t.users[user].active)
      && (o.result != Completed ==> o.result == Raised(UserNotFound))
      && (o.result == Completed ==>
            var u := t.users[user];
            o.tables == Tables(
              t.users[user := User(u.username, u.email, u.password, false, u.failedLogins, u.lockedUntil, u.totp)],
              t.sessions, t.tokens))
  {
  }

  /** From deactivation on, whatever happens, the user gains no session and no login or refresh is issued for them. */
  lemma DeactivationEndsAccess(t: Tables, user: nat, run: seq<UseCase>, u: UseCase)
    requires Inv(t) && Perform(t, Deactivate(user)).result == Completed
    ensures var later := After(Perform(t, Deactivate(user)).tables, run);
            var o := Perform(later, u);
      && SessionCount(later.sessions, user) == SessionCount(t.sessions, user)
      && (o.result.Issued? ==>
            |o.tables.sessions| == |later.sessions| + 1 && o.tables.sessions[|later.sessions|].user != user)
  {
    DeactivateIff(t, user);
    var gone := Perform(t, Deactivate(user)).tables;
    PerformKeepsInv(t, Deactivate(user));
    DeactivationIsFinal(gone, run, user);
    if Perform(After(gone, run), u).result.Issued? {
      var issued := IssuedTo(After(gone, run), u);
    }
  }

  // ---------- what stays ----------

  // The use case is a reset that gives this user a new password.
  predicate Resets(t: Tables, u: UseCase, user: nat) {
    && u.ResetPassword?
    && var found := ValidByHash(t.tokens, u.token, PasswordReset, u.now);
       found.Some? && t.tokens[found.value].user == user
  }

  predicate SameAccount(a: User, b: User) {
    a.username == b.username && a.email == b.email && a.totp == b.totp
  }

  /** No use case renames an account; only a reset changes a password, and only to the one asked for; only deactivation closes it. */
  lemma PerformKeepsAccounts(t: Tables, u: UseCase, user: nat)
    requires user < |t.users|
    ensures var after := Perform(t, u).tables.users;
      && |t.users| <= |after|
      && SameAccount(t.users[user], after[user])
      && after[user].password.plain == (if Resets(t, u, user) then u.password else t.users[user].password.plain)
      && after[user].active == (t.users[user].active && u != Deactivate(user))
  {
  }

  /** Over any run an account keeps its name, email and second factor, and its password while nobody resets it. */
  lemma {:induction false} RunKeepsAccounts(t: Tables, run: seq<UseCase>, user: nat)
    requires user < |t.users|
    ensures user < |After(t, run).users| && SameAccount(t.users[user], After(t, run).users[user])
    ensures (forall k :: 0 <= k < |run| ==> !Resets(After(t, run[..k]), run[k], user)) ==>
              After(t, run).users[user].password.plain == t.users[user].password.plain
    ensures Deactivate(user) !in run ==> After(t, run).users[user].active == t.users[user].active
  {
    if run != [] {
      var n := |run| - 1;
      RunKeepsAccounts(t, run[..n], user);
      PerformKeepsAccounts(After(t, run[..n]), run[n], user);
      assert forall k :: 0 <= k < n ==> run[..n][..k] == run[..k] && run[..n][k] == run[k];
      assert run[n] in run;
    }
  }

  /** The tables of any run from empty ones meet what the results above ask. */
  lemma RunsAreSound(run: seq<UseCase>)
    ensures Inv(After(EMPTY, run)) && UniqueNames(After(EMPTY, run).users)
  {
    RunKeepsInv(EMPTY, run);
    NamesAreUnique(run);
  }
}
