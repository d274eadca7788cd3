/** What any serial run of use cases keeps true of users, sessions and tokens. */
module AuthRuns {
  import opened Wrappers
  import opened Auth

  // ---------- runs ----------

  function After(t: Tables, run: seq<UseCase>): Tables {
    if run == [] then t
    else Perform(After(t, run[..|run| - 1]), run[|run| - 1]).tables
  }

  // The user a use case logs in, if it is a login that succeeds.
  function LogsIn(t: Tables, u: UseCase): Option<nat> {
    if u.Login? && Perform(t, u).result.Issued? then ByEmail(t.users, u.email) else None
  }

  function Logins(t: Tables, run: seq<UseCase>, user: nat): nat {
    if run == [] then 0
    else
      Logins(t, run[..|run| - 1], user)
      + if LogsIn(After(t, run[..|run| - 1]), run[|run| - 1]) == Some(user) then 1 else 0
  }

  function LiveCount(sessions: seq<Session>, user: nat): nat {
    if sessions == [] then 0
    else
      var last := sessions[|sessions| - 1];
      LiveCount(sessions[..|sessions| - 1], user) + if last.user == user && Live(last) then 1 else 0
  }

  // ---------- invariant ----------

  // A replaced session is revoked and points to a later session of the same user.
  ghost predicate Lineage(sessions: seq<Session>) {
    forall i :: 0 <= i < |sessions| && sessions[i].replacedBy.Some? ==>
      var next := sessions[i].replacedBy.value;
      && !Live(sessions[i])
      && i < next < |sessions|
      && sessions[next].user == sessions[i].user
  }

  // No session replaces two others.
  ghost predicate Injective(sessions: seq<Session>) {
    forall i, j :: 0 <= i < j < |sessions| && sessions[i].replacedBy.Some? ==>
      sessions[i].replacedBy != sessions[j].replacedBy
  }

  ghost predicate DistinctTokens(sessions: seq<Session>) {
    forall i, j :: 0 <= i < j < |sessions| ==> sessions[i].token != sessions[j].token
  }

  predicate Rivals(k: Token, k': Token) {
    k.purpose == PasswordReset && k'.purpose == PasswordReset && k.user == k'.user
  }

  ghost predicate OneUnused(tokens: seq<Token>) {
    && (forall i, j :: 0 <= i < j < |tokens| ==> tokens[i].hash != tokens[j].hash)
    && (forall i, j :: 0 <= i < j < |tokens| && Rivals(tokens[i], tokens[j]) ==> tokens[i].used || tokens[j].used)
  }

  ghost predicate Inv(t: Tables) {
    && Lineage(t.sessions)
    && Injective(t.sessions)
    && DistinctTokens(t.sessions)
    && OneUnused(t.tokens)
  }

  // What no use case undoes.
  ghost predicate Progresses(t: Tables, t': Tables) {
    && |t.users| <= |t'.users|
    && |t.sessions| <= |t'.sessions|
    && |t.tokens| <= |t'.tokens|
    && (forall i :: 0 <= i < |t.users| && !t.users[i].active ==> !t'.users[i].active)
    && (forall i :: 0 <= i < |t.sessions| ==> Ages(t.sessions[i], t'.sessions[i]))
    && (forall i :: 0 <= i < |t.tokens| ==> Spends(t.tokens[i], t'.tokens[i]))
  }

  predicate Ages(s: Session, s': Session) {
    && s'.user == s.user && s'.token == s.token && s'.expires == s.expires
    && (!Live(s) ==> !Live(s') && s'.replacedBy == s.replacedBy)
    && (s.replacedBy.Some? ==> s'.replacedBy == s.replacedBy)
  }

  predicate Spends(k: Token, k': Token) {
    && k'.user == k.user && k'.hash == k.hash && k'.purpose == k.purpose && k'.expires == k.expires
    && (k.used ==> k'.used)
  }

  /** Only a successful refresh or login adds a session; a use case that raises changes nothing. */
  lemma RaisesChangeNothing(t: Tables, u: UseCase)
    ensures Perform(t, u).result.Raised? ==> Perform(t, u).tables == t
    ensures |Perform(t, u).tables.sessions| > |t.sessions| <==> Perform(t, u).result.Issued?
    ensures Perform(t, u).result.Issued? ==> u.Login? || u.Refresh?
  {
  }

  lemma RotateKeepsSessions(sessions: seq<Session>, prior: nat, next: Session)
    requires Lineage(sessions) && Injective(sessions) && DistinctTokens(sessions)
    requires prior < |sessions| && Live(sessions[prior]) && sessions[prior].user == next.user
    requires next.replacedBy.None? && !TokenTaken(sessions, next.token)
    ensures var after := sessions[prior := Rotated(sessions[prior], |sessions|)] + [next];
            Lineage(after) && Injective(after) && DistinctTokens(after)
  {
  }

  lemma AppendKeepsSessions(sessions: seq<Session>, next: Session)
    requires Lineage(sessions) && Injective(sessions) && DistinctTokens(sessions)
    requires next.replacedBy.None? && !TokenTaken(sessions, next.token)
    ensures Lineage(sessions + [next]) && Injective(sessions + [next]) && DistinctTokens(sessions + [next])
  {
  }

  // Revoking keeps every link and every token in place.
  lemma RevokeKeepsSessions(sessions: seq<Session>, after: seq<Session>)
    requires Lineage(sessions) && Injective(sessions) && DistinctTokens(sessions)
    requires |after| == |sessions|
    requires forall i :: 0 <= i < |sessions| ==>
      Ages(sessions[i], after[i]) && after[i].replacedBy == sessions[i].replacedBy
    ensures Lineage(after) && Injective(after) && DistinctTokens(after)
  {
  }

  lemma PerformKeepsSessions(t: Tables, u: UseCase)
    requires Lineage(t.sessions) && Injective(t.sessions) && DistinctTokens(t.sessions)
    ensures var after := Perform(t, u).tables.sessions;
            Lineage(after) && Injective(after) && DistinctTokens(after)
  {
    var after := Perform(t, u).tables.sessions;
    if u.Login? && after != t.sessions {
      AppendKeepsSessions(t.sessions, after[|t.sessions|]);
    } else if u.Refresh? && after != t.sessions {
      RotateKeepsSessions(t.sessions, ByToken(t.sessions, u.token).value, after[|t.sessions|]);
    } else if after != t.sessions {
      RevokeKeepsSessions(t.sessions, after);
    }
  }

  lemma PerformKeepsTokens(t: Tables, u: UseCase)
    requires OneUnused(t.tokens)
    ensures OneUnused(Perform(t, u).tables.tokens)
  {
  }

  lemma PerformKeepsInv(t: Tables, u: UseCase)
    requires Inv(t)
    ensures Inv(Perform(t, u).tables)
  {
    PerformKeepsSessions(t, u);
    PerformKeepsTokens(t, u);
  }

  lemma PerformAgesSessions(t: Tables, u: UseCase)
    requires Lineage(t.sessions)
    ensures var t' := Perform(t, u).tables;
      && |t.sessions| <= |t'.sessions|
      && forall i :: 0 <= i < |t.sessions| ==> Ages(t.sessions[i], t'.sessions[i])
  {
  }

  lemma PerformProgresses(t: Tables, u: UseCase)
    requires Lineage(t.sessions)
    ensures Progresses(t, Perform(t, u).tables)
  {
    PerformAgesSessions(t, u);
  }

  lemma ProgressesTransitive(a: Tables, b: Tables, c: Tables)
    requires Progresses(a, b) && Progresses(b, c)
    ensures Progresses(a, c)
  {
    forall i | 0 <= i < |a.sessions|
      ensures Ages(a.sessions[i], c.sessions[i])
    {
      assert Ages(a.sessions[i], b.sessions[i]) && Ages(b.sessions[i], c.sessions[i]);
    }
    forall i | 0 <= i < |a.tokens|
      ensures Spends(a.tokens[i], c.tokens[i])
    {
      assert Spends(a.tokens[i], b.tokens[i]) && Spends(b.tokens[i], c.tokens[i]);
    }
  }

  lemma {:induction false} RunKeepsInv(t: Tables, run: seq<UseCase>)
    requires Inv(t)
    ensures Inv(After(t, run)) && Progresses(t, After(t, run))
  {
    if run != [] {
      var before := After(t, run[..|run| - 1]);
      RunKeepsInv(t, run[..|run| - 1]);
      PerformKeepsInv(before, run[|run| - 1]);
      PerformProgresses(before, run[|run| - 1]);
      ProgressesTransitive(t, before, After(t, run));
    }
  }

  // ---------- lineage ----------

  // `path` follows replaced_by_session_id.
  ghost predicate Replacements(sessions: seq<Session>, path: seq<nat>) {
    && (forall k :: 0 <= k < |path| ==> path[k] < |sessions|)
    && (forall k :: 0 <= k < |path| - 1 ==> sessions[path[k]].replacedBy == Some(path[k + 1]))
  }

  lemma {:induction false} PathClimbs(sessions: seq<Session>, path: seq<nat>)
    requires Lineage(sessions) && |path| >= 2 && Replacements(sessions, path)
    ensures path[0] < path[|path| - 1]
    ensures sessions[path[0]].user == sessions[path[|path| - 1]].user
    ensures forall k :: 0 <= k < |path| - 1 ==> !Live(sessions[path[k]])
  {
    if |path| > 2 {
      PathClimbs(sessions, path[1..]);
      assert forall k :: 1 <= k < |path| - 1 ==> path[k] == path[1..][k - 1];
    }
  }

  /**
   Over any serial run from empty tables, rotation never loops back, stays with
   one user, leaves only the end of a chain live, and never joins two chains.
   */
  lemma LineageIsForest(run: seq<UseCase>, path: seq<nat>, other: seq<nat>)
    requires var sessions := After(EMPTY, run).sessions;
             |path| >= 2 && Replacements(sessions, path) && |other| >= 2 && Replacements(sessions, other)
    ensures var sessions := After(EMPTY, run).sessions;
      && path[0] != path[|path| - 1]
      && sessions[path[0]].user == sessions[path[|path| - 1]].user
      && (forall k :: 0 <= k < |path| - 1 ==> !Live(sessions[path[k]]))
      && (path[|path| - 1] == other[|other| - 1] ==> path[|path| - 2] == other[|other| - 2])
  {
    RunKeepsInv(EMPTY, run);
    PathClimbs(After(EMPTY, run).sessions, path);
  }

  // ---------- live sessions and logins ----------

  lemma {:induction false} LiveUpdate(sessions: seq<Session>, i: nat, s: Session, user: nat)
    requires i < |sessions|
    ensures LiveCount(sessions[i := s], user)
         == LiveCount(sessions, user) + (if s.user == user && Live(s) then 1 else 0)
            - (if sessions[i].user == user && Live(sessions[i]) then 1 else 0)
  {
    var last := |sessions| - 1;
    if i < last {
      LiveUpdate(sessions[..last], i, s, user);
      assert sessions[i := s][..last] == sessions[..last][i := s];
    } else {
      assert sessions[i := s][..last] == sessions[..last];
    }
  }

  lemma LiveAppend(sessions: seq<Session>, s: Session, user: nat)
    ensures LiveCount(sessions + [s], user) == LiveCount(sessions, user) + if s.user == user && Live(s) then 1 else 0
  {
    assert (sessions + [s])[..|sessions|] == sessions;
  }

  lemma {:induction false} LiveRevokeAll(sessions: seq<Session>, user: nat, reason: string, who: nat)
    ensures LiveCount(RevokeAll(sessions, user, reason), who) == if who == user then 0 else LiveCount(sessions, who)
  {
    if sessions != [] {
      var last := |sessions| - 1;
      LiveRevokeAll(sessions[..last], user, reason, who);
      assert RevokeAll(sessions, user, reason)[..last] == RevokeAll(sessions[..last], user, reason);
    }
  }

  // Rotation trades one live session for another of the same user.
  lemma RotateKeepsLive(sessions: seq<Session>, prior: nat, newToken: string, now: int, user: nat)
    requires prior < |sessions| && Live(sessions[prior])
    ensures LiveCount(sessions[prior := Rotated(sessions[prior], |sessions|)]
                        + [NewSession(sessions[prior].user, newToken, now)], user)
         == LiveCount(sessions, user)
  {
    var rotated := Rotated(sessions[prior], |sessions|);
    LiveUpdate(sessions, prior, rotated, user);
    LiveAppend(sessions[prior := rotated], NewSession(sessions[prior].user, newToken, now), user);
  }

  lemma LiveStep(t: Tables, u: UseCase, user: nat)
    ensures LiveCount(Perform(t, u).tables.sessions, user)
         <= LiveCount(t.sessions, user) + if LogsIn(t, u) == Some(user) then 1 else 0
  {
    var after := Perform(t, u).tables.sessions;
    if after != t.sessions {
      match u
      case Login(email, _, _, newToken, now) =>
        LiveAppend(t.sessions, NewSession(ByEmail(t.users, email).value, newToken, now), user);
      case Refresh(token, newToken, now) =>
        RotateKeepsLive(t.sessions, ByToken(t.sessions, token).value, newToken, now, user);
      case Logout(_, token) =>
        var i := ByToken(t.sessions, token).value;
        LiveUpdate(t.sessions, i, Revoked(t.sessions[i], "logout"), user);
      case RevokeSession(_, i) =>
        LiveUpdate(t.sessions, i, Revoked(t.sessions[i], "user_revoked"), user);
      case ResetPassword(token, _, now) =>
        LiveRevokeAll(t.sessions, t.tokens[ValidByHash(t.tokens, token, PasswordReset, now).value].user, "password_reset", user);
      case _ =>
    }
  }

  /** A user's live sessions never outnumber that user's successful logins. */
  lemma {:induction false} LiveAtMostLogins(run: seq<UseCase>, user: nat)
    ensures LiveCount(After(EMPTY, run).sessions, user) <= Logins(EMPTY, run, user)
  {
    if run != [] {
      LiveAtMostLogins(run[..|run| - 1], user);
      LiveStep(After(EMPTY, run[..|run| - 1]), run[|run| - 1], user);
    }
  }

  // ---------- single use and permanence ----------

  /** A revoked session stays revoked, and an inactive user inactive, over any run. */
  lemma RevocationIsPermanent(t: Tables, run: seq<UseCase>, session: nat)
    requires Inv(t) && session < |t.sessions| && !Live(t.sessions[session])
    ensures session < |After(t, run).sessions| && !Live(After(t, run).sessions[session])
  {
    RunKeepsInv(t, run);
    assert Ages(t.sessions[session], After(t, run).sessions[session]);
  }

  /**
   A refresh token works at most once: after a refresh succeeds with it, no
   later refresh with it does, whatever happened in between.
   */
  lemma RefreshTokenIsSingleUse(t: Tables, token: string, newToken: string, now: int,
                                between: seq<UseCase>, newToken': string, now': int)
    requires Inv(t) && Perform(t, Refresh(token, newToken, now)).result.Issued?
    ensures var later := After(Perform(t, Refresh(token, newToken, now)).tables, between);
            Perform(later, Refresh(token, newToken', now')) == Outcome(later, Raised(InvalidRefreshToken))
  {
    var first := Perform(t, Refresh(token, newToken, now)).tables;
    var later := After(first, between);
    var prior := ByToken(t.sessions, token).value;
    PerformKeepsInv(t, Refresh(token, newToken, now));
    RunKeepsInv(first, between);
    assert Ages(first.sessions[prior], later.sessions[prior]);
  }

  // The sessions of one user.
  function SessionCount(sessions: seq<Session>, user: nat): nat {
    if sessions == [] then 0
    else
      SessionCount(sessions[..|sessions| - 1], user) + if sessions[|sessions| - 1].user == user then 1 else 0
  }

  lemma {:induction false} SameUsersSameCount(a: seq<Session>, b: seq<Session>, user: nat)
    requires |a| == |b| && forall i :: 0 <= i < |a| ==> a[i].user == b[i].user
    ensures SessionCount(a, user) == SessionCount(b, user)
  {
    if a != [] {
      SameUsersSameCount(a[..|a| - 1], b[..|b| - 1], user);
    }
  }

  lemma InactiveGainsNothing(t: Tables, u: UseCase, user: nat)
    requires Lineage(t.sessions) && !ActiveUser(t.users, user) && user < |t.users|
    ensures SessionCount(Perform(t, u).tables.sessions, user) == SessionCount(t.sessions, user)
  {
    var after := Perform(t, u).tables.sessions;
    PerformAgesSessions(t, u);
    RaisesChangeNothing(t, u);
    if |after| > |t.sessions| {
      assert |after| == |t.sessions| + 1 && after[|t.sessions|].user != user;
      SameUsersSameCount(after[..|t.sessions|], t.sessions, user);
    } else {
      SameUsersSameCount(after, t.sessions, user);
    }
  }

  /** After deactivation no use case ever adds a session for that user. */
  lemma {:induction false} DeactivationIsFinal(t: Tables, run: seq<UseCase>, user: nat)
    requires Inv(t) && user < |t.users| && !t.users[user].active
    ensures SessionCount(After(t, run).sessions, user) == SessionCount(t.sessions, user)
    ensures user < |After(t, run).users| && !After(t, run).users[user].active
  {
    RunKeepsInv(t, run);
    if run != [] {
      var before := After(t, run[..|run| - 1]);
      DeactivationIsFinal(t, run[..|run| - 1], user);
      RunKeepsInv(t, run[..|run| - 1]);
      InactiveGainsNothing(before, run[|run| - 1], user);
    }
  }

  // ---------- reset tokens ----------

  /** At most one unused reset token per user, over any run from empty tables. */
  lemma OneUsableResetToken(run: seq<UseCase>, i: nat, j: nat)
    requires var tokens := After(EMPTY, run).tokens;
             && i < |tokens| && j < |tokens| && Rivals(tokens[i], tokens[j])
             && !tokens[i].used && !tokens[j].used
    ensures i == j
  {
    RunKeepsInv(EMPTY, run);
  }

  // A spent reset token never works again, whatever happens.
  lemma SpentStaysSpent(t: Tables, run: seq<UseCase>, i: nat, password: string, now: int)
    requires Inv(t) && i < |t.tokens| && t.tokens[i].used
    ensures var later := After(t, run);
            Perform(later, ResetPassword(t.tokens[i].hash, password, now)) == Outcome(later, Raised(ResetTokenInvalid))
  {
    RunKeepsInv(t, run);
    var later := After(t, run);
    assert Spends(t.tokens[i], later.tokens[i]);
    OnlyOneHasHash(later.tokens, i, now);
  }

  lemma OnlyOneHasHash(tokens: seq<Token>, i: nat, now: int)
    requires OneUnused(tokens) && i < |tokens| && tokens[i].used
    ensures ValidByHash(tokens, tokens[i].hash, PasswordReset, now).None?
  {
  }

  /**
   A reset token works at most once, a spent one never works again, and a
   successful reset leaves its user with no live session.
   */
  lemma ResetTokenIsSingleUse(t: Tables, token: string, password: string, now: int,
                              between: seq<UseCase>, password': string, now': int)
    requires Inv(t) && Perform(t, ResetPassword(token, password, now)).result == Completed
    ensures var reset := Perform(t, ResetPassword(token, password, now)).tables;
            var later := After(reset, between);
            var user := t.tokens[ValidByHash(t.tokens, token, PasswordReset, now).value].user;
      && LiveCount(reset.sessions, user) == 0
      && (user < |t.users| ==> reset.users[user].password.plain == password)
      && Perform(later, ResetPassword(token, password', now')) == Outcome(later, Raised(ResetTokenInvalid))
  {
    var reset := Perform(t, ResetPassword(token, password, now)).tables;
    var i := ValidByHash(t.tokens, token, PasswordReset, now).value;
    PerformKeepsInv(t, ResetPassword(token, password, now));
    LiveRevokeAll(t.sessions, t.tokens[i].user, "password_reset", t.tokens[i].user);
    SpentStaysSpent(reset, between, i, password', now');
  }

  /** A new reset request kills every earlier link for good. */
  lemma NewLinkKillsOldLinks(t: Tables, email: string, newToken: string, now: int,
                             between: seq<UseCase>, i: nat, password: string, now': int)
    requires Inv(t) && Perform(t, ForgotPassword(email, newToken, now)).result == Completed
    requires ByEmail(t.users, email).Some?
    requires i < |t.tokens| && t.tokens[i].user == ByEmail(t.users, email).value && t.tokens[i].purpose == PasswordReset
    ensures var later := After(Perform(t, ForgotPassword(email, newToken, now)).tables, between);
            Perform(later, ResetPassword(t.tokens[i].hash, password, now')) == Outcome(later, Raised(ResetTokenInvalid))
  {
    var asked := Perform(t, ForgotPassword(email, newToken, now)).tables;
    PerformKeepsInv(t, ForgotPassword(email, newToken, now));
    assert asked.tokens[i] == t.tokens[i].(used := true);
    SpentStaysSpent(asked, between, i, password, now');
  }

  // ---------- documented, but rolled back ----------

  /**
   The documentation says that presenting a rotated token revokes every session
   of its user.  It does inside the transaction (HandlePossibleReuse), but the
   raise that follows rolls it back: the user is left with no live session
   exactly when there was none before.
   */
  lemma ReuseRevokesIff(t: Tables, token: string, newToken: string, now: int)
    requires ByUsedToken(t.sessions, token).Some? && DistinctTokens(t.sessions)
    ensures Perform(t, Refresh(token, newToken, now)) == Outcome(t, Raised(InvalidRefreshToken))
    ensures var user := t.sessions[ByUsedToken(t.sessions, token).value].user;
            LiveCount(Perform(t, Refresh(token, newToken, now)).tables.sessions, user) == 0 <==> NoneLive(t.sessions, user)
  {
    CountsNone(t.sessions, t.sessions[ByUsedToken(t.sessions, token).value].user);
  }

  predicate NoneLive(sessions: seq<Session>, user: nat) {
    forall i :: 0 <= i < |sessions| && sessions[i].user == user ==> !Live(sessions[i])
  }

  lemma {:induction false} CountsNone(sessions: seq<Session>, user: nat)
    ensures LiveCount(sessions, user) == 0 <==> NoneLive(sessions, user)
  {
    if sessions != [] {
      var last := |sessions| - 1;
      CountsNone(sessions[..last], user);
      assert forall i :: 0 <= i < last ==> sessions[..last][i] == sessions[i];
    }
  }

  // Registering, logging in, and refreshing twice with the first token.
  function ReuseRun(): seq<UseCase> {
    [Register("ann", "a@b.c", "secret"), Login("a@b.c", "secret", NoCode, "first", 0),
     Refresh("first", "second", 1), Refresh("first", "third", 2)]
  }

  /** A run in which reuse of a rotated token leaves the newer session live. */
  lemma ReuseLeavesSessionLive()
    ensures After(EMPTY, ReuseRun()).sessions
         == [Session(0, "first", REFRESH_TTL, Some("rotated"), Some(1)), NewSession(0, "second", 1)]
  {
    var run := ReuseRun();
    assert run[..3] == [run[0], run[1], run[2]] && run[..3][..2] == [run[0], run[1]] && run[..3][..2][..1] == [run[0]];
    var registered := After(EMPTY, [run[0]]);
    assert registered == Perform(After(EMPTY, []), run[0]).tables;
    assert registered == EMPTY.(users := [User("ann", "a@b.c", Argon2("secret", false), true, 0, None, false)]);
    var loggedIn := After(EMPTY, run[..3][..2]);
    assert loggedIn == Perform(registered, run[1]).tables;
    assert loggedIn.sessions == [NewSession(0, "first", 0)];
    var rotated := After(EMPTY, run[..3]);
    assert rotated == Perform(loggedIn, run[2]).tables;
    assert "second" != "first" && |"second"| != |"first"|;
    assert rotated.sessions
        == [Session(0, "first", REFRESH_TTL, Some("rotated"), Some(1)), NewSession(0, "second", 1)];
    assert ByToken(rotated.sessions, "first").None?;
    assert After(EMPTY, run) == Perform(rotated, run[3]).tables;
  }

  ghost predicate NobodyLocked(users: seq<User>) {
    forall i :: 0 <= i < |users| ==> users[i].failedLogins == 0 && users[i].lockedUntil == None
  }

  /**
   The documentation promises account lockout after repeated failures, but the
   raise rolls the counter back: in every run it stays 0, no account is ever
   locked, and no use case is ever refused for it.
   */
  lemma {:induction false} NobodyIsEverLocked(run: seq<UseCase>, u: UseCase)
    ensures NobodyLocked(After(EMPTY, run).users)
    ensures Perform(After(EMPTY, run), u).result != Raised(AccountLocked)
  {
    if run != [] {
      NobodyIsEverLocked(run[..|run| - 1], u);
      PerformLocksNobody(After(EMPTY, run[..|run| - 1]), run[|run| - 1]);
    }
    PerformLocksNobody(After(EMPTY, run), u);
  }

  lemma PerformLocksNobody(t: Tables, u: UseCase)
    requires NobodyLocked(t.users)
    ensures NobodyLocked(Perform(t, u).tables.users)
    ensures Perform(t, u).result != Raised(AccountLocked)
  {
  }
}
