/** What each service call does to the requests that carry a session: which ones the guard refuses afterwards, and that
    it answers all others as before. */
module AccountRequests {
  import opened Wrappers
  import opened CommonTypes
  import opened Accounts
  import opened AccountSafety

  function SessionsOf(db: Database, u: UserId): set<SessionId> {
    set s | s in db.sessions && db.sessions[s].user == u
  }

  function SessionsOfHolders(db: Database, r: RoleId): set<SessionId> {
    set s | s in db.sessions && db.sessions[s].user in db.users && r in db.users[db.sessions[s].user].roles
  }

  /** From the given instant on, or at any time, requests with one of these sessions are refused and all other requests
      are answered as before. */
  ghost predicate EndsOnly(before: Database, after: Database, ended: set<SessionId>, since: Option<Instant>) {
    forall s, now | since.None? || now >= since.value ::
      Guard(after, s, now) == if s in ended then Failure(Unauthorized) else Guard(before, s, now)
  }

  /** What a caller of the method that serves this call is told, and what the tables hold then. */
  ghost predicate Served(before: Database, c: Call, after: Database, error: Option<AccountError>) {
    match Outcome(before, c)
    case Success(db) => error.None? && after == db
    case Failure(e) => error == Some(e) && after == before
  }

  /** The administrator gets other roles, or is disabled. */
  predicate ChangesAccess(before: User, after: User) {
    after.roles != before.roles || (before.active && !after.active)
  }

  /** The sessions a call ends. */
  function Ended(db: Database, c: Call): set<SessionId> {
    if Outcome(db, c).Failure? then {} else
      var after := Outcome(db, c).value;
      match c
      case CallUpdateUser(_, u, _) =>
        if u in db.users && u in after.users && ChangesAccess(db.users[u], after.users[u]) then SessionsOf(db, u)
        else {}
      case CallSetUserEnabled(_, u, enabled) => if enabled then {} else SessionsOf(db, u)
      case CallResetPassword(u, _) => SessionsOf(db, u)
      case CallUpdateRole(r, _) =>
        if r in db.roles && r in after.roles && after.roles[r].permissions != db.roles[r].permissions
        then SessionsOfHolders(db, r) else {}
      case CallLogout(s) => {s}
      case CallChangePassword(u, _, _, _) => SessionsOf(db, u)
      case CallRevokeSession(_, s, _) => {s}
      case CallLogoutAll(u, _) => SessionsOf(db, u)
      case _ => {}
  }

  /** The calls that look only at live sessions leave expired ones as they are. */
  function Since(c: Call): Option<Instant> {
    if c.CallChangePassword? || c.CallRevokeSession? || c.CallLogoutAll? then Some(c.now) else None
  }

  /** The guard depends on nothing but the session, its user and the user's roles. */
  lemma GuardIsLocal(before: Database, after: Database, s: SessionId, now: Instant)
    requires s in before.sessions && s in after.sessions && after.sessions[s] == before.sessions[s]
    requires var u := before.sessions[s].user;
             && (u in after.users <==> u in before.users)
             && (u in before.users ==>
                   && after.users[u].active == before.users[u].active && after.users[u].roles == before.users[u].roles
                   && forall r :: r in before.users[u].roles ==>
                        && (r in after.roles <==> r in before.roles)
                        && (r in before.roles ==> && after.roles[r].active == before.roles[r].active
                                                  && after.roles[r].permissions == before.roles[r].permissions))
    ensures Guard(after, s, now) == Guard(before, s, now)
  {
    var u := before.sessions[s].user;
    if u in before.users {
      var ids := before.users[u].roles;
      assert PermissionsOf(after.roles, ids) == PermissionsOf(before.roles, ids);
      assert HasActiveRole(after.roles, ids) <==> HasActiveRole(before.roles, ids);
    }
  }

  lemma DeadSessionsAreRefused(db: Database, s: SessionId, now: Instant)
    requires s in db.sessions ==> !Live(db.sessions[s], now)
    ensures Guard(db, s, now) == Failure(Unauthorized)
  {
  }

  lemma UpdatesEnd(db: Database, c: Call, s: SessionId, now: Instant)
    requires SessionsAreFresh(db) && c.CallUpdateUser?
    ensures Guard(Apply(db, c), s, now) == if s in Ended(db, c) then Failure(Unauthorized) else Guard(db, s, now)
  {
    hide PermissionsOf, RolesError, Taken, AnotherEnabledSuperAdmin, SuperRole, RoleIdsValid, Members, Guard;
    var after := Apply(db, c);
    if s in after.sessions && Live(after.sessions[s], now) {
      assert FreshSession(db, db.sessions[s]);
      GuardIsLocal(db, after, s, now);
    } else {
      DeadSessionsAreRefused(after, s, now);
      if s !in Ended(db, c) {
        DeadSessionsAreRefused(db, s, now);
      }
    }
  }

  lemma UserCallsEnd(db: Database, c: Call, s: SessionId, now: Instant)
    requires SessionsAreFresh(db) && WritesUsers(c) && !c.CallUpdateUser?
    requires Since(c).None? || now >= Since(c).value
    ensures Guard(Apply(db, c), s, now) == if s in Ended(db, c) then Failure(Unauthorized) else Guard(db, s, now)
  {
    hide PermissionsOf, RolesError, Taken, AnotherEnabledSuperAdmin, SuperRole, RoleIdsValid, Members, Guard;
    var after := Apply(db, c);
    if s in after.sessions && Live(after.sessions[s], now) {
      assert FreshSession(db, db.sessions[s]);
      GuardIsLocal(db, after, s, now);
    } else {
      DeadSessionsAreRefused(after, s, now);
      if s !in Ended(db, c) {
        DeadSessionsAreRefused(db, s, now);
      }
    }
  }

  lemma RoleCallsEnd(db: Database, c: Call, s: SessionId, now: Instant)
    requires RolesAreActive(db) && (c.CallCreateRole? || c.CallUpdateRole? || c.CallSetRoleEnabled?)
    ensures Guard(Apply(db, c), s, now) == if s in Ended(db, c) then Failure(Unauthorized) else Guard(db, s, now)
  {
    hide PermissionsOf, NameTaken, CodeTaken, Members, PermissionIdsValid, Guard;
    var after := Apply(db, c);
    if s in after.sessions && Live(after.sessions[s], now) {
      if s !in Ended(db, c) {
        GuardIsLocal(db, after, s, now);
      }
    } else {
      DeadSessionsAreRefused(after, s, now);
      if s !in Ended(db, c) {
        DeadSessionsAreRefused(db, s, now);
      }
    }
  }

  lemma SessionCallsEnd(db: Database, c: Call, s: SessionId, now: Instant)
    requires c.CallLogout? || c.CallRevokeSession? || c.CallLogoutAll?
    requires Since(c).None? || now >= Since(c).value
    ensures Guard(Apply(db, c), s, now) == if s in Ended(db, c) then Failure(Unauthorized) else Guard(db, s, now)
  {
    hide PermissionsOf, HasActiveRole;
  }

  /** Every call but a login ends exactly the sessions named by `Ended`: the guard refuses them from then on, and
      answers every other request as it did, with the same permissions. */
  lemma CallsEndOnlyTheirSessions(db: Database, c: Call)
    requires Good(db) && !c.CallLogin?
    ensures EndsOnly(db, Apply(db, c), Ended(db, c), Since(c))
  {
    hide Apply, Ended, RolesAreActive, SessionsAreFresh, Guard;
    forall s, now | Since(c).None? || now >= Since(c).value
      ensures Guard(Apply(db, c), s, now) == if s in Ended(db, c) then Failure(Unauthorized) else Guard(db, s, now)
    {
      if c.CallUpdateUser? {
        UpdatesEnd(db, c, s, now);
      } else if WritesUsers(c) {
        UserCallsEnd(db, c, s, now);
      } else if c.CallCreateRole? || c.CallUpdateRole? || c.CallSetRoleEnabled? {
        RoleCallsEnd(db, c, s, now);
      } else {
        SessionCallsEnd(db, c, s, now);
      }
    }
  }

  /** A served call keeps good tables good and ends only its sessions. */
  lemma ServingIsSafe(before: Database, c: Call, after: Database, error: Option<AccountError>)
    requires Served(before, c, after, error) && Good(before) && !c.CallLogin?
    ensures Good(after) && EndsOnly(before, after, Ended(before, c), Since(c))
  {
    hide Good, Outcome, Ended, EndsOnly;
    ApplyKeepsGood(before, c);
    CallsEndOnlyTheirSessions(before, c);
  }

  /** Without any condition on the tables, the calls about sessions end exactly theirs. */
  lemma SessionCallsEndOnlyTheirs(db: Database, c: Call)
    requires c.CallLogout? || c.CallRevokeSession? || c.CallLogoutAll?
    ensures EndsOnly(db, Apply(db, c), Ended(db, c), Since(c))
  {
    hide Apply, Ended, Guard;
    forall s, now | Since(c).None? || now >= Since(c).value
      ensures Guard(Apply(db, c), s, now) == if s in Ended(db, c) then Failure(Unauthorized) else Guard(db, s, now)
    {
      SessionCallsEnd(db, c, s, now);
    }
  }

  /** A login lets its session through with the permissions it hands out, until it expires, and changes the answer to no
      other request. */
  lemma LoginsAddOneSession(db: Database, c: Call, s: SessionId, now: Instant)
    requires c.CallLogin? && Outcome(db, c).Success?
    ensures Guard(Apply(db, c), c.session, now)
            == if now < c.expiresAt then Success(Apply(db, c).sessions[c.session].granted) else Failure(Unauthorized)
    ensures s != c.session ==> Guard(Apply(db, c), s, now) == Guard(db, s, now)
  {
    hide PermissionsOf, HasActiveRole;
  }

  /** Whether these credentials log the user in. */
  predicate LogsIn(db: Database, u: UserId, password: Text) {
    u in db.users && CredentialsFit(db, u, db.users[u].username, password)
  }

  /** New credentials work and old ones do not: a created user can log in exactly when created active, and after a
      password change exactly the new password is accepted, for users who could log in before. */
  lemma CredentialsAfter(db: Database, c: Call, password: Text)
    requires Outcome(db, c).Success? && RolesAreActive(db)
    ensures c.CallCreateUser? ==>
              (LogsIn(Apply(db, c), c.user, password) <==>
                 c.createUser.active && Some(password) == c.createUser.password)
    ensures c.CallResetPassword? ==>
              (LogsIn(Apply(db, c), c.user, password) <==> db.users[c.user].active && Some(password) == c.password)
    ensures c.CallChangePassword? ==>
              (LogsIn(Apply(db, c), c.actor, password) <==> db.users[c.actor].active && Some(password) == c.next)
  {
    hide PermissionsOf, Taken;
    if c.CallCreateUser? {
      assert c.createUser.roleIds[0] in Members(c.createUser.roleIds);
      assert c.createUser.roleIds[0] in c.createUser.roleIds;
    } else if c.CallResetPassword? || c.CallChangePassword? {
      var u := if c.CallResetPassword? then c.user else c.actor;
      var r :| r in db.users[u].roles;
      assert r in db.roles && db.roles[r].active;
    }
  }
}
