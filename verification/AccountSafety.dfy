/** What users, roles and sessions keep over every sequence of service calls. */
module AccountSafety {
  import opened Wrappers
  import opened CommonTypes
  import opened Accounts

  datatype Call =
    | CallCreateUser(user: UserId, createUser: CreateUserInput)
    | CallUpdateUser(actor: UserId, user: UserId, updateUser: UpdateUserInput)
    | CallSetUserEnabled(actor: UserId, user: UserId, enabled: bool)
    | CallResetPassword(user: UserId, password: Option<Text>)
    | CallCreateRole(role: RoleId, createRole: CreateRoleInput)
    | CallUpdateRole(role: RoleId, updateRole: UpdateRoleInput)
    | CallSetRoleEnabled(role: RoleId, enabled: bool)
    | CallLogin(session: SessionId, username: Text, secret: Text, expiresAt: Instant)
    | CallLogout(session: SessionId)
    | CallChangePassword(actor: UserId, current: Text, next: Option<Text>, now: Instant)
    | CallRevokeSession(actor: UserId, session: SessionId, now: Instant)
    | CallLogoutAll(actor: UserId, now: Instant)

  function Outcome(db: Database, c: Call): Result<Database, AccountError> {
    match c
    case CallCreateUser(id, input) => CreateUser(db, id, input)
    case CallUpdateUser(actor, id, input) => UpdateUser(db, actor, id, input)
    case CallSetUserEnabled(actor, id, enabled) => SetUserEnabled(db, actor, id, enabled)
    case CallResetPassword(id, password) => ResetPassword(db, id, password)
    case CallCreateRole(id, input) => CreateRole(db, id, input)
    case CallUpdateRole(id, input) => UpdateRole(db, id, input)
    case CallSetRoleEnabled(id, enabled) => SetRoleEnabled(db, id, enabled)
    case CallLogin(id, username, secret, expiresAt) => Login(db, id, username, secret, expiresAt)
    case CallLogout(id) => Success(Logout(db, id))
    case CallChangePassword(actor, current, next, now) => ChangePassword(db, actor, current, next, now)
    case CallRevokeSession(actor, id, now) => RevokeSession(db, actor, id, now)
    case CallLogoutAll(actor, now) => Success(LogoutAll(db, actor, now))
  }

  function Apply(db: Database, c: Call): Database {
    match Outcome(db, c) case Success(after) => after case Failure(_) => db
  }

  function After(db: Database, cs: seq<Call>): Database
    decreases |cs|
  {
    if cs == [] then db else Apply(After(db, cs[..|cs| - 1]), cs[|cs| - 1])
  }

  // ---------- the invariants ----------

  /** Every administrator has roles, and all of them are active. */
  predicate RolesAreActive(db: Database) {
    forall u :: u in db.users ==>
      db.users[u].roles != {} && forall r :: r in db.users[u].roles ==> r in db.roles && db.roles[r].active
  }

  /** An unrevoked session belongs to an active user, and what was granted at its login is what the guard
      computes now. */
  predicate FreshSession(db: Database, s: Session) {
    !s.revoked ==>
      && s.user in db.users && db.users[s.user].active
      && s.granted == PermissionsOf(db.roles, db.users[s.user].roles)
  }

  predicate SessionsAreFresh(db: Database) {
    forall id :: id in db.sessions ==> FreshSession(db, db.sessions[id])
  }

  predicate OneSuperRole(roles: map<RoleId, Role>) {
    forall r, q :: r in roles && q in roles && roles[r].code.SuperAdmin? && roles[q].code.SuperAdmin? ==> r == q
  }

  /** The user is active and holds an active super_admin role that carries all core permissions. */
  predicate HoldsTheKeys(db: Database, u: UserId, super: RoleId) {
    && u in db.users && db.users[u].active && super in db.users[u].roles
    && super in db.roles && db.roles[super].code.SuperAdmin? && db.roles[super].active
    && CORE_SUPER_PERMISSIONS <= db.roles[super].permissions
  }

  ghost predicate NotLockedOut(db: Database) {
    exists u, super :: HoldsTheKeys(db, u, super)
  }

  ghost predicate Good(db: Database) {
    RolesAreActive(db) && SessionsAreFresh(db) && OneSuperRole(db.roles) && NotLockedOut(db)
  }

  // ---------- assigned roles stay active ----------

  lemma ApplyKeepsRolesActive(db: Database, c: Call)
    requires RolesAreActive(db)
    ensures RolesAreActive(Apply(db, c))
  {
    hide Taken, AnotherEnabledSuperAdmin, NameTaken, CodeTaken, SuperRole, LosesSuper, CredentialsFit, PermissionsOf,
         RevokedSessions, NoRepeats;
    match c {
      case CallCreateUser(_, input) =>
        assert RoleIdsValid(input.roleIds) ==> input.roleIds[0] in Members(input.roleIds);
      case CallUpdateUser(_, _, input) =>
        assert input.roleIds.Some? && RoleIdsValid(input.roleIds.value) ==>
            input.roleIds.value[0] in Members(input.roleIds.value);
      case CallSetUserEnabled(_, _, _) =>
      case CallResetPassword(_, _) =>
      case CallCreateRole(_, _) =>
      case CallUpdateRole(_, _) =>
      case CallSetRoleEnabled(_, _) =>
      case CallLogin(_, _, _, _) =>
      case CallLogout(_) =>
      case CallChangePassword(_, _, _, _) =>
      case CallRevokeSession(_, _, _) =>
      case CallLogoutAll(_, _) =>
    }
  }

  // ---------- sessions stay fresh ----------

  /** A user whose roles, their permissions and activity did not change keeps a fresh session. */
  lemma UnchangedStaysFresh(db: Database, after: Database, s: Session)
    requires FreshSession(db, s)
    requires s.user in db.users ==>
               && s.user in after.users
               && after.users[s.user].active == db.users[s.user].active
               && after.users[s.user].roles == db.users[s.user].roles
               && forall r :: r in db.users[s.user].roles ==>
                    (r in db.roles <==> r in after.roles)
                    && (r in db.roles ==> after.roles[r].active == db.roles[r].active
                                          && after.roles[r].permissions == db.roles[r].permissions)
    ensures FreshSession(after, s)
  {
    if !s.revoked {
      var ids := db.users[s.user].roles;
      assert PermissionsOf(after.roles, ids) == PermissionsOf(db.roles, ids);
    }
  }

  predicate WritesUsers(c: Call) {
    c.CallCreateUser? || c.CallUpdateUser? || c.CallSetUserEnabled? || c.CallResetPassword? || c.CallChangePassword?
  }

  lemma UserCallsKeepFresh(db: Database, c: Call, id: SessionId)
    requires SessionsAreFresh(db) && id in db.sessions
    requires WritesUsers(c)
    ensures FreshSession(Apply(db, c), Apply(db, c).sessions[id])
  {
    hide PermissionsOf, RolesError, Taken, AnotherEnabledSuperAdmin;
    var after := Apply(db, c);
    var s := after.sessions[id];
    assert FreshSession(db, db.sessions[id]);
    if !s.revoked {
      UnchangedStaysFresh(db, after, s);
    }
  }

  lemma RoleCallsKeepFresh(db: Database, c: Call, id: SessionId)
    requires RolesAreActive(db) && SessionsAreFresh(db) && id in db.sessions
    requires c.CallCreateRole? || c.CallUpdateRole? || c.CallSetRoleEnabled?
    ensures FreshSession(Apply(db, c), Apply(db, c).sessions[id])
  {
    hide PermissionsOf, NameTaken, CodeTaken;
    var after := Apply(db, c);
    var s := after.sessions[id];
    assert FreshSession(db, db.sessions[id]);
    if !s.revoked {
      UnchangedStaysFresh(db, after, s);
    }
  }

  lemma SessionCallsKeepFresh(db: Database, c: Call)
    requires SessionsAreFresh(db)
    requires c.CallLogin? || c.CallLogout? || c.CallRevokeSession? || c.CallLogoutAll?
    ensures SessionsAreFresh(Apply(db, c))
  {
    hide PermissionsOf, HasActiveRole;
  }

  lemma ApplyKeepsSessionsFresh(db: Database, c: Call)
    requires RolesAreActive(db) && SessionsAreFresh(db)
    ensures SessionsAreFresh(Apply(db, c))
  {
    hide FreshSession, RolesAreActive;
    if c.CallLogin? || c.CallLogout? || c.CallRevokeSession? || c.CallLogoutAll? {
      SessionCallsKeepFresh(db, c);
    } else {
      SameSessionIds(db, c);
      forall id | id in db.sessions ensures FreshSession(Apply(db, c), Apply(db, c).sessions[id]) {
        if c.CallCreateRole? || c.CallUpdateRole? || c.CallSetRoleEnabled? {
          RoleCallsKeepFresh(db, c, id);
        } else {
          UserCallsKeepFresh(db, c, id);
        }
      }
    }
  }

  lemma SameSessionIds(db: Database, c: Call)
    requires !c.CallLogin?
    ensures Apply(db, c).sessions.Keys == db.sessions.Keys
  {
    hide RolesError, Taken, AnotherEnabledSuperAdmin, NameTaken, CodeTaken, Assigned;
  }

  // ---------- nobody is locked out ----------

  lemma ApplyKeepsOneSuperRole(db: Database, c: Call)
    requires OneSuperRole(db.roles)
    ensures OneSuperRole(Apply(db, c).roles)
  {
    hide RolesError, Taken, AnotherEnabledSuperAdmin, NameTaken, Assigned;
  }

  lemma UserCallsKeepKeys(db: Database, c: Call, u: UserId, super: RoleId) returns (holder: UserId)
    requires OneSuperRole(db.roles) && HoldsTheKeys(db, u, super)
    requires WritesUsers(c)
    ensures HoldsTheKeys(Apply(db, c), holder, super)
  {
    hide RolesError, Taken, PermissionsOf;
    holder := u;
    var after := Apply(db, c);
    assert SuperRole(db.roles) == Some(super);
    if u in after.users && !(after.users[u].active && super in after.users[u].roles) {
      holder :| holder in db.users && holder != u && db.users[holder].active && super in db.users[holder].roles;
    }
  }

  lemma OtherCallsKeepKeys(db: Database, c: Call, u: UserId, super: RoleId)
    requires HoldsTheKeys(db, u, super)
    requires !WritesUsers(c)
    ensures HoldsTheKeys(Apply(db, c), u, super)
  {
    hide PermissionsOf, HasActiveRole, NameTaken, CodeTaken, Assigned;
  }

  lemma ApplyKeepsGood(db: Database, c: Call)
    requires Good(db)
    ensures Good(Apply(db, c))
  {
    hide Apply, RolesAreActive, SessionsAreFresh, OneSuperRole, HoldsTheKeys;
    ApplyKeepsRolesActive(db, c);
    ApplyKeepsSessionsFresh(db, c);
    ApplyKeepsOneSuperRole(db, c);
    var u, super :| HoldsTheKeys(db, u, super);
    if WritesUsers(c) {
      u := UserCallsKeepKeys(db, c, u, super);
    } else {
      OtherCallsKeepKeys(db, c, u, super);
    }
    assert HoldsTheKeys(Apply(db, c), u, super);
  }

  /** From a good start, every sequence of service calls leaves somebody who can administer users and roles. */
  lemma {:induction false} NobodyIsLockedOut(db: Database, cs: seq<Call>)
    requires Good(db)
    ensures Good(After(db, cs)) && NotLockedOut(After(db, cs))
    decreases |cs|
  {
    hide Good, Apply;
    if cs != [] {
      NobodyIsLockedOut(db, cs[..|cs| - 1]);
      ApplyKeepsGood(After(db, cs[..|cs| - 1]), cs[|cs| - 1]);
    }
    GoodIsNotLockedOut(After(db, cs));
  }

  lemma GoodIsNotLockedOut(db: Database)
    ensures Good(db) ==> NotLockedOut(db)
  {
  }

  /** From a good start, after every sequence of service calls the guard lets a live session through with exactly the
      permissions its login granted. */
  lemma SessionsKeepTheirPermissions(db: Database, cs: seq<Call>, id: SessionId, now: Instant)
    requires Good(db)
    ensures var after := After(db, cs);
            id in after.sessions && Live(after.sessions[id], now) ==>
              Guard(after, id, now) == Success(after.sessions[id].granted)
  {
    hide After, PermissionsOf, OneSuperRole, NotLockedOut;
    NobodyIsLockedOut(db, cs);
    var after := After(db, cs);
    if id in after.sessions && Live(after.sessions[id], now) {
      assert FreshSession(after, after.sessions[id]);
      var u := after.sessions[id].user;
      var r :| r in after.users[u].roles;
      assert r in after.roles && after.roles[r].active;
    }
  }

  // ---------- who loses sessions, and who does not ----------

  /** The user a call on administrators or passwords is about. */
  function Target(c: Call): Option<UserId> {
    match c
    case CallUpdateUser(_, u, _) => Some(u)
    case CallSetUserEnabled(_, u, _) => Some(u)
    case CallResetPassword(u, _) => Some(u)
    case CallChangePassword(u, _, _, _) => Some(u)
    case CallRevokeSession(u, _, _) => Some(u)
    case CallLogoutAll(u, _) => Some(u)
    case _ => None
  }

  /** A call about one user leaves everybody else and their sessions alone. */
  lemma OthersAreLeftAlone(db: Database, c: Call, u: UserId, id: SessionId)
    requires Target(c).Some? && Target(c) != Some(u)
    requires id in db.sessions && db.sessions[id].user == u
    ensures id in Apply(db, c).sessions && Apply(db, c).sessions[id] == db.sessions[id]
    ensures u in db.users <==> u in Apply(db, c).users
    ensures u in db.users ==> Apply(db, c).users[u] == db.users[u]
  {
    hide RolesError, Taken, AnotherEnabledSuperAdmin, PermissionsOf;
  }

  /** A role call leaves alone the sessions of users who do not have the role. */
  lemma RoleCallsReachOnlyHolders(db: Database, c: Call, id: SessionId)
    requires (c.CallUpdateRole? || c.CallSetRoleEnabled?) && id in db.sessions
    requires db.sessions[id].user in db.users && c.role !in db.users[db.sessions[id].user].roles
    ensures Apply(db, c).users == db.users
    ensures id in Apply(db, c).sessions && Apply(db, c).sessions[id] == db.sessions[id]
  {
    hide NameTaken, PermissionsOf;
  }

  /** When a user's password changes, by a reset or by the user, no session of the user that could still be used
      survives. */
  lemma PasswordChangesEndSessions(db: Database, c: Call, u: UserId, id: SessionId)
    requires u in db.users && u in Apply(db, c).users && Apply(db, c).users[u].password != db.users[u].password
    requires id in Apply(db, c).sessions && Apply(db, c).sessions[id].user == u
    ensures Apply(db, c).sessions[id].revoked
            || (c.CallChangePassword? && Apply(db, c).sessions[id].expiresAt <= c.now)
  {
    hide RolesError, Taken, AnotherEnabledSuperAdmin, PermissionsOf, NameTaken, CodeTaken;
  }

  /** Administrators can neither disable themselves nor give up their own super_admin role. */
  lemma NobodyRemovesThemselves(db: Database, c: Call, super: RoleId)
    requires c.CallUpdateUser? || c.CallSetUserEnabled?
    requires c.actor == c.user && c.user in db.users && db.users[c.user].active && SuperRole(db.roles) == Some(super)
    ensures Apply(db, c).users[c.user].active
    ensures super in db.users[c.user].roles ==> super in Apply(db, c).users[c.user].roles
  {
    hide RolesError, Taken, AnotherEnabledSuperAdmin, PermissionsOf;
  }

  // ---------- why assigned roles have to be active ----------

  /** Enabling a role revokes no session. It leaves the sessions fresh exactly when no unrevoked session's user holds
      the role without having all its permissions from other active roles. */
  lemma EnablingIsHarmlessExactlyWhen(db: Database, r: RoleId)
    requires SessionsAreFresh(db) && r in db.roles && !db.roles[r].active
    ensures SessionsAreFresh(Apply(db, CallSetRoleEnabled(r, true)))
            <==> forall id ::
                   id in db.sessions && !db.sessions[id].revoked && r in db.users[db.sessions[id].user].roles ==>
                   db.roles[r].permissions <= PermissionsOf(db.roles, db.users[db.sessions[id].user].roles)
  {
    var after := Apply(db, CallSetRoleEnabled(r, true));
    forall id | id in db.sessions && !db.sessions[id].revoked
      ensures FreshSession(after, db.sessions[id])
              <==> (r in db.users[db.sessions[id].user].roles ==>
                      db.roles[r].permissions <= PermissionsOf(db.roles, db.users[db.sessions[id].user].roles))
    {
      assert FreshSession(db, db.sessions[id]);
      EnabledPermissions(db.roles, r, db.users[db.sessions[id].user].roles);
    }
  }

  lemma EnabledPermissions(roles: map<RoleId, Role>, r: RoleId, ids: set<RoleId>)
    requires r in roles && !roles[r].active
    ensures PermissionsOf(roles[r := roles[r].(active := true)], ids)
            == PermissionsOf(roles, ids) + if r in ids then roles[r].permissions else {}
  {
    var after := roles[r := roles[r].(active := true)];
    forall p ensures p in PermissionsOf(after, ids)
                     <==> p in PermissionsOf(roles, ids) || (r in ids && p in roles[r].permissions)
    {
      if p in PermissionsOf(roles, ids) {
        var q :| q in ids && q in roles && roles[q].active && p in roles[q].permissions;
        assert q in after && after[q] == roles[q];
      }
      if r in ids && p in roles[r].permissions {
        assert r in after && after[r].active && p in after[r].permissions;
      }
    }
  }

  /** With a disabled role still assigned, enabling it would widen what a session may do after its login. */
  lemma AssignedRolesHaveToBeActive() returns (db: Database, r: RoleId)
    ensures SessionsAreFresh(db) && !RolesAreActive(db)
    ensures !SessionsAreFresh(Apply(db, CallSetRoleEnabled(r, true)))
  {
    r := 1;
    var reader := Role(Custom(1), RoleName(1, 1, false), None, true, {ROLE_READ});
    var manager := Role(Custom(2), RoleName(2, 2, false), None, false, {ROLE_MANAGE});
    var user := User(1, 1, 1, true, {0, 1});
    db := Database(map[5 := user], map[0 := reader, 1 := manager], map[9 := Session(5, 100, false, {ROLE_READ})], {});
    assert PermissionsOf(db.roles, user.roles) == {ROLE_READ} by {
      assert 0 in user.roles && ROLE_READ in db.roles[0].permissions;
    }
    EnablingIsHarmlessExactlyWhen(db, r);
    assert ROLE_MANAGE in db.roles[r].permissions && ROLE_MANAGE !in PermissionsOf(db.roles, user.roles);
    assert 9 in db.sessions && r in db.users[db.sessions[9].user].roles;
  }
}
