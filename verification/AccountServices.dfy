/** The three services that write users, roles and sessions, and the guard that reads them.

    Each method is one transaction: it serves its call, on an error nothing it wrote remains, and it keeps good tables
    good. `EndsOnly` says which sessions' requests the guard refuses afterwards; it answers all others as before. */
module AccountServices {
  import opened Wrappers
  import opened CommonTypes
  import opened Accounts
  import opened AccountSafety
  import opened AccountRequests
  import opened AccountUpdates

  class AccountTables {
    var users: map<UserId, User>
    var roles: map<RoleId, Role>
    var sessions: map<SessionId, Session>
    const catalogue: set<Permission>

    function State(): Database
      reads this
    {
      Database(users, roles, sessions, catalogue)
    }

    constructor (db: Database)
      ensures State() == db
    {
      users, roles, sessions, catalogue := db.users, db.roles, db.sessions, db.catalogue;
    }
  }

  class AdminUsersService {
    const tables: AccountTables

    constructor (tables: AccountTables)
      ensures this.tables == tables
    {
      this.tables := tables;
    }

    method RequireActiveRoles(ids: seq<RoleId>) returns (error: Option<AccountError>)
      ensures error == RolesError(tables.roles, ids)
    {
      for i := 0 to |ids|
        invariant forall k :: 0 <= k < i ==> ids[k] in tables.roles
      {
        if ids[i] !in tables.roles {
          return Some(ValidationError);
        }
      }
      for i := 0 to |ids|
        invariant forall k :: 0 <= k < i ==> tables.roles[ids[k]].active
      {
        if !tables.roles[ids[i]].active {
          return Some(ConflictError);
        }
      }
      return None;
    }

    method Create(id: UserId, input: CreateUserInput) returns (error: Option<AccountError>)
      modifies tables`users
      ensures Served(old(tables.State()), CallCreateUser(id, input), tables.State(), error)
      ensures error.None? ==> Stored(old(tables.State()), CallCreateUser(id, input), tables.State())
      ensures Good(old(tables.State())) ==>
                && Good(tables.State())
                && EndsOnly(old(tables.State()), tables.State(), {}, None)
    {
      if input.username.None? || input.email.None? || input.password.None? || !RoleIdsValid(input.roleIds) {
        return Some(ValidationError);
      }
      error := RequireActiveRoles(input.roleIds);
      if error.Some? {
        return;
      }
      var user := User(input.username.value, input.email.value, input.password.value, input.active,
                       Members(input.roleIds));
      if id in tables.users || Taken(tables.users, id, user) {
        return Some(DuplicateResource);
      }
      tables.users := tables.users[id := user];
      CallsStoreTheirInput(old(tables.State()), CallCreateUser(id, input));
      if Good(old(tables.State())) {
        ServingIsSafe(old(tables.State()), CallCreateUser(id, input), tables.State(), None);
      }
    }

    method Update(actor: UserId, id: UserId, input: UpdateUserInput) returns (error: Option<AccountError>)
      modifies tables`users, tables`sessions
      ensures Served(old(tables.State()), CallUpdateUser(actor, id, input), tables.State(), error)
      ensures error.None? ==> Stored(old(tables.State()), CallUpdateUser(actor, id, input), tables.State())
      ensures Good(old(tables.State())) ==>
                && Good(tables.State())
                && EndsOnly(old(tables.State()), tables.State(),
                            if error.None? && ChangesAccess(old(tables.users)[id], tables.users[id])
                            then SessionsOf(old(tables.State()), id) else {}, None)
    {
      hide RolesError, Taken, AnotherEnabledSuperAdmin, SuperRole, RoleIdsValid, UpdatedUser, RevokedSessions, OfUser,
           Guard, Good;
      if input.email.None? && input.roleIds.None? && input.active.None? {
        return Some(ValidationError);
      }
      if input.roleIds.Some? && !RoleIdsValid(input.roleIds.value) {
        return Some(ValidationError);
      }
      if id !in tables.users {
        return Some(NotFound);
      }
      if input.roleIds.Some? {
        error := RequireActiveRoles(input.roleIds.value);
        if error.Some? {
          return;
        }
      }
      var before, after := tables.users[id], UpdatedUser(tables.users[id], input);
      var superRole := SuperRole(tables.roles);
      if superRole.None? {
        return Some(ConflictError);
      }
      var currentlySuper := superRole.value in before.roles;
      var remainsSuper := superRole.value in after.roles;
      if actor == id && (!after.active || (currentlySuper && !remainsSuper)) {
        return Some(ConflictError);
      }
      if before.active && currentlySuper && !(after.active && remainsSuper) {
        if !AnotherEnabledSuperAdmin(tables.State(), id, superRole.value) {
          return Some(ConflictError);
        }
      }
      if Taken(tables.users, id, after) {
        return Some(DuplicateResource);
      }
      var rollback := tables.users;
      tables.users := tables.users[id := after];
      if after == before {
        tables.users := rollback;
        return Some(ConflictError);
      }
      if after.roles != before.roles || (before.active && !after.active) {
        tables.sessions := RevokedSessions(tables.sessions, OfUser(id));
      }
      CallsStoreTheirInput(old(tables.State()), CallUpdateUser(actor, id, input));
      if Good(old(tables.State())) {
        ServingIsSafe(old(tables.State()), CallUpdateUser(actor, id, input), tables.State(), None);
      }
      return None;
    }

    method SetEnabled(actor: UserId, id: UserId, enabled: bool) returns (error: Option<AccountError>)
      modifies tables`users, tables`sessions
      ensures Served(old(tables.State()), CallSetUserEnabled(actor, id, enabled), tables.State(), error)
      ensures error.None? ==> Stored(old(tables.State()), CallSetUserEnabled(actor, id, enabled), tables.State())
      ensures Good(old(tables.State())) ==>
                && Good(tables.State())
                && EndsOnly(old(tables.State()), tables.State(),
                            if error.None? && !enabled then SessionsOf(old(tables.State()), id) else {}, None)
    {
      if id !in tables.users {
        return Some(NotFound);
      }
      if tables.users[id].active == enabled || (!enabled && actor == id) {
        return Some(ConflictError);
      }
      var superRole := SuperRole(tables.roles);
      if superRole.None? {
        return Some(ConflictError);
      }
      if !enabled && superRole.value in tables.users[id].roles {
        if !AnotherEnabledSuperAdmin(tables.State(), id, superRole.value) {
          return Some(ConflictError);
        }
      }
      tables.users := tables.users[id := tables.users[id].(active := enabled)];
      if !enabled {
        tables.sessions := RevokedSessions(tables.sessions, OfUser(id));
      }
      CallsStoreTheirInput(old(tables.State()), CallSetUserEnabled(actor, id, enabled));
      if Good(old(tables.State())) {
        ServingIsSafe(old(tables.State()), CallSetUserEnabled(actor, id, enabled), tables.State(), None);
      }
      return None;
    }

    method Reset(id: UserId, password: Option<Text>) returns (error: Option<AccountError>)
      modifies tables`users, tables`sessions
      ensures Served(old(tables.State()), CallResetPassword(id, password), tables.State(), error)
      ensures error.None? ==> Stored(old(tables.State()), CallResetPassword(id, password), tables.State())
      ensures Good(old(tables.State())) ==>
                && Good(tables.State())
                && EndsOnly(old(tables.State()), tables.State(),
                            if error.None? then SessionsOf(old(tables.State()), id) else {}, None)
    {
      if password.None? {
        return Some(ValidationError);
      }
      if id !in tables.users {
        return Some(NotFound);
      }
      tables.users := tables.users[id := tables.users[id].(password := password.value)];
      tables.sessions := RevokedSessions(tables.sessions, OfUser(id));
      CallsStoreTheirInput(old(tables.State()), CallResetPassword(id, password));
      if Good(old(tables.State())) {
        ServingIsSafe(old(tables.State()), CallResetPassword(id, password), tables.State(), None);
      }
      return None;
    }
  }

  class RolesService {
    const tables: AccountTables

    constructor (tables: AccountTables)
      ensures this.tables == tables
    {
      this.tables := tables;
    }

    method Create(id: RoleId, input: CreateRoleInput) returns (error: Option<AccountError>)
      modifies tables`roles
      ensures Served(old(tables.State()), CallCreateRole(id, input), tables.State(), error)
      ensures error.None? ==> Stored(old(tables.State()), CallCreateRole(id, input), tables.State())
      ensures Good(old(tables.State())) ==>
                && Good(tables.State())
                && EndsOnly(old(tables.State()), tables.State(), {}, None)
    {
      if input.name.None? || input.name.value.reserved || !PermissionIdsValid(input.permissions) {
        return Some(ValidationError);
      }
      if NameTaken(tables.roles, id, input.name.value) {
        return Some(DuplicateResource);
      }
      if !(Members(input.permissions) <= tables.catalogue) {
        return Some(ValidationError);
      }
      var code := Custom(input.name.value.folded);
      if id in tables.roles || CodeTaken(tables.roles, code) {
        return Some(DuplicateResource);
      }
      tables.roles := tables.roles[id := Role(code, input.name.value, input.description, input.active,
                                              Members(input.permissions))];
      CallsStoreTheirInput(old(tables.State()), CallCreateRole(id, input));
      if Good(old(tables.State())) {
        ServingIsSafe(old(tables.State()), CallCreateRole(id, input), tables.State(), None);
      }
      return None;
    }

    method Update(id: RoleId, input: UpdateRoleInput) returns (error: Option<AccountError>)
      modifies tables`roles, tables`sessions
      ensures Served(old(tables.State()), CallUpdateRole(id, input), tables.State(), error)
      ensures error.None? ==> Stored(old(tables.State()), CallUpdateRole(id, input), tables.State())
      ensures Good(old(tables.State())) ==>
                && Good(tables.State())
                && EndsOnly(old(tables.State()), tables.State(),
                            if error.None? && tables.roles[id].permissions != old(tables.roles)[id].permissions
                            then SessionsOfHolders(old(tables.State()), id) else {}, None)
    {
      hide NameTaken, Assigned, PermissionIdsValid, UpdatedRole, RevokedSessions, OfRole;
      if input.name.None? && input.description.None? && input.active.None? && input.permissions.None? {
        return Some(ValidationError);
      }
      if input.permissions.Some? && !PermissionIdsValid(input.permissions.value) {
        return Some(ValidationError);
      }
      if id !in tables.roles {
        return Some(NotFound);
      }
      var before, after := tables.roles[id], UpdatedRole(tables.roles[id], input);
      if after.name != before.name {
        if after.name.reserved {
          return Some(ValidationError);
        }
        if NameTaken(tables.roles, id, after.name) {
          return Some(DuplicateResource);
        }
      }
      if before.code.SuperAdmin? && input.active == Some(false) {
        return Some(ConflictError);
      }
      if input.active == Some(false) && before.active && Assigned(tables.users, id) {
        return Some(ConflictError);
      }
      if input.permissions.Some? {
        if !(after.permissions <= tables.catalogue) {
          return Some(ValidationError);
        }
        if before.code.SuperAdmin? && !(CORE_SUPER_PERMISSIONS <= after.permissions) {
          return Some(ConflictError);
        }
      }
      if after == before {
        return Some(ConflictError);
      }
      if after.permissions != before.permissions {
        tables.sessions := RevokedSessions(tables.sessions, OfRole(tables.users, id));
      }
      tables.roles := tables.roles[id := after];
      CallsStoreTheirInput(old(tables.State()), CallUpdateRole(id, input));
      if Good(old(tables.State())) {
        ServingIsSafe(old(tables.State()), CallUpdateRole(id, input), tables.State(), None);
      }
      return None;
    }

    method SetEnabled(id: RoleId, enabled: bool) returns (error: Option<AccountError>)
      modifies tables`roles, tables`sessions
      ensures Served(old(tables.State()), CallSetRoleEnabled(id, enabled), tables.State(), error)
      ensures error.None? ==> Stored(old(tables.State()), CallSetRoleEnabled(id, enabled), tables.State())
      ensures Good(old(tables.State())) ==>
                && Good(tables.State())
                && EndsOnly(old(tables.State()), tables.State(), {}, None)
    {
      if id !in tables.roles {
        return Some(NotFound);
      }
      if !enabled && (tables.roles[id].code.SuperAdmin? || Assigned(tables.users, id)) {
        return Some(ConflictError);
      }
      if tables.roles[id].active == enabled {
        return Some(ConflictError);
      }
      tables.roles := tables.roles[id := tables.roles[id].(active := enabled)];
      if !enabled {
        tables.sessions := RevokedSessions(tables.sessions, OfRole(tables.users, id));
      }
      CallsStoreTheirInput(old(tables.State()), CallSetRoleEnabled(id, enabled));
      if Good(old(tables.State())) {
        ServingIsSafe(old(tables.State()), CallSetRoleEnabled(id, enabled), tables.State(), None);
      }
      return None;
    }
  }

  class AuthService {
    const tables: AccountTables

    constructor (tables: AccountTables)
      ensures this.tables == tables
    {
      this.tables := tables;
    }

    method CanActivate(id: SessionId, now: Instant) returns (r: Result<set<Permission>, AccountError>)
      ensures r == Guard(tables.State(), id, now)
      ensures r.Success? <==>
                && id in tables.sessions && !tables.sessions[id].revoked && now < tables.sessions[id].expiresAt
                && var u := tables.sessions[id].user;
                   && u in tables.users && tables.users[u].active
                   && exists x :: x in tables.users[u].roles && x in tables.roles && tables.roles[x].active
      ensures r.Success? ==>
                forall p :: p in r.value <==>
                  exists x :: && x in tables.users[tables.sessions[id].user].roles && x in tables.roles
                              && tables.roles[x].active && p in tables.roles[x].permissions
    {
      if id !in tables.sessions || tables.sessions[id].revoked || tables.sessions[id].expiresAt <= now {
        return Failure(Unauthorized);
      }
      var u := tables.sessions[id].user;
      if u !in tables.users || !tables.users[u].active {
        return Failure(Unauthorized);
      }
      var activeRoles := set r | r in tables.users[u].roles && r in tables.roles && tables.roles[r].active;
      assert forall r :: r in tables.users[u].roles && r in tables.roles && tables.roles[r].active ==> r in activeRoles;
      if activeRoles == {} {
        return Failure(Unauthorized);
      }
      var permissions := set r, p | r in activeRoles && p in tables.roles[r].permissions :: p;
      assert permissions == PermissionsOf(tables.roles, tables.users[u].roles);
      return Success(permissions);
    }

    method LogIn(id: SessionId, username: Text, password: Text, expiresAt: Instant)
      returns (r: Result<set<Permission>, AccountError>)
      modifies tables`sessions
      ensures match Login(old(tables.State()), id, username, password, expiresAt)
              case Success(db) => r == Success(db.sessions[id].granted) && tables.State() == db
              case Failure(e) => r == Failure(e) && tables.State() == old(tables.State())
      ensures Good(old(tables.State())) ==> Good(tables.State())
      ensures r.Success? ==>
                && id in tables.sessions && tables.sessions[id].user in tables.users
                && var u := tables.users[tables.sessions[id].user];
                   && u.username == username && u.password == password && u.active
                   && forall p :: p in r.value <==>
                        exists x :: && x in u.roles && x in tables.roles
                                    && tables.roles[x].active && p in tables.roles[x].permissions
      ensures r.Success? ==> forall now :: now < expiresAt ==> Guard(tables.State(), id, now) == r
      ensures forall s, now | s != id :: Guard(tables.State(), s, now) == Guard(old(tables.State()), s, now)
    {
      hide PermissionsOf, Good, HasActiveRole;
      var found := UserNamed(tables.users, username);
      if found.None? {
        return Failure(Unauthorized);
      }
      var user := tables.users[found.value];
      if user.password != password || !user.active || !HasActiveRole(tables.roles, user.roles) {
        return Failure(Unauthorized);
      }
      if id in tables.sessions {
        return Failure(DuplicateResource);
      }
      var granted := PermissionsOf(tables.roles, user.roles);
      tables.sessions := tables.sessions[id := Session(found.value, expiresAt, false, granted)];
      LoginGrantsTheRoles(old(tables.State()), id, username, password, expiresAt);
      ghost var c := CallLogin(id, username, password, expiresAt);
      if Good(old(tables.State())) {
        ApplyKeepsGood(old(tables.State()), c);
      }
      forall s, now ensures s != id ==> Guard(tables.State(), s, now) == Guard(old(tables.State()), s, now)
                    ensures now < expiresAt ==> Guard(tables.State(), id, now) == Success(granted)
      {
        LoginsAddOneSession(old(tables.State()), c, s, now);
      }
      return Success(granted);
    }

    method LogOut(id: SessionId)
      modifies tables`sessions
      ensures tables.State() == Logout(old(tables.State()), id)
      ensures EndsOnly(old(tables.State()), tables.State(), {id}, None)
    {
      if id in tables.sessions && !tables.sessions[id].revoked {
        tables.sessions := tables.sessions[id := tables.sessions[id].(revoked := true)];
      }
      assert forall s :: s in tables.sessions ==> tables.sessions[s] == Logout(old(tables.State()), id).sessions[s];
      SessionCallsEndOnlyTheirs(old(tables.State()), CallLogout(id));
    }

    method Change(actor: UserId, current: Text, next: Option<Text>, now: Instant) returns (error: Option<AccountError>)
      modifies tables`users, tables`sessions
      ensures Served(old(tables.State()), CallChangePassword(actor, current, next, now), tables.State(), error)
      ensures error.None? ==> Stored(old(tables.State()), CallChangePassword(actor, current, next, now), tables.State())
      ensures Good(old(tables.State())) ==>
                && Good(tables.State())
                && EndsOnly(old(tables.State()), tables.State(),
                            if error.None? then SessionsOf(old(tables.State()), actor) else {}, Some(now))
    {
      if next.None? {
        return Some(ValidationError);
      }
      if actor !in tables.users || tables.users[actor].password != current {
        return Some(Unauthorized);
      }
      if next.value == current {
        return Some(ValidationError);
      }
      tables.users := tables.users[actor := tables.users[actor].(password := next.value)];
      tables.sessions := RevokedSessions(tables.sessions, LiveOfUser(actor, now));
      CallsStoreTheirInput(old(tables.State()), CallChangePassword(actor, current, next, now));
      if Good(old(tables.State())) {
        ServingIsSafe(old(tables.State()), CallChangePassword(actor, current, next, now), tables.State(), None);
      }
      return None;
    }

    method Revoke(actor: UserId, id: SessionId, now: Instant) returns (error: Option<AccountError>)
      modifies tables`sessions
      ensures Served(old(tables.State()), CallRevokeSession(actor, id, now), tables.State(), error)
      ensures EndsOnly(old(tables.State()), tables.State(), if error.None? then {id} else {}, Some(now))
      ensures error.Some? <==>
                id in tables.sessions && tables.sessions[id].user != actor && Live(tables.sessions[id], now)
    {
      SessionCallsEndOnlyTheirs(old(tables.State()), CallRevokeSession(actor, id, now));
      if id !in tables.sessions || !Live(tables.sessions[id], now) {
        return None;
      }
      if tables.sessions[id].user != actor {
        return Some(PermissionDenied);
      }
      tables.sessions := tables.sessions[id := tables.sessions[id].(revoked := true)];
      return None;
    }

    method LogOutAll(actor: UserId, now: Instant)
      modifies tables`sessions
      ensures tables.State() == LogoutAll(old(tables.State()), actor, now)
      ensures EndsOnly(old(tables.State()), tables.State(), SessionsOf(old(tables.State()), actor), Some(now))
    {
      SessionCallsEndOnlyTheirs(old(tables.State()), CallLogoutAll(actor, now));
      tables.sessions := RevokedSessions(tables.sessions, LiveOfUser(actor, now));
    }
  }
}
