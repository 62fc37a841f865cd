/** Administrators, roles and sessions: what each service call does to the tables. Every call is one atomic step. */
module Accounts {
  import opened Wrappers
  import opened CommonTypes
  import P = Postings

  type UserId = nat
  type RoleId = nat
  type SessionId = nat
  type Permission = nat
  type Text = nat

  const ROLE_READ: Permission := 0
  const ROLE_MANAGE: Permission := 1
  const ADMIN_USERS_READ: Permission := 2
  const ADMIN_USERS_MANAGE: Permission := 3
  const CORE_SUPER_PERMISSIONS: set<Permission> := {ROLE_READ, ROLE_MANAGE, ADMIN_USERS_READ, ADMIN_USERS_MANAGE}

  /** A role name, its case-folded form, and whether that reads super_admin. */
  datatype RoleName = RoleName(text: Text, folded: Text, reserved: bool)

  /** Codes of created roles are digests of their folded names. */
  datatype RoleCode = SuperAdmin | Custom(folded: Text)

  datatype Role = Role(code: RoleCode, name: RoleName, description: Option<Text>, active: bool,
                       permissions: set<Permission>)
  datatype User = User(username: Text, email: Text, password: Text, active: bool, roles: set<RoleId>)

  /** `granted` is the permission set the login handed out; the table has no such column. */
  datatype Session = Session(user: UserId, expiresAt: Instant, revoked: bool, granted: set<Permission>)

  datatype Database = Database(users: map<UserId, User>, roles: map<RoleId, Role>, sessions: map<SessionId, Session>,
                               catalogue: set<Permission>)

  datatype AccountError =
    NotFound | ValidationError | ConflictError | DuplicateResource | Unauthorized | PermissionDenied

  // ---------- reading ----------

  /** The permissions of the active ones among these roles. */
  function PermissionsOf(roles: map<RoleId, Role>, ids: set<RoleId>): set<Permission> {
    set r, p | r in ids && r in roles && roles[r].active && p in roles[r].permissions :: p
  }

  predicate HasActiveRole(roles: map<RoleId, Role>, ids: set<RoleId>) {
    exists r :: r in ids && r in roles && roles[r].active
  }

  predicate Live(s: Session, now: Instant) {
    !s.revoked && s.expiresAt > now
  }

  /** `canActivate`: the permission set of a request that carries the session's token. */
  function Guard(db: Database, id: SessionId, now: Instant): Result<set<Permission>, AccountError> {
    if id !in db.sessions || !Live(db.sessions[id], now) then Failure(Unauthorized)
    else
      var u := db.sessions[id].user;
      if u !in db.users || !db.users[u].active || !HasActiveRole(db.roles, db.users[u].roles) then Failure(Unauthorized)
      else Success(PermissionsOf(db.roles, db.users[u].roles))
  }

  function SuperRole(roles: map<RoleId, Role>): (r: Option<RoleId>)
    ensures r.Some? ==> r.value in roles && roles[r.value].code.SuperAdmin?
    ensures r.None? ==> forall id :: id in roles ==> !roles[id].code.SuperAdmin?
  {
    var ids := set id | id in roles && roles[id].code.SuperAdmin?;
    assert forall id :: id in roles && roles[id].code.SuperAdmin? ==> id in ids;
    if ids == {} then None else Some(P.Least(ids, 0))
  }

  predicate NoRepeats(ids: seq<nat>) {
    forall i, j :: 0 <= i < j < |ids| ==> ids[i] != ids[j]
  }

  function Members(ids: seq<nat>): set<nat> {
    set id | id in ids
  }

  // ---------- sessions ----------

  function RevokedSessions(sessions: map<SessionId, Session>, which: Session -> bool): map<SessionId, Session> {
    map id | id in sessions :: if which(sessions[id]) then sessions[id].(revoked := true) else sessions[id]
  }

  function OfUser(u: UserId): Session -> bool {
    (s: Session) => s.user == u
  }

  function LiveOfUser(u: UserId, now: Instant): Session -> bool {
    (s: Session) => s.user == u && Live(s, now)
  }

  function OfRole(users: map<UserId, User>, r: RoleId): Session -> bool {
    (s: Session) => s.user in users && r in users[s.user].roles
  }

  // ---------- administrators ----------

  datatype CreateUserInput = CreateUserInput(username: Option<Text>, email: Option<Text>, password: Option<Text>,
                                             roleIds: seq<RoleId>, active: bool)

  /** The error of `requireActiveRoles`, if any. */
  function RolesError(roles: map<RoleId, Role>, ids: seq<RoleId>): Option<AccountError> {
    if exists r :: r in ids && r !in roles then Some(ValidationError)
    else if exists r :: r in ids && !roles[r].active then Some(ConflictError)
    else None
  }

  predicate RoleIdsValid(ids: seq<RoleId>) {
    ids != [] && NoRepeats(ids)
  }

  predicate Taken(users: map<UserId, User>, id: UserId, u: User) {
    exists o :: o in users && o != id && (users[o].username == u.username || users[o].email == u.email)
  }

  function CreateUser(db: Database, id: UserId, input: CreateUserInput): Result<Database, AccountError> {
    if input.username.None? || input.email.None? || input.password.None? || !RoleIdsValid(input.roleIds) then
      Failure(ValidationError)
    else if RolesError(db.roles, input.roleIds).Some? then Failure(RolesError(db.roles, input.roleIds).value)
    else
      var u := User(input.username.value, input.email.value, input.password.value, input.active,
                    Members(input.roleIds));
      if id in db.users || Taken(db.users, id, u) then Failure(DuplicateResource)
      else Success(db.(users := db.users[id := u]))
  }

  predicate AnotherEnabledSuperAdmin(db: Database, excluded: UserId, super: RoleId) {
    exists u :: u in db.users && u != excluded && db.users[u].active && super in db.users[u].roles
                && super in db.roles && db.roles[super].active
  }

  datatype UpdateUserInput = UpdateUserInput(email: Option<Text>, roleIds: Option<seq<RoleId>>, active: Option<bool>)

  function UpdatedUser(u: User, input: UpdateUserInput): User {
    u.(email := if input.email.Some? then input.email.value else u.email,
       active := if input.active.Some? then input.active.value else u.active,
       roles := if input.roleIds.Some? then Members(input.roleIds.value) else u.roles)
  }

  predicate LosesSuper(u: User, after: User, super: RoleId) {
    u.active && super in u.roles && !(after.active && super in after.roles)
  }

  function UpdateUser(db: Database, actor: UserId, id: UserId, input: UpdateUserInput): Result<Database, AccountError> {
    if input == UpdateUserInput(None, None, None) then Failure(ValidationError)
    else if input.roleIds.Some? && !RoleIdsValid(input.roleIds.value) then Failure(ValidationError)
    else if id !in db.users then Failure(NotFound)
    else if input.roleIds.Some? && RolesError(db.roles, input.roleIds.value).Some? then
      Failure(RolesError(db.roles, input.roleIds.value).value)
    else if SuperRole(db.roles).None? then Failure(ConflictError)
    else
      var super := SuperRole(db.roles).value;
      var u := db.users[id];
      var after := UpdatedUser(u, input);
      if actor == id && (!after.active || (super in u.roles && super !in after.roles)) then Failure(ConflictError)
      else if LosesSuper(u, after, super) && !AnotherEnabledSuperAdmin(db, id, super) then Failure(ConflictError)
      else if Taken(db.users, id, after) then Failure(DuplicateResource)
      else if after == u then Failure(ConflictError)
      else
        var sessions := if after.roles != u.roles || (u.active && !after.active)
                        then RevokedSessions(db.sessions, OfUser(id)) else db.sessions;
        Success(db.(users := db.users[id := after], sessions := sessions))
  }

  function SetUserEnabled(db: Database, actor: UserId, id: UserId, enabled: bool): Result<Database, AccountError> {
    if id !in db.users then Failure(NotFound)
    else if db.users[id].active == enabled then Failure(ConflictError)
    else if !enabled && actor == id then Failure(ConflictError)
    else if SuperRole(db.roles).None? then Failure(ConflictError)
    else
      var super := SuperRole(db.roles).value;
      if !enabled && super in db.users[id].roles && !AnotherEnabledSuperAdmin(db, id, super) then Failure(ConflictError)
      else
        Success(db.(users := db.users[id := db.users[id].(active := enabled)],
                    sessions := if enabled then db.sessions else RevokedSessions(db.sessions, OfUser(id))))
  }

  function ResetPassword(db: Database, id: UserId, password: Option<Text>): Result<Database, AccountError> {
    if password.None? then Failure(ValidationError)
    else if id !in db.users then Failure(NotFound)
    else
      Success(db.(users := db.users[id := db.users[id].(password := password.value)],
                  sessions := RevokedSessions(db.sessions, OfUser(id))))
  }

  // ---------- roles ----------

  datatype CreateRoleInput = CreateRoleInput(name: Option<RoleName>, description: Option<Text>, active: bool,
                                             permissions: seq<Permission>)
  datatype UpdateRoleInput = UpdateRoleInput(name: Option<RoleName>, description: Option<Option<Text>>,
                                             active: Option<bool>, permissions: Option<seq<Permission>>)

  predicate NameTaken(roles: map<RoleId, Role>, id: RoleId, name: RoleName) {
    exists r :: r in roles && r != id && roles[r].name.folded == name.folded
  }

  predicate CodeTaken(roles: map<RoleId, Role>, code: RoleCode) {
    exists r :: r in roles && roles[r].code == code
  }

  predicate PermissionIdsValid(ids: seq<Permission>) {
    ids != [] && |ids| <= 500 && NoRepeats(ids)
  }

  function CreateRole(db: Database, id: RoleId, input: CreateRoleInput): Result<Database, AccountError> {
    if input.name.None? || input.name.value.reserved || !PermissionIdsValid(input.permissions) then
      Failure(ValidationError)
    else if NameTaken(db.roles, id, input.name.value) then Failure(DuplicateResource)
    else if !(Members(input.permissions) <= db.catalogue) then Failure(ValidationError)
    else
      var code := Custom(input.name.value.folded);
      if id in db.roles || CodeTaken(db.roles, code) then Failure(DuplicateResource)
      else
        Success(db.(roles := db.roles[id := Role(code, input.name.value, input.description, input.active,
                                                 Members(input.permissions))]))
  }

  predicate Assigned(users: map<UserId, User>, r: RoleId) {
    exists u :: u in users && r in users[u].roles
  }

  function UpdatedRole(r: Role, input: UpdateRoleInput): Role {
    r.(name := if input.name.Some? then input.name.value else r.name,
       description := if input.description.Some? then input.description.value else r.description,
       active := if input.active.Some? then input.active.value else r.active,
       permissions := if input.permissions.Some? then Members(input.permissions.value) else r.permissions)
  }

  function UpdateRole(db: Database, id: RoleId, input: UpdateRoleInput): Result<Database, AccountError> {
    if input == UpdateRoleInput(None, None, None, None) then Failure(ValidationError)
    else if input.permissions.Some? && !PermissionIdsValid(input.permissions.value) then Failure(ValidationError)
    else if id !in db.roles then Failure(NotFound)
    else
      var r := db.roles[id];
      var after := UpdatedRole(r, input);
      if after.name != r.name && after.name.reserved then Failure(ValidationError)
      else if after.name != r.name && NameTaken(db.roles, id, after.name) then Failure(DuplicateResource)
      else if r.code.SuperAdmin? && input.active == Some(false) then Failure(ConflictError)
      else if input.active == Some(false) && r.active && Assigned(db.users, id) then Failure(ConflictError)
      else if input.permissions.Some? && !(after.permissions <= db.catalogue) then Failure(ValidationError)
      else if input.permissions.Some? && r.code.SuperAdmin? && !(CORE_SUPER_PERMISSIONS <= after.permissions) then
        Failure(ConflictError)
      else if after == r then Failure(ConflictError)
      else
        Success(db.(roles := db.roles[id := after],
                    sessions := if after.permissions == r.permissions then db.sessions
                                else RevokedSessions(db.sessions, OfRole(db.users, id))))
  }

  function SetRoleEnabled(db: Database, id: RoleId, enabled: bool): Result<Database, AccountError> {
    if id !in db.roles then Failure(NotFound)
    else if !enabled && db.roles[id].code.SuperAdmin? then Failure(ConflictError)
    else if !enabled && Assigned(db.users, id) then Failure(ConflictError)
    else if db.roles[id].active == enabled then Failure(ConflictError)
    else
      Success(db.(roles := db.roles[id := db.roles[id].(active := enabled)],
                  sessions := if enabled then db.sessions else RevokedSessions(db.sessions, OfRole(db.users, id))))
  }

  // ---------- sessions ----------

  predicate CredentialsFit(db: Database, u: UserId, username: Text, password: Text) {
    && u in db.users && db.users[u].username == username && db.users[u].password == password
    && db.users[u].active && HasActiveRole(db.roles, db.users[u].roles)
  }

  function UserNamed(users: map<UserId, User>, username: Text): (u: Option<UserId>)
    ensures u.Some? ==> u.value in users && users[u.value].username == username
    ensures u.None? ==> forall id :: id in users ==> users[id].username != username
  {
    var ids := set id | id in users && users[id].username == username;
    assert forall id :: id in users && users[id].username == username ==> id in ids;
    if ids == {} then None else Some(P.Least(ids, 0))
  }

  function Login(db: Database, id: SessionId, username: Text, password: Text, expiresAt: Instant)
    : Result<Database, AccountError>
  {
    var u := UserNamed(db.users, username);
    if u.None? || !CredentialsFit(db, u.value, username, password) then Failure(Unauthorized)
    else if id in db.sessions then Failure(DuplicateResource)
    else
      Success(db.(sessions := db.sessions[id := Session(u.value, expiresAt, false,
                                                        PermissionsOf(db.roles, db.users[u.value].roles))]))
  }

  function Logout(db: Database, id: SessionId): Database {
    if id in db.sessions then db.(sessions := db.sessions[id := db.sessions[id].(revoked := true)]) else db
  }

  function ChangePassword(db: Database, actor: UserId, current: Text, next: Option<Text>, now: Instant)
    : Result<Database, AccountError>
  {
    if next.None? then Failure(ValidationError)
    else if actor !in db.users || db.users[actor].password != current then Failure(Unauthorized)
    else if next.value == current then Failure(ValidationError)
    else
      Success(db.(users := db.users[actor := db.users[actor].(password := next.value)],
                  sessions := RevokedSessions(db.sessions, LiveOfUser(actor, now))))
  }

  function RevokeSession(db: Database, actor: UserId, id: SessionId, now: Instant): Result<Database, AccountError> {
    if id !in db.sessions then Success(db)
    else if db.sessions[id].user != actor && Live(db.sessions[id], now) then Failure(PermissionDenied)
    else if db.sessions[id].user == actor && Live(db.sessions[id], now) then
      Success(db.(sessions := db.sessions[id := db.sessions[id].(revoked := true)]))
    else Success(db)
  }

  function LogoutAll(db: Database, actor: UserId, now: Instant): Database {
    db.(sessions := RevokedSessions(db.sessions, LiveOfUser(actor, now)))
  }
}
