/** What a successful call stores, field by field, when an update succeeds, and the keys no call duplicates. */
module AccountUpdates {
  import opened Wrappers
  import opened CommonTypes
  import opened Accounts
  import opened AccountSafety
  import opened AccountRequests

  // ---------- what is stored ----------

  predicate Listed(roles: set<RoleId>, ids: seq<RoleId>) {
    (forall r :: r in roles ==> r in ids) && forall r :: r in ids ==> r in roles
  }

  /** Only this user's row may differ. */
  ghost predicate OtherUsersStay(before: Database, after: Database, u: UserId) {
    forall o :: o != u ==> (o in after.users <==> o in before.users)
                           && (o in before.users ==> after.users[o] == before.users[o])
  }

  ghost predicate OtherRolesStay(before: Database, after: Database, r: RoleId) {
    forall o :: o != r ==> (o in after.roles <==> o in before.roles)
                           && (o in before.roles ==> after.roles[o] == before.roles[o])
  }

  /** The fields given are stored, the others kept. */
  predicate UserFieldsStored(before: User, input: UpdateUserInput, after: User) {
    && after.username == before.username && after.password == before.password
    && after.email == (match input.email case Some(email) => email case None => before.email)
    && after.active == (match input.active case Some(active) => active case None => before.active)
    && (input.roleIds.Some? ==> Listed(after.roles, input.roleIds.value))
    && (input.roleIds.None? ==> after.roles == before.roles)
  }

  predicate RoleFieldsStored(before: Role, input: UpdateRoleInput, after: Role) {
    && after.code == before.code
    && after.name == (match input.name case Some(name) => name case None => before.name)
    && after.description == (match input.description case Some(text) => text case None => before.description)
    && after.active == (match input.active case Some(active) => active case None => before.active)
    && (input.permissions.Some? ==> Listed(after.permissions, input.permissions.value))
    && (input.permissions.None? ==> after.permissions == before.permissions)
  }

  /** What the call stores when it succeeds. */
  ghost predicate Stored(before: Database, c: Call, after: Database) {
    && after.catalogue == before.catalogue
    && match c
       case CallCreateUser(u, input) =>
         && u !in before.users && u in after.users && OtherUsersStay(before, after, u)
         && Some(after.users[u].username) == input.username && Some(after.users[u].email) == input.email
         && Some(after.users[u].password) == input.password && after.users[u].active == input.active
         && Listed(after.users[u].roles, input.roleIds) && after.roles == before.roles
       case CallUpdateUser(_, u, input) =>
         && u in before.users && u in after.users && OtherUsersStay(before, after, u)
         && UserFieldsStored(before.users[u], input, after.users[u]) && after.roles == before.roles
       case CallSetUserEnabled(_, u, enabled) =>
         && u in before.users && u in after.users && OtherUsersStay(before, after, u)
         && before.users[u].active != enabled && after.users[u].active == enabled
         && after.users[u].(active := before.users[u].active) == before.users[u] && after.roles == before.roles
       case CallCreateRole(r, input) =>
         && r !in before.roles && r in after.roles && OtherRolesStay(before, after, r)
         && Some(after.roles[r].name) == input.name && after.roles[r].description == input.description
         && after.roles[r].active == input.active && Listed(after.roles[r].permissions, input.permissions)
         && !after.roles[r].code.SuperAdmin? && after.users == before.users
       case CallUpdateRole(r, input) =>
         && r in before.roles && r in after.roles && OtherRolesStay(before, after, r)
         && RoleFieldsStored(before.roles[r], input, after.roles[r]) && after.users == before.users
       case CallSetRoleEnabled(r, enabled) =>
         && r in before.roles && r in after.roles && OtherRolesStay(before, after, r)
         && before.roles[r].active != enabled && after.roles[r].active == enabled
         && after.roles[r].(active := before.roles[r].active) == before.roles[r] && after.users == before.users
       case CallResetPassword(u, password) =>
         && u in before.users && u in after.users && OtherUsersStay(before, after, u)
         && Some(after.users[u].password) == password
         && after.users[u].(password := before.users[u].password) == before.users[u] && after.roles == before.roles
       case CallChangePassword(u, current, next, _) =>
         && u in before.users && u in after.users && OtherUsersStay(before, after, u)
         && before.users[u].password == current && Some(after.users[u].password) == next && next != Some(current)
         && after.users[u].(password := current) == before.users[u] && after.roles == before.roles
       case _ => after.users == before.users && after.roles == before.roles
  }

  /** Every successful call stores what it was given and changes no other row of users and roles. */
  lemma CallsStoreTheirInput(db: Database, c: Call)
    requires Outcome(db, c).Success?
    ensures Stored(db, c, Outcome(db, c).value)
  {
    hide RolesError, Taken, AnotherEnabledSuperAdmin, SuperRole, NameTaken, CodeTaken, Assigned, PermissionsOf,
         HasActiveRole, RevokedSessions;
  }

  // ---------- unique keys ----------

  /** No two users share a name or an email. */
  predicate UsersAreUnique(users: map<UserId, User>) {
    forall u, o :: u in users && o in users && u != o ==>
      users[u].username != users[o].username && users[u].email != users[o].email
  }

  /** No two roles share a folded name or a code, and every permission of a role is in the catalogue. */
  predicate RolesAreUnique(roles: map<RoleId, Role>, catalogue: set<Permission>) {
    && (forall r, q :: r in roles && q in roles && r != q ==>
          roles[r].name.folded != roles[q].name.folded && roles[r].code != roles[q].code)
    && forall r :: r in roles ==> roles[r].permissions <= catalogue
  }

  predicate KeysAreUnique(db: Database) {
    UsersAreUnique(db.users) && RolesAreUnique(db.roles, db.catalogue)
  }

  lemma ApplyKeepsKeysUnique(db: Database, c: Call)
    requires KeysAreUnique(db)
    ensures KeysAreUnique(Apply(db, c))
  {
    hide Apply, UsersAreUnique, RolesAreUnique;
    ApplyKeepsUsersUnique(db, c);
    ApplyKeepsRolesUnique(db, c);
  }

  lemma ApplyKeepsUsersUnique(db: Database, c: Call)
    requires KeysAreUnique(db)
    ensures UsersAreUnique(Apply(db, c).users)
  {
    hide RolesError, AnotherEnabledSuperAdmin, SuperRole, Assigned, PermissionsOf, HasActiveRole, RevokedSessions,
         RoleIdsValid, NameTaken, CodeTaken, UpdatedRole, PermissionIdsValid;
  }

  lemma ApplyKeepsRolesUnique(db: Database, c: Call)
    requires KeysAreUnique(db)
    ensures RolesAreUnique(Apply(db, c).roles, Apply(db, c).catalogue)
  {
    hide RolesError, AnotherEnabledSuperAdmin, SuperRole, Assigned, PermissionsOf, HasActiveRole, RevokedSessions,
         RoleIdsValid, Taken, UpdatedUser, PermissionIdsValid;
  }

  /** Over every sequence of calls. */
  lemma {:induction false} CallsKeepKeysUnique(db: Database, cs: seq<Call>)
    requires KeysAreUnique(db)
    ensures KeysAreUnique(After(db, cs))
    decreases |cs|
  {
    hide KeysAreUnique, Apply;
    if cs != [] {
      CallsKeepKeysUnique(db, cs[..|cs| - 1]);
      ApplyKeepsKeysUnique(After(db, cs[..|cs| - 1]), cs[|cs| - 1]);
    }
  }

  // ---------- when an update succeeds ----------

  /** The update leaves the user active with the given role. */
  predicate KeepsRole(u: User, input: UpdateUserInput, r: RoleId) {
    && (if input.active.Some? then input.active.value else u.active)
    && (if input.roleIds.Some? then r in input.roleIds.value else r in u.roles)
  }

  /** Something about the user differs from what is given. */
  predicate ChangesSomething(u: User, input: UpdateUserInput) {
    || (input.email.Some? && input.email.value != u.email)
    || (input.active.Some? && input.active.value != u.active)
    || (input.roleIds.Some? && !Listed(u.roles, input.roleIds.value))
  }

  /** Administrators may not disable themselves or give up their own super_admin role. */
  predicate SpareThemselves(u: User, input: UpdateUserInput, super: RoleId) {
    && (if input.active.Some? then input.active.value else u.active)
    && (super in u.roles && input.roleIds.Some? ==> super in input.roleIds.value)
  }

  /** An update succeeds exactly when the roles given are a list without repetition of active roles, something changes,
      the email is free, administrators spare themselves, and an enabled super_admin is left. */
  lemma UpdateSucceedsExactlyWhen(db: Database, actor: UserId, id: UserId, input: UpdateUserInput, super: RoleId)
    requires id in db.users && SuperRole(db.roles) == Some(super)
    ensures UpdateUser(db, actor, id, input).Success? <==>
              var u := db.users[id];
              && (input.roleIds.Some? ==>
                    && input.roleIds.value != [] && NoRepeats(input.roleIds.value)
                    && forall r :: r in input.roleIds.value ==> r in db.roles && db.roles[r].active)
              && ChangesSomething(u, input)
              && (forall o :: o in db.users && o != id ==>
                    db.users[o].username != u.username
                    && db.users[o].email != (if input.email.Some? then input.email.value else u.email))
              && (actor == id ==> SpareThemselves(u, input, super))
              && (u.active && super in u.roles && !KeepsRole(u, input, super) ==>
                    && super in db.roles && db.roles[super].active
                    && exists o :: o in db.users && o != id && db.users[o].active && super in db.users[o].roles)
  {
    hide NoRepeats, RevokedSessions, SuperRole;
    var u, after := db.users[id], UpdatedUser(db.users[id], input);
    if input.roleIds.Some? {
      ListedIsEqual(u.roles, input.roleIds.value);
    }
    assert after == u <==> !ChangesSomething(u, input);
    assert after.active && super in after.roles <==> KeepsRole(u, input, super);
  }

  /** The update gives some field another value. */
  predicate ChangesRole(r: Role, input: UpdateRoleInput) {
    || (input.name.Some? && input.name.value != r.name)
    || (input.description.Some? && input.description.value != r.description)
    || (input.active.Some? && input.active.value != r.active)
    || (input.permissions.Some? && !Listed(r.permissions, input.permissions.value))
  }

  /** A role update succeeds exactly when something changes, a new name is neither reserved nor taken, no assigned role
      and never super_admin is disabled, and the permissions given are a list of at most 500 of the catalogue without
      repetition that leaves super_admin its core permissions. */
  lemma RoleUpdateSucceedsExactlyWhen(db: Database, id: RoleId, input: UpdateRoleInput)
    requires id in db.roles
    ensures UpdateRole(db, id, input).Success? <==>
              var r := db.roles[id];
              && ChangesRole(r, input)
              && (input.name.Some? && input.name.value != r.name ==>
                    && !input.name.value.reserved
                    && forall q :: q in db.roles && q != id ==> db.roles[q].name.folded != input.name.value.folded)
              && (input.active == Some(false) ==>
                    && !r.code.SuperAdmin?
                    && (r.active ==> forall u :: u in db.users ==> id !in db.users[u].roles))
              && (input.permissions.Some? ==>
                    && 0 < |input.permissions.value| <= 500 && NoRepeats(input.permissions.value)
                    && (forall p :: p in input.permissions.value ==> p in db.catalogue)
                    && (r.code.SuperAdmin? ==>
                          forall p :: p in CORE_SUPER_PERMISSIONS ==> p in input.permissions.value))
  {
    hide NoRepeats, RevokedSessions;
    var r, after := db.roles[id], UpdatedRole(db.roles[id], input);
    if input.permissions.Some? {
      ListedIsEqual(r.permissions, input.permissions.value);
    }
    assert after == r <==> !ChangesRole(r, input);
  }

  /** A creation succeeds exactly when everything is given, the roles are a list without repetition of active ones, and
      id, name and email are free. */
  lemma CreationSucceedsExactlyWhen(db: Database, id: UserId, input: CreateUserInput)
    ensures CreateUser(db, id, input).Success? <==>
              && input.username.Some? && input.email.Some? && input.password.Some?
              && input.roleIds != [] && NoRepeats(input.roleIds)
              && (forall r :: r in input.roleIds ==> r in db.roles && db.roles[r].active)
              && id !in db.users
              && forall u :: u in db.users ==>
                   db.users[u].username != input.username.value && db.users[u].email != input.email.value
  {
    hide NoRepeats;
  }

  /** Enabling and disabling succeed exactly when they change the status, and disabling neither hits the caller nor the
      last enabled super_admin. */
  lemma SetEnabledSucceedsExactlyWhen(db: Database, actor: UserId, id: UserId, enabled: bool, super: RoleId)
    requires id in db.users && SuperRole(db.roles) == Some(super)
    ensures SetUserEnabled(db, actor, id, enabled).Success? <==>
              && db.users[id].active != enabled
              && (!enabled ==>
                    && actor != id
                    && (super in db.users[id].roles ==>
                          && super in db.roles && db.roles[super].active
                          && exists o :: o in db.users && o != id && db.users[o].active && super in db.users[o].roles))
  {
    hide SuperRole, RevokedSessions;
  }

  /** A role is created exactly with a name that is neither reserved nor taken and a list of at most 500 permissions of
      the catalogue without repetition. */
  lemma RoleCreationSucceedsExactlyWhen(db: Database, id: RoleId, input: CreateRoleInput)
    requires id !in db.roles
    ensures CreateRole(db, id, input).Success? <==>
              && input.name.Some? && !input.name.value.reserved
              && (forall r :: r in db.roles ==>
                    && db.roles[r].name.folded != input.name.value.folded
                    && db.roles[r].code != Custom(input.name.value.folded))
              && 0 < |input.permissions| <= 500 && NoRepeats(input.permissions)
              && forall p :: p in input.permissions ==> p in db.catalogue
  {
    hide NoRepeats;
  }

  /** Enabling and disabling a role succeed exactly when they change the status, and disabling hits neither super_admin
      nor a role somebody has. */
  lemma SetRoleEnabledSucceedsExactlyWhen(db: Database, id: RoleId, enabled: bool)
    requires id in db.roles
    ensures SetRoleEnabled(db, id, enabled).Success? <==>
              && db.roles[id].active != enabled
              && (!enabled ==>
                    && !db.roles[id].code.SuperAdmin?
                    && forall u :: u in db.users ==> id !in db.users[u].roles)
  {
    hide RevokedSessions;
  }

  lemma ListedIsEqual(roles: set<RoleId>, ids: seq<RoleId>)
    ensures Listed(roles, ids) <==> roles == Members(ids)
    ensures Listed(Members(ids), ids)
  {
  }

  /** The user can log in, and a login hands out exactly the permissions of these roles. */
  ghost predicate LogsInWith(db: Database, u: UserId, login: SessionId, expiresAt: Instant, ids: seq<RoleId>) {
    && u in db.users
    && var r := Login(db, login, db.users[u].username, db.users[u].password, expiresAt);
       && r.Success? && login in r.value.sessions && r.value.sessions[login].user == u
       && forall p :: p in r.value.sessions[login].granted
                      <==> exists role :: role in ids && role in db.roles && p in db.roles[role].permissions
  }

  /** Giving other active roles under an otherwise admissible request takes effect: the roles are the listed ones, the
      user's sessions end, and the next login of an active user grants exactly the permissions of the listed roles. */
  lemma NewRolesTakeEffect(db: Database, actor: UserId, id: UserId, input: UpdateUserInput, s: SessionId, now: Instant,
                           login: SessionId, expiresAt: Instant)
    requires SessionsAreFresh(db) && KeysAreUnique(db) && id in db.users && input.roleIds.Some?
    requires UpdateUser(db, actor, id, input).Success? && !Listed(db.users[id].roles, input.roleIds.value)
    ensures var after := UpdateUser(db, actor, id, input).value;
            && id in after.users && Listed(after.users[id].roles, input.roleIds.value)
            && (s in db.sessions && db.sessions[s].user == id ==> Guard(after, s, now) == Failure(Unauthorized))
            && (after.users[id].active && login !in db.sessions ==>
                  LogsInWith(after, id, login, expiresAt, input.roleIds.value))
  {
    hide AnotherEnabledSuperAdmin, Taken, SuperRole, Guard, PermissionsOf, RevokedSessions, Ended, LosesSuper,
         RolesError, RoleIdsValid, KeysAreUnique, UpdateUser, LogsInWith, UserFieldsStored, UpdatedUser;
    var c := CallUpdateUser(actor, id, input);
    var after := Apply(db, c);
    CallsStoreTheirInput(db, c);
    assert Listed(after.users[id].roles, input.roleIds.value) by {
      RolesAreStored(db.users[id], input, after.users[id]);
    }
    if s in db.sessions && db.sessions[s].user == id {
      UpdatesEnd(db, c, s, now);
      RolesDiffer(db.users[id].roles, after.users[id].roles, input.roleIds.value);
      EndedByNewRoles(db, c, s);
    }
    GivenRolesAreActive(db, actor, id, input);
    ApplyKeepsKeysUnique(db, c);
    if after.users[id].active && login !in db.sessions {
      ListedRolesLogIn(after, id, login, expiresAt, input.roleIds.value);
    }
  }

  lemma RolesAreStored(before: User, input: UpdateUserInput, after: User)
    requires UserFieldsStored(before, input, after) && input.roleIds.Some?
    ensures Listed(after.roles, input.roleIds.value)
  {
  }

  lemma ListedRolesLogIn(db: Database, u: UserId, login: SessionId, expiresAt: Instant, ids: seq<RoleId>)
    requires KeysAreUnique(db) && u in db.users && db.users[u].active && login !in db.sessions
    requires ids != [] && Listed(db.users[u].roles, ids) && forall r :: r in ids ==> r in db.roles && db.roles[r].active
    ensures LogsInWith(db, u, login, expiresAt, ids)
  {
    hide PermissionsOf;
    assert ids[0] in ids;
    assert UserNamed(db.users, db.users[u].username) == Some(u);
    PermissionsOfListed(db.roles, db.users[u].roles, ids);
  }

  lemma RolesDiffer(before: set<RoleId>, after: set<RoleId>, ids: seq<RoleId>)
    requires Listed(after, ids) && !Listed(before, ids)
    ensures before != after
  {
  }

  lemma EndedByNewRoles(db: Database, c: Call, s: SessionId)
    requires c.CallUpdateUser? && Outcome(db, c).Success? && c.user in db.users && c.user in Apply(db, c).users
    requires Apply(db, c).users[c.user].roles != db.users[c.user].roles
    requires s in db.sessions && db.sessions[s].user == c.user
    ensures s in Ended(db, c)
  {
    hide UpdateUser;
  }

  lemma GivenRolesAreActive(db: Database, actor: UserId, id: UserId, input: UpdateUserInput)
    requires UpdateUser(db, actor, id, input).Success? && input.roleIds.Some?
    ensures input.roleIds.value != []
    ensures forall r :: r in input.roleIds.value ==> r in db.roles && db.roles[r].active
    ensures UpdateUser(db, actor, id, input).value.roles == db.roles
    ensures UpdateUser(db, actor, id, input).value.sessions.Keys == db.sessions.Keys
  {
  }

  lemma PermissionsOfListed(roles: map<RoleId, Role>, held: set<RoleId>, ids: seq<RoleId>)
    requires Listed(held, ids) && forall r :: r in ids ==> r in roles && roles[r].active
    ensures forall p :: p in PermissionsOf(roles, held) <==> exists r :: r in ids && p in roles[r].permissions
  {
  }

  /** A login grants exactly the permissions of the user's active roles. */
  lemma LoginGrantsTheRoles(db: Database, id: SessionId, username: Text, password: Text, expiresAt: Instant)
    requires Login(db, id, username, password, expiresAt).Success?
    ensures var after := Login(db, id, username, password, expiresAt).value;
            && id in after.sessions && after.sessions[id].user in db.users
            && var u := db.users[after.sessions[id].user];
               && u.username == username && u.password == password && u.active
               && forall p :: p in after.sessions[id].granted
                              <==> exists r :: r in u.roles && r in db.roles && db.roles[r].active
                                               && p in db.roles[r].permissions
  {
  }
}
