/** Monthly performance groups, their members' ratios, and what the settlement calculation reads of them.

    A write runs in one transaction. What it reads beforehand (the group, locked months, employees already in a group)
    may be of an earlier state, so those reads are parameters; the unique keys of the tables are checked against the
    table itself. Ratios are stored with six decimals. */
module PerformanceGroups {
  import opened Wrappers
  import opened CommonTypes
  import opened Postings
  import opened SettlementCalculator

  type Name = nat

  datatype MemberInput = MemberInput(employee: Option<EmployeeId>, ratio: Option<real>)
  datatype Member = Member(employee: EmployeeId, ratio: real)
  datatype GroupRow = GroupRow(month: Month, name: Name, status: CommonStatus)
  datatype MemberRow = MemberRow(month: Month, group: GroupId, employee: EmployeeId, ratio: real)
  datatype GroupTables = GroupTables(groups: map<GroupId, GroupRow>, rows: seq<MemberRow>)

  /** What an operation read before its transaction wrote. */
  datatype Seen = Seen(lockedMonths: set<Month>, rows: seq<MemberRow>)

  datatype GroupError = NotFound | ValidationError | Conflict | MonthLocked | DuplicateResource

  // ---------- the member list ----------

  /** The part of the list the loop of `validateMembers` walks through without an error. */
  predicate Passes(ms: seq<MemberInput>) {
    && (forall m :: m in ms ==> m.employee.Some? && m.ratio.Some? && m.ratio.value > 0.0)
    && forall i, j :: 0 <= i < j < |ms| ==> ms[i].employee != ms[j].employee
  }

  function Parsed(ms: seq<MemberInput>): seq<Member>
    requires Passes(ms)
  {
    seq(|ms|, i requires 0 <= i < |ms| => Member(ms[i].employee.value, ms[i].ratio.value))
  }

  function RatioSum(ms: seq<Member>): real {
    if ms == [] then 0.0 else RatioSum(ms[..|ms| - 1]) + ms[|ms| - 1].ratio
  }

  predicate Acceptable(ms: seq<MemberInput>) {
    ms != [] && Passes(ms) && RatioSum(Parsed(ms)) == 1.0
  }

  /** The first member that does not pass repeats an employee of the ones before it. */
  predicate RepeatsFirst(ms: seq<MemberInput>) {
    exists i :: 0 <= i < |ms| && Passes(ms[..i]) && RepeatsAt(ms, i)
  }

  predicate RepeatsAt(ms: seq<MemberInput>, i: nat)
    requires i < |ms|
  {
    ms[i].employee.Some? && exists j :: 0 <= j < i && ms[j].employee == ms[i].employee
  }

  lemma OnlyOneFirst(ms: seq<MemberInput>, i: nat)
    requires i < |ms| && Passes(ms[..i]) && !RepeatsAt(ms, i)
    requires ms[i].employee.None? || ms[i].ratio.None? || ms[i].ratio.value <= 0.0
    ensures !Acceptable(ms) && !RepeatsFirst(ms)
  {
    assert ms[i] in ms;
    if k :| 0 <= k < |ms| && Passes(ms[..k]) && RepeatsAt(ms, k) {
      if k < i {
        assert ms[k] in ms[..i];
        var j :| 0 <= j < k && ms[j].employee == ms[k].employee;
        assert ms[..i][j].employee == ms[..i][k].employee;
      }
    }
  }

  lemma FirstRepeat(ms: seq<MemberInput>, i: nat)
    requires i < |ms| && Passes(ms[..i]) && RepeatsAt(ms, i)
    ensures RepeatsFirst(ms) && !Passes(ms)
  {
  }

  lemma PassesOneMore(ms: seq<MemberInput>, i: nat)
    requires i < |ms| && Passes(ms[..i])
    requires ms[i].employee.Some? && ms[i].ratio.Some? && ms[i].ratio.value > 0.0 && !RepeatsAt(ms, i)
    ensures Passes(ms[..i + 1])
    ensures Parsed(ms[..i + 1]) == Parsed(ms[..i]) + [Member(ms[i].employee.value, ms[i].ratio.value)]
    ensures RatioSum(Parsed(ms[..i + 1])) == RatioSum(Parsed(ms[..i])) + ms[i].ratio.value
  {
    assert forall m :: m in ms[..i + 1] <==> m in ms[..i] || m == ms[i];
    assert Parsed(ms[..i + 1])[..i] == Parsed(ms[..i]);
  }

  lemma NothingParsed()
    ensures Passes([]) && Parsed([]) == [] && RatioSum([]) == 0.0
  {
  }

  /** `validateMembers`: the parsed members, or the error of the first member that is not acceptable. */
  method ValidateMembers(ms: seq<MemberInput>) returns (r: Result<seq<Member>, GroupError>)
    ensures r == if Acceptable(ms) then Success(Parsed(ms))
                 else if RepeatsFirst(ms) then Failure(Conflict) else Failure(ValidationError)
  {
    hide Passes, Parsed, RatioSum, RepeatsFirst;
    if |ms| == 0 {
      NoRepeatWhenPassing(ms);
      return Failure(ValidationError);
    }
    var seen: set<EmployeeId> := {};
    var total := 0.0;
    var members := [];
    NothingParsed();
    for i := 0 to |ms|
      invariant Passes(ms[..i]) && members == Parsed(ms[..i])
      invariant total == RatioSum(members)
      invariant forall e :: e in seen <==> exists j :: 0 <= j < i && ms[j].employee == Some(e)
    {
      if ms[i].employee.None? {
        OnlyOneFirst(ms, i);
        return Failure(ValidationError);
      }
      var e := ms[i].employee.value;
      if e in seen {
        FirstRepeat(ms, i);
        return Failure(Conflict);
      }
      if ms[i].ratio.None? || ms[i].ratio.value <= 0.0 {
        OnlyOneFirst(ms, i);
        return Failure(ValidationError);
      }
      PassesOneMore(ms, i);
      seen := seen + {e};
      total := total + ms[i].ratio.value;
      members := members + [Member(e, ms[i].ratio.value)];
    }
    assert ms[..|ms|] == ms;
    if total != 1.0 {
      NoRepeatWhenPassing(ms);
      return Failure(ValidationError);
    }
    return Success(members);
  }

  lemma NoRepeatWhenPassing(ms: seq<MemberInput>)
    requires ms == [] || Passes(ms)
    ensures !RepeatsFirst(ms)
  {
  }

  // ---------- storing members ----------

  /** The column keeps six decimals and rounds half up. */
  function Stored(ratio: real): real {
    (ratio * 1000000.0 + 0.5).Floor as real / 1000000.0
  }

  predicate SixDecimals(ratio: real) {
    ratio * 1000000.0 == (ratio * 1000000.0).Floor as real
  }

  function NewRows(month: Month, g: GroupId, ms: seq<Member>): seq<MemberRow> {
    seq(|ms|, i requires 0 <= i < |ms| => MemberRow(month, g, ms[i].employee, Stored(ms[i].ratio)))
  }

  function Without(rows: seq<MemberRow>, g: GroupId): seq<MemberRow> {
    if rows == [] then [] else
      var r := rows[|rows| - 1];
      Without(rows[..|rows| - 1], g) + if r.group == g then [] else [r]
  }

  /** The unique key of the member table: one row per month and employee. */
  predicate OneRowEach(rows: seq<MemberRow>) {
    forall i, j :: 0 <= i < j < |rows| && rows[i].month == rows[j].month ==> rows[i].employee != rows[j].employee
  }

  /** The unique key of the group table: one group per month and name. */
  predicate OneNameEach(groups: map<GroupId, GroupRow>) {
    forall g, h :: g in groups && h in groups && g != h && groups[g].month == groups[h].month ==>
      groups[g].name != groups[h].name
  }

  predicate TakenElsewhere(rows: seq<MemberRow>, month: Month, ms: seq<Member>, own: Option<GroupId>) {
    exists r, m :: r in rows && m in ms && r.month == month && r.employee == m.employee && own != Some(r.group)
  }

  // ---------- the operations ----------

  datatype CreateInput = CreateInput(month: Month, name: Option<Name>, members: seq<MemberInput>,
                                     status: Option<CommonStatus>)
  datatype UpdateInput = UpdateInput(month: Option<Month>, name: Option<Option<Name>>, singleMode: bool,
                                     members: Option<seq<MemberInput>>, status: Option<CommonStatus>)

  predicate StatusAllowed(status: Option<CommonStatus>) {
    status.None? || status.value.Active? || status.value.Disabled?
  }

  function MemberError(ms: seq<MemberInput>): GroupError {
    if RepeatsFirst(ms) then Conflict else ValidationError
  }

  function Create(t: GroupTables, seen: Seen, id: GroupId, input: CreateInput): Result<GroupTables, GroupError> {
    if !Acceptable(input.members) then Failure(MemberError(input.members))
    else if input.name.None? || !StatusAllowed(input.status) then Failure(ValidationError)
    else if input.month in seen.lockedMonths then Failure(MonthLocked)
    else if TakenElsewhere(seen.rows, input.month, Parsed(input.members), None) then Failure(Conflict)
    else
      var status := if input.status.Some? then input.status.value else CommonStatus.Active;
      var groups := t.groups[id := GroupRow(input.month, input.name.value, status)];
      var rows := t.rows + NewRows(input.month, id, Parsed(input.members));
      if OneNameEach(groups) && OneRowEach(rows) then Success(GroupTables(groups, rows)) else Failure(DuplicateResource)
  }

  predicate UpdateInputValid(input: UpdateInput) {
    && (input.month.Some? ==> input.members.Some?)
    && input.name != Some(None)
    && !input.singleMode
    && StatusAllowed(input.status)
  }

  function Updated(row: GroupRow, input: UpdateInput): GroupRow
    requires UpdateInputValid(input)
  {
    GroupRow(if input.month.Some? then input.month.value else row.month,
             if input.name.Some? then input.name.value.value else row.name,
             if input.status.Some? then input.status.value else row.status)
  }

  /** `before` is the group as it was read before the transaction. The locks and the other groups' employees are looked
      up for its month, or for the month sent; the rows are written with the month the group has by then. */
  function Update(t: GroupTables, seen: Seen, before: Option<GroupRow>, id: GroupId, input: UpdateInput)
    : Result<GroupTables, GroupError>
  {
    if before.None? then Failure(NotFound)
    else if !UpdateInputValid(input) then Failure(ValidationError)
    else if input.members.Some? && !Acceptable(input.members.value) then Failure(MemberError(input.members.value))
    else
      var next := Updated(before.value, input).month;
      if before.value.month in seen.lockedMonths || next in seen.lockedMonths then Failure(MonthLocked)
      else if input.members.Some? && TakenElsewhere(seen.rows, next, Parsed(input.members.value), Some(id)) then
        Failure(Conflict)
      else if id !in t.groups then Failure(NotFound)
      else
        var row := Updated(t.groups[id], input);
        var groups := t.groups[id := row];
        var rows := if input.members.None? then t.rows else
          Without(t.rows, id) + NewRows(row.month, id, Parsed(input.members.value));
        if OneNameEach(groups) && OneRowEach(rows) then Success(GroupTables(groups, rows))
        else Failure(DuplicateResource)
  }

  function Disable(t: GroupTables, seen: Seen, before: Option<GroupRow>, id: GroupId): Result<GroupTables, GroupError> {
    if before.None? then Failure(NotFound)
    else if before.value.month in seen.lockedMonths then Failure(MonthLocked)
    else if id !in t.groups then Failure(NotFound)
    else Success(t.(groups := t.groups[id := t.groups[id].(status := CommonStatus.Disabled)]))
  }

  class PerformanceGroupsService {
    var groups: map<GroupId, GroupRow>
    var rows: seq<MemberRow>

    function State(): GroupTables
      reads this
    {
      GroupTables(groups, rows)
    }

    constructor (t: GroupTables)
      ensures State() == t
    {
      groups, rows := t.groups, t.rows;
    }

    method CreateGroup(seen: Seen, id: GroupId, input: CreateInput) returns (error: Option<GroupError>)
      modifies this
      ensures match Create(old(State()), seen, id, input)
              case Success(t) => error.None? && State() == t
              case Failure(e) => error == Some(e) && State() == old(State())
      ensures KeptByRequest(old(State()), CreateRequest(seen, id, input), State())
      ensures error.None? ==> RequestStored(old(State()), CreateRequest(seen, id, input), State())
    {
      hide KeptByRequest, RequestStored;
      ServingKeepsGroups(State(), CreateRequest(seen, id, input));
      ServingStoresTheRequest(State(), CreateRequest(seen, id, input));
      var members := ValidateMembers(input.members);
      if members.Failure? {
        return Some(members.error);
      }
      if input.name.None? || !StatusAllowed(input.status) {
        return Some(ValidationError);
      }
      if input.month in seen.lockedMonths {
        return Some(MonthLocked);
      }
      if TakenElsewhere(seen.rows, input.month, members.value, None) {
        return Some(Conflict);
      }
      var status := if input.status.Some? then input.status.value else CommonStatus.Active;
      var groups' := groups[id := GroupRow(input.month, input.name.value, status)];
      var rows' := rows + NewRows(input.month, id, members.value);
      if !OneNameEach(groups') || !OneRowEach(rows') {
        return Some(DuplicateResource);
      }
      groups, rows := groups', rows';
      return None;
    }

    method UpdateGroup(seen: Seen, before: Option<GroupRow>, id: GroupId, input: UpdateInput)
      returns (error: Option<GroupError>)
      modifies this
      ensures match Update(old(State()), seen, before, id, input)
              case Success(t) => error.None? && State() == t
              case Failure(e) => error == Some(e) && State() == old(State())
      ensures KeptByRequest(old(State()), UpdateRequest(seen, before, id, input), State())
      ensures error.None? ==> RequestStored(old(State()), UpdateRequest(seen, before, id, input), State())
    {
      hide KeptByRequest, RequestStored;
      ServingKeepsGroups(State(), UpdateRequest(seen, before, id, input));
      ServingStoresTheRequest(State(), UpdateRequest(seen, before, id, input));
      if before.None? {
        return Some(NotFound);
      }
      if (input.month.Some? && input.members.None?) || input.name == Some(None) || input.singleMode
         || !StatusAllowed(input.status) {
        return Some(ValidationError);
      }
      var members := Success([]);
      if input.members.Some? {
        members := ValidateMembers(input.members.value);
        if members.Failure? {
          return Some(members.error);
        }
      }
      var next := if input.month.Some? then input.month.value else before.value.month;
      if before.value.month in seen.lockedMonths {
        return Some(MonthLocked);
      }
      if next != before.value.month && next in seen.lockedMonths {
        return Some(MonthLocked);
      }
      if input.members.Some? && TakenElsewhere(seen.rows, next, members.value, Some(id)) {
        return Some(Conflict);
      }
      if id !in groups {
        return Some(NotFound);
      }
      var row := Updated(groups[id], input);
      var groups' := groups[id := row];
      var rows' := rows;
      if input.members.Some? {
        rows' := Without(rows, id) + NewRows(row.month, id, members.value);
      }
      if !OneNameEach(groups') || !OneRowEach(rows') {
        return Some(DuplicateResource);
      }
      groups, rows := groups', rows';
      return None;
    }

    method DisableGroup(seen: Seen, before: Option<GroupRow>, id: GroupId) returns (error: Option<GroupError>)
      modifies this`groups
      ensures match Disable(old(State()), seen, before, id)
              case Success(t) => error.None? && State() == t
              case Failure(e) => error == Some(e) && State() == old(State())
      ensures KeptByRequest(old(State()), DisableRequest(seen, before, id), State())
      ensures error.None? ==> RequestStored(old(State()), DisableRequest(seen, before, id), State())
    {
      hide KeptByRequest, RequestStored;
      ServingKeepsGroups(State(), DisableRequest(seen, before, id));
      ServingStoresTheRequest(State(), DisableRequest(seen, before, id));
      if before.None? {
        return Some(NotFound);
      }
      if before.value.month in seen.lockedMonths {
        return Some(MonthLocked);
      }
      if id !in groups {
        return Some(NotFound);
      }
      groups := groups[id := groups[id].(status := CommonStatus.Disabled)];
      return None;
    }
  }

  // ---------- runs ----------

  datatype Request =
    | CreateRequest(seen: Seen, id: GroupId, create: CreateInput)
    | UpdateRequest(seen: Seen, before: Option<GroupRow>, id: GroupId, update: UpdateInput)
    | DisableRequest(seen: Seen, before: Option<GroupRow>, id: GroupId)

  /** New group ids are fresh. */
  predicate FreshId(t: GroupTables, q: Request) {
    q.CreateRequest? ==> q.id !in t.groups
  }

  function Outcome(t: GroupTables, q: Request): Result<GroupTables, GroupError> {
    match q
    case CreateRequest(seen, id, input) => Create(t, seen, id, input)
    case UpdateRequest(seen, before, id, input) => Update(t, seen, before, id, input)
    case DisableRequest(seen, before, id) => Disable(t, seen, before, id)
  }

  function Serve(t: GroupTables, q: Request): GroupTables {
    var r := Outcome(t, q);
    if r.Success? then r.value else t
  }

  function ServeAll(qs: seq<Request>): GroupTables {
    if qs == [] then GroupTables(map[], []) else Serve(ServeAll(qs[..|qs| - 1]), qs[|qs| - 1])
  }

  predicate ValidRun(qs: seq<Request>) {
    qs == [] || (ValidRun(qs[..|qs| - 1]) && FreshId(ServeAll(qs[..|qs| - 1]), qs[|qs| - 1]))
  }

  /** The member list a request brings, if it brings one. */
  function MembersOfRequest(q: Request): Option<seq<MemberInput>> {
    match q
    case CreateRequest(_, _, input) => Some(input.members)
    case UpdateRequest(_, _, _, input) => input.members
    case DisableRequest(_, _, _) => None
  }

  // ---------- what a request stores ----------

  /** The stored ratio is the multiple of a millionth nearest to the one sent. */
  predicate NearestMillionth(sent: real, stored: real) {
    SixDecimals(stored) && stored - LEAST_STORED <= sent < stored + LEAST_STORED
  }

  lemma StoredIsNearest(ratio: real)
    ensures NearestMillionth(ratio, Stored(ratio))
  {
  }

  /** One row for each member sent, in order. */
  predicate MembersStored(ms: seq<MemberInput>, month: Month, g: GroupId, rows: seq<MemberRow>) {
    && |rows| == |ms|
    && forall i :: 0 <= i < |ms| ==>
         && rows[i].month == month && rows[i].group == g
         && ms[i].employee == Some(rows[i].employee) && ms[i].ratio.Some?
         && NearestMillionth(ms[i].ratio.value, rows[i].ratio)
  }

  lemma NewRowsStoreMembers(month: Month, g: GroupId, ms: seq<MemberInput>)
    requires Passes(ms)
    ensures MembersStored(ms, month, g, NewRows(month, g, Parsed(ms)))
  {
    hide Stored, NearestMillionth;
    var rows := NewRows(month, g, Parsed(ms));
    forall i | 0 <= i < |ms| ensures rows[i] == MemberRow(month, g, ms[i].employee.value, Stored(ms[i].ratio.value)) {
      assert ms[i] in ms;
    }
    forall i | 0 <= i < |ms| ensures NearestMillionth(ms[i].ratio.value, rows[i].ratio) {
      StoredIsNearest(ms[i].ratio.value);
    }
  }

  /** Every other group and its member rows are as they were. */
  ghost predicate OtherGroupsStay(before: GroupTables, after: GroupTables, g: GroupId) {
    && (forall h :: h != g ==> (h in after.groups <==> h in before.groups)
                               && (h in before.groups ==> after.groups[h] == before.groups[h]))
    && forall r: MemberRow :: r.group != g ==> (r in after.rows <==> r in before.rows)
  }

  /** The last rows are those of the members sent, and no others of the group are left. */
  ghost predicate GroupHasJust(t: GroupTables, g: GroupId, ms: seq<MemberInput>) {
    && g in t.groups && |ms| <= |t.rows|
    && MembersStored(ms, t.groups[g].month, g, t.rows[|t.rows| - |ms|..])
    && forall i :: 0 <= i < |t.rows| - |ms| ==> t.rows[i].group != g
  }

  /** What the tables hold after the request was served: what it gave, and everything else as before. None of the months
      it looked up was locked. */
  ghost predicate RequestStored(before: GroupTables, q: Request, after: GroupTables) {
    && q.id in after.groups && OtherGroupsStay(before, after, q.id)
    && var row := after.groups[q.id];
       match q
       case CreateRequest(_, id, input) =>
         && row.month == input.month && Some(row.name) == input.name && row.month !in q.seen.lockedMonths
         && row.status == (match input.status case Some(status) => status case None => CommonStatus.Active)
         && (Sound(before) && id !in before.groups ==> GroupHasJust(after, id, input.members))
       case UpdateRequest(seen, read, id, input) =>
         && id in before.groups && read.Some? && read.value.month !in seen.lockedMonths
         && (input.month.Some? ==> input.month.value !in seen.lockedMonths)
         && row.month == (match input.month case Some(month) => month case None => before.groups[id].month)
         && row.name == (match input.name case Some(Some(name)) => name case _ => before.groups[id].name)
         && row.status == (match input.status case Some(status) => status case None => before.groups[id].status)
         && (if input.members.Some? then GroupHasJust(after, id, input.members.value) else after.rows == before.rows)
       case DisableRequest(seen, read, id) =>
         && id in before.groups && read.Some? && read.value.month !in seen.lockedMonths && row.status.Disabled?
         && row.(status := before.groups[id].status) == before.groups[id] && after.rows == before.rows
  }

  lemma ServingStoresTheRequest(t: GroupTables, q: Request)
    ensures Outcome(t, q).Success? ==> RequestStored(t, q, Outcome(t, q).value)
  {
    hide OneRowEach, OneNameEach, TakenElsewhere, Acceptable, MembersStored, NewRows, Parsed, Passes, Stored, Without;
    if Outcome(t, q).Success? && MembersOfRequest(q).Some? {
      var after := Outcome(t, q).value;
      var month, ms := after.groups[q.id].month, MembersOfRequest(q).value;
      AcceptablePasses(ms);
      WithoutKeepsOthers(t.rows, q.id);
      var kept := if q.CreateRequest? then t.rows else Without(t.rows, q.id);
      assert after.rows == kept + NewRows(month, q.id, Parsed(ms));
      JustTheNewRows(kept, month, q.id, ms);
    }
  }

  lemma JustTheNewRows(kept: seq<MemberRow>, month: Month, g: GroupId, ms: seq<MemberInput>)
    requires Passes(ms)
    ensures var rows := kept + NewRows(month, g, Parsed(ms));
            && |rows| == |kept| + |ms| && MembersStored(ms, month, g, rows[|rows| - |ms|..])
            && (forall i :: 0 <= i < |rows| - |ms| ==> rows[i] in kept)
            && forall r: MemberRow :: r.group != g ==> (r in rows <==> r in kept)
  {
    hide MembersStored, NewRows, Parsed, Passes;
    var added := NewRows(month, g, Parsed(ms));
    NewRowsStoreMembers(month, g, ms);
    NewRowsAre(month, g, Parsed(ms));
    ParsedLength(ms);
    assert (kept + added)[|kept|..] == added;
  }

  // ---------- when a request is served ----------

  /** No row of the month puts one of these employees into another group. */
  predicate FreeInMonth(rows: seq<MemberRow>, month: Month, g: GroupId, ms: seq<MemberInput>) {
    forall r, m :: r in rows && m in ms && r.month == month && r.group != g ==> m.employee != Some(r.employee)
  }

  predicate NameIsFree(t: GroupTables, g: GroupId, month: Month, name: Name) {
    forall h :: h in t.groups && h != g && t.groups[h].month == month ==> t.groups[h].name != name
  }

  /** A creation is served exactly when the list is acceptable, a name and no forbidden status is given, the month was
      not locked, and name and employees are free, among what was read and among what is there. */
  lemma CreationServedExactlyWhen(t: GroupTables, seen: Seen, id: GroupId, input: CreateInput)
    requires Sound(t) && OneNameEach(t.groups) && id !in t.groups && forall r :: r in seen.rows ==> r.group != id
    ensures Create(t, seen, id, input).Success? <==>
              && Acceptable(input.members) && input.name.Some? && StatusAllowed(input.status)
              && input.month !in seen.lockedMonths
              && FreeInMonth(seen.rows, input.month, id, input.members)
              && FreeInMonth(t.rows, input.month, id, input.members)
              && NameIsFree(t, id, input.month, input.name.value)
  {
    hide Acceptable, OneRowEach, OneNameEach, NameIsFree, FreeInMonth, TakenElsewhere;
    if Acceptable(input.members) && input.name.Some? {
      var status := if input.status.Some? then input.status.value else CommonStatus.Active;
      NamesFit(t, id, GroupRow(input.month, input.name.value, status));
      AcceptablePasses(input.members);
      FreeOrTaken(seen.rows, input.month, id, input.members, None);
      RowsFit(t.rows, input.month, id, input.members);
    }
  }

  /** An update is served exactly when the group was there to be read and still is, the input is valid and its list
      acceptable, neither the month read nor the one sent was locked, and name and employees are free: the employees for
      the month looked up among the rows read, both for the month the group then has among what is there. */
  lemma UpdateServedExactlyWhen(t: GroupTables, seen: Seen, before: Option<GroupRow>, id: GroupId, input: UpdateInput)
    requires Sound(t) && OneNameEach(t.groups)
    ensures Update(t, seen, before, id, input).Success? <==>
              && before.Some? && id in t.groups
              && (input.month.Some? ==> input.members.Some?) && input.name != Some(None) && !input.singleMode
              && StatusAllowed(input.status)
              && before.value.month !in seen.lockedMonths
              && var looked := if input.month.Some? then input.month.value else before.value.month;
                 var month := if input.month.Some? then input.month.value else t.groups[id].month;
                 && looked !in seen.lockedMonths
                 && NameIsFree(t, id, month, if input.name.Some? then input.name.value.value else t.groups[id].name)
                 && (input.members.Some? ==>
                       && Acceptable(input.members.value)
                       && FreeInMonth(seen.rows, looked, id, input.members.value)
                       && FreeInMonth(t.rows, month, id, input.members.value))
  {
    hide Acceptable, OneRowEach, OneNameEach, NameIsFree, FreeInMonth, TakenElsewhere, Without, StatusAllowed;
    if before.Some? && id in t.groups && UpdateInputValid(input) {
      var row := Updated(t.groups[id], input);
      NamesFit(t, id, row);
      if input.members.Some? && Acceptable(input.members.value) {
        var ms := input.members.value;
        AcceptablePasses(ms);
        FreeOrTaken(seen.rows, Updated(before.value, input).month, id, ms, Some(id));
        WithoutKeepsOthers(t.rows, id);
        WithoutIsDistinct(t.rows, id);
        RowsFit(Without(t.rows, id), row.month, id, ms);
        SameFreedom(t.rows, Without(t.rows, id), row.month, id, ms);
      }
    }
  }

  lemma {:induction false} WithoutIsDistinct(rows: seq<MemberRow>, g: GroupId)
    requires OneRowEach(rows)
    ensures OneRowEach(Without(rows, g))
  {
    if rows != [] {
      var front := rows[..|rows| - 1];
      WithoutIsDistinct(front, g);
      WithoutKeepsOthers(front, g);
      forall i | 0 <= i < |Without(front, g)| ensures Without(front, g)[i] in front {
      }
    }
  }

  lemma SameFreedom(rows: seq<MemberRow>, kept: seq<MemberRow>, month: Month, g: GroupId, ms: seq<MemberInput>)
    requires forall r :: r in kept <==> r in rows && r.group != g
    ensures FreeInMonth(kept, month, g, ms) <==> FreeInMonth(rows, month, g, ms)
  {
  }

  /** The unique key of the group table admits the row exactly when its name is free. */
  lemma NamesFit(t: GroupTables, g: GroupId, row: GroupRow)
    requires OneNameEach(t.groups)
    ensures OneNameEach(t.groups[g := row]) <==> NameIsFree(t, g, row.month, row.name)
  {
    var groups := t.groups[g := row];
    if OneNameEach(groups) {
      forall h | h in t.groups && h != g && t.groups[h].month == row.month ensures t.groups[h].name != row.name {
        assert groups[h] == t.groups[h] && groups[g] == row;
      }
    }
  }

  lemma FreeOrTaken(rows: seq<MemberRow>, month: Month, g: GroupId, ms: seq<MemberInput>, own: Option<GroupId>)
    requires Passes(ms) && (own == Some(g) || (own.None? && forall r :: r in rows ==> r.group != g))
    ensures TakenElsewhere(rows, month, Parsed(ms), own) <==> !FreeInMonth(rows, month, g, ms)
  {
    var parsed := Parsed(ms);
    if r, m :| r in rows && m in ms && r.month == month && r.group != g && m.employee == Some(r.employee) {
      var i :| 0 <= i < |ms| && ms[i] == m;
      assert parsed[i] in parsed && parsed[i].employee == r.employee;
    }
    if r, m :| r in rows && m in parsed && r.month == month && r.employee == m.employee && own != Some(r.group) {
      var i :| 0 <= i < |parsed| && parsed[i] == m;
      assert ms[i] in ms && ms[i].employee == Some(r.employee);
    }
  }

  /** The unique key of the member table admits the new rows of a group exactly when its employees are free. */
  lemma RowsFit(kept: seq<MemberRow>, month: Month, g: GroupId, ms: seq<MemberInput>)
    requires Passes(ms) && OneRowEach(kept) && forall r :: r in kept ==> r.group != g
    ensures OneRowEach(kept + NewRows(month, g, Parsed(ms))) <==> FreeInMonth(kept, month, g, ms)
  {
    var added := NewRows(month, g, Parsed(ms));
    var rows := kept + added;
    assert forall i :: 0 <= i < |ms| ==>
        ms[i] in ms && added[i].month == month && ms[i].employee == Some(added[i].employee);
    if OneRowEach(rows) {
      forall r, m | r in kept && m in ms && r.month == month ensures m.employee != Some(r.employee) {
        var i, j :| 0 <= i < |kept| && kept[i] == r && 0 <= j < |ms| && ms[j] == m;
        assert rows[i] == r && rows[|kept| + j] == added[j];
      }
    }
  }

  lemma AcceptablePasses(ms: seq<MemberInput>)
    ensures Acceptable(ms) ==> Passes(ms)
  {
  }

  lemma ParsedLength(ms: seq<MemberInput>)
    requires Passes(ms)
    ensures |Parsed(ms)| == |ms|
  {
  }

  lemma NewRowsAre(month: Month, g: GroupId, ms: seq<Member>)
    ensures |NewRows(month, g, ms)| == |ms|
    ensures forall r :: r in NewRows(month, g, ms) ==> r.group == g
  {
  }

  // ---------- what every run keeps ----------

  function RowRatio(r: MemberRow): Option<Posting> {
    Some(Posting(r.group, r.ratio))
  }

  predicate Sound(t: GroupTables) {
    && OneRowEach(t.rows)
    && forall r :: r in t.rows ==> r.group in t.groups && r.month == t.groups[r.group].month
  }

  predicate Balanced(t: GroupTables) {
    forall g :: g in t.groups ==> TotalFor(t.rows, RowRatio, g) == 1.0
  }

  lemma {:induction false} WithoutKeepsOthers(rows: seq<MemberRow>, g: GroupId)
    ensures forall r :: r in Without(rows, g) <==> r in rows && r.group != g
    ensures forall h :: TotalFor(Without(rows, g), RowRatio, h) == if h == g then 0.0 else TotalFor(rows, RowRatio, h)
  {
    if rows != [] {
      var front, r := rows[..|rows| - 1], rows[|rows| - 1];
      WithoutKeepsOthers(front, g);
      assert forall x :: x in rows <==> x in front || x == r;
      if r.group != g {
        assert Without(rows, g)[..|Without(rows, g)| - 1] == Without(front, g);
      } else {
        assert Without(rows, g) == Without(front, g);
      }
    }
  }

  /** The rounding that storing the list adds to its sum. */
  function RoundingError(ms: seq<Member>): real {
    if ms == [] then 0.0 else
      RoundingError(ms[..|ms| - 1]) + (Stored(ms[|ms| - 1].ratio) - ms[|ms| - 1].ratio)
  }

  lemma {:induction false} NewRowsTotal(month: Month, g: GroupId, ms: seq<Member>, h: GroupId)
    ensures TotalFor(NewRows(month, g, ms), RowRatio, h) == if h == g then RatioSum(ms) + RoundingError(ms) else 0.0
  {
    if ms != [] {
      NewRowsTotal(month, g, ms[..|ms| - 1], h);
      assert NewRows(month, g, ms)[..|ms| - 1] == NewRows(month, g, ms[..|ms| - 1]);
    }
  }

  lemma SixDecimalsAreStored(ratio: real)
    requires SixDecimals(ratio)
    ensures Stored(ratio) == ratio
  {
    var scaled := ratio * 1000000.0;
    assert (scaled + 0.5).Floor == scaled.Floor;
  }

  lemma {:induction false} SixDecimalsDoNotRound(ms: seq<Member>)
    requires forall m :: m in ms ==> SixDecimals(m.ratio)
    ensures RoundingError(ms) == 0.0
  {
    if ms != [] {
      SixDecimalsDoNotRound(ms[..|ms| - 1]);
      SixDecimalsAreStored(ms[|ms| - 1].ratio);
    }
  }

  /** Storing the list leaves its sum at 1. */
  predicate RoundsEvenly(ms: seq<MemberInput>) {
    Acceptable(ms) ==> RoundingError(Parsed(ms)) == 0.0
  }

  /** What an accepted request leaves in the tables. */
  lemma WhatServingWrites(t: GroupTables, q: Request)
    requires FreshId(t, q) && Serve(t, q) != t
    ensures var after := Serve(t, q); var ms := MembersOfRequest(q);
            && q.id in after.groups
            && after.groups == t.groups[q.id := after.groups[q.id]]
            && (q.CreateRequest? <==> q.id !in t.groups)
            && (ms.None? ==> after.rows == t.rows && after.groups[q.id].month == t.groups[q.id].month)
            && (ms.Some? ==>
                  && Acceptable(ms.value) && Passes(ms.value) && RatioSum(Parsed(ms.value)) == 1.0
                  && OneRowEach(after.rows)
                  && after.rows == (if q.CreateRequest? then t.rows else Without(t.rows, q.id))
                                   + NewRows(after.groups[q.id].month, q.id, Parsed(ms.value)))
  {
    hide OneRowEach, OneNameEach, TakenElsewhere, NewRows, Without;
  }

  lemma ServingKeepsSound(t: GroupTables, q: Request)
    requires Sound(t) && FreshId(t, q)
    ensures Sound(Serve(t, q))
  {
    hide Serve, Acceptable, OneRowEach;
    if Serve(t, q) != t {
      WhatServingWrites(t, q);
      WithoutKeepsOthers(t.rows, q.id);
    }
  }

  lemma {:induction false} NoRowsNoTotal(rows: seq<MemberRow>, g: GroupId)
    requires forall r :: r in rows ==> r.group != g
    ensures TotalFor(rows, RowRatio, g) == 0.0
  {
    if rows != [] {
      assert rows[|rows| - 1] in rows;
      NoRowsNoTotal(rows[..|rows| - 1], g);
    }
  }

  /** What a request does to the ratio sum of every group. */
  lemma SumsAfterServing(t: GroupTables, q: Request, g: GroupId)
    requires Sound(t) && FreshId(t, q)
    ensures var ms := MembersOfRequest(q);
            TotalFor(Serve(t, q).rows, RowRatio, g)
            == if g == q.id && Serve(t, q) != t && ms.Some? then 1.0 + RoundingError(Parsed(ms.value))
               else TotalFor(t.rows, RowRatio, g)
  {
    hide Serve, Acceptable, OneRowEach;
    var ms := MembersOfRequest(q);
    var after := Serve(t, q);
    if after != t {
      WhatServingWrites(t, q);
      if ms.Some? {
        var month := after.groups[q.id].month;
        var added := NewRows(month, q.id, Parsed(ms.value));
        NewRowsTotal(month, q.id, Parsed(ms.value), g);
        ConcatenatedTotals(t.rows, added, RowRatio, g);
        ConcatenatedTotals(Without(t.rows, q.id), added, RowRatio, g);
        WithoutKeepsOthers(t.rows, q.id);
        if q.CreateRequest? {
          NoRowsNoTotal(t.rows, q.id);
        }
      }
    }
  }

  lemma BalancedStep(t: GroupTables, q: Request)
    requires Sound(t) && FreshId(t, q) && Balanced(t)
    ensures var ms := MembersOfRequest(q);
            Balanced(Serve(t, q)) <==> Serve(t, q) == t || ms.None? || RoundsEvenly(ms.value)
  {
    hide TotalFor, OneRowEach, Sound, Serve;
    var after := Serve(t, q);
    if after != t {
      WhatServingWrites(t, q);
    }
    forall g | g in after.groups
      ensures TotalFor(after.rows, RowRatio, g)
              == if g == q.id && after != t && MembersOfRequest(q).Some? then
                   1.0 + RoundingError(Parsed(MembersOfRequest(q).value))
                 else 1.0
    {
      SumsAfterServing(t, q, g);
    }
  }

  predicate AllRoundEvenly(qs: seq<Request>) {
    forall q :: q in qs && MembersOfRequest(q).Some? ==> RoundsEvenly(MembersOfRequest(q).value)
  }

  /** Over every run each member row has its group's month and nobody is in two groups of a month; and if every
      accepted list rounds evenly, the stored ratios of every group sum to 1. */
  lemma {:induction false} RunsKeepGroupsSound(qs: seq<Request>)
    requires ValidRun(qs)
    ensures Sound(ServeAll(qs))
    ensures AllRoundEvenly(qs) ==> Balanced(ServeAll(qs))
  {
    if qs != [] {
      var before, q := ServeAll(qs[..|qs| - 1]), qs[|qs| - 1];
      RunsKeepGroupsSound(qs[..|qs| - 1]);
      ServingKeepsSound(before, q);
      if AllRoundEvenly(qs) {
        assert q in qs;
        BalancedStep(before, q);
      }
    }
  }

  // ---------- what the calculation reads ----------

  function MembersOf(rows: seq<MemberRow>, month: Month): seq<GroupMember> {
    if rows == [] then [] else
      var r := rows[|rows| - 1];
      MembersOf(rows[..|rows| - 1], month)
      + if r.month == month then [GroupMember(r.group, r.employee, r.ratio)] else []
  }

  lemma {:induction false} MembersAreRows(rows: seq<MemberRow>, month: Month)
    ensures forall m :: m in MembersOf(rows, month)
                        <==> MemberRow(month, m.group, m.employee, m.ratio) in rows
  {
    if rows != [] {
      var front, r := rows[..|rows| - 1], rows[|rows| - 1];
      MembersAreRows(front, month);
      assert forall x :: x in rows <==> x in front || x == r;
    }
  }

  lemma {:induction false} OneGroupPerMonth(rows: seq<MemberRow>, month: Month)
    requires OneRowEach(rows)
    ensures OneGroupEach(MembersOf(rows, month))
  {
    if rows != [] {
      var front, r := rows[..|rows| - 1], rows[|rows| - 1];
      OneGroupPerMonth(front, month);
      MembersAreRows(front, month);
      var before := MembersOf(front, month);
      forall i | 0 <= i < |before| && r.month == month ensures before[i].employee != r.employee {
        assert before[i] in before;
        assert MemberRow(month, before[i].group, before[i].employee, before[i].ratio) in front;
      }
    }
  }

  lemma {:induction false} MonthRatios(t: GroupTables, rows: seq<MemberRow>, month: Month, g: GroupId)
    requires g in t.groups && t.groups[g].month == month
    requires forall r :: r in rows && r.group == g ==> r.month == month
    ensures TotalFor(MembersOf(rows, month), RatioPosting, g) == TotalFor(rows, RowRatio, g)
  {
    if rows != [] {
      var front, r := rows[..|rows| - 1], rows[|rows| - 1];
      assert r in rows;
      MonthRatios(t, front, month, g);
      var before := MembersOf(front, month);
      if r.month == month {
        assert MembersOf(rows, month)[..|before|] == before;
      } else {
        assert MembersOf(rows, month) == before;
      }
    }
  }

  /** The group checks of the calculation pass for every month. */
  lemma GroupsPassThePrecheck(t: GroupTables, month: Month, input: CalculationInput)
    requires Sound(t) && Balanced(t) && input.members == MembersOf(t.rows, month)
    ensures OneGroupEach(input.members) && RatiosSumToOne(input.members)
    ensures FirstFailure(input) != Some(EmployeeInTwoGroups) && FirstFailure(input) != Some(RatioSumNotOne)
  {
    OneGroupPerMonth(t.rows, month);
    MembersAreRows(t.rows, month);
    forall g | g in KeysOf(input.members, RatioPosting) ensures TotalFor(input.members, RatioPosting, g) == 1.0 {
      KeysAreKeysOfMembers(input.members, RatioPosting, g);
      var m :| m in input.members && m.group == g;
      assert MemberRow(month, g, m.employee, m.ratio) in t.rows;
      MonthRatios(t, t.rows, month, g);
    }
  }

  /** Disabling a group changes no calculation: its members still count. */
  lemma DisabledGroupsStillCount(t: GroupTables, seen: Seen, before: Option<GroupRow>, id: GroupId, month: Month)
    ensures MembersOf(Serve(t, DisableRequest(seen, before, id)).rows, month) == MembersOf(t.rows, month)
    ensures id in t.groups && before.Some? && before.value.month !in seen.lockedMonths ==>
              Serve(t, DisableRequest(seen, before, id)).groups[id].status.Disabled?
  {
  }

  lemma {:induction false} MembersOfBoth(a: seq<MemberRow>, b: seq<MemberRow>, month: Month)
    ensures MembersOf(a + b, month) == MembersOf(a, month) + MembersOf(b, month)
  {
    if b == [] {
      assert a + b == a;
    } else {
      assert (a + b)[..|a| + |b| - 1] == a + b[..|b| - 1];
      MembersOfBoth(a, b[..|b| - 1], month);
    }
  }

  lemma {:induction false} NoMembersOfOtherMonths(rows: seq<MemberRow>, month: Month)
    requires forall r :: r in rows ==> r.month != month
    ensures MembersOf(rows, month) == []
  {
    if rows != [] {
      assert rows[|rows| - 1] in rows;
      NoMembersOfOtherMonths(rows[..|rows| - 1], month);
    }
  }

  lemma {:induction false} MembersWithoutAGroup(rows: seq<MemberRow>, g: GroupId, month: Month)
    requires forall r :: r in rows && r.group == g ==> r.month != month
    ensures MembersOf(Without(rows, g), month) == MembersOf(rows, month)
  {
    if rows != [] {
      var front, r := rows[..|rows| - 1], rows[|rows| - 1];
      assert r in rows;
      MembersWithoutAGroup(front, g, month);
      if r.group == g {
        assert Without(rows, g) == Without(front, g);
      } else {
        assert Without(rows, g) == Without(front, g) + [r];
        OneMoreMember(Without(front, g), r, month);
      }
    }
  }

  /** The request replaces members of a group that is in this month by the time it writes. */
  predicate RewritesMonth(t: GroupTables, q: Request, month: Month) {
    q.UpdateRequest? && q.update.members.Some? && q.id in t.groups && t.groups[q.id].month == month
  }

  /** A request that saw the month locked leaves what the calculation of the month reads as it was, even when it moves
      a group, unless the group it writes is in the month by now. */
  lemma LockedMonthsKeepTheirMembers(t: GroupTables, q: Request, month: Month)
    requires Sound(t) && FreshId(t, q) && month in q.seen.lockedMonths
    requires !RewritesMonth(t, q, month)
    ensures MembersOf(Serve(t, q).rows, month) == MembersOf(t.rows, month)
  {
    hide Serve, Acceptable, OneRowEach, MembersOf;
    var after := Serve(t, q);
    if after != t && MembersOfRequest(q).Some? {
      WhatServingWrites(t, q);
      MonthsWereWritable(t, q);
      var added := NewRows(after.groups[q.id].month, q.id, Parsed(MembersOfRequest(q).value));
      NoMembersOfOtherMonths(added, month);
      if q.CreateRequest? {
        MembersOfBoth(t.rows, added, month);
      } else {
        MembersOfBoth(Without(t.rows, q.id), added, month);
        MembersWithoutAGroup(t.rows, q.id, month);
      }
    } else if after != t {
      WhatServingWrites(t, q);
    }
  }

  /** The month a request writes rows with was not locked when it looked, if the request names it or the group has not
      been moved since it was read. */
  lemma MonthsWereWritable(t: GroupTables, q: Request)
    requires FreshId(t, q) && Serve(t, q) != t
    ensures q.id in Serve(t, q).groups
    ensures q.UpdateRequest? ==> q.before.Some? && q.before.value.month !in q.seen.lockedMonths
    ensures q.UpdateRequest? && q.update.month.None? ==> Serve(t, q).groups[q.id].month == t.groups[q.id].month
    ensures q.CreateRequest? || (q.UpdateRequest? && q.update.month.Some?) ==>
              Serve(t, q).groups[q.id].month !in q.seen.lockedMonths
  {
    hide OneRowEach, OneNameEach, TakenElsewhere, Acceptable, NewRows, Without;
  }

  /** Hence, as long as the group has not been moved since the request read it, a month seen locked is safe. */
  lemma CurrentReadsKeepLockedMonths(t: GroupTables, q: Request, month: Month)
    requires Sound(t) && FreshId(t, q) && month in q.seen.lockedMonths
    requires q.UpdateRequest? && q.id in t.groups && q.before.Some? ==> q.before.value.month == t.groups[q.id].month
    ensures MembersOf(Serve(t, q).rows, month) == MembersOf(t.rows, month)
  {
    hide Serve, OneRowEach, MembersOf;
    if Serve(t, q) != t {
      MonthsWereWritable(t, q);
      LockedMonthsKeepTheirMembers(t, q, month);
    }
  }

  predicate HasMembers(t: GroupTables) {
    forall g :: g in t.groups ==> exists r :: r in t.rows && r.group == g
  }

  lemma ServingKeepsMembers(t: GroupTables, q: Request)
    requires HasMembers(t) && FreshId(t, q)
    ensures HasMembers(Serve(t, q))
  {
    hide Serve, OneRowEach, NewRows;
    var after := Serve(t, q);
    if after != t {
      WhatServingWrites(t, q);
      if MembersOfRequest(q).Some? {
        SomethingIsStored(after.groups[q.id].month, q.id, MembersOfRequest(q).value);
        WithoutKeepsOthers(t.rows, q.id);
        forall g | g in after.groups ensures exists r :: r in after.rows && r.group == g {
          if g != q.id {
            var r :| r in t.rows && r.group == g;
            assert r in after.rows;
          }
        }
      }
    }
  }

  lemma SomethingIsStored(month: Month, g: GroupId, ms: seq<MemberInput>)
    requires Acceptable(ms)
    ensures exists r :: r in NewRows(month, g, Parsed(ms)) && r.group == g
  {
    assert NewRows(month, g, Parsed(ms))[0] in NewRows(month, g, Parsed(ms));
  }

  lemma {:induction false} RunsKeepMembers(qs: seq<Request>)
    requires ValidRun(qs)
    ensures HasMembers(ServeAll(qs))
  {
    if qs != [] {
      RunsKeepMembers(qs[..|qs| - 1]);
      ServingKeepsMembers(ServeAll(qs[..|qs| - 1]), qs[|qs| - 1]);
    }
  }

  /** The list sent is, once stored, the one the group has. */
  predicate ResendsMembers(t: GroupTables, q: Request)
    requires q.UpdateRequest? && q.update.members.Some? && Passes(q.update.members.value) && q.id in t.groups
  {
    var stored := NewRows(t.groups[q.id].month, q.id, Parsed(q.update.members.value));
    && q.update.month.None?
    && (forall r :: r in stored ==> r in t.rows)
    && (forall r :: r in t.rows && r.group == q.id ==> r in stored)
  }

  /** A request that saw the month locked, and is served, leaves the members the calculation of the month reads as they
      were exactly when the group it writes is not in the month by now, or the same list is sent again. */
  lemma LockedMonthIsKeptExactlyWhen(t: GroupTables, q: Request, month: Month)
    requires Sound(t) && HasMembers(t) && FreshId(t, q) && month in q.seen.lockedMonths && Serve(t, q) != t
    ensures RewritesMonth(t, q, month) ==> Passes(q.update.members.value)
    ensures (forall m :: m in MembersOf(Serve(t, q).rows, month) <==> m in MembersOf(t.rows, month))
            <==> !RewritesMonth(t, q, month) || ResendsMembers(t, q)
  {
    hide Serve, Acceptable, OneRowEach, MembersOf, NewRows, Passes, Parsed;
    var after := Serve(t, q);
    if !RewritesMonth(t, q, month) {
      LockedMonthsKeepTheirMembers(t, q, month);
    } else {
      WhatServingWrites(t, q);
      MonthsWereWritable(t, q);
      var g, sent := q.id, Parsed(q.update.members.value);
      WithoutKeepsOthers(t.rows, g);
      StoredAreOfTheGroup(after.groups[g].month, g, sent);
      MembersAreRows(t.rows, month);
      MembersAreRows(after.rows, month);
      if q.update.month.Some? {
        var r :| r in t.rows && r.group == g;
        var m := GroupMember(g, r.employee, r.ratio);
        assert MemberRow(month, m.group, m.employee, m.ratio) == r && m in MembersOf(t.rows, month);
        assert m !in MembersOf(after.rows, month);
      } else {
        ReplacedMembers(t.rows, after.rows, month, g, NewRows(month, g, sent));
      }
    }
  }

  lemma StoredAreOfTheGroup(month: Month, g: GroupId, ms: seq<Member>)
    ensures forall r :: r in NewRows(month, g, ms) ==> r.month == month && r.group == g
  {
  }

  lemma ReplacedMembers(rows: seq<MemberRow>, after: seq<MemberRow>, month: Month, g: GroupId, added: seq<MemberRow>)
    requires forall r :: r in rows && r.group == g ==> r.month == month
    requires forall r :: r in added ==> r.month == month && r.group == g
    requires after == Without(rows, g) + added
    ensures (forall m :: m in MembersOf(after, month) <==> m in MembersOf(rows, month))
            <==> forall r :: r in added <==> r in rows && r.group == g
  {
    hide MembersOf;
    WithoutKeepsOthers(rows, g);
    MembersAreRows(rows, month);
    MembersAreRows(after, month);
    if forall m :: m in MembersOf(after, month) <==> m in MembersOf(rows, month) {
      forall r ensures r in added <==> r in rows && r.group == g {
        var m := GroupMember(r.group, r.employee, r.ratio);
        if r.month == month {
          assert MemberRow(month, m.group, m.employee, m.ratio) == r;
        }
      }
    }
  }

  /** What a request read before its transaction was the group at some point of the run before it. */
  predicate ReadsAreReal(qs: seq<Request>) {
    forall k :: 0 <= k < |qs| && !qs[k].CreateRequest? ==> exists n :: 0 <= n <= k && ReadAt(qs, k, n)
  }

  predicate ReadAt(qs: seq<Request>, k: nat, n: nat)
    requires n <= k < |qs| && !qs[k].CreateRequest?
  {
    var groups := ServeAll(qs[..n]).groups;
    qs[k].before == if qs[k].id in groups then Some(groups[qs[k].id]) else None
  }

  /** An update that read its group before the group was moved checks the lock of the old month only, and replaces the
      members of the new month although it is locked by then. */
  lemma LateUpdateRewritesLockedMonth() returns (qs: seq<Request>, month: Month)
    ensures ValidRun(qs) && ReadsAreReal(qs) && |qs| == 3
    ensures month in qs[2].seen.lockedMonths
    ensures MembersOf(ServeAll(qs).rows, month) != MembersOf(ServeAll(qs[..2]).rows, month)
  {
    hide Serve, MembersOf;
    var first, second := [MemberInput(Some(1), Some(1.0))], [MemberInput(Some(2), Some(1.0))];
    var june, july := GroupRow(6, 1, CommonStatus.Active), GroupRow(7, 1, CommonStatus.Active);
    month := 7;
    var create := CreateRequest(Seen({}, []), 5, CreateInput(6, Some(1), first, None));
    var move := UpdateRequest(Seen({}, []), Some(june), 5, UpdateInput(Some(7), None, false, Some(first), None));
    var late := UpdateRequest(Seen({7}, []), Some(june), 5, UpdateInput(None, None, false, Some(second), None));
    qs := [create, move, late];
    SoleMember(6, 5, 1);
    SoleMember(7, 5, 1);
    SoleMember(7, 5, 2);
    var t1 := GroupTables(map[5 := june], [MemberRow(6, 5, 1, 1.0)]);
    var t2 := GroupTables(map[5 := july], [MemberRow(7, 5, 1, 1.0)]);
    var t3 := GroupTables(map[5 := july], [MemberRow(7, 5, 2, 1.0)]);
    FirstOfSole(create, june);
    NextOfSole(t1, move, june, july, 1, 1);
    NextOfSole(t2, late, july, july, 1, 2);
    OneMoreRequest([], create);
    OneMoreRequest([create], move);
    OneMoreRequest([create, move], late);
    assert [] + [create] == [create] == qs[..1] && [create] + [move] == [create, move] == qs[..2];
    assert [create, move] + [late] == qs;
    assert ReadAt(qs, 1, 1) && ReadAt(qs, 2, 1);
    MembersAreRows(t2.rows, 7);
    MembersAreRows(t3.rows, 7);
    assert GroupMember(5, 2, 1.0) in MembersOf(t3.rows, 7) && GroupMember(5, 2, 1.0) !in MembersOf(t2.rows, 7);
  }

  lemma OneMoreRequest(qs: seq<Request>, q: Request)
    ensures ServeAll(qs + [q]) == Serve(ServeAll(qs), q)
    ensures ValidRun(qs + [q]) <==> ValidRun(qs) && FreshId(ServeAll(qs), q)
  {
    assert (qs + [q])[..|qs|] == qs;
  }

  /** One member with the whole share. */
  lemma SoleMember(month: Month, g: GroupId, e: EmployeeId)
    ensures var ms := [MemberInput(Some(e), Some(1.0))];
            && Acceptable(ms) && Parsed(ms) == [Member(e, 1.0)]
            && NewRows(month, g, Parsed(ms)) == [MemberRow(month, g, e, 1.0)]
  {
    var ms := [MemberInput(Some(e), Some(1.0))];
    assert Parsed(ms) == [Member(e, 1.0)] && Parsed(ms)[..0] == [];
    assert (1.0 * 1000000.0 + 0.5).Floor == 1000000;
  }

  lemma FirstOfSole(q: Request, row: GroupRow)
    requires q.CreateRequest? && q.seen == Seen({}, []) && q.create.status.None? && row.status.Active?
    requires q.create.name == Some(row.name) && q.create.month == row.month
    requires q.create.members == [MemberInput(Some(1), Some(1.0))]
    ensures Serve(GroupTables(map[], []), q) == GroupTables(map[q.id := row], [MemberRow(row.month, q.id, 1, 1.0)])
  {
    hide NewRows, Acceptable, Parsed;
    SoleMember(row.month, q.id, 1);
    assert [] + [MemberRow(row.month, q.id, 1, 1.0)] == [MemberRow(row.month, q.id, 1, 1.0)];
  }

  lemma NextOfSole(t: GroupTables, q: Request, was: GroupRow, row: GroupRow, e: EmployeeId, next: EmployeeId)
    requires q.UpdateRequest? && q.before.Some? && q.seen.rows == []
    requires t == GroupTables(map[q.id := was], [MemberRow(was.month, q.id, e, 1.0)])
    requires q.update.members == Some([MemberInput(Some(next), Some(1.0))])
    requires UpdateInputValid(q.update) && Updated(was, q.update) == row
    requires q.before.value.month !in q.seen.lockedMonths
    requires Updated(q.before.value, q.update).month !in q.seen.lockedMonths
    ensures Serve(t, q) == GroupTables(map[q.id := row], [MemberRow(row.month, q.id, next, 1.0)])
  {
    hide NewRows, Acceptable, Parsed;
    SoleMember(row.month, q.id, next);
    assert t.rows[..0] == [];
    assert Without(t.rows, q.id) == [];
    assert [] + [MemberRow(row.month, q.id, next, 1.0)] == [MemberRow(row.month, q.id, next, 1.0)];
  }

  /** Ratios with more than six decimals are accepted because they sum to 1, and may be stored so that they do not:
      the calculation of the month then fails. */
  lemma LongRatiosBlockTheMonth() returns (q: Request)
    ensures ValidRun([q]) && ServeAll([q]).groups.Keys == {q.id}
    ensures !RatiosSumToOne(MembersOf(ServeAll([q]).rows, 0))
  {
    hide Serve, Acceptable, Passes, Parsed, NewRows, Stored, MembersOf, RatiosSumToOne;
    var ms := [MemberInput(Some(1), Some(0.5000005)), MemberInput(Some(2), Some(0.4999995))];
    q := CreateRequest(Seen({}, []), 7, CreateInput(0, Some(1), ms, None));
    var rows := LongRatiosAreStoredShort(ms);
    AcceptedIntoEmptyTables(q, rows);
    assert [q][..0] == [];
    assert ServeAll([q]) == Serve(GroupTables(map[], []), q);
    SumIsOff(rows);
  }

  lemma AcceptedIntoEmptyTables(q: Request, rows: seq<MemberRow>)
    requires q.CreateRequest? && q.seen == Seen({}, []) && q.create.name.Some? && q.create.status.None?
    requires Acceptable(q.create.members) && rows == NewRows(q.create.month, q.id, Parsed(q.create.members))
    requires OneRowEach(rows)
    ensures Serve(GroupTables(map[], []), q).rows == rows && Serve(GroupTables(map[], []), q).groups.Keys == {q.id}
  {
    hide Acceptable, OneRowEach, Passes, Parsed, NewRows;
    assert [] + rows == rows;
  }

  lemma LongRatiosAreStoredShort(ms: seq<MemberInput>) returns (rows: seq<MemberRow>)
    requires ms == [MemberInput(Some(1), Some(0.5000005)), MemberInput(Some(2), Some(0.4999995))]
    ensures Acceptable(ms)
    ensures rows == NewRows(0, 7, Parsed(ms)) == [MemberRow(0, 7, 1, 0.500001), MemberRow(0, 7, 2, 0.5)]
  {
    var parsed := [Member(1, 0.5000005), Member(2, 0.4999995)];
    assert Parsed(ms) == parsed && parsed[..1] == [parsed[0]] && parsed[..1][..0] == [];
    assert RatioSum(parsed) == 1.0;
    assert (0.5000005 * 1000000.0 + 0.5).Floor == 500001 && (0.4999995 * 1000000.0 + 0.5).Floor == 500000;
    rows := NewRows(0, 7, parsed);
  }

  lemma SumIsOff(rows: seq<MemberRow>)
    requires rows == [MemberRow(0, 7, 1, 0.500001), MemberRow(0, 7, 2, 0.5)]
    ensures !RatiosSumToOne(MembersOf(rows, 0))
  {
    hide TotalFor, KeysOf, MembersOf;
    var a, b := GroupMember(7, 1, 0.500001), GroupMember(7, 2, 0.5);
    OneMoreMember([], rows[0], 0);
    OneMoreMember([rows[0]], rows[1], 0);
    assert [] + [rows[0]] == [rows[0]] && [rows[0]] + [rows[1]] == rows;
    assert MembersOf(rows, 0) == [a] + [b] by {
      NoMembersOfNoRows(0);
    }
    KeysAreKeysOfMembers([a] + [b], RatioPosting, 7);
    assert b in [a] + [b] && RatioPosting(b).value.key == 7;
    Appended([], a, RatioPosting, 7);
    Appended([a], b, RatioPosting, 7);
    assert [] + [a] == [a];
    NothingPosted(RatioPosting, 7);
  }

  lemma OneMoreMember(rows: seq<MemberRow>, r: MemberRow, month: Month)
    ensures MembersOf(rows + [r], month)
            == MembersOf(rows, month) + if r.month == month then [GroupMember(r.group, r.employee, r.ratio)] else []
  {
    assert (rows + [r])[..|rows|] == rows;
  }

  lemma NoMembersOfNoRows(month: Month)
    ensures MembersOf([], month) == []
  {
  }

  lemma NothingPosted<R>(post: R -> Option<Posting>, k: Key)
    ensures TotalFor([], post, k) == 0.0
  {
  }

  predicate HasSixDecimals(q: Request) {
    MembersOfRequest(q).Some? ==>
      forall m :: m in MembersOfRequest(q).value && m.ratio.Some? ==> SixDecimals(m.ratio.value)
  }

  predicate Positive(rows: seq<MemberRow>) {
    forall r :: r in rows ==> r.ratio > 0.0
  }

  /** The smallest ratio that is not stored as 0. */
  const LEAST_STORED := 0.0000005

  predicate AllStorable(ms: seq<MemberInput>) {
    forall m :: m in ms && m.ratio.Some? ==> m.ratio.value >= LEAST_STORED
  }

  lemma PositiveWhenStorable(ratio: real)
    ensures Stored(ratio) > 0.0 <==> ratio >= LEAST_STORED
  {
  }

  lemma StoredPositivesExactlyWhen(month: Month, g: GroupId, ms: seq<MemberInput>)
    requires Acceptable(ms)
    ensures Positive(NewRows(month, g, Parsed(ms))) <==> AllStorable(ms)
  {
    hide Stored;
    var rows := NewRows(month, g, Parsed(ms));
    forall i | 0 <= i < |ms|
      ensures ms[i] in ms && rows[i] in rows && (rows[i].ratio > 0.0 <==> ms[i].ratio.value >= LEAST_STORED)
    {
      assert ms[i] in ms;
      PositiveWhenStorable(ms[i].ratio.value);
    }
  }

  /** Validation asks for positive ratios, but a request leaves all stored ratios positive exactly when it stores none,
      or each of its ratios is at least half a millionth. */
  lemma PositiveStep(t: GroupTables, q: Request)
    requires FreshId(t, q) && Positive(t.rows)
    ensures var ms := MembersOfRequest(q);
            Positive(Serve(t, q).rows) <==> Serve(t, q) == t || ms.None? || AllStorable(ms.value)
  {
    hide Serve, OneRowEach, NewRows, AllStorable;
    var after := Serve(t, q);
    if after != t {
      WhatServingWrites(t, q);
      if MembersOfRequest(q).Some? {
        var month, ms := after.groups[q.id].month, MembersOfRequest(q).value;
        StoredPositivesExactlyWhen(month, q.id, ms);
        WithoutKeepsOthers(t.rows, q.id);
        assert forall r :: r in NewRows(month, q.id, Parsed(ms)) ==> r in after.rows;
      }
    }
  }

  /** The stored ratios are positive after each request of the run. */
  predicate AlwaysPositive(qs: seq<Request>) {
    Positive(ServeAll(qs).rows) && (qs == [] || AlwaysPositive(qs[..|qs| - 1]))
  }

  /** Each request of the run that is served sends only ratios that are not stored as 0. */
  predicate ServesStorable(qs: seq<Request>) {
    qs == [] ||
    var before, q := ServeAll(qs[..|qs| - 1]), qs[|qs| - 1];
    && ServesStorable(qs[..|qs| - 1])
    && (Serve(before, q) == before || MembersOfRequest(q).None? || AllStorable(MembersOfRequest(q).value))
  }

  /** Along every run the stored ratios are positive throughout exactly when every list that is stored has only ratios
      of at least half a millionth. */
  lemma {:induction false} PositiveExactlyWhen(qs: seq<Request>)
    requires ValidRun(qs)
    ensures AlwaysPositive(qs) <==> ServesStorable(qs)
  {
    hide Serve, AllStorable;
    if qs != [] {
      PositiveExactlyWhen(qs[..|qs| - 1]);
      if AlwaysPositive(qs[..|qs| - 1]) {
        assert Positive(ServeAll(qs[..|qs| - 1]).rows);
        PositiveStep(ServeAll(qs[..|qs| - 1]), qs[|qs| - 1]);
      }
    }
  }

  /** A list with a smaller ratio can sum to 1 and be accepted; it is then stored as 0 beside 1. */
  lemma TinyRatiosAreStoredAsZero() returns (q: Request)
    ensures ValidRun([q]) && Sound(ServeAll([q])) && Balanced(ServeAll([q]))
    ensures ServeAll([q]).rows == [MemberRow(0, 7, 1, 0.0), MemberRow(0, 7, 2, 1.0)]
    ensures !AlwaysPositive([q])
  {
    hide Serve, Acceptable, Passes, Parsed, NewRows, Stored, TotalFor, Balanced, Sound;
    var ms := [MemberInput(Some(1), Some(0.0000004)), MemberInput(Some(2), Some(0.9999996))];
    q := CreateRequest(Seen({}, []), 7, CreateInput(0, Some(1), ms, None));
    var rows := TinyRatiosAreAccepted(ms);
    AcceptedIntoEmptyTables(q, rows);
    assert [q][..0] == [];
    assert ServeAll([q]) == Serve(GroupTables(map[], []), q);
    assert rows[0] in ServeAll([q]).rows && rows[0].ratio == 0.0;
    assert AllRoundEvenly([q]);
    RunsKeepGroupsSound([q]);
  }

  lemma TinyRatiosAreAccepted(ms: seq<MemberInput>) returns (rows: seq<MemberRow>)
    requires ms == [MemberInput(Some(1), Some(0.0000004)), MemberInput(Some(2), Some(0.9999996))]
    ensures Acceptable(ms) && RoundsEvenly(ms)
    ensures rows == NewRows(0, 7, Parsed(ms)) == [MemberRow(0, 7, 1, 0.0), MemberRow(0, 7, 2, 1.0)]
  {
    var parsed := [Member(1, 0.0000004), Member(2, 0.9999996)];
    assert Parsed(ms) == parsed && parsed[..1] == [parsed[0]] && parsed[..1][..0] == [];
    assert RatioSum(parsed) == 1.0;
    assert (0.0000004 * 1000000.0 + 0.5).Floor == 0 && (0.9999996 * 1000000.0 + 0.5).Floor == 1000000;
    assert RoundingError(parsed) == 0.0;
    rows := NewRows(0, 7, parsed);
  }

  /** Positive ratios of six decimals are storable and do not round. */
  lemma SixDecimalsOf(q: Request)
    requires HasSixDecimals(q) && MembersOfRequest(q).Some?
    ensures RoundsEvenly(MembersOfRequest(q).value)
    ensures Acceptable(MembersOfRequest(q).value) ==> AllStorable(MembersOfRequest(q).value)
  {
    hide Stored, SixDecimals, RatioSum;
    var ms := MembersOfRequest(q).value;
    if Acceptable(ms) {
      forall i | 0 <= i < |ms| ensures SixDecimals(ms[i].ratio.value) && ms[i].ratio.value >= LEAST_STORED {
        assert ms[i] in ms;
        SixDecimalsAreStored(ms[i].ratio.value);
        PositiveWhenStorable(ms[i].ratio.value);
      }
      SixDecimalsDoNotRound(Parsed(ms));
    }
  }

  lemma {:induction false} SixDecimalsAreStorable(qs: seq<Request>)
    requires ValidRun(qs) && forall q :: q in qs ==> HasSixDecimals(q)
    ensures ServesStorable(qs)
  {
    hide Serve, HasSixDecimals, AllStorable;
    if qs != [] {
      var before, q := ServeAll(qs[..|qs| - 1]), qs[|qs| - 1];
      assert q in qs;
      SixDecimalsAreStorable(qs[..|qs| - 1]);
      if Serve(before, q) != before && MembersOfRequest(q).Some? {
        WhatServingWrites(before, q);
        SixDecimalsOf(q);
      }
    }
  }

  /** When every ratio ever sent has at most six decimals, after every run all ratios are positive and the group
      checks of the calculation pass for every month. */
  lemma SixDecimalsSuffice(qs: seq<Request>, month: Month, input: CalculationInput)
    requires ValidRun(qs) && (forall q :: q in qs ==> HasSixDecimals(q))
    requires input.members == MembersOf(ServeAll(qs).rows, month)
    ensures forall m :: m in input.members ==> m.ratio > 0.0
    ensures FirstFailure(input) != Some(EmployeeInTwoGroups) && FirstFailure(input) != Some(RatioSumNotOne)
  {
    hide *;
    assert AllRoundEvenly(qs) by {
      EveryRequestRoundsEvenly(qs);
    }
    RunsKeepGroupsSound(qs);
    SixDecimalsAreStorable(qs);
    PositiveExactlyWhen(qs);
    assert AlwaysPositive(qs);
    PositiveInTheEnd(qs);
    GroupsPassThePrecheck(ServeAll(qs), month, input);
    PositiveMembers(ServeAll(qs).rows, month);
  }

  lemma PositiveInTheEnd(qs: seq<Request>)
    ensures AlwaysPositive(qs) ==> Positive(ServeAll(qs).rows)
  {
  }

  /** What a request keeps: group months and memberships agree; nobody is in two groups of a month; sums and positivity
      under their exact conditions; and the months it saw locked, unless its group is in one of them by now. */
  ghost predicate KeptByRequest(before: GroupTables, q: Request, after: GroupTables) {
    Sound(before) && FreshId(before, q) ==>
      var ms := MembersOfRequest(q);
      && Sound(after)
      && (HasMembers(before) ==> HasMembers(after))
      && (Balanced(before) ==> (Balanced(after) <==> after == before || ms.None? || RoundsEvenly(ms.value)))
      && (Positive(before.rows) ==> (Positive(after.rows) <==> after == before || ms.None? || AllStorable(ms.value)))
      && forall m :: m in q.seen.lockedMonths && !RewritesMonth(before, q, m) ==>
           MembersOf(after.rows, m) == MembersOf(before.rows, m)
  }

  lemma ServingKeepsGroups(t: GroupTables, q: Request)
    ensures KeptByRequest(t, q, Serve(t, q))
  {
    hide Serve, Sound, HasMembers, Balanced, Positive, MembersOf, RoundsEvenly, AllStorable, RewritesMonth, FreshId;
    if Sound(t) && FreshId(t, q) {
      ServingKeepsSound(t, q);
      if HasMembers(t) {
        ServingKeepsMembers(t, q);
      }
      if Balanced(t) {
        BalancedStep(t, q);
      }
      if Positive(t.rows) {
        PositiveStep(t, q);
      }
      forall m | m in q.seen.lockedMonths && !RewritesMonth(t, q, m)
        ensures MembersOf(Serve(t, q).rows, m) == MembersOf(t.rows, m)
      {
        LockedMonthsKeepTheirMembers(t, q, m);
      }
    }
  }

  lemma EveryRequestRoundsEvenly(qs: seq<Request>)
    requires forall q :: q in qs ==> HasSixDecimals(q)
    ensures AllRoundEvenly(qs)
  {
    hide HasSixDecimals, RoundsEvenly;
    forall q | q in qs && MembersOfRequest(q).Some? ensures RoundsEvenly(MembersOfRequest(q).value) {
      SixDecimalsOf(q);
    }
  }

  lemma PositiveMembers(rows: seq<MemberRow>, month: Month)
    requires Positive(rows)
    ensures forall m :: m in MembersOf(rows, month) ==> m.ratio > 0.0
  {
    MembersAreRows(rows, month);
    forall m | m in MembersOf(rows, month) ensures m.ratio > 0.0 {
      assert MemberRow(month, m.group, m.employee, m.ratio) in rows;
    }
  }
}
