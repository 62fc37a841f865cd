/** Planning the sync tasks of a month: the preview, the generation, and generations that overlap. */
module SyncPlanning {
  import opened Wrappers
  import opened CommonTypes
  import opened Selections
  import opened SyncTaskRows

  datatype Slot = Affiliate(account: AccountId) | Card(provider: Provider)

  /** What planning reads and writes of a task. The planning key names the month and the slot. */
  datatype TaskRow = TaskRow(month: Month, source: SourceType, account: Option<AccountId>, provider: Option<Provider>,
                             planningKey: Option<(Month, Slot)>)

  datatype PlannedAccount = PlannedAccount(id: AccountId, platform: Platform, hasCredential: bool)

  /** The rest of what a preview reads: the month lock, the active accounts, the providers with credentials. */
  datatype Setting = Setting(locked: bool, accounts: seq<PlannedAccount>, credentials: set<Provider>)

  datatype PlanningBlocker = Because(category: ErrorCategory) | TaskAlreadyExists
  datatype Candidate = Candidate(slot: Slot, blockers: seq<PlanningBlocker>)

  // ---------- candidates ----------

  predicate Occupies(t: TaskRow, month: Month, slot: Slot) {
    t.month == month
    && match slot
       case Affiliate(a) => t.source.AffiliateIncome? && t.account == Some(a)
       case Card(p) => t.source.CardSpend? && t.provider == Some(p)
  }

  predicate Occupied(tasks: seq<TaskRow>, month: Month, slot: Slot) {
    exists t :: t in tasks && Occupies(t, month, slot)
  }

  function BlockersOf(locked: bool, supported: bool, credential: bool, taken: bool): seq<PlanningBlocker> {
    (if locked then [Because(MonthLocked)] else [])
    + (if supported then [] else [Because(UnsupportedPlatform)])
    + (if credential then [] else [Because(CredentialMissing)])
    + (if taken then [TaskAlreadyExists] else [])
  }

  predicate Supported(a: PlannedAccount) {
    a.platform in {Everflow, Cake}
  }

  function CandidateFor(tasks: seq<TaskRow>, month: Month, setting: Setting, a: PlannedAccount): Candidate {
    Candidate(Affiliate(a.id),
              BlockersOf(setting.locked, Supported(a), a.hasCredential, Occupied(tasks, month, Affiliate(a.id))))
  }

  function CardCandidate(tasks: seq<TaskRow>, month: Month, setting: Setting, p: Provider): Candidate {
    Candidate(Card(p), BlockersOf(setting.locked, true, p in setting.credentials, Occupied(tasks, month, Card(p))))
  }

  const CARD_PROVIDERS := [Airwallex, Photonpay]

  function Candidates(tasks: seq<TaskRow>, month: Month, setting: Setting): seq<Candidate> {
    seq(|setting.accounts|, i requires 0 <= i < |setting.accounts| =>
      CandidateFor(tasks, month, setting, setting.accounts[i]))
    + [CardCandidate(tasks, month, setting, Airwallex), CardCandidate(tasks, month, setting, Photonpay)]
  }

  function Creatable(): Candidate -> bool { (c: Candidate) => c.blockers == [] }
  function Existing(): Candidate -> bool { (c: Candidate) => TaskAlreadyExists in c.blockers }
  function Blocked(): Candidate -> bool { (c: Candidate) => c.blockers != [] && TaskAlreadyExists !in c.blockers }

  function SlotsOf(cs: seq<Candidate>): seq<Slot> {
    seq(|cs|, i requires 0 <= i < |cs| => cs[i].slot)
  }

  function CreatedSlots(tasks: seq<TaskRow>, month: Month, setting: Setting): seq<Slot> {
    SlotsOf(Select(Candidates(tasks, month, setting), Creatable()))
  }

  function NewTask(month: Month, slot: Slot): TaskRow {
    match slot
    case Affiliate(a) => TaskRow(month, AffiliateIncome, Some(a), None, Some((month, slot)))
    case Card(p) => TaskRow(month, CardSpend, None, Some(p), Some((month, slot)))
  }

  function NewTasks(month: Month, slots: seq<Slot>): seq<TaskRow> {
    seq(|slots|, i requires 0 <= i < |slots| => NewTask(month, slots[i]))
  }

  function Generated(tasks: seq<TaskRow>, month: Month, setting: Setting): seq<TaskRow> {
    tasks + NewTasks(month, CreatedSlots(tasks, month, setting))
  }

  // ---------- the service ----------

  datatype Summary = Summary(created: seq<Slot>, existing: seq<Candidate>, blocked: seq<Candidate>)

  class SyncPlanningService {
    var tasks: seq<TaskRow>

    constructor (tasks: seq<TaskRow>)
      ensures this.tasks == tasks
    {
      this.tasks := tasks;
    }

    method CollectBlockers(locked: bool, supported: bool, credential: bool, taken: bool)
      returns (blockers: seq<PlanningBlocker>)
      ensures blockers == BlockersOf(locked, supported, credential, taken)
    {
      blockers := [];
      if locked {
        blockers := blockers + [Because(MonthLocked)];
      }
      if !supported {
        blockers := blockers + [Because(UnsupportedPlatform)];
      }
      if !credential {
        blockers := blockers + [Because(CredentialMissing)];
      }
      if taken {
        blockers := blockers + [TaskAlreadyExists];
      }
    }

    method BuildPreview(month: Month, setting: Setting) returns (candidates: seq<Candidate>)
      ensures candidates == Candidates(tasks, month, setting)
    {
      hide Occupied, BlockersOf;
      candidates := [];
      for i := 0 to |setting.accounts|
        invariant candidates == Candidates(tasks, month, setting)[..i]
      {
        var a := setting.accounts[i];
        var taken := Occupied(tasks, month, Affiliate(a.id));
        var blockers := CollectBlockers(setting.locked, Supported(a), a.hasCredential, taken);
        candidates := candidates + [Candidate(Affiliate(a.id), blockers)];
      }
      for i := 0 to |CARD_PROVIDERS|
        invariant candidates == Candidates(tasks, month, setting)[..|setting.accounts| + i]
      {
        var p := CARD_PROVIDERS[i];
        var taken := Occupied(tasks, month, Card(p));
        var blockers := CollectBlockers(setting.locked, true, p in setting.credentials, taken);
        candidates := candidates + [Candidate(Card(p), blockers)];
      }
    }

    method Generate(month: Month, setting: Setting, manual: bool) returns (r: Option<Summary>)
      modifies this
      ensures r.None? <==> setting.locked && manual
      ensures tasks == if r.Some? then Generated(old(tasks), month, setting) else old(tasks)
      ensures r.Some? ==>
                && r.value.created == CreatedSlots(old(tasks), month, setting)
                && r.value.existing == Select(Candidates(old(tasks), month, setting), Existing())
                && r.value.blocked == Select(Candidates(old(tasks), month, setting), Blocked())
    {
      hide Candidates, Select;
      var candidates := BuildPreview(month, setting);
      if setting.locked && manual {
        return None;
      }
      var creatable := Select(candidates, Creatable());
      var created := [];
      for i := 0 to |creatable|
        invariant created == SlotsOf(creatable[..i])
        invariant tasks == old(tasks) + NewTasks(month, created)
      {
        assert SlotsOf(creatable[..i + 1]) == created + [creatable[i].slot];
        var task := NewTask(month, creatable[i].slot);
        assert NewTasks(month, created + [creatable[i].slot]) == NewTasks(month, created) + [task];
        tasks := tasks + [task];
        created := created + [creatable[i].slot];
      }
      assert creatable[..|creatable|] == creatable;
      return Some(Summary(created, Select(candidates, Existing()), Select(candidates, Blocked())));
    }
  }

  // ---------- what a preview says ----------

  /** Blockers are listed in this order. */
  function Rank(b: PlanningBlocker): nat {
    match b
    case Because(MonthLocked) => 0
    case Because(UnsupportedPlatform) => 1
    case Because(CredentialMissing) => 2
    case TaskAlreadyExists => 3
    case _ => 4
  }

  predicate Ordered(bs: seq<PlanningBlocker>) {
    forall j, k :: 0 <= j < k < |bs| ==> Rank(bs[j]) < Rank(bs[k])
  }

  /** The candidates are the accounts, then the two providers. Each lists, once and in order, exactly what stands in its
      way: the month is locked, the platform is unknown, the credential is missing, the slot has a task. */
  lemma BlockersSayWhy(tasks: seq<TaskRow>, month: Month, setting: Setting, i: nat)
    requires i < |setting.accounts| + 2
    ensures |Candidates(tasks, month, setting)| == |setting.accounts| + 2
    ensures var c, n := Candidates(tasks, month, setting)[i], |setting.accounts|;
            && c.slot == (if i < n then Affiliate(setting.accounts[i].id)
                          else if i == n then Card(Airwallex) else Card(Photonpay))
            && (Because(MonthLocked) in c.blockers <==> setting.locked)
            && (Because(UnsupportedPlatform) in c.blockers <==>
                  i < n && setting.accounts[i].platform !in {Everflow, Cake})
            && (Because(CredentialMissing) in c.blockers <==>
                  if i < n then !setting.accounts[i].hasCredential else c.slot.provider !in setting.credentials)
            && (TaskAlreadyExists in c.blockers <==>
                  exists t :: t in tasks && t.month == month &&
                    if i < n then t.source.AffiliateIncome? && t.account == Some(setting.accounts[i].id)
                    else t.source.CardSpend? && t.provider == Some(c.slot.provider))
            && (forall b :: b in c.blockers ==> Rank(b) <= 3) && Ordered(c.blockers)
  {
    hide BlockersOf, Ordered, Occupied;
    var n := |setting.accounts|;
    if i < n {
      var a := setting.accounts[i];
      SlotIsOccupied(tasks, month, Affiliate(a.id));
      BlockersAre(setting.locked, Supported(a), a.hasCredential, Occupied(tasks, month, Affiliate(a.id)));
      BlockersAreOrdered(setting.locked, Supported(a), a.hasCredential, Occupied(tasks, month, Affiliate(a.id)));
    } else {
      var p := if i == n then Airwallex else Photonpay;
      SlotIsOccupied(tasks, month, Card(p));
      BlockersAre(setting.locked, true, p in setting.credentials, Occupied(tasks, month, Card(p)));
      BlockersAreOrdered(setting.locked, true, p in setting.credentials, Occupied(tasks, month, Card(p)));
    }
  }

  lemma SlotIsOccupied(tasks: seq<TaskRow>, month: Month, slot: Slot)
    ensures Occupied(tasks, month, slot)
            <==> exists t :: t in tasks && t.month == month &&
                   if slot.Affiliate? then t.source.AffiliateIncome? && t.account == Some(slot.account)
                   else t.source.CardSpend? && t.provider == Some(slot.provider)
  {
    if t :| && t in tasks && t.month == month
            && if slot.Affiliate? then t.source.AffiliateIncome? && t.account == Some(slot.account)
               else t.source.CardSpend? && t.provider == Some(slot.provider)
    {
      assert Occupies(t, month, slot);
    }
  }

  lemma BlockersAre(locked: bool, supported: bool, credential: bool, taken: bool)
    ensures var bs := BlockersOf(locked, supported, credential, taken);
            && (Because(MonthLocked) in bs <==> locked) && (Because(UnsupportedPlatform) in bs <==> !supported)
            && (Because(CredentialMissing) in bs <==> !credential) && (TaskAlreadyExists in bs <==> taken)
            && (forall b :: b in bs ==> Rank(b) <= 3)
  {
  }

  lemma BlockersAreOrdered(locked: bool, supported: bool, credential: bool, taken: bool)
    ensures Ordered(BlockersOf(locked, supported, credential, taken))
  {
    hide Ordered;
    var first := if locked then [Because(MonthLocked)] else [];
    var second := if supported then [] else [Because(UnsupportedPlatform)];
    var third := if credential then [] else [Because(CredentialMissing)];
    OneBlockerIsOrdered(first);
    OneMoreBlocker(first, second);
    OneMoreBlocker(first + second, third);
    OneMoreBlocker(first + second + third, if taken then [TaskAlreadyExists] else []);
  }

  lemma OneBlockerIsOrdered(bs: seq<PlanningBlocker>)
    requires |bs| <= 1
    ensures Ordered(bs)
  {
  }

  lemma OneMoreBlocker(bs: seq<PlanningBlocker>, more: seq<PlanningBlocker>)
    requires Ordered(bs) && |more| <= 1
    requires forall b, c :: b in bs && c in more ==> Rank(b) < Rank(c)
    ensures Ordered(bs + more)
  {
    hide Rank;
  }

  // ---------- generating again ----------

  lemma NewTasksOccupy(tasks: seq<TaskRow>, month: Month, slots: seq<Slot>, slot: Slot)
    ensures Occupied(tasks + NewTasks(month, slots), month, slot) <==> Occupied(tasks, month, slot) || slot in slots
  {
    var added := NewTasks(month, slots);
    assert forall t :: t in tasks + added <==> t in tasks || t in added;
    if slot in slots {
      var i :| 0 <= i < |slots| && slots[i] == slot;
      assert added[i] in added && Occupies(added[i], month, slot);
    }
    if t :| t in added && Occupies(t, month, slot) {
      var i :| 0 <= i < |added| && added[i] == t;
      assert slots[i] == slot;
    }
  }

  /** A candidate after its own generation: what could be created now exists, the rest is as before. */
  predicate Advanced(before: Candidate, after: Candidate) {
    && after.slot == before.slot
    && after.blockers == if before.blockers == [] then [TaskAlreadyExists] else before.blockers
  }

  /** Account ids are primary keys. */
  predicate DistinctAccounts(setting: Setting) {
    forall i, j :: 0 <= i < j < |setting.accounts| ==> setting.accounts[i].id != setting.accounts[j].id
  }

  lemma SlotsAreDistinct(tasks: seq<TaskRow>, month: Month, setting: Setting, i: nat, j: nat)
    requires DistinctAccounts(setting) && i < j < |Candidates(tasks, month, setting)|
    ensures Candidates(tasks, month, setting)[i].slot != Candidates(tasks, month, setting)[j].slot
  {
    hide Occupied;
  }

  lemma CandidatesAdvance(tasks: seq<TaskRow>, month: Month, setting: Setting, i: nat)
    requires DistinctAccounts(setting) && i < |Candidates(tasks, month, setting)|
    ensures |Candidates(Generated(tasks, month, setting), month, setting)| == |Candidates(tasks, month, setting)|
    ensures Advanced(Candidates(tasks, month, setting)[i],
                     Candidates(Generated(tasks, month, setting), month, setting)[i])
  {
    hide Select, Occupied;
    var cs := Candidates(tasks, month, setting);
    var created := CreatedSlots(tasks, month, setting);
    NewTasksOccupy(tasks, month, created, cs[i].slot);
    CreatedExactlyWhen(tasks, month, setting, i);
  }

  lemma CreatedExactlyWhen(tasks: seq<TaskRow>, month: Month, setting: Setting, i: nat)
    requires DistinctAccounts(setting) && i < |Candidates(tasks, month, setting)|
    ensures Candidates(tasks, month, setting)[i].slot in CreatedSlots(tasks, month, setting)
            <==> Candidates(tasks, month, setting)[i].blockers == []
  {
    hide Select, Candidates;
    var cs, created := Candidates(tasks, month, setting), CreatedSlots(tasks, month, setting);
    var creatable := Select(cs, Creatable());
    SelectHas(cs, Creatable());
    if cs[i].blockers == [] {
      assert cs[i] in creatable;
      var k :| 0 <= k < |creatable| && creatable[k] == cs[i];
      assert created[k] == cs[i].slot;
    } else if cs[i].slot in created {
      var k :| 0 <= k < |created| && created[k] == cs[i].slot;
      assert creatable[k] in creatable;
      var j :| 0 <= j < |cs| && cs[j] == creatable[k];
      if i < j {
        SlotsAreDistinct(tasks, month, setting, i, j);
      } else {
        SlotsAreDistinct(tasks, month, setting, j, i);
      }
    }
  }

  /** A task is planned exactly for the slots of supported accounts and of card providers that have a credential, in
      an unlocked month, that no task of the month occupies yet. */
  lemma PlannedExactlyWhen(tasks: seq<TaskRow>, month: Month, setting: Setting, slot: Slot)
    requires DistinctAccounts(setting)
    ensures slot in CreatedSlots(tasks, month, setting)
            <==> && !setting.locked && !Occupied(tasks, month, slot)
                 && match slot
                    case Affiliate(id) =>
                      exists a :: a in setting.accounts && a.id == id && Supported(a) && a.hasCredential
                    case Card(p) => p in setting.credentials
  {
    hide Select, Occupied, CreatedSlots;
    var cs := Candidates(tasks, month, setting);
    match slot
    case Affiliate(id) =>
      if i :| 0 <= i < |setting.accounts| && setting.accounts[i].id == id {
        CreatedExactlyWhen(tasks, month, setting, i);
        assert cs[i] == CandidateFor(tasks, month, setting, setting.accounts[i]);
      } else {
        CreatedAreCandidates(tasks, month, setting, slot);
      }
    case Card(p) =>
      var i := |setting.accounts| + if p.Airwallex? then 0 else 1;
      assert cs[i] == CardCandidate(tasks, month, setting, p);
      CreatedExactlyWhen(tasks, month, setting, i);
  }

  lemma CreatedAreCandidates(tasks: seq<TaskRow>, month: Month, setting: Setting, slot: Slot)
    ensures slot in CreatedSlots(tasks, month, setting) && slot.Affiliate? ==>
              exists a :: a in setting.accounts && a.id == slot.account
  {
    hide Occupied, Select;
    var cs, created := Candidates(tasks, month, setting), CreatedSlots(tasks, month, setting);
    if slot in created {
      var creatable := Select(cs, Creatable());
      SelectHas(cs, Creatable());
      var k :| 0 <= k < |created| && created[k] == slot;
      assert creatable[k] in creatable;
    }
  }

  lemma {:induction false} AdvancedSelections(before: seq<Candidate>, after: seq<Candidate>)
    requires |before| == |after| && forall i :: 0 <= i < |before| ==> Advanced(before[i], after[i])
    ensures Select(after, Creatable()) == []
    ensures SlotsOf(Select(after, Blocked())) == SlotsOf(Select(before, Blocked()))
    ensures |Select(after, Blocked())| == |Select(before, Blocked())|
    ensures |Select(after, Existing())| == |Select(before, Existing())| + |Select(before, Creatable())|
    ensures |before| == |Select(before, Existing())| + |Select(before, Creatable())| + |Select(before, Blocked())|
  {
    if before != [] {
      var n := |before| - 1;
      AdvancedSelections(before[..n], after[..n]);
      assert Advanced(before[n], after[n]);
      SelectedSlots(before, Blocked());
      SelectedSlots(after, Blocked());
    }
  }

  lemma SelectedSlots(cs: seq<Candidate>, p: Candidate -> bool)
    requires cs != []
    ensures SlotsOf(Select(cs, p))
            == SlotsOf(Select(cs[..|cs| - 1], p)) + if p(cs[|cs| - 1]) then [cs[|cs| - 1].slot] else []
  {
    hide Select, SlotsOf;
    SelectUnfold(cs, p);
    var front, last := Select(cs[..|cs| - 1], p), cs[|cs| - 1];
    OneMoreSlot(front, last);
    assert front + [] == front && SlotsOf(front) + [] == SlotsOf(front);
  }

  lemma OneMoreSlot(cs: seq<Candidate>, c: Candidate)
    ensures SlotsOf(cs + [c]) == SlotsOf(cs) + [c.slot]
  {
  }

  /** Generating again at once creates nothing, finds what there was and what was created, and is blocked on the same
      slots. */
  lemma GeneratingAgain(tasks: seq<TaskRow>, month: Month, setting: Setting)
    requires DistinctAccounts(setting)
    ensures var before := Candidates(tasks, month, setting);
            var after := Candidates(Generated(tasks, month, setting), month, setting);
            && CreatedSlots(Generated(tasks, month, setting), month, setting) == []
            && |Select(after, Existing())| == |Select(before, Existing())| + |CreatedSlots(tasks, month, setting)|
            && SlotsOf(Select(after, Blocked())) == SlotsOf(Select(before, Blocked()))
            && |before| == |Select(before, Existing())| + |CreatedSlots(tasks, month, setting)|
                           + |Select(before, Blocked())|
  {
    hide Select, Candidates, Advanced;
    var before := Candidates(tasks, month, setting);
    var after := Candidates(Generated(tasks, month, setting), month, setting);
    CandidateCount(tasks, month, setting);
    CandidateCount(Generated(tasks, month, setting), month, setting);
    forall i | 0 <= i < |before| ensures Advanced(before[i], after[i]) {
      CandidatesAdvance(tasks, month, setting, i);
    }
    AdvancedSelections(before, after);
  }

  lemma CandidateCount(tasks: seq<TaskRow>, month: Month, setting: Setting)
    ensures |Candidates(tasks, month, setting)| == |setting.accounts| + 2
  {
  }

  // ---------- generations that overlap ----------

  type RunId = nat

  /** A generation that holds the lock of its month and has read its preview. */
  datatype Plan = Plan(month: Month, slots: seq<Slot>)

  datatype State = State(tasks: seq<TaskRow>, lockedBy: map<Month, RunId>, plans: map<RunId, Plan>)

  datatype Event =
    | Begin(run: RunId, month: Month, setting: Setting, manual: bool)
    | Commit(run: RunId)
    | Abort(run: RunId)
    | CreateManually(task: TaskRow)

  /** With `monthLock` false a generation would read without waiting for the one that holds its month. */
  predicate Enabled(monthLock: bool, s: State, e: Event) {
    match e
    case Begin(run, month, setting, _) =>
      (monthLock ==> month !in s.lockedBy) && run !in s.plans && DistinctAccounts(setting)
    case Commit(run) => run in s.plans
    case Abort(run) => run in s.plans
    case CreateManually(task) => task.planningKey.None?
  }

  function Release(s: State, run: RunId): State
    requires run in s.plans
  {
    s.(lockedBy := s.lockedBy - {s.plans[run].month}, plans := s.plans - {run})
  }

  /** The unique key of planning_key: no two planned tasks of a month have one slot. */
  predicate OnePlannedPerSlot(tasks: seq<TaskRow>) {
    forall i, j :: 0 <= i < j < |tasks| && tasks[i].planningKey.Some? ==> tasks[j].planningKey != tasks[i].planningKey
  }

  /** The unique key refuses one of the inserts of the plan, and its transaction is rolled back. */
  predicate CommitRefused(s: State, run: RunId)
    requires run in s.plans
  {
    !OnePlannedPerSlot(s.tasks + NewTasks(s.plans[run].month, s.plans[run].slots))
  }

  function Next(s: State, e: Event): State
    requires Enabled(false, s, e)
  {
    match e
    case Begin(run, month, setting, manual) =>
      if setting.locked && manual then s else
        s.(lockedBy := s.lockedBy[month := run],
           plans := s.plans[run := Plan(month, CreatedSlots(s.tasks, month, setting))])
    case Commit(run) =>
      if CommitRefused(s, run) then Release(s, run)
      else Release(s, run).(tasks := s.tasks + NewTasks(s.plans[run].month, s.plans[run].slots))
    case Abort(run) => Release(s, run)
    case CreateManually(task) => s.(tasks := s.tasks + [task])
  }

  predicate ValidRun(monthLock: bool, es: seq<Event>)
    decreases |es|, 0
  {
    es == [] ||
    (ValidRun(monthLock, es[..|es| - 1]) && Enabled(monthLock, After(monthLock, es[..|es| - 1]), es[|es| - 1]))
  }

  function After(monthLock: bool, es: seq<Event>): State
    requires ValidRun(monthLock, es)
    decreases |es|, 1
  {
    if es == [] then State([], map[], map[]) else Next(After(monthLock, es[..|es| - 1]), es[|es| - 1])
  }

  // ---------- one planned task per slot ----------

  predicate KeysFit(tasks: seq<TaskRow>) {
    forall t :: t in tasks && t.planningKey.Some? ==> Occupies(t, t.planningKey.value.0, t.planningKey.value.1)
  }

  predicate Unplanned(tasks: seq<TaskRow>, month: Month, slot: Slot) {
    forall t :: t in tasks ==> t.planningKey != Some((month, slot))
  }

  predicate PlanOk(tasks: seq<TaskRow>, p: Plan) {
    && (forall i, j :: 0 <= i < j < |p.slots| ==> p.slots[i] != p.slots[j])
    && forall slot :: slot in p.slots ==> Unplanned(tasks, p.month, slot)
  }

  predicate Inv(s: State) {
    && OnePlannedPerSlot(s.tasks) && KeysFit(s.tasks)
    && forall run :: run in s.plans ==>
         && s.plans[run].month in s.lockedBy && s.lockedBy[s.plans[run].month] == run
         && PlanOk(s.tasks, s.plans[run])
  }

  lemma FreshPlanIsOk(tasks: seq<TaskRow>, month: Month, setting: Setting)
    requires KeysFit(tasks) && DistinctAccounts(setting)
    ensures PlanOk(tasks, Plan(month, CreatedSlots(tasks, month, setting)))
  {
    hide Select, DistinctAccounts;
    var cs, slots := Candidates(tasks, month, setting), CreatedSlots(tasks, month, setting);
    var creatable := Select(cs, Creatable());
    SelectHas(cs, Creatable());
    SlotsStayDistinct(cs, tasks, month, setting);
    forall slot | slot in slots ensures Unplanned(tasks, month, slot) {
      var k :| 0 <= k < |slots| && slots[k] == slot;
      assert creatable[k] in creatable;
      assert creatable[k].blockers == [] && creatable[k].slot == slot;
      assert !Occupied(tasks, month, slot);
    }
  }

  lemma SlotsStayDistinct(cs: seq<Candidate>, tasks: seq<TaskRow>, month: Month, setting: Setting)
    requires cs == Candidates(tasks, month, setting) && DistinctAccounts(setting)
    ensures forall i, j :: 0 <= i < j < |CreatedSlots(tasks, month, setting)| ==>
              CreatedSlots(tasks, month, setting)[i] != CreatedSlots(tasks, month, setting)[j]
  {
    hide Candidates, Select;
    forall i, j | 0 <= i < j < |cs| ensures cs[i].slot != cs[j].slot {
      SlotsAreDistinct(tasks, month, setting, i, j);
    }
    SelectDistinct(cs, Creatable());
    assert CreatedSlots(tasks, month, setting) == SlotsOf(Select(cs, Creatable()));
  }

  lemma {:induction false} SelectDistinct(cs: seq<Candidate>, p: Candidate -> bool)
    requires forall i, j :: 0 <= i < j < |cs| ==> cs[i].slot != cs[j].slot
    ensures var ss := SlotsOf(Select(cs, p)); forall i, j :: 0 <= i < j < |ss| ==> ss[i] != ss[j]
  {
    if cs != [] {
      var n := |cs| - 1;
      SelectDistinct(cs[..n], p);
      SelectHas(cs[..n], p);
      SelectedSlots(cs, p);
      forall i | 0 <= i < |Select(cs[..n], p)| ensures Select(cs[..n], p)[i].slot != cs[n].slot {
        assert Select(cs[..n], p)[i] in cs[..n];
      }
    }
  }

  lemma CommittedPlanIsOk(tasks: seq<TaskRow>, p: Plan)
    requires OnePlannedPerSlot(tasks) && KeysFit(tasks) && PlanOk(tasks, p)
    ensures OnePlannedPerSlot(tasks + NewTasks(p.month, p.slots)) && KeysFit(tasks + NewTasks(p.month, p.slots))
  {
    var added := NewTasks(p.month, p.slots);
    var all := tasks + added;
    AddedTasks(tasks, p);
    forall i, j | 0 <= i < j < |all| && all[i].planningKey.Some? ensures all[j].planningKey != all[i].planningKey {
      if i < |tasks| <= j {
        assert all[i] in tasks && p.slots[j - |tasks|] in p.slots;
        assert Unplanned(tasks, p.month, p.slots[j - |tasks|]);
      }
    }
  }

  lemma AddedTasks(tasks: seq<TaskRow>, p: Plan)
    ensures forall t :: t in tasks + NewTasks(p.month, p.slots) <==> t in tasks || t in NewTasks(p.month, p.slots)
    ensures forall t :: t in NewTasks(p.month, p.slots) ==>
              t.planningKey.Some? && t.planningKey.value.0 == p.month && Occupies(t, p.month, t.planningKey.value.1)
  {
  }

  lemma OtherPlansStayOk(tasks: seq<TaskRow>, p: Plan, q: Plan)
    requires q.month != p.month && PlanOk(tasks, q)
    ensures PlanOk(tasks + NewTasks(p.month, p.slots), q)
  {
    AddedTasks(tasks, p);
  }

  /** Every step keeps: each plan in flight holds the lock of its month and names only slots without a planned task. */
  lemma StepKeepsInvariant(s: State, e: Event)
    requires Inv(s) && Enabled(true, s, e)
    ensures Inv(Next(s, e))
  {
    match e {
      case Begin(run, month, setting, manual) =>
        hide CreatedSlots, OnePlannedPerSlot, KeysFit, PlanOk, DistinctAccounts;
        FreshPlanIsOk(s.tasks, month, setting);
      case Commit(run) =>
        hide OnePlannedPerSlot, KeysFit, PlanOk, NewTasks;
        CommittedPlanIsOk(s.tasks, s.plans[run]);
        forall other | other in s.plans && other != run ensures PlanOk(Next(s, e).tasks, s.plans[other]) {
          OtherPlansStayOk(s.tasks, s.plans[run], s.plans[other]);
        }
      case Abort(run) =>
      case CreateManually(task) =>
    }
  }

  lemma {:induction false} RunKeepsInvariant(es: seq<Event>)
    requires ValidRun(true, es)
    ensures Inv(After(true, es))
  {
    hide Inv, Enabled, Next;
    if es == [] {
      NothingPlanned();
    } else {
      RunKeepsInvariant(es[..|es| - 1]);
      StepKeepsInvariant(After(true, es[..|es| - 1]), es[|es| - 1]);
    }
  }

  lemma NothingPlanned()
    ensures Inv(State([], map[], map[]))
  {
  }

  /** Under any interleaving of generations, aborts and manual creations, a generation that has read its preview under
      the month's lock can commit: the unique key never refuses it, all its tasks are created, and no slot of a month
      is planned twice. */
  lemma NoCommitIsRefused(es: seq<Event>, run: RunId)
    requires ValidRun(true, es) && run in After(true, es).plans
    ensures var s := After(true, es);
            && !CommitRefused(s, run)
            && Next(s, Commit(run)).tasks == s.tasks + NewTasks(s.plans[run].month, s.plans[run].slots)
            && OnePlannedPerSlot(Next(s, Commit(run)).tasks)
  {
    hide OnePlannedPerSlot, KeysFit, PlanOk, NewTasks, After;
    RunKeepsInvariant(es);
    CommittedPlanIsOk(After(true, es).tasks, After(true, es).plans[run]);
  }

  /** With the lock or without it, the unique key keeps a month from having two planned tasks for a slot. */
  lemma {:induction false} OnePlannedTaskPerSlot(monthLock: bool, es: seq<Event>)
    requires ValidRun(monthLock, es)
    ensures OnePlannedPerSlot(After(monthLock, es).tasks)
  {
    hide Candidates, Select;
    if es != [] {
      OnePlannedTaskPerSlot(monthLock, es[..|es| - 1]);
    }
  }

  /** Without the lock, two generations that both read before either commits plan the same slots, and the second one
      fails on the unique key: whenever there is anything to plan, this run makes a commit be refused. */
  lemma TheLockIsNeeded(month: Month, setting: Setting) returns (es: seq<Event>)
    requires DistinctAccounts(setting) && !setting.locked && CreatedSlots([], month, setting) != []
    ensures ValidRun(false, es) && 1 in After(false, es).plans && CommitRefused(After(false, es), 1)
    ensures !ValidRun(true, es)
  {
    hide CreatedSlots, NewTasks, OnePlannedPerSlot, DistinctAccounts;
    var first, second := Begin(0, month, setting, false), Begin(1, month, setting, false);
    var slots := CreatedSlots([], month, setting);
    var plan := Plan(month, slots);
    var s1 := State([], map[month := 0], map[0 := plan]);
    var s2 := State([], map[month := 1], map[0 := plan, 1 := plan]);
    FirstPlanFits(month, setting);
    var added := NewTasks(month, slots);
    OneMoreEvent(false, [], first);
    OneMoreEvent(false, [] + [first], second);
    OneMoreEvent(false, [] + [first] + [second], Commit(0));
    es := [] + [first] + [second] + [Commit(0)];
    assert After(false, [] + [first]) == s1 && After(false, [] + [first] + [second]) == s2;
    assert [] + added == added;
    assert After(false, es).tasks == added && After(false, es).plans[1] == plan;
    PlannedTwice(month, slots);
    OneMoreEvent(true, [], first);
    OneMoreEvent(true, [] + [first], second);
    OneMoreEvent(true, [] + [first] + [second], Commit(0));
    assert month in s1.lockedBy;
  }

  lemma OneMoreEvent(monthLock: bool, es: seq<Event>, e: Event)
    ensures ValidRun(monthLock, es + [e]) <==> ValidRun(monthLock, es) && Enabled(monthLock, After(monthLock, es), e)
    ensures ValidRun(monthLock, es + [e]) ==> After(monthLock, es + [e]) == Next(After(monthLock, es), e)
  {
    hide Enabled, Next;
    assert (es + [e])[..|es|] == es;
  }

  lemma FirstPlanFits(month: Month, setting: Setting)
    requires DistinctAccounts(setting)
    ensures OnePlannedPerSlot([] + NewTasks(month, CreatedSlots([], month, setting)))
  {
    hide CreatedSlots, OnePlannedPerSlot, KeysFit, PlanOk, DistinctAccounts, NewTasks;
    NothingPlannedFits();
    FreshPlanIsOk([], month, setting);
    CommittedPlanIsOk([], Plan(month, CreatedSlots([], month, setting)));
  }

  lemma NothingPlannedFits()
    ensures OnePlannedPerSlot([]) && KeysFit([])
  {
  }

  lemma PlannedTwice(month: Month, slots: seq<Slot>)
    requires slots != []
    ensures !OnePlannedPerSlot(NewTasks(month, slots) + NewTasks(month, slots))
  {
    var both := NewTasks(month, slots) + NewTasks(month, slots);
    assert both[0] == NewTask(month, slots[0]) == both[|slots|];
  }
}
