/** Cards, exclusions and aliases of PhotonPay, and the incremental rematch of unmatched cards. */
module CardRematch {
  import opened Wrappers
  import opened CommonTypes
  import opened Selections
  import opened CardMatching
  import P = Postings

  type CardId = nat
  type ExclusionId = nat

  datatype Card = Card(provider: Provider, email: Option<Email>, employee: Option<EmployeeId>, status: MatchStatus,
                       source: Option<MatchSource>, code: Option<Code>)
  datatype Exclusion = Exclusion(card: CardId, active: bool, effectiveFrom: Instant, effectiveTo: Option<Instant>)
  datatype Rows = Rows(aliases: map<AliasId, Alias>, exclusions: map<ExclusionId, Exclusion>, cards: map<CardId, Card>)

  /** What the rest of the system holds when cards are matched. */
  datatype World = World(employees: seq<Employee>, subMapped: set<EmployeeId>, now: Instant)

  datatype Scope = AllCards | OfEmail(email: Email) | OfCard(card: CardId)

  // ---------- judging one card ----------

  function EffectiveAt(now: Instant): Alias -> bool {
    (a: Alias) => Effective(a, now)
  }

  function AliasList(aliases: map<AliasId, Alias>): (list: seq<Alias>)
    ensures |list| == |P.Ascending(aliases.Keys)|
    ensures forall i :: 0 <= i < |list| ==> list[i] == aliases[P.Ascending(aliases.Keys)[i]]
  {
    var ids := P.Ascending(aliases.Keys);
    seq(|ids|, i requires 0 <= i < |ids| => (assert ids[i] in ids; aliases[ids[i]]))
  }

  lemma ListHasAliases(aliases: map<AliasId, Alias>)
    ensures forall a :: a in AliasList(aliases) <==> exists id :: id in aliases && aliases[id] == a
  {
    var ids, list := P.Ascending(aliases.Keys), AliasList(aliases);
    assert forall id :: id in aliases ==> id in ids;
    assert forall i :: 0 <= i < |ids| ==> ids[i] in ids;
    forall id | id in aliases ensures aliases[id] in list {
      var i :| 0 <= i < |ids| && ids[i] == id;
      assert list[i] == aliases[id];
    }
  }

  function DirectoryOf(aliases: map<AliasId, Alias>, world: World): Directory {
    Directory(world.employees, Select(AliasList(aliases), EffectiveAt(world.now)), world.subMapped, world.now)
  }

  predicate InForce(x: Exclusion, now: Instant) {
    x.active && x.effectiveFrom <= now && (x.effectiveTo.None? || x.effectiveTo.value > now)
  }

  predicate IsExcluded(exclusions: map<ExclusionId, Exclusion>, id: CardId, now: Instant) {
    exists x :: x in exclusions && exclusions[x].card == id && InForce(exclusions[x], now)
  }

  function Judge(rows: Rows, world: World, provider: Provider, id: CardId, email: Option<Email>, forced: Option<Code>)
    : CardMatch
  {
    if IsExcluded(rows.exclusions, id, world.now) then NoMatch(MatchStatus.Excluded, AdminTestCard)
    else MatchProviderCard(provider, email, forced, DirectoryOf(rows.aliases, world))
  }

  function Written(card: Card, m: CardMatch): Card {
    card.(employee := m.employee, status := m.status, source := m.source, code := m.code)
  }

  // ---------- the rematch ----------

  predicate InScope(id: CardId, card: Card, scope: Scope) {
    && card.provider.Photonpay? && card.status.Unmatched?
    && match scope
       case AllCards => true
       case OfEmail(email) => card.email == Some(email)
       case OfCard(only) => id == only
  }

  function Rejudged(rows: Rows, world: World, id: CardId): Card
    requires id in rows.cards
  {
    Written(rows.cards[id], Judge(rows, world, Photonpay, id, rows.cards[id].email, None))
  }

  function Rematched(rows: Rows, world: World, scope: Scope): Rows {
    rows.(cards := map id | id in rows.cards ::
            if InScope(id, rows.cards[id], scope) then Rejudged(rows, world, id) else rows.cards[id])
  }

  datatype Judged = Judged(before: Card, outcome: CardMatch)

  function InScopeIds(cards: map<CardId, Card>, scope: Scope): seq<CardId> {
    P.Ascending(set id | id in cards && InScope(id, cards[id], scope))
  }

  function JudgedCards(rows: Rows, world: World, scope: Scope): (js: seq<Judged>)
    ensures |js| == |InScopeIds(rows.cards, scope)|
    ensures forall j :: j in js ==> j.before.status.Unmatched?
  {
    var ids := InScopeIds(rows.cards, scope);
    assert forall i :: 0 <= i < |ids| ==> ids[i] in ids;
    seq(|ids|, i requires 0 <= i < |ids| =>
      Judged(rows.cards[ids[i]], Judge(rows, world, Photonpay, ids[i], rows.cards[ids[i]].email, None)))
  }

  datatype RematchStats = RematchStats(
    matchedByPrimaryEmail: nat, matchedByAlias: nat, excluded: nat, remainingUnmatched: nat, conflict: nat,
    employeeDisabled: nat, employeeWithoutSub: nat, resolvedExceptionCount: nat, processedCount: nat, changedCount: nat)

  const EMPTY_REMATCH_RESULT := RematchStats(0, 0, 0, 0, 0, 0, 0, 0, 0, 0)

  predicate ByPrimary(m: CardMatch) { m.status.Matched? && m.source == Some(PrimaryEmail) }
  predicate ByAlias(m: CardMatch) { m.status.Matched? && m.source == Some(ProviderEmailAlias) }
  predicate Changes(j: Judged) { Written(j.before, j.outcome) != j.before }
  predicate Resolves(j: Judged) { Changes(j) && (j.outcome.status.Matched? || j.outcome.status.Excluded?) }

  function HasStatus(status: MatchStatus): Judged -> bool { (j: Judged) => j.outcome.status == status }
  function HasCode(code: Code): Judged -> bool { (j: Judged) => j.outcome.code == Some(code) }
  function OwnEmail(): Judged -> bool { (j: Judged) => ByPrimary(j.outcome) }
  function Aliased(): Judged -> bool { (j: Judged) => ByAlias(j.outcome) }
  function Remaining(): Judged -> bool {
    (j: Judged) =>
      !j.outcome.status.Excluded? && !j.outcome.status.Conflict? && !ByPrimary(j.outcome) && !ByAlias(j.outcome)
  }
  function Changing(): Judged -> bool { (j: Judged) => Changes(j) }
  function Resolving(): Judged -> bool { (j: Judged) => Resolves(j) }

  function Count(js: seq<Judged>, p: Judged -> bool): nat {
    |Select(js, p)|
  }

  /** What the counters count. */
  ghost predicate Counted(stats: RematchStats, js: seq<Judged>, actor: bool, preview: bool) {
    && stats.matchedByPrimaryEmail == Count(js, OwnEmail())
    && stats.matchedByAlias == Count(js, Aliased())
    && stats.excluded == Count(js, HasStatus(MatchStatus.Excluded))
    && stats.remainingUnmatched == Count(js, Remaining())
    && stats.conflict == Count(js, HasStatus(MatchStatus.Conflict))
    && stats.employeeDisabled == Count(js, HasCode(EmployeeDisabled))
    && stats.employeeWithoutSub == Count(js, HasCode(EmployeeWithoutSub))
    && stats.processedCount == |js|
    && stats.changedCount == (if preview then 0 else Count(js, Changing()))
    && stats.resolvedExceptionCount == (if preview || !actor then 0 else Count(js, Resolving()))
  }

  function Increment(stats: RematchStats, m: CardMatch): RematchStats {
    var s :=
      if m.status.Excluded? then stats.(excluded := stats.excluded + 1)
      else if m.status.Conflict? then stats.(conflict := stats.conflict + 1)
      else if ByPrimary(m) then stats.(matchedByPrimaryEmail := stats.matchedByPrimaryEmail + 1)
      else if ByAlias(m) then stats.(matchedByAlias := stats.matchedByAlias + 1)
      else stats.(remainingUnmatched := stats.remainingUnmatched + 1);
    if m.code == Some(EmployeeDisabled) then s.(employeeDisabled := s.employeeDisabled + 1)
    else if m.code == Some(EmployeeWithoutSub) then s.(employeeWithoutSub := s.employeeWithoutSub + 1)
    else s
  }

  function Recorded(stats: RematchStats, j: Judged, actor: bool, preview: bool): RematchStats {
    var s := Increment(stats.(processedCount := stats.processedCount + 1), j.outcome);
    if preview || !Changes(j) then s
    else s.(changedCount := s.changedCount + 1,
            resolvedExceptionCount := s.resolvedExceptionCount + if actor && Resolves(j) then 1 else 0)
  }

  lemma CountStep(js: seq<Judged>, j: Judged, p: Judged -> bool)
    ensures Count(js + [j], p) == Count(js, p) + if p(j) then 1 else 0
  {
    assert (js + [j])[..|js|] == js;
  }

  lemma RecordedIsCounted(stats: RematchStats, js: seq<Judged>, j: Judged, actor: bool, preview: bool)
    requires Counted(stats, js, actor, preview)
    ensures Counted(Recorded(stats, j, actor, preview), js + [j], actor, preview)
  {
    hide Count, Changes;
    CountStep(js, j, OwnEmail());
    CountStep(js, j, Aliased());
    CountStep(js, j, Remaining());
    CountStep(js, j, HasStatus(MatchStatus.Excluded));
    CountStep(js, j, HasStatus(MatchStatus.Conflict));
    CountStep(js, j, HasCode(EmployeeDisabled));
    CountStep(js, j, HasCode(EmployeeWithoutSub));
    CountStep(js, j, Changing());
    CountStep(js, j, Resolving());
  }

  // ---------- what the counters guarantee ----------

  /** Every processed card is counted under exactly one of the five outcomes. */
  lemma {:induction false} FiveOutcomesAddUp(js: seq<Judged>)
    ensures Count(js, OwnEmail()) + Count(js, Aliased()) + Count(js, HasStatus(MatchStatus.Excluded))
            + Count(js, Remaining()) + Count(js, HasStatus(MatchStatus.Conflict)) == |js|
  {
    if js != [] {
      var n := |js| - 1;
      FiveOutcomesAddUp(js[..n]);
      assert js[..n] + [js[n]] == js;
      CountStep(js[..n], js[n], OwnEmail());
      CountStep(js[..n], js[n], Aliased());
      CountStep(js[..n], js[n], Remaining());
      CountStep(js[..n], js[n], HasStatus(MatchStatus.Excluded));
      CountStep(js[..n], js[n], HasStatus(MatchStatus.Conflict));
    }
  }

  /** Every card that was unmatched and now is matched or excluded is a resolved exception, and no other is. */
  lemma {:induction false} ResolvedAreMatchedOrExcluded(js: seq<Judged>)
    requires forall j :: j in js ==>
               j.before.status.Unmatched? && (j.outcome.status.Matched? ==> j.outcome.source.Some?)
    ensures Count(js, Resolving())
            == Count(js, HasStatus(MatchStatus.Excluded)) + Count(js, OwnEmail()) + Count(js, Aliased())
  {
    if js != [] {
      var n := |js| - 1;
      ResolvedAreMatchedOrExcluded(js[..n]);
      assert js[..n] + [js[n]] == js && js[n] in js;
      assert Written(js[n].before, js[n].outcome).status == js[n].outcome.status;
      var source := js[n].outcome.source;
      assert source.Some? ==> source.value.PrimaryEmail? || source.value.ProviderEmailAlias?;
      CountStep(js[..n], js[n], Resolving());
      CountStep(js[..n], js[n], OwnEmail());
      CountStep(js[..n], js[n], Aliased());
      CountStep(js[..n], js[n], HasStatus(MatchStatus.Excluded));
    }
  }

  lemma JudgedHaveSources(rows: Rows, world: World, scope: Scope)
    ensures forall j :: j in JudgedCards(rows, world, scope) ==>
              j.before.status.Unmatched? && (j.outcome.status.Matched? ==> j.outcome.source.Some?)
  {
    hide DirectoryOf;
    var ids, js := InScopeIds(rows.cards, scope), JudgedCards(rows, world, scope);
    forall i | 0 <= i < |ids| ensures js[i].outcome.status.Matched? ==> js[i].outcome.source.Some? {
      FieldsFollowTheOutcome(Photonpay, js[i].before.email, None, DirectoryOf(rows.aliases, world));
    }
  }

  /** The promises about the counters of one run and of a preview over the same data. */
  lemma CountersAgree(rows: Rows, world: World, scope: Scope, run: RematchStats, preview: RematchStats)
    requires Counted(run, JudgedCards(rows, world, scope), true, false)
    requires Counted(preview, JudgedCards(rows, world, scope), false, true)
    ensures run.matchedByPrimaryEmail + run.matchedByAlias + run.excluded + run.remainingUnmatched + run.conflict
            == run.processedCount
    ensures run.resolvedExceptionCount == run.excluded + run.matchedByPrimaryEmail + run.matchedByAlias
    ensures preview == run.(changedCount := 0, resolvedExceptionCount := 0)
  {
    FiveOutcomesAddUp(JudgedCards(rows, world, scope));
    JudgedHaveSources(rows, world, scope);
    ResolvedAreMatchedOrExcluded(JudgedCards(rows, world, scope));
  }

  lemma RejudgedTwice(rows: Rows, world: World, scope: Scope, id: CardId)
    requires id in rows.cards && InScope(id, rows.cards[id], scope)
    ensures var after := Rematched(rows, world, scope);
            Rejudged(after, world, id) == after.cards[id]
  {
    hide IsExcluded, MatchProviderCard, DirectoryOf;
  }

  /** With the same data at the same instant, a second run changes nothing and says so. */
  lemma RematchingAgainChangesNothing(rows: Rows, world: World, scope: Scope, again: RematchStats, actor: bool)
    requires Counted(again, JudgedCards(Rematched(rows, world, scope), world, scope), actor, false)
    ensures Rematched(Rematched(rows, world, scope), world, scope) == Rematched(rows, world, scope)
    ensures again.changedCount == 0
  {
    hide Rejudged, Judge;
    var after := Rematched(rows, world, scope);
    forall id | id in after.cards && InScope(id, after.cards[id], scope)
      ensures Rejudged(after, world, id) == after.cards[id]
    {
      ScopeShrinks(rows, world, scope, id);
      RejudgedTwice(rows, world, scope, id);
    }
    NothingChanges(after, world, scope);
  }

  lemma ScopeShrinks(rows: Rows, world: World, scope: Scope, id: CardId)
    requires id in rows.cards && InScope(id, Rematched(rows, world, scope).cards[id], scope)
    ensures InScope(id, rows.cards[id], scope)
  {
  }

  lemma NothingChanges(rows: Rows, world: World, scope: Scope)
    requires forall id :: id in rows.cards && InScope(id, rows.cards[id], scope) ==>
               Rejudged(rows, world, id) == rows.cards[id]
    ensures Count(JudgedCards(rows, world, scope), Changing()) == 0
  {
    hide Judge;
    var ids, js := InScopeIds(rows.cards, scope), JudgedCards(rows, world, scope);
    forall j | j in js ensures !Changes(j) {
      var i :| 0 <= i < |js| && js[i] == j;
      assert ids[i] in ids;
      assert Rejudged(rows, world, ids[i]) == rows.cards[ids[i]];
    }
    SelectNone(js, Changing());
  }
}
