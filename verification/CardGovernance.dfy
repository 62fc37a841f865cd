/** Writing aliases and exclusions, and the inventory sync that refreshes cards.

    Every governance write is one serializable transaction; what its preview read may be older. The inventory sync
    reads aliases and exclusions once and then writes card by card, without a transaction around them. */
module CardGovernance {
  import opened Wrappers
  import opened CommonTypes
  import opened Selections
  import opened CardMatching
  import opened CardRematch
  import P = Postings

  datatype GovernanceError = NotFound | ValidationError | ConflictError

  datatype AliasInput = AliasInput(email: Email, employee: EmployeeId, validFrom: Option<Instant>,
                                   validTo: Option<Instant>, confirm: bool)
  datatype CorrectionInput = CorrectionInput(employee: EmployeeId, validFrom: Option<Instant>, validTo: Option<Instant>,
                                             sameReason: bool, confirm: bool)
  datatype ExclusionInput = ExclusionInput(card: CardId, effectiveFrom: Option<Instant>, effectiveTo: Option<Instant>,
                                           hasSpendEvents: bool, confirm: bool)
  datatype FetchedCard = FetchedCard(provider: Provider, card: CardId, email: Option<Email>, forced: Option<Code>)

  // ---------- what the tables refuse ----------

  predicate PeriodOk(from: Instant, to: Option<Instant>) {
    to.None? || to.value > from
  }

  /** Check, unique key and no-overlap trigger of the alias table, for writing this row. */
  predicate AliasWriteAllowed(aliases: map<AliasId, Alias>, a: Alias) {
    && PeriodOk(a.validFrom, a.validTo)
    && forall id :: id in aliases && id != a.id && aliases[id].email == a.email ==>
         && aliases[id].validFrom != a.validFrom
         && (a.active && aliases[id].active ==> Disjoint(aliases[id], a))
  }

  predicate ExclusionsDisjoint(x: Exclusion, y: Exclusion) {
    (x.effectiveTo.Some? && x.effectiveTo.value <= y.effectiveFrom)
    || (y.effectiveTo.Some? && y.effectiveTo.value <= x.effectiveFrom)
  }

  predicate ExclusionWriteAllowed(rows: Rows, id: ExclusionId, x: Exclusion) {
    && PeriodOk(x.effectiveFrom, x.effectiveTo)
    && x.card in rows.cards && rows.cards[x.card].provider.Photonpay?
    && forall y :: y in rows.exclusions && y != id && rows.exclusions[y].card == x.card ==>
         && rows.exclusions[y].effectiveFrom != x.effectiveFrom
         && (x.active && rows.exclusions[y].active ==> ExclusionsDisjoint(rows.exclusions[y], x))
  }

  // ---------- previews ----------

  function IdsOf(aliases: map<AliasId, Alias>, email: Email, from: Instant, to: Option<Instant>): set<AliasId> {
    set id | id in aliases && aliases[id].email == email && aliases[id].active
             && (to.Some? ==> aliases[id].validFrom < to.value)
             && (aliases[id].validTo.Some? ==> aliases[id].validTo.value > from)
  }

  predicate EmployeeBlocked(world: World, email: Email, e: EmployeeId) {
    var primaries := Select(world.employees, HasEmail(email));
    || !(exists x :: x in world.employees && x.id == e && x.active)
    || e !in world.subMapped
    || |primaries| > 1
    || (|primaries| == 1 && primaries[0].id != e)
  }

  predicate SameAlias(a: Alias, input: AliasInput, now: Instant) {
    && a.active && a.email == input.email && a.employee == input.employee
    && if input.validFrom.None? then Effective(a, now)
       else a.validFrom == input.validFrom.value && a.validTo == input.validTo
  }

  predicate AliasBlocked(seen: Rows, world: World, input: AliasInput) {
    var from := if input.validFrom.Some? then input.validFrom.value else world.now;
    var overlapping := IdsOf(seen.aliases, input.email, from, input.validTo);
    || EmployeeBlocked(world, input.email, input.employee)
    || !input.email.wellFormed
    || (exists id :: id in overlapping && seen.aliases[id].employee != input.employee)
    || (overlapping != {} && !exists id :: id in overlapping && SameAlias(seen.aliases[id], input, world.now))
    || |overlapping| > 1
  }

  predicate GroupExists(seen: Rows, email: Email) {
    exists c :: c in seen.cards && seen.cards[c].provider.Photonpay? && seen.cards[c].email == Some(email)
  }

  predicate EmployeeExists(world: World, e: EmployeeId) {
    exists x :: x in world.employees && x.id == e
  }

  // ---------- the writes ----------

  predicate AliasCard(card: Card, email: Email) {
    && card.provider.Photonpay? && card.email == Some(email)
    && card.status.Matched? && card.source == Some(ProviderEmailAlias)
  }

  function AliasCardIds(cards: map<CardId, Card>, email: Email): set<CardId> {
    set id | id in cards && AliasCard(cards[id], email)
  }

  function Released(card: Card, code: Code): Card {
    card.(employee := None, status := Unmatched, source := None, code := Some(code))
  }

  function UnmatchedAliasCards(cards: map<CardId, Card>, email: Email, code: Code): map<CardId, Card> {
    map id | id in cards :: if AliasCard(cards[id], email) then Released(cards[id], code) else cards[id]
  }

  function NewAlias(id: AliasId, input: AliasInput, now: Instant): Alias {
    Alias(id, input.email, input.employee, true, if input.validFrom.Some? then input.validFrom.value else now,
          input.validTo)
  }

  function CreateAlias(rows: Rows, seen: Rows, seenWorld: World, world: World, id: AliasId, input: AliasInput)
    : Result<Rows, GovernanceError>
  {
    var seenFrom := if input.validFrom.Some? then input.validFrom.value else seenWorld.now;
    if !input.confirm then Failure(ValidationError)
    else if !GroupExists(seen, input.email) || !EmployeeExists(seenWorld, input.employee) then Failure(NotFound)
    else if !PeriodOk(seenFrom, input.validTo) then Failure(ValidationError)
    else if AliasBlocked(seen, seenWorld, input) then Failure(ConflictError)
    else if exists a :: a in rows.aliases && SameAlias(rows.aliases[a], input, world.now) then
      Success(Rematched(rows, world, OfEmail(input.email)))
    else if id in rows.aliases || !AliasWriteAllowed(rows.aliases, NewAlias(id, input, world.now)) then
      Failure(ConflictError)
    else
      Success(Rematched(rows.(aliases := rows.aliases[id := NewAlias(id, input, world.now)]), world,
                        OfEmail(input.email)))
  }

  function Corrected(a: Alias, input: CorrectionInput): Alias
    requires input.validFrom.Some?
  {
    a.(employee := input.employee, validFrom := input.validFrom.value, validTo := input.validTo, active := true)
  }

  predicate CorrectionBlocked(seen: Rows, world: World, id: AliasId, input: CorrectionInput)
    requires id in seen.aliases && input.validFrom.Some?
  {
    || EmployeeBlocked(world, seen.aliases[id].email, input.employee)
    || IdsOf(seen.aliases, seen.aliases[id].email, input.validFrom.value, input.validTo) - {id} != {}
  }

  function CorrectAlias(rows: Rows, seen: Rows, seenWorld: World, world: World, id: AliasId, input: CorrectionInput)
    : Result<Rows, GovernanceError>
  {
    if !input.confirm then Failure(ValidationError)
    else if id !in seen.aliases || !EmployeeExists(seenWorld, input.employee) then Failure(NotFound)
    else if input.validFrom.None? || !PeriodOk(input.validFrom.value, input.validTo) then Failure(ValidationError)
    else if CorrectionBlocked(seen, seenWorld, id, input) then Failure(ConflictError)
    else if input.sameReason && seen.aliases[id] == Corrected(seen.aliases[id], input) then Success(rows)
    else if id !in rows.aliases then Failure(NotFound)
    else
      var a := Corrected(rows.aliases[id], input);
      if !AliasWriteAllowed(rows.aliases, a) then Failure(ConflictError)
      else
        Success(Rematched(Rows(rows.aliases[id := a], rows.exclusions,
                               UnmatchedAliasCards(rows.cards, a.email, AliasCorrected)), world, OfEmail(a.email)))
  }

  function DisableAlias(rows: Rows, seen: Rows, world: World, id: AliasId, confirm: bool)
    : Result<Rows, GovernanceError>
  {
    if !confirm then Failure(ValidationError)
    else if id !in seen.aliases then Failure(NotFound)
    else if !seen.aliases[id].active then Success(rows)
    else if id !in rows.aliases then Failure(NotFound)
    else
      var a := rows.aliases[id].(active := false);
      Success(Rematched(Rows(rows.aliases[id := a], rows.exclusions,
                             UnmatchedAliasCards(rows.cards, a.email, AliasDisabled)), world, OfEmail(a.email)))
  }

  predicate SameExclusion(x: Exclusion, input: ExclusionInput, now: Instant) {
    && x.active && x.card == input.card
    && if input.effectiveFrom.None? then InForce(x, now)
       else x.effectiveFrom == input.effectiveFrom.value && x.effectiveTo == input.effectiveTo
  }

  function CreateExclusion(rows: Rows, seen: Rows, seenNow: Instant, now: Instant, id: ExclusionId,
                           input: ExclusionInput)
    : Result<Rows, GovernanceError>
  {
    var from := if input.effectiveFrom.Some? then input.effectiveFrom.value else seenNow;
    var x := Exclusion(input.card, true, from, input.effectiveTo);
    if !input.confirm then Failure(ValidationError)
    else if !PeriodOk(from, input.effectiveTo) then Failure(ValidationError)
    else if input.card !in seen.cards || !seen.cards[input.card].provider.Photonpay? then Failure(NotFound)
    else if input.hasSpendEvents then Failure(ConflictError)
    else if exists y :: y in rows.exclusions && SameExclusion(rows.exclusions[y], input, now) then Success(rows)
    else if id in rows.exclusions || !ExclusionWriteAllowed(rows, id, x) then Failure(ConflictError)
    else
      var cards := if !InForce(x, now) then rows.cards else
        rows.cards[input.card := Written(rows.cards[input.card], NoMatch(MatchStatus.Excluded, AdminTestCard))];
      Success(Rows(rows.aliases, rows.exclusions[id := x], cards))
  }

  function DisableExclusion(rows: Rows, seen: Rows, world: World, id: ExclusionId, confirm: bool)
    : Result<Rows, GovernanceError>
  {
    if !confirm then Failure(ValidationError)
    else if id !in seen.exclusions then Failure(NotFound)
    else if !seen.exclusions[id].active then Success(rows)
    else if id !in rows.exclusions || rows.exclusions[id].card !in rows.cards then Failure(NotFound)
    else
      var exclusions := rows.exclusions[id := rows.exclusions[id].(active := false)];
      var c := rows.exclusions[id].card;
      if !rows.cards[c].status.Excluded? then Success(rows.(exclusions := exclusions))
      else
        var cards := rows.cards[c := Released(rows.cards[c], ExclusionDisabled)];
        Success(Rematched(Rows(rows.aliases, exclusions, cards), world, OfCard(c)))
  }

  function ExecuteRematch(rows: Rows, world: World, confirm: bool): Result<Rows, GovernanceError> {
    if confirm then Success(Rematched(rows, world, AllCards)) else Failure(ValidationError)
  }

  // ---------- the inventory sync ----------

  /** The outcome of a fetched card, judged by what the sync read at its start. */
  function Verdict(seen: Rows, world: World, f: FetchedCard): CardMatch {
    Judge(seen, world, f.provider, f.card, f.email, f.forced)
  }

  function Upserted(cards: map<CardId, Card>, f: FetchedCard, m: CardMatch): map<CardId, Card> {
    cards[f.card := Card(f.provider, f.email, m.employee, m.status, m.source, m.code)]
  }

  function UpsertedAll(cards: map<CardId, Card>, seen: Rows, world: World, fs: seq<FetchedCard>): map<CardId, Card> {
    if fs == [] then cards else
      var f := fs[|fs| - 1];
      Upserted(UpsertedAll(cards, seen, world, fs[..|fs| - 1]), f, Verdict(seen, world, f))
  }

  function VerdictIs(seen: Rows, world: World, status: MatchStatus): FetchedCard -> bool {
    (f: FetchedCard) => Verdict(seen, world, f).status == status
  }

  lemma {:induction false} LengthOfAscending(ks: set<nat>)
    ensures |P.Ascending(ks)| == |ks|
  {
    if ks != {} {
      LengthOfAscending(ks - {P.Least(ks, 0)});
    }
  }
}
