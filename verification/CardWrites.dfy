/** What a successful alias or exclusion write leaves in the tables: the requested row, every other row as it was, and
    each card where the rows now put it. */
module CardWrites {
  import opened Wrappers
  import opened CommonTypes
  import opened Selections
  import opened CardMatching
  import opened CardRematch
  import opened CardGovernance
  import opened CardOwnership
  import opened CardVerdicts

  /** Only this alias may differ. */
  ghost predicate OtherAliasesStay(before: map<AliasId, Alias>, after: map<AliasId, Alias>, id: AliasId) {
    forall a :: a != id ==> (a in after <==> a in before) && (a in before ==> after[a] == before[a])
  }

  ghost predicate OtherExclusionsStay(before: map<ExclusionId, Exclusion>, after: map<ExclusionId, Exclusion>,
                                      id: ExclusionId)
  {
    forall x :: x != id ==> (x in after <==> x in before) && (x in before ==> after[x] == before[x])
  }

  // ---------- creating an alias ----------

  /** An active alias of the email for the employee, with the requested period. Without a requested start it starts now,
      or is one already in force. */
  predicate Requested(a: Alias, input: AliasInput, now: Instant) {
    && a.active && a.email == input.email && a.employee == input.employee
    && (input.validFrom.Some? ==> a.validFrom == input.validFrom.value && a.validTo == input.validTo)
    && (input.validFrom.None? ==> a.validFrom <= now && (a.validTo.None? || now < a.validTo.value))
  }

  /** No existing alias changes, at most one is added, and afterwards the requested one is there. The unmatched cards of
      the email are where the aliases now put them, all other cards as they were. */
  ghost predicate AliasIsCreated(before: Rows, world: World, id: AliasId, input: AliasInput, after: Rows) {
    && OtherAliasesStay(before.aliases, after.aliases, id)
    && (id in before.aliases ==> id in after.aliases && after.aliases[id] == before.aliases[id])
    && (exists a :: a in after.aliases && Requested(after.aliases[a], input, world.now))
    && after.exclusions == before.exclusions
    && (AliasesSound(before.aliases) && DistinctEmployees(world) ==>
          Refreshed(before.cards, after, world, OfEmail(input.email)))
  }

  /** The preview saw an active, SUB-mapped employee, and no other employee with the address. */
  predicate MayGetTheEmail(world: World, email: Email, e: EmployeeId) {
    && (exists p :: p in world.employees && p.id == e && p.active) && e in world.subMapped
    && forall p :: p in world.employees && p.email == Some(email) ==> p.id == e
  }

  lemma UnblockedMayGetTheEmail(world: World, email: Email, e: EmployeeId)
    requires !EmployeeBlocked(world, email, e)
    ensures MayGetTheEmail(world, email, e)
  {
    var own := HasEmail(email);
    SelectHas(world.employees, own);
    forall p | p in world.employees && p.email == Some(email) ensures p.id == e {
      assert own(p) && p in Select(world.employees, own);
    }
  }

  /** A creation needs a confirmation, a PhotonPay card of the email, and an employee who may get it. */
  lemma CreationWasChecked(rows: Rows, seen: Rows, seenWorld: World, world: World, id: AliasId, input: AliasInput)
    requires CreateAlias(rows, seen, seenWorld, world, id, input).Success?
    ensures input.confirm && input.email.wellFormed && MayGetTheEmail(seenWorld, input.email, input.employee)
    ensures exists c :: c in seen.cards && seen.cards[c].provider.Photonpay? && seen.cards[c].email == Some(input.email)
  {
    hide Rematched, EmployeeBlocked, AliasWriteAllowed, MayGetTheEmail;
    UnblockedMayGetTheEmail(seenWorld, input.email, input.employee);
  }

  lemma CreatedAliasIsThere(rows: Rows, seen: Rows, seenWorld: World, world: World, id: AliasId, input: AliasInput)
    requires CreateAlias(rows, seen, seenWorld, world, id, input).Success?
    ensures AliasIsCreated(rows, world, id, input, CreateAlias(rows, seen, seenWorld, world, id, input).value)
  {
    hide Rematched, Refreshed, AliasBlocked, AliasesSound, DistinctEmployees, AliasWriteAllowed;
    if a :| a in rows.aliases && SameAlias(rows.aliases[a], input, world.now) {
      RematchKeepsTables(rows, world, OfEmail(input.email));
      assert Requested(rows.aliases[a], input, world.now);
      if AliasesSound(rows.aliases) && DistinctEmployees(world) {
        RematchRefreshes(rows, world, OfEmail(input.email));
      }
    } else {
      var a := NewAlias(id, input, world.now);
      var written := rows.(aliases := rows.aliases[id := a]);
      AllowedPeriodIsOk(rows.aliases, a);
      RematchKeepsTables(written, world, OfEmail(input.email));
      assert written.aliases[id] == a && Requested(a, input, world.now);
      if AliasesSound(rows.aliases) && DistinctEmployees(world) {
        AllowedWriteIsSound(rows.aliases, a);
        RematchRefreshes(written, world, OfEmail(input.email));
      }
    }
  }

  lemma AllowedPeriodIsOk(aliases: map<AliasId, Alias>, a: Alias)
    ensures AliasWriteAllowed(aliases, a) ==> PeriodOk(a.validFrom, a.validTo)
  {
  }

  lemma RematchKeepsTables(rows: Rows, world: World, scope: Scope)
    ensures Rematched(rows, world, scope).aliases == rows.aliases
    ensures Rematched(rows, world, scope).exclusions == rows.exclusions
  {
  }

  // ---------- what a current preview promises ----------

  /** An alias of the email for e is in force. */
  predicate InForceFor(aliases: map<AliasId, Alias>, email: Email, e: EmployeeId, now: Instant) {
    exists a :: a in aliases && aliases[a].email == email && aliases[a].employee == e && Effective(aliases[a], now)
  }

  /** An employee whom no check blocks, with an alias of the email in force, owns the email. */
  lemma UnblockedOwnsTheEmail(rows: Rows, world: World, email: Email, e: EmployeeId)
    requires AliasesSound(rows.aliases) && email.wellFormed && !EmployeeBlocked(world, email, e)
    requires InForceFor(rows.aliases, email, e, world.now)
    ensures BelongsTo(Photonpay, Some(email), rows.aliases, world, e)
  {
    var own := HasEmail(email);
    var primaries := Select(world.employees, own);
    SelectHas(world.employees, own);
    var a :| a in rows.aliases && rows.aliases[a].email == email && rows.aliases[a].employee == e
             && Effective(rows.aliases[a], world.now);
    assert EmailLeadsTo(Photonpay, email, rows.aliases, world, e);
    forall f | EmailLeadsTo(Photonpay, email, rows.aliases, world, f) ensures f == e {
      if p :| p in world.employees && p.email == Some(email) && p.id == f {
        assert own(p) && p in primaries;
        assert p == primaries[0];
      }
    }
  }

  /** When nothing changed between preview and write and the alias is in force, the new alias works at once: every
      unmatched card of the email that is not excluded is matched to the requested employee. */
  lemma CreatedAliasMatchesItsCards(rows: Rows, world: World, id: AliasId, input: AliasInput, c: CardId)
    requires AliasesSound(rows.aliases) && DistinctEmployees(world)
    requires CreateAlias(rows, rows, world, world, id, input).Success?
    requires input.validFrom.Some? ==>
               input.validFrom.value <= world.now && (input.validTo.None? || world.now < input.validTo.value)
    requires c in rows.cards && rows.cards[c].provider.Photonpay? && rows.cards[c].status.Unmatched?
    requires rows.cards[c].email == Some(input.email) && !IsExcluded(rows.exclusions, c, world.now)
    ensures var after := CreateAlias(rows, rows, world, world, id, input).value;
            c in after.cards && after.cards[c].status.Matched? && after.cards[c].employee == Some(input.employee)
  {
    hide CreateAlias, AliasesSound, DistinctEmployees, IsExcluded, BelongsTo, Refreshed;
    var after := CreateAlias(rows, rows, world, world, id, input).value;
    CreatedAliasIsThere(rows, rows, world, world, id, input);
    PreviewedEmployee(rows, world, id, input);
    ApplyKeepsAliasesSound(rows, rows, CreateAliasWrite(0, world, world, id, input));
    assert InForceFor(after.aliases, input.email, input.employee, world.now);
    UnblockedOwnsTheEmail(after, world, input.email, input.employee);
    RefreshedCard(rows.cards, after, world, OfEmail(input.email), c, input.employee);
  }

  lemma PreviewedEmployee(rows: Rows, world: World, id: AliasId, input: AliasInput)
    requires CreateAlias(rows, rows, world, world, id, input).Success?
    ensures !EmployeeBlocked(world, input.email, input.employee) && input.email.wellFormed
  {
    hide Rematched, EmployeeBlocked, AliasWriteAllowed;
  }

  lemma RefreshedCard(before: map<CardId, Card>, after: Rows, world: World, scope: Scope, c: CardId, e: EmployeeId)
    requires Refreshed(before, after, world, scope)
    requires c in before && before[c].provider.Photonpay? && before[c].status.Unmatched?
    requires scope.OfEmail? && before[c].email == Some(scope.email)
    requires !IsExcluded(after.exclusions, c, world.now)
    requires BelongsTo(Photonpay, before[c].email, after.aliases, world, e)
    ensures c in after.cards && after.cards[c].status.Matched? && after.cards[c].employee == Some(e)
  {
    hide IsExcluded, BelongsTo;
    assert FollowsTheRows(after, world, c, Photonpay, before[c].email, None, after.cards[c]);
  }

  // ---------- correcting an alias ----------

  /** The alias already reads as requested, with the same reason, as far as the preview saw. */
  predicate AlreadyCorrect(seen: map<AliasId, Alias>, id: AliasId, input: CorrectionInput) {
    && input.sameReason && id in seen && seen[id].active && seen[id].employee == input.employee
    && input.validFrom == Some(seen[id].validFrom) && input.validTo == seen[id].validTo
  }

  /** A card that the correction or the disabling of an alias of this email judges again. */
  predicate AffectedBy(card: Card, email: Email) {
    && card.provider.Photonpay? && card.email == Some(email)
    && (card.status.Unmatched? || (card.status.Matched? && card.source == Some(ProviderEmailAlias)))
  }

  /** The unmatched cards of the email and those matched by alias are where the rows now put them; others stay. */
  ghost predicate EmailIsRejudged(before: map<CardId, Card>, after: Rows, world: World, email: Email) {
    && after.cards.Keys == before.Keys
    && forall c :: c in before ==>
         if AffectedBy(before[c], email)
         then FollowsTheRows(after, world, c, Photonpay, before[c].email, None, after.cards[c])
         else after.cards[c] == before[c]
  }

  lemma ReleasingAndRematching(rows: Rows, aliases: map<AliasId, Alias>, world: World, email: Email, code: Code)
    requires AliasesSound(aliases) && DistinctEmployees(world)
    ensures var released := Rows(aliases, rows.exclusions, UnmatchedAliasCards(rows.cards, email, code));
            EmailIsRejudged(rows.cards, Rematched(released, world, OfEmail(email)), world, email)
  {
    hide AliasesSound, DistinctEmployees, FollowsTheRows, Rematched;
    RematchRefreshes(Rows(aliases, rows.exclusions, UnmatchedAliasCards(rows.cards, email, code)), world,
                     OfEmail(email));
  }

  /** The alias names the requested employee for the requested period and is active, with its id and email; every other
      alias is as it was, and the cards of the email are judged by that. */
  ghost predicate AliasIsCorrected(before: Rows, world: World, id: AliasId, input: CorrectionInput, after: Rows) {
    && id in before.aliases && after.aliases.Keys == before.aliases.Keys
    && OtherAliasesStay(before.aliases, after.aliases, id)
    && after.exclusions == before.exclusions
    && (var was, a := before.aliases[id], after.aliases[id];
        && a.employee == input.employee && a.active
        && Some(a.validFrom) == input.validFrom && a.validTo == input.validTo
        && a.id == was.id && a.email == was.email)
    && (AliasesSound(before.aliases) && DistinctEmployees(world) ==>
          EmailIsRejudged(before.cards, after, world, before.aliases[id].email))
  }

  /** A correction needs a confirmation, a valid period, and an employee who may get the email. */
  lemma CorrectionWasChecked(rows: Rows, seen: Rows, seenWorld: World, world: World, id: AliasId,
                             input: CorrectionInput)
    requires CorrectAlias(rows, seen, seenWorld, world, id, input).Success?
    ensures input.confirm && id in seen.aliases && input.validFrom.Some?
    ensures input.validTo.None? || input.validFrom.value < input.validTo.value
    ensures MayGetTheEmail(seenWorld, seen.aliases[id].email, input.employee)
  {
    hide Rematched, EmployeeBlocked, AliasWriteAllowed, MayGetTheEmail;
    UnblockedMayGetTheEmail(seenWorld, seen.aliases[id].email, input.employee);
  }

  lemma CorrectionIsStored(rows: Rows, seen: Rows, seenWorld: World, world: World, id: AliasId, input: CorrectionInput)
    requires CorrectAlias(rows, seen, seenWorld, world, id, input).Success?
    ensures var after := CorrectAlias(rows, seen, seenWorld, world, id, input).value;
            if AlreadyCorrect(seen.aliases, id, input) then after == rows
            else AliasIsCorrected(rows, world, id, input, after)
  {
    hide Rematched, EmailIsRejudged, AliasesSound, DistinctEmployees, CorrectionBlocked, UnmatchedAliasCards,
         AliasWriteAllowed;
    if !AlreadyCorrect(seen.aliases, id, input) {
      var a := Corrected(rows.aliases[id], input);
      var aliases := rows.aliases[id := a];
      var released := Rows(aliases, rows.exclusions, UnmatchedAliasCards(rows.cards, a.email, AliasCorrected));
      RematchKeepsTables(released, world, OfEmail(a.email));
      if AliasesSound(rows.aliases) && DistinctEmployees(world) {
        IdStays(rows.aliases, id);
        AllowedWriteIsSound(rows.aliases, a);
        ReleasingAndRematching(rows, aliases, world, a.email, AliasCorrected);
      }
    }
  }

  /** While the corrected alias is in force, no other employee gets a card of the email by alias. */
  lemma CorrectedCardsGoToTheEmployee(rows: Rows, seen: Rows, seenWorld: World, world: World, id: AliasId,
                                      input: CorrectionInput, c: CardId)
    requires AliasesSound(rows.aliases) && DistinctEmployees(world)
    requires CorrectAlias(rows, seen, seenWorld, world, id, input).Success? && !AlreadyCorrect(seen.aliases, id, input)
    requires input.validFrom.Some? && input.validFrom.value <= world.now
    requires input.validTo.None? || world.now < input.validTo.value
    requires c in rows.cards && id in rows.aliases && AffectedBy(rows.cards[c], rows.aliases[id].email)
    ensures var after := CorrectAlias(rows, seen, seenWorld, world, id, input).value;
            c in after.cards
            && (after.cards[c].status.Matched? ==> after.cards[c].employee == Some(input.employee))
  {
    hide CorrectAlias, AliasesSound, DistinctEmployees, IsExcluded;
    var after := CorrectAlias(rows, seen, seenWorld, world, id, input).value;
    CorrectionIsStored(rows, seen, seenWorld, world, id, input);
    var email := rows.aliases[id].email;
    assert EmailLeadsTo(Photonpay, email, after.aliases, world, input.employee);
    assert FollowsTheRows(after, world, c, Photonpay, Some(email), None, after.cards[c]);
  }

  /** And when nothing changed between preview and write, every such card that is not excluded does go to that
      employee. */
  lemma CorrectedAliasMatchesItsCards(rows: Rows, world: World, id: AliasId, input: CorrectionInput, c: CardId)
    requires AliasesSound(rows.aliases) && DistinctEmployees(world)
    requires CorrectAlias(rows, rows, world, world, id, input).Success? && !AlreadyCorrect(rows.aliases, id, input)
    requires input.validFrom.Some? && input.validFrom.value <= world.now
    requires input.validTo.None? || world.now < input.validTo.value
    requires c in rows.cards && id in rows.aliases && AffectedBy(rows.cards[c], rows.aliases[id].email)
    requires rows.aliases[id].email.wellFormed && !IsExcluded(rows.exclusions, c, world.now)
    ensures var after := CorrectAlias(rows, rows, world, world, id, input).value;
            c in after.cards && after.cards[c].status.Matched? && after.cards[c].employee == Some(input.employee)
  {
    hide CorrectAlias, AliasesSound, DistinctEmployees, IsExcluded, BelongsTo;
    var after := CorrectAlias(rows, rows, world, world, id, input).value;
    var email := rows.aliases[id].email;
    CorrectionIsStored(rows, rows, world, world, id, input);
    PreviewedCorrection(rows, world, id, input);
    ApplyKeepsAliasesSound(rows, rows, CorrectAliasWrite(0, world, world, id, input));
    assert InForceFor(after.aliases, email, input.employee, world.now);
    UnblockedOwnsTheEmail(after, world, email, input.employee);
    assert FollowsTheRows(after, world, c, Photonpay, Some(email), None, after.cards[c]);
  }

  lemma PreviewedCorrection(rows: Rows, world: World, id: AliasId, input: CorrectionInput)
    requires CorrectAlias(rows, rows, world, world, id, input).Success? && id in rows.aliases
    ensures !EmployeeBlocked(world, rows.aliases[id].email, input.employee)
  {
    hide Rematched, EmployeeBlocked, AliasWriteAllowed;
  }

  // ---------- disabling an alias ----------

  /** The alias is inactive and otherwise unchanged, every other alias is as it was, and the cards of the email are
      judged by the aliases that are left. */
  ghost predicate AliasIsDisabled(before: Rows, world: World, id: AliasId, after: Rows) {
    && id in before.aliases && after.aliases.Keys == before.aliases.Keys
    && OtherAliasesStay(before.aliases, after.aliases, id)
    && after.exclusions == before.exclusions
    && !after.aliases[id].active
    && after.aliases[id].(active := before.aliases[id].active) == before.aliases[id]
    && (AliasesSound(before.aliases) && DistinctEmployees(world) ==>
          EmailIsRejudged(before.cards, after, world, before.aliases[id].email))
  }

  lemma DisablingIsStored(rows: Rows, seen: Rows, world: World, id: AliasId, confirm: bool)
    requires DisableAlias(rows, seen, world, id, confirm).Success?
    ensures confirm && id in seen.aliases
    ensures var after := DisableAlias(rows, seen, world, id, confirm).value;
            if !seen.aliases[id].active then after == rows else AliasIsDisabled(rows, world, id, after)
  {
    hide Rematched, EmailIsRejudged, AliasesSound, DistinctEmployees, UnmatchedAliasCards;
    if seen.aliases[id].active {
      var a := rows.aliases[id].(active := false);
      var aliases := rows.aliases[id := a];
      var released := Rows(aliases, rows.exclusions, UnmatchedAliasCards(rows.cards, a.email, AliasDisabled));
      RematchKeepsTables(released, world, OfEmail(a.email));
      if AliasesSound(rows.aliases) && DistinctEmployees(world) {
        DisablingIsSound(rows.aliases, id);
        ReleasingAndRematching(rows, aliases, world, a.email, AliasDisabled);
      }
    }
  }

  // ---------- exclusions ----------

  predicate OtherCardsStay(before: map<CardId, Card>, after: map<CardId, Card>, c: CardId) {
    && after.Keys == before.Keys
    && forall d :: d in before && d != c ==> after[d] == before[d]
  }

  /** An active exclusion of the card with the requested period; without a requested start it starts at the instant the
      request was read, or is one already in force. */
  predicate ExclusionRequested(x: Exclusion, input: ExclusionInput, seenNow: Instant, now: Instant) {
    && x.active && x.card == input.card
    && (input.effectiveFrom.Some? ==>
          x.effectiveFrom == input.effectiveFrom.value && x.effectiveTo == input.effectiveTo)
    && (input.effectiveFrom.None? ==>
          (x.effectiveFrom == seenNow && x.effectiveTo == input.effectiveTo) || InForce(x, now))
  }

  /** A card is taken out of the accounts. */
  predicate TakenOut(before: Card, after: Card) {
    && after.status.Excluded? && after.employee.None? && after.source.None? && after.code == Some(AdminTestCard)
    && after.provider == before.provider && after.email == before.email
  }

  /** No existing exclusion changes, at most one is added, and the requested one is there. The card is taken out when a
      new exclusion is in force, and is as it was otherwise; so is every other card. */
  ghost predicate ExclusionIsCreated(before: Rows, seenNow: Instant, now: Instant, id: ExclusionId,
                                     input: ExclusionInput, after: Rows)
  {
    && OtherExclusionsStay(before.exclusions, after.exclusions, id)
    && (id in before.exclusions ==> id in after.exclusions && after.exclusions[id] == before.exclusions[id])
    && (exists x :: x in after.exclusions && ExclusionRequested(after.exclusions[x], input, seenNow, now))
    && after.aliases == before.aliases
    && OtherCardsStay(before.cards, after.cards, input.card)
    && (input.card in before.cards ==>
          if id in before.exclusions || id !in after.exclusions || !InForce(after.exclusions[id], now)
          then after.cards == before.cards
          else TakenOut(before.cards[input.card], after.cards[input.card]))
  }

  /** A creation needs a confirmation, a PhotonPay card without spend events, and a valid period. */
  lemma ExclusionWasChecked(rows: Rows, seen: Rows, seenNow: Instant, now: Instant, id: ExclusionId,
                            input: ExclusionInput)
    requires CreateExclusion(rows, seen, seenNow, now, id, input).Success?
    ensures input.confirm && !input.hasSpendEvents
    ensures input.card in seen.cards && seen.cards[input.card].provider.Photonpay?
    ensures input.effectiveTo.None?
            || (if input.effectiveFrom.Some? then input.effectiveFrom.value else seenNow) < input.effectiveTo.value
  {
  }

  lemma CreatedExclusionIsThere(rows: Rows, seen: Rows, seenNow: Instant, now: Instant, id: ExclusionId,
                                input: ExclusionInput)
    requires CreateExclusion(rows, seen, seenNow, now, id, input).Success?
    ensures ExclusionIsCreated(rows, seenNow, now, id, input,
                               CreateExclusion(rows, seen, seenNow, now, id, input).value)
  {
    var after := CreateExclusion(rows, seen, seenNow, now, id, input).value;
    if y :| y in rows.exclusions && SameExclusion(rows.exclusions[y], input, now) {
      assert ExclusionRequested(after.exclusions[y], input, seenNow, now);
    } else {
      assert ExclusionRequested(after.exclusions[id], input, seenNow, now);
    }
  }

  /** The exclusion is inactive and otherwise unchanged, every other one is as it was. Its card, if it was excluded, is
      judged by the exclusions that are left; all other cards are as they were. */
  ghost predicate ExclusionIsEnded(before: Rows, world: World, id: ExclusionId, after: Rows) {
    && id in before.exclusions && after.exclusions.Keys == before.exclusions.Keys
    && OtherExclusionsStay(before.exclusions, after.exclusions, id)
    && !after.exclusions[id].active
    && after.exclusions[id].(active := before.exclusions[id].active) == before.exclusions[id]
    && after.aliases == before.aliases
    && (var c := before.exclusions[id].card;
        && c in before.cards && OtherCardsStay(before.cards, after.cards, c)
        && (!before.cards[c].status.Excluded? ==> after.cards == before.cards)
        && (AliasesSound(before.aliases) && DistinctEmployees(world)
            && before.cards[c].status.Excluded? && before.cards[c].provider.Photonpay? ==>
              FollowsTheRows(after, world, c, Photonpay, before.cards[c].email, None, after.cards[c])))
  }

  lemma EndingIsStored(rows: Rows, seen: Rows, world: World, id: ExclusionId, confirm: bool)
    requires DisableExclusion(rows, seen, world, id, confirm).Success?
    ensures confirm && id in seen.exclusions
    ensures var after := DisableExclusion(rows, seen, world, id, confirm).value;
            if !seen.exclusions[id].active then after == rows else ExclusionIsEnded(rows, world, id, after)
  {
    hide Rematched, AliasesSound, DistinctEmployees, FollowsTheRows;
    if seen.exclusions[id].active {
      var c := rows.exclusions[id].card;
      var exclusions := rows.exclusions[id := rows.exclusions[id].(active := false)];
      var released := Rows(rows.aliases, exclusions, rows.cards[c := Released(rows.cards[c], ExclusionDisabled)]);
      if rows.cards[c].status.Excluded? {
        RematchKeepsTables(released, world, OfCard(c));
        OnlyThisCard(released, world, c);
        if AliasesSound(rows.aliases) && DistinctEmployees(world) {
          RematchRefreshes(released, world, OfCard(c));
        }
      }
    }
  }

  lemma OnlyThisCard(rows: Rows, world: World, c: CardId)
    ensures OtherCardsStay(rows.cards, Rematched(rows, world, OfCard(c)).cards, c)
  {
    hide Judge;
  }

  /** When the exclusion that kept the card out was in force, ending it lets the card back in: no other active exclusion
      of the card has a period that contains the instant. */
  lemma EndedExclusionLetsTheCardIn(rows: Rows, seen: Rows, world: World, id: ExclusionId)
    requires AliasesSound(rows.aliases) && DistinctEmployees(world) && ExclusionsSound(rows.exclusions)
    requires id in seen.exclusions && seen.exclusions[id].active && id in rows.exclusions
    requires InForce(rows.exclusions[id], world.now)
    requires var c := rows.exclusions[id].card;
             c in rows.cards && rows.cards[c].provider.Photonpay? && rows.cards[c].status.Excluded?
    ensures var r := DisableExclusion(rows, seen, world, id, true);
            && r.Success? && !r.value.cards[rows.exclusions[id].card].status.Excluded?
  {
    hide Rematched, AliasesSound, DistinctEmployees, BelongsTo, ExclusionIsEnded;
    EndingIsStored(rows, seen, world, id, true);
    var after := DisableExclusion(rows, seen, world, id, true).value;
    NoneLeftInForce(rows, world, id, after);
  }

  lemma NoneLeftInForce(rows: Rows, world: World, id: ExclusionId, after: Rows)
    requires ExclusionIsEnded(rows, world, id, after) && ExclusionsSound(rows.exclusions)
    requires AliasesSound(rows.aliases) && DistinctEmployees(world) && InForce(rows.exclusions[id], world.now)
    requires var c := rows.exclusions[id].card; rows.cards[c].provider.Photonpay? && rows.cards[c].status.Excluded?
    ensures rows.exclusions[id].card in after.cards && !after.cards[rows.exclusions[id].card].status.Excluded?
  {
    hide AliasesSound, DistinctEmployees, BelongsTo;
    assert !IsExcluded(after.exclusions, rows.exclusions[id].card, world.now);
  }
}
