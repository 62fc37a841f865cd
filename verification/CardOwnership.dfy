/** What alias and card writes keep over every run. */
module CardOwnership {
  import opened Wrappers
  import opened CommonTypes
  import opened Selections
  import opened CardMatching
  import opened CardRematch
  import opened CardGovernance
  import P = Postings

  /** One atomic write. `readAt` says after how many writes its earlier reads were made. */
  datatype Write =
    | CreateAliasWrite(readAt: nat, seenWorld: World, world: World, alias: AliasId, create: AliasInput)
    | CorrectAliasWrite(readAt: nat, seenWorld: World, world: World, alias: AliasId, correction: CorrectionInput)
    | DisableAliasWrite(readAt: nat, world: World, alias: AliasId, confirm: bool)
    | CreateExclusionWrite(readAt: nat, seenWorld: World, world: World, exclusion: ExclusionId, exclude: ExclusionInput)
    | DisableExclusionWrite(readAt: nat, world: World, exclusion: ExclusionId, confirm: bool)
    | RematchWrite(readAt: nat, world: World, confirm: bool)
    | SyncCardWrite(readAt: nat, world: World, fetched: FetchedCard)

  function Outcome(rows: Rows, seen: Rows, w: Write): Result<Rows, GovernanceError> {
    match w
    case CreateAliasWrite(_, seenWorld, world, id, input) => CreateAlias(rows, seen, seenWorld, world, id, input)
    case CorrectAliasWrite(_, seenWorld, world, id, input) => CorrectAlias(rows, seen, seenWorld, world, id, input)
    case DisableAliasWrite(_, world, id, confirm) => DisableAlias(rows, seen, world, id, confirm)
    case CreateExclusionWrite(_, seenWorld, world, id, input) =>
      CreateExclusion(rows, seen, seenWorld.now, world.now, id, input)
    case DisableExclusionWrite(_, world, id, confirm) => DisableExclusion(rows, seen, world, id, confirm)
    case RematchWrite(_, world, confirm) => ExecuteRematch(rows, world, confirm)
    case SyncCardWrite(_, world, f) => Success(rows.(cards := Upserted(rows.cards, f, Verdict(seen, world, f))))
  }

  function Apply(rows: Rows, seen: Rows, w: Write): Rows {
    match Outcome(rows, seen, w) case Success(after) => after case Failure(_) => rows
  }

  function After(ws: seq<Write>): Rows
    decreases |ws|, 1
  {
    if ws == [] then Rows(map[], map[], map[]) else
      var n := |ws| - 1;
      Apply(After(ws[..n]), SeenBy(ws), ws[n])
  }

  /** What the last write of the run had read. */
  function SeenBy(ws: seq<Write>): Rows
    requires ws != []
    decreases |ws|, 0
  {
    var n := |ws| - 1;
    After(ws[..if ws[n].readAt <= n then ws[n].readAt else n])
  }

  // ---------- aliases never overlap ----------

  predicate BothActive(a: Alias, b: Alias) {
    a.active && b.active && a.email == b.email
  }

  predicate AliasesSound(aliases: map<AliasId, Alias>) {
    && (forall id :: id in aliases ==> aliases[id].id == id && PeriodOk(aliases[id].validFrom, aliases[id].validTo))
    && forall i, j ::
         i in aliases && j in aliases && i != j && BothActive(aliases[i], aliases[j]) ==>
           Disjoint(aliases[i], aliases[j])
  }

  lemma AllowedWriteIsSound(aliases: map<AliasId, Alias>, a: Alias)
    requires AliasesSound(aliases) && AliasWriteAllowed(aliases, a)
    ensures AliasesSound(aliases[a.id := a])
  {
  }

  lemma DisablingIsSound(aliases: map<AliasId, Alias>, id: AliasId)
    requires AliasesSound(aliases) && id in aliases
    ensures AliasesSound(aliases[id := aliases[id].(active := false)])
  {
  }

  lemma ApplyKeepsAliasesSound(rows: Rows, seen: Rows, w: Write)
    requires AliasesSound(rows.aliases)
    ensures AliasesSound(Apply(rows, seen, w).aliases)
  {
    hide AliasesSound, AliasWriteAllowed, Judge, AliasBlocked, CorrectionBlocked, ExclusionWriteAllowed, Rejudged;
    match w {
      case CreateAliasWrite(_, _, world, id, input) =>
        var a := NewAlias(id, input, world.now);
        if AliasWriteAllowed(rows.aliases, a) {
          AllowedWriteIsSound(rows.aliases, a);
        }
      case CorrectAliasWrite(_, _, _, id, input) =>
        if id in rows.aliases && input.validFrom.Some? {
          IdStays(rows.aliases, id);
          var a := Corrected(rows.aliases[id], input);
          if AliasWriteAllowed(rows.aliases, a) {
            AllowedWriteIsSound(rows.aliases, a);
          }
        }
      case DisableAliasWrite(_, _, id, _) =>
        if id in rows.aliases {
          DisablingIsSound(rows.aliases, id);
        }
      case CreateExclusionWrite(_, _, _, _, _) =>
      case DisableExclusionWrite(_, _, _, _) =>
      case RematchWrite(_, _, _) =>
      case SyncCardWrite(_, _, _) =>
    }
  }

  lemma IdStays(aliases: map<AliasId, Alias>, id: AliasId)
    requires AliasesSound(aliases) && id in aliases
    ensures aliases[id].id == id
  {
  }

  /** After every run, active aliases of one email have pairwise disjoint periods. */
  lemma {:induction false} AliasesNeverOverlap(ws: seq<Write>)
    ensures AliasesSound(After(ws).aliases)
  {
    hide AliasesSound, Apply;
    if ws != [] {
      AliasesNeverOverlap(ws[..|ws| - 1]);
      ApplyKeepsAliasesSound(After(ws[..|ws| - 1]), SeenBy(ws), ws[|ws| - 1]);
    } else {
      NoAliasesAreSound();
    }
  }

  lemma NoAliasesAreSound()
    ensures AliasesSound(map[])
  {
  }

  // ---------- exclusions never overlap ----------

  predicate ExclusionsSound(exclusions: map<ExclusionId, Exclusion>) {
    forall x, y ::
      x in exclusions && y in exclusions && x != y && exclusions[x].active && exclusions[y].active
      && exclusions[x].card == exclusions[y].card ==>
        ExclusionsDisjoint(exclusions[x], exclusions[y])
  }

  lemma ApplyKeepsExclusionsSound(rows: Rows, seen: Rows, w: Write)
    requires ExclusionsSound(rows.exclusions)
    ensures ExclusionsSound(Apply(rows, seen, w).exclusions)
  {
    hide AliasWriteAllowed, Judge, AliasBlocked, CorrectionBlocked, Rejudged, UnmatchedAliasCards;
  }

  /** After every run, active exclusions of one card have pairwise disjoint periods. */
  lemma {:induction false} ExclusionsNeverOverlap(ws: seq<Write>)
    ensures ExclusionsSound(After(ws).exclusions)
  {
    hide ExclusionsSound, Apply;
    if ws == [] {
      NoExclusionsAreSound();
    } else {
      ExclusionsNeverOverlap(ws[..|ws| - 1]);
      ApplyKeepsExclusionsSound(After(ws[..|ws| - 1]), SeenBy(ws), ws[|ws| - 1]);
    }
  }

  lemma NoExclusionsAreSound()
    ensures ExclusionsSound(map[])
  {
  }

  // ---------- previews ----------

  /** The preview looks only at active aliases. With nothing changed since, an alias it lets pass and that is not there
      yet is refused exactly when a disabled alias of the email starts at the same instant. */
  lemma PreviewForetellsCreation(rows: Rows, world: World, id: AliasId, input: AliasInput)
    requires AliasesSound(rows.aliases) && id !in rows.aliases
    requires input.confirm && GroupExists(rows, input.email) && EmployeeExists(world, input.employee)
    requires PeriodOk(NewAlias(id, input, world.now).validFrom, input.validTo)
    requires !AliasBlocked(rows, world, input)
    requires forall a :: a in rows.aliases ==> !SameAlias(rows.aliases[a], input, world.now)
    ensures CreateAlias(rows, rows, world, world, id, input).Failure?
            <==> exists a :: a in rows.aliases && !rows.aliases[a].active && rows.aliases[a].email == input.email
                             && rows.aliases[a].validFrom == NewAlias(id, input, world.now).validFrom
  {
    hide EmployeeBlocked, Rematched;
    var a := NewAlias(id, input, world.now);
    assert IdsOf(rows.aliases, input.email, a.validFrom, input.validTo) == {};
    forall o | o in rows.aliases && rows.aliases[o].email == a.email && rows.aliases[o].active
      ensures Disjoint(rows.aliases[o], a) && rows.aliases[o].validFrom != a.validFrom
    {
      assert o !in IdsOf(rows.aliases, input.email, a.validFrom, input.validTo);
    }
  }

  // ---------- no card is ambiguous by its aliases ----------

  lemma ListedAliases(rows: Rows, world: World)
    requires AliasesSound(rows.aliases)
    ensures var d := DirectoryOf(rows.aliases, world);
            && UniqueAliases(d.aliases)
            && forall a :: a in d.aliases ==> a.id in rows.aliases && rows.aliases[a.id] == a && Effective(a, world.now)
  {
    hide Effective;
    var ids, list := P.Ascending(rows.aliases.Keys), AliasList(rows.aliases);
    ListHasAliases(rows.aliases);
    forall i, j | 0 <= i < j < |list| ensures list[i].id != list[j].id {
      assert ids[i] in ids && ids[j] in ids;
    }
    SelectKeepsUnique(list, EffectiveAt(world.now));
    SelectHas(list, EffectiveAt(world.now));
  }

  lemma {:induction false} SelectKeepsUnique(list: seq<Alias>, p: Alias -> bool)
    requires UniqueAliases(list)
    ensures UniqueAliases(Select(list, p))
  {
    if list != [] {
      var front, last := list[..|list| - 1], list[|list| - 1];
      SelectKeepsUnique(front, p);
      SelectHas(front, p);
      forall a | a in Select(front, p) ensures a.id != last.id {
        assert a in front;
      }
    }
  }

  lemma JudgingIsUnambiguous(rows: Rows, world: World, provider: Provider, id: CardId, email: Option<Email>,
                             forced: Option<Code>)
    requires AliasesSound(rows.aliases) && forced != Some(AliasAmbiguous)
    ensures Judge(rows, world, provider, id, email, forced).code != Some(AliasAmbiguous)
  {
    hide MatchProviderCard, DirectoryOf, IsExcluded;
    ListedAliases(rows, world);
    DisjointAliasesAreUnambiguous(provider, email, forced, DirectoryOf(rows.aliases, world));
  }

  predicate Unambiguous(cards: map<CardId, Card>) {
    forall id :: id in cards ==> cards[id].code != Some(AliasAmbiguous)
  }

  lemma RematchIsUnambiguous(rows: Rows, world: World, scope: Scope)
    requires AliasesSound(rows.aliases) && Unambiguous(rows.cards)
    ensures Unambiguous(Rematched(rows, world, scope).cards)
  {
    hide AliasesSound, Judge, InScope;
    forall id | id in rows.cards ensures Rejudged(rows, world, id).code != Some(AliasAmbiguous) {
      JudgingIsUnambiguous(rows, world, Photonpay, id, rows.cards[id].email, None);
    }
  }

  /** The provider data never forces this code. */
  predicate ForcedCodesFit(w: Write) {
    w.SyncCardWrite? ==> w.fetched.forced != Some(AliasAmbiguous)
  }

  lemma ApplyIsUnambiguous(rows: Rows, seen: Rows, w: Write)
    requires AliasesSound(rows.aliases) && Unambiguous(rows.cards) && ForcedCodesFit(w)
    requires w.SyncCardWrite? ==> AliasesSound(seen.aliases)
    ensures Unambiguous(Apply(rows, seen, w).cards)
  {
    hide AliasesSound, AliasWriteAllowed, Judge, AliasBlocked, CorrectionBlocked, ExclusionWriteAllowed, Rematched;
    match w {
      case CreateAliasWrite(_, _, world, id, input) =>
        RematchIsUnambiguous(rows, world, OfEmail(input.email));
        var a := NewAlias(id, input, world.now);
        if AliasWriteAllowed(rows.aliases, a) {
          AllowedWriteIsSound(rows.aliases, a);
          RematchIsUnambiguous(rows.(aliases := rows.aliases[id := a]), world, OfEmail(input.email));
        }
      case CorrectAliasWrite(_, _, world, id, input) =>
        if id in rows.aliases && input.validFrom.Some? {
          IdStays(rows.aliases, id);
          var a := Corrected(rows.aliases[id], input);
          if AliasWriteAllowed(rows.aliases, a) {
            AllowedWriteIsSound(rows.aliases, a);
            RematchIsUnambiguous(Rows(rows.aliases[id := a], rows.exclusions,
                                      UnmatchedAliasCards(rows.cards, a.email, AliasCorrected)),
                                 world, OfEmail(a.email));
          }
        }
      case DisableAliasWrite(_, world, id, _) =>
        if id in rows.aliases {
          var a := rows.aliases[id].(active := false);
          DisablingIsSound(rows.aliases, id);
          RematchIsUnambiguous(Rows(rows.aliases[id := a], rows.exclusions,
                                    UnmatchedAliasCards(rows.cards, a.email, AliasDisabled)), world, OfEmail(a.email));
        }
      case CreateExclusionWrite(_, _, _, _, _) =>
      case DisableExclusionWrite(_, world, id, _) =>
        if id in rows.exclusions && rows.exclusions[id].card in rows.cards {
          var exclusions := rows.exclusions[id := rows.exclusions[id].(active := false)];
          var c := rows.exclusions[id].card;
          RematchIsUnambiguous(Rows(rows.aliases, exclusions,
                                    rows.cards[c := Released(rows.cards[c], ExclusionDisabled)]),
                               world, OfCard(c));
        }
      case RematchWrite(_, world, _) =>
        RematchIsUnambiguous(rows, world, AllCards);
      case SyncCardWrite(_, world, f) =>
        JudgingIsUnambiguous(seen, world, f.provider, f.card, f.email, f.forced);
    }
  }

  /** After every run no card is in conflict because its email has several aliases. */
  lemma {:induction false} AmbiguityIsUnreachable(ws: seq<Write>)
    requires forall w :: w in ws ==> ForcedCodesFit(w)
    ensures Unambiguous(After(ws).cards)
  {
    hide AliasesSound, Apply, ForcedCodesFit;
    if ws != [] {
      var n := |ws| - 1;
      AmbiguityIsUnreachable(ws[..n]);
      AliasesNeverOverlap(ws[..n]);
      AliasesNeverOverlap(ws[..if ws[n].readAt <= n then ws[n].readAt else n]);
      assert ws[n] in ws;
      ApplyIsUnambiguous(After(ws[..n]), SeenBy(ws), ws[n]);
    }
  }

  // ---------- cards matched by alias have one ----------

  predicate HasActiveAlias(aliases: map<AliasId, Alias>, email: Email, e: EmployeeId) {
    exists id :: id in aliases && aliases[id].active && aliases[id].email == email && aliases[id].employee == e
  }

  predicate OwnedCard(aliases: map<AliasId, Alias>, card: Card) {
    card.source == Some(ProviderEmailAlias) ==>
      && card.provider.Photonpay? && card.status.Matched? && card.email.Some? && card.employee.Some?
      && HasActiveAlias(aliases, card.email.value, card.employee.value)
  }

  predicate Owned(rows: Rows) {
    forall id :: id in rows.cards ==> OwnedCard(rows.aliases, rows.cards[id])
  }

  /** Judged by these aliases, a card matched by alias has one of them. */
  lemma JudgedByAlias(rows: Rows, world: World, provider: Provider, id: CardId, email: Option<Email>,
                      forced: Option<Code>)
    requires AliasesSound(rows.aliases)
    ensures var m := Judge(rows, world, provider, id, email, forced);
            m.source == Some(ProviderEmailAlias) ==>
              && provider.Photonpay? && m.status.Matched? && email.Some? && m.employee.Some?
              && HasActiveAlias(rows.aliases, email.value, m.employee.value)
  {
    hide MatchProviderCard, DirectoryOf, IsExcluded;
    ListedAliases(rows, world);
    FieldsFollowTheOutcome(provider, email, forced, DirectoryOf(rows.aliases, world));
  }

  lemma RematchKeepsOwned(rows: Rows, world: World, scope: Scope)
    requires AliasesSound(rows.aliases) && Owned(rows)
    ensures Owned(Rematched(rows, world, scope))
  {
    hide AliasesSound, Judge, HasActiveAlias;
    forall id | id in rows.cards && InScope(id, rows.cards[id], scope)
      ensures OwnedCard(rows.aliases, Rejudged(rows, world, id))
    {
      JudgedByAlias(rows, world, Photonpay, id, rows.cards[id].email, None);
    }
  }

  /** Releasing the cards of an email first makes any change to its aliases harmless. */
  lemma ReleasedCardsAreOwned(rows: Rows, id: AliasId, a: Alias, code: Code)
    requires Owned(rows) && id in rows.aliases && a.email == rows.aliases[id].email
    ensures Owned(Rows(rows.aliases[id := a], rows.exclusions, UnmatchedAliasCards(rows.cards, a.email, code)))
  {
    var cards, aliases := UnmatchedAliasCards(rows.cards, a.email, code), rows.aliases[id := a];
    forall c | c in cards && cards[c].source == Some(ProviderEmailAlias) ensures OwnedCard(aliases, cards[c]) {
      var card := rows.cards[c];
      assert OwnedCard(rows.aliases, card) && cards[c] == card;
      var owner :| owner in rows.aliases && rows.aliases[owner].active && rows.aliases[owner].email == card.email.value
                   && rows.aliases[owner].employee == card.employee.value;
      assert owner != id;
      assert aliases[owner] == rows.aliases[owner];
    }
  }

  lemma OneMoreAliasKeepsOwned(rows: Rows, id: AliasId, a: Alias)
    requires Owned(rows) && id !in rows.aliases
    ensures Owned(rows.(aliases := rows.aliases[id := a]))
  {
    var aliases := rows.aliases[id := a];
    forall c | c in rows.cards && rows.cards[c].source == Some(ProviderEmailAlias)
      ensures OwnedCard(aliases, rows.cards[c])
    {
      var card := rows.cards[c];
      assert OwnedCard(rows.aliases, card);
      var owner :| owner in rows.aliases && rows.aliases[owner].active && rows.aliases[owner].email == card.email.value
                   && rows.aliases[owner].employee == card.employee.value;
      assert aliases[owner] == rows.aliases[owner];
    }
  }

  /** A governance write keeps every alias-matched card owned, whatever its preview had read. */
  lemma GovernanceKeepsOwned(rows: Rows, seen: Rows, w: Write)
    requires AliasesSound(rows.aliases) && Owned(rows) && !w.SyncCardWrite?
    ensures Owned(Apply(rows, seen, w))
  {
    hide AliasesSound, AliasWriteAllowed, Judge, AliasBlocked, CorrectionBlocked, ExclusionWriteAllowed, Rematched,
         UnmatchedAliasCards, HasActiveAlias;
    match w {
      case CreateAliasWrite(_, _, world, id, input) =>
        RematchKeepsOwned(rows, world, OfEmail(input.email));
        var a := NewAlias(id, input, world.now);
        if id !in rows.aliases && AliasWriteAllowed(rows.aliases, a) {
          AllowedWriteIsSound(rows.aliases, a);
          OneMoreAliasKeepsOwned(rows, id, a);
          RematchKeepsOwned(rows.(aliases := rows.aliases[id := a]), world, OfEmail(input.email));
        }
      case CorrectAliasWrite(_, _, world, id, input) =>
        if id in rows.aliases && input.validFrom.Some? {
          IdStays(rows.aliases, id);
          var a := Corrected(rows.aliases[id], input);
          if AliasWriteAllowed(rows.aliases, a) {
            AllowedWriteIsSound(rows.aliases, a);
            ReleasedCardsAreOwned(rows, id, a, AliasCorrected);
            RematchKeepsOwned(Rows(rows.aliases[id := a], rows.exclusions,
                                   UnmatchedAliasCards(rows.cards, a.email, AliasCorrected)), world, OfEmail(a.email));
          }
        }
      case DisableAliasWrite(_, world, id, _) =>
        if id in rows.aliases {
          var a := rows.aliases[id].(active := false);
          DisablingIsSound(rows.aliases, id);
          ReleasedCardsAreOwned(rows, id, a, AliasDisabled);
          RematchKeepsOwned(Rows(rows.aliases[id := a], rows.exclusions,
                                 UnmatchedAliasCards(rows.cards, a.email, AliasDisabled)), world, OfEmail(a.email));
        }
      case CreateExclusionWrite(_, _, _, _, _) =>
      case DisableExclusionWrite(_, world, id, _) =>
        if id in rows.exclusions && rows.exclusions[id].card in rows.cards {
          var exclusions := rows.exclusions[id := rows.exclusions[id].(active := false)];
          var c := rows.exclusions[id].card;
          RematchKeepsOwned(Rows(rows.aliases, exclusions, rows.cards[c := Released(rows.cards[c], ExclusionDisabled)]),
                            world, OfCard(c));
        }
      case RematchWrite(_, world, _) =>
        RematchKeepsOwned(rows, world, AllCards);
    }
  }

  /** Alias periods and exclusion periods are disjoint, no card is ambiguous by its aliases, and every card matched by
      alias has an active alias with its email and employee. */
  predicate Kept(rows: Rows) {
    AliasesSound(rows.aliases) && ExclusionsSound(rows.exclusions) && Unambiguous(rows.cards) && Owned(rows)
  }

  lemma GovernanceKeepsTables(rows: Rows, seen: Rows, w: Write)
    requires Kept(rows) && !w.SyncCardWrite?
    ensures Kept(Apply(rows, seen, w))
  {
    hide Apply, AliasesSound, ExclusionsSound, Unambiguous, Owned;
    ApplyKeepsAliasesSound(rows, seen, w);
    ApplyKeepsExclusionsSound(rows, seen, w);
    ApplyIsUnambiguous(rows, seen, w);
    GovernanceKeepsOwned(rows, seen, w);
  }

  /** The sync does not match the card by alias, or an active alias gives its email to its employee at the time of the
      write. */
  predicate MatchIsCurrent(rows: Rows, seen: Rows, w: Write)
    requires w.SyncCardWrite?
  {
    var m := Verdict(seen, w.world, w.fetched);
    m.source == Some(ProviderEmailAlias) ==>
      && w.fetched.email.Some? && m.employee.Some?
      && HasActiveAlias(rows.aliases, w.fetched.email.value, m.employee.value)
  }

  lemma SyncedCardIsOwnedExactlyWhen(rows: Rows, seen: Rows, w: Write)
    requires Owned(rows) && AliasesSound(seen.aliases) && w.SyncCardWrite?
    ensures Owned(Apply(rows, seen, w)) <==> MatchIsCurrent(rows, seen, w)
  {
    hide Judge, AliasesSound, HasActiveAlias;
    var f := w.fetched;
    JudgedByAlias(seen, w.world, f.provider, f.card, f.email, f.forced);
    var after := Apply(rows, seen, w);
    assert after.cards[f.card].source == Verdict(seen, w.world, f).source;
    assert forall c :: c in after.cards && c != f.card ==> after.cards[c] == rows.cards[c];
  }

  /** Every alias that was active is still active, for the same email and employee. */
  predicate StillCurrent(seen: map<AliasId, Alias>, now: map<AliasId, Alias>) {
    forall id :: id in seen && seen[id].active ==>
      id in now && now[id].active && now[id].email == seen[id].email && now[id].employee == seen[id].employee
  }

  lemma CurrentSyncIsCurrent(rows: Rows, seen: Rows, w: Write)
    requires AliasesSound(seen.aliases) && w.SyncCardWrite? && StillCurrent(seen.aliases, rows.aliases)
    ensures MatchIsCurrent(rows, seen, w)
  {
    hide Judge, AliasesSound;
    var f := w.fetched;
    JudgedByAlias(seen, w.world, f.provider, f.card, f.email, f.forced);
  }

  /** Every card matched by alias is owned after each write of the run. */
  predicate AlwaysOwned(ws: seq<Write>)
    decreases |ws|
  {
    Owned(After(ws)) && (ws == [] || AlwaysOwned(ws[..|ws| - 1]))
  }

  /** Every sync write of the run meets the condition for its card when it writes. */
  predicate MatchesStayCurrent(ws: seq<Write>)
    decreases |ws|
  {
    ws == [] ||
    var n := |ws| - 1;
    MatchesStayCurrent(ws[..n]) && (ws[n].SyncCardWrite? ==> MatchIsCurrent(After(ws[..n]), SeenBy(ws), ws[n]))
  }

  /** Along every run the cards matched by alias have an active alias with their email and employee throughout exactly
      when each sync that writes such a match finds the alias still active: no other write can break it, however old
      its reads are. */
  lemma {:induction false} AliasMatchesAreOwnedExactlyWhen(ws: seq<Write>)
    ensures AlwaysOwned(ws) <==> MatchesStayCurrent(ws)
    decreases |ws|
  {
    hide AliasesSound, Apply, Owned, MatchIsCurrent;
    if ws == [] {
      NoCardsAreOwned();
    } else {
      var n := |ws| - 1;
      AliasMatchesAreOwnedExactlyWhen(ws[..n]);
      if AlwaysOwned(ws[..n]) {
        assert Owned(After(ws[..n]));
        AliasesNeverOverlap(ws[..n]);
        AliasesNeverOverlap(ws[..if ws[n].readAt <= n then ws[n].readAt else n]);
        if ws[n].SyncCardWrite? {
          SyncedCardIsOwnedExactlyWhen(After(ws[..n]), SeenBy(ws), ws[n]);
        } else {
          GovernanceKeepsOwned(After(ws[..n]), SeenBy(ws), ws[n]);
        }
      }
    }
  }

  lemma NoCardsAreOwned()
    ensures Owned(Rows(map[], map[], map[]))
  {
  }

  /** No alias a sync has read is disabled or given away before the sync has written its cards. */
  predicate SyncsAreCurrent(ws: seq<Write>)
    decreases |ws|
  {
    ws != [] ==>
      var n := |ws| - 1;
      SyncsAreCurrent(ws[..n]) && (ws[n].SyncCardWrite? ==> StillCurrent(SeenBy(ws).aliases, After(ws[..n]).aliases))
  }

  /** In particular the property holds throughout every such run. */
  lemma {:induction false} CurrentSyncsKeepOwned(ws: seq<Write>)
    requires SyncsAreCurrent(ws)
    ensures AlwaysOwned(ws)
    decreases |ws|
  {
    hide AliasesSound, Apply, MatchIsCurrent, StillCurrent, Owned;
    if ws != [] {
      var n := |ws| - 1;
      CurrentSyncsKeepOwned(ws[..n]);
      AliasMatchesAreOwnedExactlyWhen(ws[..n]);
      if ws[n].SyncCardWrite? {
        assert Owned(After(ws[..n]));
        AliasesNeverOverlap(ws[..if ws[n].readAt <= n then ws[n].readAt else n]);
        CurrentSyncIsCurrent(After(ws[..n]), SeenBy(ws), ws[n]);
      }
    }
    AliasMatchesAreOwnedExactlyWhen(ws);
  }

  const SAMPLE_EMAIL := Email(1, true)
  const SAMPLE_WORLD := World([Employee(5, None, true)], {5}, 10)
  const SAMPLE_ALIAS := Alias(3, SAMPLE_EMAIL, 5, true, 10, None)
  const SAMPLE_CARD := FetchedCard(Photonpay, 7, Some(SAMPLE_EMAIL), None)

  /** A sync stores a card, an alias is created for its email, and a second sync reads. Then the alias is disabled, and
      the second sync writes: the card is matched by an alias that is no longer active. */
  lemma StaleSyncBreaksOwnership() returns (ws: seq<Write>)
    ensures |ws| == 4 && AlwaysOwned(ws[..3]) && !Owned(After(ws))
  {
    hide Apply, Owned, AliasesSound, Verdict, MatchIsCurrent;
    var sync := SyncCardWrite(0, SAMPLE_WORLD, SAMPLE_CARD);
    var create := CreateAliasWrite(1, SAMPLE_WORLD, SAMPLE_WORLD, 3, AliasInput(SAMPLE_EMAIL, 5, None, None, true));
    var disable := DisableAliasWrite(2, SAMPLE_WORLD, 3, true);
    var late := SyncCardWrite(2, SAMPLE_WORLD, SAMPLE_CARD);
    ws := [sync, create, disable, late];
    assert ws[..0] == [] && ws[..1] == [sync] && ws[..2] == [sync, create] && ws[..3] == [sync, create, disable];
    assert ws[..1][..0] == ws[..0] && ws[..2][..1] == ws[..1] && ws[..3][..2] == ws[..2];
    var s0, s1, s2, s3 := After(ws[..0]), After(ws[..1]), After(ws[..2]), After(ws[..3]);
    assert SeenBy(ws[..1]) == s0 && SeenBy(ws[..2]) == s1 && SeenBy(ws[..3]) == s2 && SeenBy(ws) == s2;
    assert s1 == Apply(s0, s0, sync) && s2 == Apply(s1, s1, create) && s3 == Apply(s2, s2, disable);
    SyncStoresTheCard(s0, sync);
    SampleAliasIsCreated(s1, create);
    SampleAliasIsDisabled(s2, disable);
    assert MatchesStayCurrent(ws[..1]) by {
      FirstSyncIsCurrent(s0, sync);
    }
    AliasMatchesAreOwnedExactlyWhen(ws[..3]);
    assert Owned(s3);
    AliasesNeverOverlap(ws[..2]);
    OnlyAliasMatches(s2, SAMPLE_WORLD, SAMPLE_ALIAS, SAMPLE_CARD);
    LateSyncIsStale(s3, s2, late);
    SyncedCardIsOwnedExactlyWhen(s3, s2, late);
  }

  lemma SyncStoresTheCard(rows: Rows, w: Write)
    requires rows == Rows(map[], map[], map[]) && w == SyncCardWrite(0, SAMPLE_WORLD, SAMPLE_CARD)
    ensures var after := Apply(rows, rows, w);
            && after.aliases == map[] && after.exclusions == map[]
            && 7 in after.cards && after.cards[7].provider.Photonpay? && after.cards[7].email == Some(SAMPLE_EMAIL)
  {
    hide Verdict;
  }

  lemma FirstSyncIsCurrent(rows: Rows, w: Write)
    requires rows.aliases == map[] && w.SyncCardWrite?
    ensures MatchIsCurrent(rows, rows, w)
  {
    hide Judge;
    JudgedByAlias(rows, w.world, w.fetched.provider, w.fetched.card, w.fetched.email, w.fetched.forced);
  }

  lemma SampleAliasIsCreated(rows: Rows, w: Write)
    requires rows.aliases == map[] && rows.exclusions == map[]
    requires 7 in rows.cards && rows.cards[7].provider.Photonpay? && rows.cards[7].email == Some(SAMPLE_EMAIL)
    requires w == CreateAliasWrite(1, SAMPLE_WORLD, SAMPLE_WORLD, 3, AliasInput(SAMPLE_EMAIL, 5, None, None, true))
    ensures Apply(rows, rows, w).aliases == map[3 := SAMPLE_ALIAS] && Apply(rows, rows, w).exclusions == map[]
  {
    hide Rejudged, InScope, EmployeeBlocked;
    assert GroupExists(rows, SAMPLE_EMAIL);
    assert !EmployeeBlocked(SAMPLE_WORLD, SAMPLE_EMAIL, 5) by {
      SampleEmployeeIsFree();
    }
    assert IdsOf(rows.aliases, SAMPLE_EMAIL, 10, None) == {};
    assert SAMPLE_WORLD.employees[0] in SAMPLE_WORLD.employees;
  }

  lemma SampleEmployeeIsFree()
    ensures !EmployeeBlocked(SAMPLE_WORLD, SAMPLE_EMAIL, 5)
  {
    SelectNone(SAMPLE_WORLD.employees, HasEmail(SAMPLE_EMAIL));
    assert SAMPLE_WORLD.employees[0] in SAMPLE_WORLD.employees;
  }

  lemma SampleAliasIsDisabled(rows: Rows, w: Write)
    requires rows.aliases == map[3 := SAMPLE_ALIAS] && w == DisableAliasWrite(2, SAMPLE_WORLD, 3, true)
    ensures forall id :: id in Apply(rows, rows, w).aliases ==> !Apply(rows, rows, w).aliases[id].active
  {
    hide Rejudged, InScope, UnmatchedAliasCards;
  }

  lemma LateSyncIsStale(rows: Rows, seen: Rows, w: Write)
    requires w.SyncCardWrite? && Verdict(seen, w.world, w.fetched).source == Some(ProviderEmailAlias)
    requires forall id :: id in rows.aliases ==> !rows.aliases[id].active
    ensures !MatchIsCurrent(rows, seen, w)
  {
    hide Verdict;
  }

  lemma OnlyAliasMatches(rows: Rows, world: World, alias: Alias, f: FetchedCard)
    requires rows.aliases == map[alias.id := alias] && rows.exclusions == map[] && Effective(alias, world.now)
    requires world.employees == [Employee(alias.employee, None, true)] && alias.employee in world.subMapped
    requires f.provider.Photonpay? && f.email == Some(alias.email) && f.forced.None? && alias.email.wellFormed
    ensures Verdict(rows, world, f).source == Some(ProviderEmailAlias)
  {
    hide DirectoryOf, MatchProviderCard, Effective;
    var d := DirectoryOf(rows.aliases, world);
    OnlyAlias(alias, world);
    OnlyEmployee(d, alias);
    FieldsFollowTheOutcome(Photonpay, f.email, None, d);
  }

  lemma OnlyEmployee(d: Directory, alias: Alias)
    requires d.aliases == [alias] && Effective(alias, d.at) && alias.email.wellFormed
    requires d.employees == [Employee(alias.employee, None, true)] && alias.employee in d.subMapped
    ensures MatchProviderCard(Photonpay, Some(alias.email), None, d).source == Some(ProviderEmailAlias)
  {
    SelectNone(d.employees, HasEmail(alias.email));
    SelectAll(d.employees, HasId(alias.employee));
    SelectAll(d.aliases, AppliesTo(alias.email, d.at));
  }

  lemma OnlyAlias(alias: Alias, world: World)
    requires Effective(alias, world.now)
    ensures DirectoryOf(map[alias.id := alias], world)
            == Directory(world.employees, [alias], world.subMapped, world.now)
  {
    hide Effective;
    var aliases := map[alias.id := alias];
    var ids := P.Ascending(aliases.Keys);
    assert aliases.Keys == {alias.id};
    LengthOfAscending(aliases.Keys);
    assert ids[0] in ids;
    assert AliasList(aliases) == [alias];
    SelectAll([alias], EffectiveAt(world.now));
  }
}
