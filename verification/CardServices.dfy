/** The services that write cards: alias and exclusion administration with its rematch, and the inventory sync.

    Each method is one write of a run: it serves its request and keeps what every run of governance writes keeps. */
module CardServices {
  import opened Wrappers
  import opened CommonTypes
  import opened Selections
  import opened CardMatching
  import opened CardRematch
  import opened CardGovernance
  import opened CardOwnership
  import opened CardVerdicts
  import opened CardWrites
  import P = Postings

  /** While the aliases stay as the sync read them, it leaves every card matched by alias owned. */
  lemma {:induction false} UndisturbedSyncKeepsOwned(cards: map<CardId, Card>, seen: Rows, world: World,
                                                     fs: seq<FetchedCard>)
    requires AliasesSound(seen.aliases) && Owned(seen.(cards := cards))
    ensures Owned(seen.(cards := UpsertedAll(cards, seen, world, fs)))
    decreases |fs|
  {
    hide AliasesSound, Owned, Verdict, MatchIsCurrent;
    if fs != [] {
      var n := |fs| - 1;
      var rows := seen.(cards := UpsertedAll(cards, seen, world, fs[..n]));
      var w := SyncCardWrite(0, world, fs[n]);
      UndisturbedSyncKeepsOwned(cards, seen, world, fs[..n]);
      AliasesAreCurrent(seen, rows, w);
      SyncedCardIsOwnedExactlyWhen(rows, seen, w);
      assert Apply(rows, seen, w) == seen.(cards := UpsertedAll(cards, seen, world, fs));
    }
  }

  lemma AliasesAreCurrent(seen: Rows, rows: Rows, w: Write)
    requires AliasesSound(seen.aliases) && w.SyncCardWrite? && rows.aliases == seen.aliases
    ensures MatchIsCurrent(rows, seen, w)
  {
    hide AliasesSound, MatchIsCurrent;
    assert StillCurrent(seen.aliases, rows.aliases);
    CurrentSyncIsCurrent(rows, seen, w);
  }

  /** An exclusion of the fetched card is in force. */
  function OnExclusionList(exclusions: map<ExclusionId, Exclusion>, now: Instant): FetchedCard -> bool {
    (f: FetchedCard) => IsExcluded(exclusions, f.card, now)
  }

  lemma ExcludedFetches(seen: Rows, world: World, fs: seq<FetchedCard>)
    ensures Select(fs, VerdictIs(seen, world, MatchStatus.Excluded))
            == Select(fs, OnExclusionList(seen.exclusions, world.now))
  {
    hide Judge, IsExcluded;
    forall f | f in fs
      ensures VerdictIs(seen, world, MatchStatus.Excluded)(f) == OnExclusionList(seen.exclusions, world.now)(f)
    {
      ExcludedExactlyWhen(seen, world, f.provider, f.card, f.email, f.forced);
    }
    SelectSame(fs, VerdictIs(seen, world, MatchStatus.Excluded), OnExclusionList(seen.exclusions, world.now));
  }

  /** Each fetched card is where its last fetch and the rows put it, and no other card has changed. */
  ghost predicate Synced(before: map<CardId, Card>, seen: Rows, world: World, fs: seq<FetchedCard>,
                         after: map<CardId, Card>)
  {
    && (forall c: CardId, k: nat :: LastFetch(fs, k, c) ==>
          c in after
          && FollowsTheRows(seen, world, c, fs[k].provider, fs[k].email, fs[k].forced, after[c]))
    && forall c :: (forall k :: 0 <= k < |fs| ==> fs[k].card != c) ==>
         (c in after <==> c in before) && (c in before ==> after[c] == before[c])
  }

  lemma SyncingIsStored(cards: map<CardId, Card>, seen: Rows, world: World, fs: seq<FetchedCard>)
    requires AliasesSound(seen.aliases) && DistinctEmployees(world)
    ensures Synced(cards, seen, world, fs, UpsertedAll(cards, seen, world, fs))
  {
    hide AliasesSound, DistinctEmployees, FollowsTheRows, UpsertedAll;
    forall c: CardId, k: nat | LastFetch(fs, k, c)
      ensures c in UpsertedAll(cards, seen, world, fs)
      ensures FollowsTheRows(seen, world, c, fs[k].provider, fs[k].email, fs[k].forced,
                             UpsertedAll(cards, seen, world, fs)[c])
    {
      SyncRefreshes(cards, seen, world, fs, k, c);
    }
    forall c | forall k :: 0 <= k < |fs| ==> fs[k].card != c
      ensures c in UpsertedAll(cards, seen, world, fs) <==> c in cards
      ensures c in cards ==> UpsertedAll(cards, seen, world, fs)[c] == cards[c]
    {
      SyncLeavesOthers(cards, seen, world, fs, c);
    }
  }

  class ProviderCardInventory {
    var cards: map<CardId, Card>

    constructor (cards: map<CardId, Card>)
      ensures this.cards == cards
    {
      this.cards := cards;
    }

    /** The matching and upsert loop, and its four counters. */
    method SyncProvider(seen: Rows, world: World, fetched: seq<FetchedCard>)
      returns (matched: nat, unmatched: nat, conflict: nat, excluded: nat)
      modifies this
      ensures cards == UpsertedAll(old(cards), seen, world, fetched)
      ensures matched == |Select(fetched, VerdictIs(seen, world, Matched))|
      ensures unmatched == |Select(fetched, VerdictIs(seen, world, Unmatched))|
      ensures conflict == |Select(fetched, VerdictIs(seen, world, MatchStatus.Conflict))|
      ensures excluded == |Select(fetched, VerdictIs(seen, world, MatchStatus.Excluded))|
      ensures matched + unmatched + conflict + excluded == |fetched|
      ensures excluded == |Select(fetched, OnExclusionList(seen.exclusions, world.now))|
      ensures AliasesSound(seen.aliases) && DistinctEmployees(world) ==> Synced(old(cards), seen, world, fetched, cards)
      ensures AliasesSound(seen.aliases) && Owned(seen.(cards := old(cards))) ==> Owned(seen.(cards := cards))
    {
      hide Judge, DirectoryOf, AliasesSound, Owned, Synced, DistinctEmployees, OnExclusionList;
      ExcludedFetches(seen, world, fetched);
      if AliasesSound(seen.aliases) && DistinctEmployees(world) {
        SyncingIsStored(cards, seen, world, fetched);
      }
      if AliasesSound(seen.aliases) && Owned(seen.(cards := cards)) {
        UndisturbedSyncKeepsOwned(cards, seen, world, fetched);
      }
      matched, unmatched, conflict, excluded := 0, 0, 0, 0;
      for i := 0 to |fetched|
        invariant cards == UpsertedAll(old(cards), seen, world, fetched[..i])
        invariant matched + unmatched + conflict + excluded == i
        invariant matched == |Select(fetched[..i], VerdictIs(seen, world, Matched))|
        invariant unmatched == |Select(fetched[..i], VerdictIs(seen, world, Unmatched))|
        invariant conflict == |Select(fetched[..i], VerdictIs(seen, world, MatchStatus.Conflict))|
        invariant excluded == |Select(fetched[..i], VerdictIs(seen, world, MatchStatus.Excluded))|
      {
        assert fetched[..i + 1][..i] == fetched[..i];
        var m := Judge(seen, world, fetched[i].provider, fetched[i].card, fetched[i].email, fetched[i].forced);
        if m.status.Matched? {
          matched := matched + 1;
        } else if m.status.Conflict? {
          conflict := conflict + 1;
        } else if m.status.Excluded? {
          excluded := excluded + 1;
        } else {
          unmatched := unmatched + 1;
        }
        var f := fetched[i];
        cards := cards[f.card := Card(f.provider, f.email, m.employee, m.status, m.source, m.code)];
      }
      assert fetched[..|fetched|] == fetched;
    }
  }

  class PhotonPayCardGovernance {
    var aliases: map<AliasId, Alias>
    var exclusions: map<ExclusionId, Exclusion>
    var cards: map<CardId, Card>

    function State(): Rows
      reads this
    {
      Rows(aliases, exclusions, cards)
    }

    constructor (rows: Rows)
      ensures State() == rows
    {
      aliases, exclusions, cards := rows.aliases, rows.exclusions, rows.cards;
    }

    /** `rematchUnmatched`: the cards in scope one by one, each written only when its outcome differs. */
    method RematchUnmatched(world: World, actor: bool, scope: Scope, preview: bool) returns (stats: RematchStats)
      modifies this`cards
      ensures State() == if preview then old(State()) else Rematched(old(State()), world, scope)
      ensures Counted(stats, JudgedCards(old(State()), world, scope), actor, preview)
      ensures stats.excluded == |ExcludedCards(old(State()), scope, world.now)|
      ensures !preview && AliasesSound(aliases) && DistinctEmployees(world) ==>
                Refreshed(old(cards), State(), world, scope)
    {
      hide ExcludedCards, Refreshed, AliasesSound, DistinctEmployees;
      hide Counted, Judge, InScope, JudgedCards, Rematched, Recorded, Changes, Written;
      var rows := State();
      var ids := InScopeIds(cards, scope);
      ghost var js := JudgedCards(rows, world, scope);
      stats := EMPTY_REMATCH_RESULT;
      NothingCounted(actor, preview);
      ghost var done: set<CardId> := {};
      for i := 0 to |ids|
        invariant Counted(stats, js[..i], actor, preview)
        invariant preview ==> cards == rows.cards
        invariant forall k :: 0 <= k < i ==> ids[k] in done
        invariant forall id :: id in done ==> id in ids
        invariant !preview ==> RejudgedIn(done, rows, world, cards)
      {
        assert js[..i + 1] == js[..i] + [js[i]];
        JudgedAt(rows, world, scope, i);
        var card := rows.cards[ids[i]];
        var outcome := Judge(rows, world, Photonpay, ids[i], card.email, None);
        var judged := Judged(card, outcome);
        RecordedIsCounted(stats, js[..i], judged, actor, preview);
        stats := Recorded(stats, judged, actor, preview);
        ghost var before := cards;
        if !preview && Changes(judged) {
          cards := cards[ids[i] := Written(card, outcome)];
        }
        if !preview {
          OneMoreRejudged(done, rows, world, before, cards, ids[i]);
        }
        done := done + {ids[i]};
      }
      assert js[..|ids|] == js;
      ExcludedAreCounted(rows, world, scope, stats, actor, preview);
      if !preview {
        AllRejudged(done, rows, world, scope, cards);
        if AliasesSound(aliases) && DistinctEmployees(world) {
          RematchRefreshes(rows, world, scope);
        }
      }
    }

    method UnmatchAliasCards(email: Email, code: Code) returns (count: nat)
      modifies this`cards
      ensures cards == UnmatchedAliasCards(old(cards), email, code)
      ensures AliasCardsReleased(old(cards), email, code, cards)
      ensures count == |AliasCardIds(old(cards), email)|
    {
      hide AliasCardIds, Released, UnmatchedAliasCards, ReleasedIn, AliasCardsReleased;
      ReleasingIsStored(cards, email, code);
      var before := cards;
      ghost var all := AliasCardIds(cards, email);
      AliasCardIdsAreCards(cards, email);
      var ids := P.Ascending(AliasCardIds(cards, email));
      ghost var done: set<CardId> := {};
      NoneReleased(before, code);
      for i := 0 to |ids|
        invariant forall k :: 0 <= k < i ==> ids[k] in done
        invariant done <= all
        invariant ReleasedIn(done, before, code, cards)
      {
        assert ids[i] in ids;
        OneMoreReleased(done, before, code, cards, ids[i]);
        cards := cards[ids[i] := Released(before[ids[i]], code)];
        done := done + {ids[i]};
      }
      assert forall id :: id in all ==> id in ids;
      assert done == all;
      AllReleased(before, email, code, cards);
      LengthOfAscending(all);
      return |ids|;
    }

    method Create(seen: Rows, seenWorld: World, world: World, id: AliasId, input: AliasInput)
      returns (r: Result<RematchStats, GovernanceError>)
      modifies this
      ensures match CreateAlias(old(State()), seen, seenWorld, world, id, input)
              case Success(rows) => r.Success? && State() == rows
              case Failure(error) => r == Failure(error) && State() == old(State())
      ensures Kept(old(State())) ==> Kept(State())
      ensures r.Success? ==>
                Counted(r.value, JudgedCards(Rows(aliases, exclusions, old(cards)), world, OfEmail(input.email)),
                        true, false)
      ensures r.Success? ==> AliasIsCreated(old(State()), world, id, input, State())
    {
      hide Kept, Rematched, Counted, JudgedCards, AliasBlocked, AliasWriteAllowed, AliasIsCreated, Refreshed,
           ExcludedCards;
      if CreateAlias(State(), seen, seenWorld, world, id, input).Success? {
        CreatedAliasIsThere(State(), seen, seenWorld, world, id, input);
      }
      var seenFrom := if input.validFrom.Some? then input.validFrom.value else seenWorld.now;
      if !input.confirm {
        return Failure(ValidationError);
      }
      if !GroupExists(seen, input.email) || !EmployeeExists(seenWorld, input.employee) {
        return Failure(NotFound);
      }
      if !PeriodOk(seenFrom, input.validTo) {
        return Failure(ValidationError);
      }
      if AliasBlocked(seen, seenWorld, input) {
        return Failure(ConflictError);
      }
      if !exists a :: a in aliases && SameAlias(aliases[a], input, world.now) {
        var alias := NewAlias(id, input, world.now);
        if id in aliases || !AliasWriteAllowed(aliases, alias) {
          return Failure(ConflictError);
        }
        aliases := aliases[id := alias];
      }
      var stats := RematchUnmatched(world, true, OfEmail(input.email), false);
      if Kept(old(State())) {
        GovernanceKeepsTables(old(State()), seen, CreateAliasWrite(0, seenWorld, world, id, input));
      }
      return Success(stats);
    }

    method Correct(seen: Rows, seenWorld: World, world: World, id: AliasId, input: CorrectionInput)
      returns (r: Result<RematchStats, GovernanceError>)
      modifies this
      ensures match CorrectAlias(old(State()), seen, seenWorld, world, id, input)
              case Success(rows) => r.Success? && State() == rows
              case Failure(error) => r == Failure(error) && State() == old(State())
      ensures Kept(old(State())) ==> Kept(State())
      ensures r.Success? ==>
                if AlreadyCorrect(seen.aliases, id, input) then State() == old(State())
                else AliasIsCorrected(old(State()), world, id, input, State())
    {
      hide Kept, Rematched, Counted, JudgedCards, CorrectionBlocked, AliasWriteAllowed, AliasIsCorrected, Refreshed,
           AlreadyCorrect, ExcludedCards;
      if CorrectAlias(State(), seen, seenWorld, world, id, input).Success? {
        CorrectionIsStored(State(), seen, seenWorld, world, id, input);
      }
      if !input.confirm {
        return Failure(ValidationError);
      }
      if id !in seen.aliases || !EmployeeExists(seenWorld, input.employee) {
        return Failure(NotFound);
      }
      if input.validFrom.None? || !PeriodOk(input.validFrom.value, input.validTo) {
        return Failure(ValidationError);
      }
      if CorrectionBlocked(seen, seenWorld, id, input) {
        return Failure(ConflictError);
      }
      if input.sameReason && seen.aliases[id] == Corrected(seen.aliases[id], input) {
        return Success(EMPTY_REMATCH_RESULT);
      }
      if id !in aliases {
        return Failure(NotFound);
      }
      var email, rollback := aliases[id].email, cards;
      var _ := UnmatchAliasCards(email, AliasCorrected);
      var alias := Corrected(aliases[id], input);
      if !AliasWriteAllowed(aliases, alias) {
        cards := rollback;
        return Failure(ConflictError);
      }
      aliases := aliases[id := alias];
      var stats := RematchUnmatched(world, true, OfEmail(email), false);
      if Kept(old(State())) {
        GovernanceKeepsTables(old(State()), seen, CorrectAliasWrite(0, seenWorld, world, id, input));
      }
      return Success(stats);
    }

    method Disable(seen: Rows, world: World, id: AliasId, confirm: bool)
      returns (r: Result<RematchStats, GovernanceError>)
      modifies this
      ensures match DisableAlias(old(State()), seen, world, id, confirm)
              case Success(rows) => r.Success? && State() == rows
              case Failure(error) => r == Failure(error) && State() == old(State())
      ensures Kept(old(State())) ==> Kept(State())
      ensures r.Success? ==>
                && id in seen.aliases
                && if !seen.aliases[id].active then State() == old(State())
                   else AliasIsDisabled(old(State()), world, id, State())
    {
      hide Kept, Rematched, Counted, JudgedCards, AliasIsDisabled, Refreshed, ExcludedCards;
      if DisableAlias(State(), seen, world, id, confirm).Success? {
        DisablingIsStored(State(), seen, world, id, confirm);
      }
      if !confirm {
        return Failure(ValidationError);
      }
      if id !in seen.aliases {
        return Failure(NotFound);
      }
      if !seen.aliases[id].active {
        return Success(EMPTY_REMATCH_RESULT);
      }
      if id !in aliases {
        return Failure(NotFound);
      }
      var email := aliases[id].email;
      var _ := UnmatchAliasCards(email, AliasDisabled);
      aliases := aliases[id := aliases[id].(active := false)];
      var stats := RematchUnmatched(world, true, OfEmail(email), false);
      if Kept(old(State())) {
        GovernanceKeepsTables(old(State()), seen, DisableAliasWrite(0, world, id, confirm));
      }
      return Success(stats);
    }

    method Exclude(seen: Rows, seenNow: Instant, now: Instant, id: ExclusionId, input: ExclusionInput)
      returns (r: Result<ExclusionId, GovernanceError>)
      modifies this`exclusions, this`cards
      ensures match CreateExclusion(old(State()), seen, seenNow, now, id, input)
              case Success(rows) => r.Success? && State() == rows
              case Failure(error) => r == Failure(error) && State() == old(State())
      ensures Kept(old(State())) ==> Kept(State())
      ensures r.Success? ==> ExclusionIsCreated(old(State()), seenNow, now, id, input, State())
    {
      hide Kept, ExclusionWriteAllowed, ExclusionIsCreated;
      if CreateExclusion(State(), seen, seenNow, now, id, input).Success? {
        CreatedExclusionIsThere(State(), seen, seenNow, now, id, input);
      }
      if !input.confirm {
        return Failure(ValidationError);
      }
      var from := if input.effectiveFrom.Some? then input.effectiveFrom.value else seenNow;
      if !PeriodOk(from, input.effectiveTo) {
        return Failure(ValidationError);
      }
      if input.card !in seen.cards || !seen.cards[input.card].provider.Photonpay? {
        return Failure(NotFound);
      }
      if input.hasSpendEvents {
        return Failure(ConflictError);
      }
      if y :| y in exclusions && SameExclusion(exclusions[y], input, now) {
        return Success(y);
      }
      var x := Exclusion(input.card, true, from, input.effectiveTo);
      if id in exclusions || input.card !in cards || !ExclusionWriteAllowed(State(), id, x) {
        NoCardNoExclusion(State(), id, x);
        return Failure(ConflictError);
      }
      exclusions := exclusions[id := x];
      if InForce(x, now) {
        cards := cards[input.card := Written(cards[input.card], NoMatch(MatchStatus.Excluded, AdminTestCard))];
      }
      if Kept(old(State())) {
        ghost var w := CreateExclusionWrite(0, World([], {}, seenNow), World([], {}, now), id, input);
        GovernanceKeepsTables(old(State()), seen, w);
      }
      return Success(id);
    }

    method DisableExclusionOf(seen: Rows, world: World, id: ExclusionId, confirm: bool)
      returns (r: Result<RematchStats, GovernanceError>)
      modifies this`exclusions, this`cards
      ensures match DisableExclusion(old(State()), seen, world, id, confirm)
              case Success(rows) => r.Success? && State() == rows
              case Failure(error) => r == Failure(error) && State() == old(State())
      ensures Kept(old(State())) ==> Kept(State())
      ensures r.Success? ==>
                && id in seen.exclusions
                && if !seen.exclusions[id].active then State() == old(State())
                   else ExclusionIsEnded(old(State()), world, id, State())
    {
      hide Kept, Rematched, Counted, JudgedCards, ExclusionIsEnded, Refreshed, ExcludedCards;
      if DisableExclusion(State(), seen, world, id, confirm).Success? {
        EndingIsStored(State(), seen, world, id, confirm);
      }
      if !confirm {
        return Failure(ValidationError);
      }
      if id !in seen.exclusions {
        return Failure(NotFound);
      }
      if !seen.exclusions[id].active {
        return Success(EMPTY_REMATCH_RESULT);
      }
      if id !in exclusions || exclusions[id].card !in cards {
        return Failure(NotFound);
      }
      var c := exclusions[id].card;
      exclusions := exclusions[id := exclusions[id].(active := false)];
      if !cards[c].status.Excluded? {
        if Kept(old(State())) {
          GovernanceKeepsTables(old(State()), seen, DisableExclusionWrite(0, world, id, confirm));
        }
        return Success(EMPTY_REMATCH_RESULT);
      }
      cards := cards[c := Released(cards[c], ExclusionDisabled)];
      var stats := RematchUnmatched(world, true, OfCard(c), false);
      if Kept(old(State())) {
        GovernanceKeepsTables(old(State()), seen, DisableExclusionWrite(0, world, id, confirm));
      }
      return Success(stats);
    }
  }

  lemma NoCardNoExclusion(rows: Rows, id: ExclusionId, x: Exclusion)
    ensures ExclusionWriteAllowed(rows, id, x) ==> x.card in rows.cards
  {
  }

  lemma NothingCounted(actor: bool, preview: bool)
    ensures Counted(EMPTY_REMATCH_RESULT, [], actor, preview)
  {
    hide Select, Changes, ByPrimary, ByAlias;
    SelectNone([], OwnEmail());
    SelectNone([], Aliased());
    SelectNone([], Remaining());
    SelectNone([], HasStatus(MatchStatus.Excluded));
    SelectNone([], HasStatus(MatchStatus.Conflict));
    SelectNone([], HasCode(EmployeeDisabled));
    SelectNone([], HasCode(EmployeeWithoutSub));
    SelectNone([], Changing());
    SelectNone([], Resolving());
  }

  /** The cards done so far are rejudged, the others are as before. */
  ghost predicate RejudgedIn(done: set<CardId>, rows: Rows, world: World, cards: map<CardId, Card>) {
    && cards.Keys == rows.cards.Keys && done <= rows.cards.Keys
    && forall id :: id in cards ==> cards[id] == if id in done then Rejudged(rows, world, id) else rows.cards[id]
  }

  lemma JudgedAt(rows: Rows, world: World, scope: Scope, i: nat)
    requires i < |InScopeIds(rows.cards, scope)|
    ensures var id := InScopeIds(rows.cards, scope)[i];
            && id in rows.cards && InScope(id, rows.cards[id], scope)
            && JudgedCards(rows, world, scope)[i]
               == Judged(rows.cards[id], Judge(rows, world, Photonpay, id, rows.cards[id].email, None))
  {
    hide Judge, InScope;
    assert InScopeIds(rows.cards, scope)[i] in InScopeIds(rows.cards, scope);
  }

  lemma OneMoreRejudged(done: set<CardId>, rows: Rows, world: World, before: map<CardId, Card>,
                        after: map<CardId, Card>, id: CardId)
    requires RejudgedIn(done, rows, world, before) && id in rows.cards
    requires var judged := Judged(rows.cards[id], Judge(rows, world, Photonpay, id, rows.cards[id].email, None));
             after == if Changes(judged) then before[id := Written(judged.before, judged.outcome)] else before
    ensures RejudgedIn(done + {id}, rows, world, after)
  {
    hide Judge, Written;
  }

  lemma AllRejudged(done: set<CardId>, rows: Rows, world: World, scope: Scope, cards: map<CardId, Card>)
    requires RejudgedIn(done, rows, world, cards)
    requires forall id :: id in done <==> id in InScopeIds(rows.cards, scope)
    ensures rows.(cards := cards) == Rematched(rows, world, scope)
  {
    hide Judge, InScope, Rejudged;
  }

  /** The PhotonPay cards of the email that were matched by alias have lost employee and source for this reason; every
      other card is as it was. */
  ghost predicate AliasCardsReleased(before: map<CardId, Card>, email: Email, code: Code, after: map<CardId, Card>) {
    && after.Keys == before.Keys
    && forall c :: c in before ==>
         var card, card' := before[c], after[c];
         if && card.provider.Photonpay? && card.email == Some(email)
            && card.status.Matched? && card.source == Some(ProviderEmailAlias)
         then && card'.status.Unmatched? && card'.employee.None? && card'.source.None? && card'.code == Some(code)
              && card'.provider == card.provider && card'.email == card.email
         else card' == card
  }

  lemma ReleasingIsStored(cards: map<CardId, Card>, email: Email, code: Code)
    ensures AliasCardsReleased(cards, email, code, UnmatchedAliasCards(cards, email, code))
  {
  }

  ghost predicate ReleasedIn(done: set<CardId>, before: map<CardId, Card>, code: Code, cards: map<CardId, Card>) {
    && cards.Keys == before.Keys
    && forall id :: id in cards ==> cards[id] == if id in done then Released(before[id], code) else before[id]
  }

  lemma NoneReleased(before: map<CardId, Card>, code: Code)
    ensures ReleasedIn({}, before, code, before)
  {
  }

  lemma OneMoreReleased(done: set<CardId>, before: map<CardId, Card>, code: Code, cards: map<CardId, Card>, id: CardId)
    requires ReleasedIn(done, before, code, cards) && id in before
    ensures ReleasedIn(done + {id}, before, code, cards[id := Released(before[id], code)])
  {
    hide Released;
  }

  lemma AliasCardIdsAreCards(cards: map<CardId, Card>, email: Email)
    ensures AliasCardIds(cards, email) <= cards.Keys
  {
  }

  lemma AllReleased(before: map<CardId, Card>, email: Email, code: Code, cards: map<CardId, Card>)
    requires ReleasedIn(AliasCardIds(before, email), before, code, cards)
    ensures cards == UnmatchedAliasCards(before, email, code)
  {
    hide AliasCard, Released;
  }
}
