/** What the verdicts and writes mean for each card, said about the rows of aliases, exclusions and employees. */
module CardVerdicts {
  import opened Wrappers
  import opened CommonTypes
  import opened Selections
  import opened CardMatching
  import opened CardRematch
  import opened CardGovernance
  import opened CardOwnership
  import P = Postings

  /** Employee ids are primary keys. */
  predicate DistinctEmployees(world: World) {
    forall i, j :: 0 <= i < j < |world.employees| ==> world.employees[i].id != world.employees[j].id
  }

  /** The employees an email leads to: by their own address, or for PhotonPay by an active alias whose period contains
      the instant. */
  ghost predicate EmailLeadsTo(provider: Provider, email: Email, aliases: map<AliasId, Alias>, world: World,
                               e: EmployeeId)
  {
    || (exists p :: p in world.employees && p.email == Some(email) && p.id == e)
    || (provider.Photonpay? && exists a ::
          && a in aliases && aliases[a].active && aliases[a].email == email && aliases[a].employee == e
          && aliases[a].validFrom <= world.now && (aliases[a].validTo.None? || world.now < aliases[a].validTo.value))
  }

  /** The email leads to e and to nobody else, and e may hold cards. */
  ghost predicate BelongsTo(provider: Provider, email: Option<Email>, aliases: map<AliasId, Alias>, world: World,
                            e: EmployeeId)
  {
    && email.Some? && email.value.wellFormed
    && EmailLeadsTo(provider, email.value, aliases, world, e)
    && (forall f :: EmailLeadsTo(provider, email.value, aliases, world, f) ==> f == e)
    && (exists p :: p in world.employees && p.id == e && p.active)
    && (provider.Photonpay? ==> e in world.subMapped)
  }

  // ---------- the verdict on one card ----------

  /** A card is excluded, with no employee and as a test card, exactly when an active exclusion of it has a period that
      contains the instant. */
  lemma ExcludedExactlyWhen(rows: Rows, world: World, provider: Provider, id: CardId, email: Option<Email>,
                            forced: Option<Code>)
    ensures var m := Judge(rows, world, provider, id, email, forced);
            && (m.status.Excluded? <==>
                  exists x ::
                    && x in rows.exclusions && rows.exclusions[x].card == id && rows.exclusions[x].active
                    && rows.exclusions[x].effectiveFrom <= world.now
                    && (rows.exclusions[x].effectiveTo.None? || world.now < rows.exclusions[x].effectiveTo.value))
            && (m.status.Excluded? ==> m.employee.None? && m.source.None? && m.code == Some(AdminTestCard))
            && (m.status.Excluded? <==> IsExcluded(rows.exclusions, id, world.now))
  {
    hide MatchProviderCard, DirectoryOf;
    FieldsFollowTheOutcome(provider, email, forced, DirectoryOf(rows.aliases, world));
  }

  lemma DirectoryLeads(rows: Rows, world: World, provider: Provider, email: Email, e: EmployeeId)
    requires AliasesSound(rows.aliases)
    ensures LeadsTo(provider, email, DirectoryOf(rows.aliases, world), e)
            <==> EmailLeadsTo(provider, email, rows.aliases, world, e)
  {
    ListedAliases(rows, world);
    ListHasAliases(rows.aliases);
    SelectHas(AliasList(rows.aliases), EffectiveAt(world.now));
    var effective := EffectiveAt(world.now);
    assert forall a :: effective(a) <==> Effective(a, world.now);
    assert forall a :: a in rows.aliases && Effective(rows.aliases[a], world.now) ==>
        rows.aliases[a] in DirectoryOf(rows.aliases, world).aliases;
  }

  /** With disjoint aliases an email that leads to one employee leads there once. */
  lemma OneLeadIsUnambiguous(rows: Rows, world: World, email: Email, e: EmployeeId)
    requires AliasesSound(rows.aliases)
    requires forall f :: LeadsTo(Photonpay, email, DirectoryOf(rows.aliases, world), f) ==> f == e
    ensures !TwoAliases(email, DirectoryOf(rows.aliases, world))
  {
    hide DirectoryOf;
    ListedAliases(rows, world);
  }

  /** A card that is not excluded is matched to e exactly when no code is forced and its email belongs to e. */
  lemma MatchedToTheOwner(rows: Rows, world: World, provider: Provider, id: CardId, email: Option<Email>,
                          forced: Option<Code>, e: EmployeeId)
    requires AliasesSound(rows.aliases) && DistinctEmployees(world)
    ensures var m := Judge(rows, world, provider, id, email, forced);
            m.status.Matched? && m.employee == Some(e)
            <==> && !IsExcluded(rows.exclusions, id, world.now) && forced.None?
                 && BelongsTo(provider, email, rows.aliases, world, e)
  {
    hide MatchProviderCard, AliasesSound, LeadsTo, EmailLeadsTo, TwoAliases, IsExcluded, Select;
    var d := DirectoryOf(rows.aliases, world);
    ListedAliases(rows, world);
    MatchedExactlyWhen(provider, email, forced, d, e);
    if email.Some? {
      forall f
        ensures LeadsTo(provider, email.value, d, f) <==> EmailLeadsTo(provider, email.value, rows.aliases, world, f)
      {
        DirectoryLeads(rows, world, provider, email.value, f);
      }
      if provider.Photonpay? && forall f :: LeadsTo(provider, email.value, d, f) ==> f == e {
        OneLeadIsUnambiguous(rows, world, email.value, e);
      }
      if TwoPrimaries(email.value, d) {
        TwoPrimariesLeadToTwo(provider, email.value, d);
      }
    }
  }

  lemma TwoPrimariesLeadToTwo(provider: Provider, email: Email, d: Directory)
    requires TwoPrimaries(email, d)
    ensures exists f, g :: f != g && LeadsTo(provider, email, d, f) && LeadsTo(provider, email, d, g)
  {
    var p, q :| p in d.employees && q in d.employees && p.id != q.id && p.email == Some(email) == q.email;
    assert LeadsTo(provider, email, d, p.id) && LeadsTo(provider, email, d, q.id);
  }

  // ---------- the cards after a rematch and after a sync ----------

  /** A card after it was judged by these rows. */
  ghost predicate FollowsTheRows(rows: Rows, world: World, id: CardId, provider: Provider, email: Option<Email>,
                                 forced: Option<Code>, after: Card)
  {
    var excluded := IsExcluded(rows.exclusions, id, world.now);
    && after.provider == provider && after.email == email
    && (after.status.Excluded? <==> excluded)
    && (excluded ==> after.employee.None? && after.source.None? && after.code == Some(AdminTestCard))
    && (after.status.Matched? <==> after.employee.Some?)
    && (forall e: EmployeeId :: after.employee == Some(e) <==>
          !excluded && forced.None? && BelongsTo(provider, email, rows.aliases, world, e))
  }

  lemma VerdictsFollowTheRows(rows: Rows, world: World, provider: Provider, id: CardId, email: Option<Email>,
                              forced: Option<Code>, before: Card)
    requires AliasesSound(rows.aliases) && DistinctEmployees(world)
    requires before.provider == provider && before.email == email
    ensures FollowsTheRows(rows, world, id, provider, email, forced,
                           Written(before, Judge(rows, world, provider, id, email, forced)))
  {
    hide AliasesSound, BelongsTo, IsExcluded, DirectoryOf, MatchProviderCard;
    var m := Judge(rows, world, provider, id, email, forced);
    ExcludedExactlyWhen(rows, world, provider, id, email, forced);
    FieldsFollowTheOutcome(provider, email, forced, DirectoryOf(rows.aliases, world));
    forall e: EmployeeId
      ensures m.employee == Some(e)
              <==> && !IsExcluded(rows.exclusions, id, world.now) && forced.None?
                   && BelongsTo(provider, email, rows.aliases, world, e)
    {
      MatchedToTheOwner(rows, world, provider, id, email, forced, e);
    }
  }

  /** The rematch judged the unmatched PhotonPay cards in its scope by these rows, and left all others alone. */
  ghost predicate Refreshed(before: map<CardId, Card>, after: Rows, world: World, scope: Scope) {
    && after.cards.Keys == before.Keys
    && forall c :: c in before ==>
         if && before[c].provider.Photonpay? && before[c].status.Unmatched?
            && (scope.OfEmail? ==> before[c].email == Some(scope.email)) && (scope.OfCard? ==> c == scope.card)
         then FollowsTheRows(after, world, c, Photonpay, before[c].email, None, after.cards[c])
         else after.cards[c] == before[c]
  }

  lemma RematchRefreshes(rows: Rows, world: World, scope: Scope)
    requires AliasesSound(rows.aliases) && DistinctEmployees(world)
    ensures Refreshed(rows.cards, Rematched(rows, world, scope), world, scope)
    ensures Rematched(rows, world, scope).aliases == rows.aliases
    ensures Rematched(rows, world, scope).exclusions == rows.exclusions
  {
    hide AliasesSound, Judge, FollowsTheRows, DistinctEmployees;
    var after := Rematched(rows, world, scope);
    forall c | c in rows.cards && InScope(c, rows.cards[c], scope)
      ensures FollowsTheRows(after, world, c, Photonpay, rows.cards[c].email, None, after.cards[c])
    {
      VerdictsFollowTheRows(rows, world, Photonpay, c, rows.cards[c].email, None, rows.cards[c]);
      OnlyTablesMatter(rows, after, world, c, rows.cards[c].email, after.cards[c]);
    }
  }

  lemma OnlyTablesMatter(rows: Rows, other: Rows, world: World, c: CardId, email: Option<Email>, card: Card)
    requires rows.aliases == other.aliases && rows.exclusions == other.exclusions
    ensures FollowsTheRows(rows, world, c, Photonpay, email, None, card)
            <==> FollowsTheRows(other, world, c, Photonpay, email, None, card)
  {
  }

  /** What the sync fetched last of a card. */
  predicate LastFetch(fs: seq<FetchedCard>, k: nat, c: CardId) {
    k < |fs| && fs[k].card == c && forall j :: k < j < |fs| ==> fs[j].card != c
  }

  /** A sync leaves every card it fetched as the last fetched data and the rows it read say: in particular no card with
      an exclusion in force is matched, whatever its email. */
  lemma {:induction false} SyncRefreshes(cards: map<CardId, Card>, seen: Rows, world: World, fs: seq<FetchedCard>,
                                         k: nat, c: CardId)
    requires AliasesSound(seen.aliases) && DistinctEmployees(world) && LastFetch(fs, k, c)
    ensures c in UpsertedAll(cards, seen, world, fs)
    ensures FollowsTheRows(seen, world, c, fs[k].provider, fs[k].email, fs[k].forced,
                           UpsertedAll(cards, seen, world, fs)[c])
    decreases |fs|
  {
    hide AliasesSound, Judge, FollowsTheRows, DistinctEmployees;
    var n := |fs| - 1;
    var f := fs[n];
    if k == n {
      var m := Verdict(seen, world, f);
      var after := Card(f.provider, f.email, m.employee, m.status, m.source, m.code);
      VerdictsFollowTheRows(seen, world, f.provider, c, f.email, f.forced, after);
      assert Written(after, m) == after;
    } else {
      SyncRefreshes(cards, seen, world, fs[..n], k, c);
    }
  }

  /** It leaves every other card alone. */
  lemma {:induction false} SyncLeavesOthers(cards: map<CardId, Card>, seen: Rows, world: World, fs: seq<FetchedCard>,
                                            c: CardId)
    requires forall k :: 0 <= k < |fs| ==> fs[k].card != c
    ensures c in UpsertedAll(cards, seen, world, fs) <==> c in cards
    ensures c in cards ==> UpsertedAll(cards, seen, world, fs)[c] == cards[c]
    decreases |fs|
  {
    hide Verdict;
    if fs != [] {
      SyncLeavesOthers(cards, seen, world, fs[..|fs| - 1], c);
    }
  }

  // ---------- what the counters count ----------

  /** The unmatched cards in scope that have an exclusion in force. */
  function ExcludedCards(rows: Rows, scope: Scope, now: Instant): set<CardId> {
    set c | c in rows.cards && InScope(c, rows.cards[c], scope) && IsExcluded(rows.exclusions, c, now)
  }

  function Among(ids: seq<CardId>, hit: set<CardId>): set<CardId> {
    set c | c in ids && c in hit
  }

  lemma {:induction false} CountedByCard(js: seq<Judged>, ids: seq<CardId>, hit: set<CardId>)
    requires |js| == |ids| && P.NoDuplicates(ids)
    requires forall i :: 0 <= i < |ids| ==> (js[i].outcome.status.Excluded? <==> ids[i] in hit)
    ensures Count(js, HasStatus(MatchStatus.Excluded)) == |Among(ids, hit)|
  {
    if js == [] {
      assert Among(ids, hit) == {};
    } else {
      var n := |js| - 1;
      CountedByCard(js[..n], ids[..n], hit);
      assert js[..n] + [js[n]] == js;
      CountStep(js[..n], js[n], HasStatus(MatchStatus.Excluded));
      assert HasStatus(MatchStatus.Excluded)(js[n]) <==> ids[n] in hit;
      var before := Among(ids[..n], hit);
      assert forall c :: c in ids <==> c in ids[..n] || c == ids[n];
      assert ids[n] !in ids[..n];
      assert ids[n] !in before;
      if ids[n] in hit {
        assert Among(ids, hit) == before + {ids[n]};
      } else {
        assert Among(ids, hit) == before;
      }
    }
  }

  /** The counter of excluded cards is the number of unmatched cards in scope with an exclusion in force. */
  lemma ExcludedAreCounted(rows: Rows, world: World, scope: Scope, stats: RematchStats, actor: bool, preview: bool)
    requires Counted(stats, JudgedCards(rows, world, scope), actor, preview)
    ensures stats.excluded == |ExcludedCards(rows, scope, world.now)|
  {
    hide Judge, IsExcluded, InScope;
    var ids, js := InScopeIds(rows.cards, scope), JudgedCards(rows, world, scope);
    var hit := ExcludedCards(rows, scope, world.now);
    forall i | 0 <= i < |ids| ensures js[i].outcome.status.Excluded? <==> ids[i] in hit {
      assert ids[i] in ids;
      ExcludedExactlyWhen(rows, world, Photonpay, ids[i], rows.cards[ids[i]].email, None);
    }
    CountedByCard(js, ids, hit);
    assert Among(ids, hit) == hit;
  }
}
