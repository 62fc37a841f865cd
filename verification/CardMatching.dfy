/** Matching a provider card to an employee by the cardholder's email or an alias of it. */
module CardMatching {
  import opened Wrappers
  import opened CommonTypes
  import opened Selections

  type EmployeeId = nat
  type AliasId = nat

  /** A normalized email; whether it has the form of an address is part of it. */
  datatype Email = Email(text: nat, wellFormed: bool)

  datatype Employee = Employee(id: EmployeeId, email: Option<Email>, active: bool)
  datatype Alias = Alias(id: AliasId, email: Email, employee: EmployeeId, active: bool, validFrom: Instant,
                         validTo: Option<Instant>)

  datatype MatchStatus = Matched | Unmatched | Conflict | Excluded
  datatype MatchSource = PrimaryEmail | ProviderEmailAlias
  datatype Code =
    | MultipleCardholders | OtherForced | EmailMissing | EmailInvalid | EmployeeEmailAmbiguous | AliasAmbiguous
    | PrimaryAliasConflict | EmployeeNotFound | EmployeeDisabled | EmployeeWithoutSub
    | AdminTestCard | AliasCorrected | AliasDisabled | ExclusionDisabled

  datatype CardMatch = CardMatch(employee: Option<EmployeeId>, status: MatchStatus, source: Option<MatchSource>,
                                 code: Option<Code>, alias: Option<AliasId>)

  /** What is read before cards are matched. */
  datatype Directory = Directory(employees: seq<Employee>, aliases: seq<Alias>, subMapped: set<EmployeeId>, at: Instant)

  function NoMatch(status: MatchStatus, code: Code): CardMatch {
    CardMatch(None, status, None, Some(code), None)
  }

  function HasEmail(email: Email): Employee -> bool {
    (e: Employee) => e.email == Some(email)
  }

  function HasId(id: EmployeeId): Employee -> bool {
    (e: Employee) => e.id == id
  }

  predicate Effective(a: Alias, at: Instant) {
    a.active && a.validFrom <= at && (a.validTo.None? || a.validTo.value > at)
  }

  function AppliesTo(email: Email, at: Instant): Alias -> bool {
    (a: Alias) => a.email == email && Effective(a, at)
  }

  function Validated(e: Employee, source: MatchSource, alias: Option<AliasId>, provider: Provider,
                     subMapped: set<EmployeeId>): CardMatch
  {
    if !e.active then NoMatch(Unmatched, EmployeeDisabled)
    else if provider.Photonpay? && e.id !in subMapped then NoMatch(Unmatched, EmployeeWithoutSub)
    else CardMatch(Some(e.id), Matched, Some(source), None, alias)
  }

  function MatchProviderCard(provider: Provider, email: Option<Email>, forced: Option<Code>, d: Directory): CardMatch {
    if forced.Some? then
      NoMatch(if forced.value.MultipleCardholders? then Conflict else Unmatched, forced.value)
    else if email.None? then NoMatch(Unmatched, EmailMissing)
    else if !email.value.wellFormed then NoMatch(Unmatched, EmailInvalid)
    else
      var primaries := Select(d.employees, HasEmail(email.value));
      var aliases := if provider.Photonpay? then Select(d.aliases, AppliesTo(email.value, d.at)) else [];
      if |primaries| > 1 then NoMatch(Conflict, EmployeeEmailAmbiguous)
      else if |aliases| > 1 then NoMatch(Conflict, AliasAmbiguous)
      else Chosen(provider, primaries, aliases, d)
  }

  /** The outcome with at most one address and at most one alias. */
  function Chosen(provider: Provider, primaries: seq<Employee>, aliases: seq<Alias>, d: Directory): CardMatch {
    if primaries != [] && aliases != [] && primaries[0].id != aliases[0].employee then
      NoMatch(Conflict, PrimaryAliasConflict)
    else if primaries != [] then Validated(primaries[0], PrimaryEmail, None, provider, d.subMapped)
    else if aliases != [] then
      var holders := Select(d.employees, HasId(aliases[0].employee));
      if holders == [] then NoMatch(Unmatched, EmployeeNotFound)
      else Validated(holders[0], ProviderEmailAlias, Some(aliases[0].id), provider, d.subMapped)
    else NoMatch(Unmatched, EmployeeNotFound)
  }

  // ---------- what a match means ----------

  predicate UniqueAliases(aliases: seq<Alias>) {
    forall i, j :: 0 <= i < j < |aliases| ==> aliases[i].id != aliases[j].id
  }

  predicate UniqueIds(d: Directory) {
    && (forall i, j :: 0 <= i < j < |d.employees| ==> d.employees[i].id != d.employees[j].id)
    && UniqueAliases(d.aliases)
  }

  /** The employees the email leads to, as their own address or through an alias in force. */
  ghost predicate LeadsTo(provider: Provider, email: Email, d: Directory, e: EmployeeId) {
    || (exists p :: p in d.employees && p.email == Some(email) && p.id == e)
    || (provider.Photonpay? && exists a :: a in d.aliases && a.email == email && Effective(a, d.at) && a.employee == e)
  }

  predicate TwoPrimaries(email: Email, d: Directory) {
    exists p, q :: p in d.employees && q in d.employees && p.id != q.id && p.email == Some(email) == q.email
  }

  predicate TwoAliases(email: Email, d: Directory) {
    exists a, b :: a in d.aliases && b in d.aliases && a.id != b.id && a.email == email == b.email
                   && Effective(a, d.at) && Effective(b, d.at)
  }

  predicate MayHold(provider: Provider, d: Directory, e: EmployeeId) {
    (exists p :: p in d.employees && p.id == e && p.active) && (provider.Photonpay? ==> e in d.subMapped)
  }

  lemma {:induction false} SelectManyIds<R>(rows: seq<R>, p: R -> bool, id: R -> nat)
    requires forall i, j :: 0 <= i < j < |rows| ==> id(rows[i]) != id(rows[j])
    ensures |Select(rows, p)| > 1 <==> exists a, b :: a in rows && b in rows && id(a) != id(b) && p(a) && p(b)
    ensures |Select(rows, p)| > 0 <==> exists a :: a in rows && p(a)
  {
    if rows != [] {
      var front, last := rows[..|rows| - 1], rows[|rows| - 1];
      SelectManyIds(front, p, id);
      assert forall r :: r in rows <==> r in front || r == last;
      assert forall r :: r in front ==> id(r) != id(last);
    }
  }

  function IdOf(e: Employee): nat { e.id }

  function AliasIdOf(a: Alias): nat { a.id }

  lemma PrimariesAre(email: Email, d: Directory)
    requires UniqueIds(d)
    ensures var ps := Select(d.employees, HasEmail(email));
            && (|ps| > 1 <==> TwoPrimaries(email, d))
            && (forall p :: p in ps <==> p in d.employees && p.email == Some(email))
  {
    SelectManyIds(d.employees, HasEmail(email), IdOf);
    SelectHas(d.employees, HasEmail(email));
    var own := HasEmail(email);
    assert forall p :: own(p) <==> p.email == Some(email);
    assert forall p :: IdOf(p) == p.id;
  }

  lemma AliasesAre(email: Email, d: Directory)
    requires UniqueAliases(d.aliases)
    ensures var aliases := Select(d.aliases, AppliesTo(email, d.at));
            && (|aliases| > 1 <==> TwoAliases(email, d))
            && (forall a :: a in aliases <==> a in d.aliases && a.email == email && Effective(a, d.at))
  {
    hide Effective;
    SelectManyIds(d.aliases, AppliesTo(email, d.at), AliasIdOf);
    SelectHas(d.aliases, AppliesTo(email, d.at));
    var applies := AppliesTo(email, d.at);
    assert forall a :: applies(a) <==> a.email == email && Effective(a, d.at);
    assert forall a :: AliasIdOf(a) == a.id;
  }

  lemma HolderIs(provider: Provider, d: Directory, e: EmployeeId)
    requires UniqueIds(d)
    ensures var holders := Select(d.employees, HasId(e));
            && (forall h :: h in holders <==> h in d.employees && h.id == e)
            && (forall p :: p in d.employees && p.id == e ==>
                  (MayHold(provider, d, e) <==> p.active && (provider.Photonpay? ==> e in d.subMapped)))
  {
    SelectHas(d.employees, HasId(e));
  }

  /** With at most one address and one alias, these lead to at most two employees. */
  lemma LeadsToThem(provider: Provider, email: Email, d: Directory, ps: seq<Employee>, aliases: seq<Alias>,
                    e: EmployeeId)
    requires forall p :: p in ps <==> p in d.employees && p.email == Some(email)
    requires forall a :: a in aliases
                         <==> provider.Photonpay? && a in d.aliases && a.email == email && Effective(a, d.at)
    requires |ps| <= 1 && |aliases| <= 1
    ensures LeadsTo(provider, email, d, e)
            <==> (ps != [] && ps[0].id == e) || (aliases != [] && aliases[0].employee == e)
  {
    hide Effective;
  }

  /** A card is matched to e exactly when its email leads to e and to nobody else, by at most one address and one
      alias, and e may hold cards. */
  lemma MatchedExactlyWhen(provider: Provider, email: Option<Email>, forced: Option<Code>, d: Directory, e: EmployeeId)
    requires UniqueIds(d)
    ensures var m := MatchProviderCard(provider, email, forced, d);
            m.status.Matched? && m.employee == Some(e) <==>
              && forced.None? && email.Some? && email.value.wellFormed
              && !TwoPrimaries(email.value, d) && !(provider.Photonpay? && TwoAliases(email.value, d))
              && LeadsTo(provider, email.value, d, e)
              && (forall f :: LeadsTo(provider, email.value, d, f) ==> f == e)
              && MayHold(provider, d, e)
  {
    if forced.None? && email.Some? && email.value.wellFormed {
      hide Select, HasEmail, HasId, AppliesTo, TwoPrimaries, TwoAliases, LeadsTo, MayHold, UniqueIds, Effective, Chosen;
      var ps := Select(d.employees, HasEmail(email.value));
      var aliases := if provider.Photonpay? then Select(d.aliases, AppliesTo(email.value, d.at)) else [];
      PrimariesAre(email.value, d);
      AliasesAre(email.value, d);
      if |ps| <= 1 && |aliases| <= 1 {
        forall f
          ensures LeadsTo(provider, email.value, d, f)
                  <==> (ps != [] && ps[0].id == f) || (aliases != [] && aliases[0].employee == f)
        {
          LeadsToThem(provider, email.value, d, ps, aliases, f);
        }
        ChosenExactlyWhen(provider, ps, aliases, d, e);
        assert ps != [] ==> LeadsTo(provider, email.value, d, ps[0].id);
        assert aliases != [] ==> LeadsTo(provider, email.value, d, aliases[0].employee);
      }
    }
  }

  lemma ChosenExactlyWhen(provider: Provider, ps: seq<Employee>, aliases: seq<Alias>, d: Directory, e: EmployeeId)
    requires UniqueIds(d) && (forall p :: p in ps ==> p in d.employees)
    ensures var m := Chosen(provider, ps, aliases, d);
            m.status.Matched? && m.employee == Some(e) <==>
              && (ps != [] || aliases != []) && MayHold(provider, d, e)
              && (ps != [] ==> ps[0].id == e) && (aliases != [] ==> aliases[0].employee == e)
  {
    hide Select, HasId, MayHold, UniqueIds;
    if ps != [] {
      assert ps[0] in ps;
      HolderIs(provider, d, ps[0].id);
    } else if aliases != [] {
      HolderIs(provider, d, aliases[0].employee);
      NobodyMayHold(provider, d, aliases[0].employee);
      var holders := Select(d.employees, HasId(aliases[0].employee));
      assert holders != [] ==> holders[0] in holders;
    }
  }

  lemma NobodyMayHold(provider: Provider, d: Directory, e: EmployeeId)
    ensures MayHold(provider, d, e) ==> exists p :: p in d.employees && p.id == e
  {
  }

  /** The remaining fields follow the outcome: a match has a source and no code, anything else has a code and
      neither employee nor source. A card is matched by alias only when no employee has the address. */
  lemma FieldsFollowTheOutcome(provider: Provider, email: Option<Email>, forced: Option<Code>, d: Directory)
    ensures var m := MatchProviderCard(provider, email, forced, d);
            && (m.status.Matched? <==> m.employee.Some?) && (m.status.Matched? <==> m.source.Some?)
            && (m.status.Matched? <==> m.code.None?) && !m.status.Excluded?
            && (m.alias.Some? <==> m.source == Some(ProviderEmailAlias))
            && (m.alias.Some? ==>
                  && provider.Photonpay? && email.Some?
                  && (forall p :: p in d.employees ==> p.email != email)
                  && exists a :: a in d.aliases && a.id == m.alias.value && a.email == email.value && Effective(a, d.at)
                                 && m.employee == Some(a.employee))
            && (forced.Some? ==> m.code == forced && (m.status.Conflict? <==> forced == Some(MultipleCardholders)))
            && (forced.None? && email.None? ==> m.status.Unmatched? && m.code == Some(EmailMissing))
  {
    if forced.None? && email.Some? && email.value.wellFormed {
      hide Effective, Select, HasEmail, HasId, AppliesTo, Chosen;
      var ps := Select(d.employees, HasEmail(email.value));
      var aliases := if provider.Photonpay? then Select(d.aliases, AppliesTo(email.value, d.at)) else [];
      EmailOf(email.value, d);
      ChosenFields(provider, ps, aliases, d);
      assert aliases != [] ==> aliases[0] in aliases;
    }
  }

  lemma EmailOf(email: Email, d: Directory)
    ensures forall p :: p in d.employees && p.email == Some(email) ==> p in Select(d.employees, HasEmail(email))
    ensures forall a :: a in Select(d.aliases, AppliesTo(email, d.at)) ==>
              a in d.aliases && a.email == email && Effective(a, d.at)
  {
    hide Effective;
    SelectHas(d.employees, HasEmail(email));
    SelectHas(d.aliases, AppliesTo(email, d.at));
  }

  lemma ChosenFields(provider: Provider, ps: seq<Employee>, aliases: seq<Alias>, d: Directory)
    ensures var m := Chosen(provider, ps, aliases, d);
            && (m.status.Matched? <==> m.employee.Some?) && (m.status.Matched? <==> m.source.Some?)
            && (m.status.Matched? <==> m.code.None?) && !m.status.Excluded?
            && (m.alias.Some? <==> m.source == Some(ProviderEmailAlias))
            && (m.alias.Some? ==>
                  && ps == [] && aliases != []
                  && m.alias == Some(aliases[0].id) && m.employee == Some(aliases[0].employee))
  {
    if ps == [] && aliases != [] {
      SelectHas(d.employees, HasId(aliases[0].employee));
      var holders := Select(d.employees, HasId(aliases[0].employee));
      assert holders != [] ==> holders[0] in holders;
    }
  }

  // ---------- what each code means ----------

  /** The email leads to e and to nobody else. */
  ghost predicate LeadsOnlyTo(provider: Provider, email: Email, d: Directory, e: EmployeeId) {
    LeadsTo(provider, email, d, e) && forall f :: LeadsTo(provider, email, d, f) ==> f == e
  }

  /** At most one address and at most one alias in force. */
  predicate OneOfEach(provider: Provider, email: Email, d: Directory) {
    !TwoPrimaries(email, d) && !(provider.Photonpay? && TwoAliases(email, d))
  }

  /** The code of a card that is not matched names the first thing in the way, and the card is in conflict exactly when
      its email leads to more than one address, alias or employee. */
  lemma EachCodeSaysWhy(provider: Provider, email: Email, d: Directory)
    requires UniqueIds(d)
    ensures var m := MatchProviderCard(provider, Some(email), None, d);
            var clear := email.wellFormed && OneOfEach(provider, email, d);
            && (m.code == Some(EmailInvalid) <==> !email.wellFormed)
            && (m.code == Some(EmployeeEmailAmbiguous) <==> email.wellFormed && TwoPrimaries(email, d))
            && (m.code == Some(AliasAmbiguous) <==>
                  email.wellFormed && !TwoPrimaries(email, d) && provider.Photonpay? && TwoAliases(email, d))
            && (m.code == Some(PrimaryAliasConflict) <==>
                  clear && exists e, f :: e != f && LeadsTo(provider, email, d, e) && LeadsTo(provider, email, d, f))
            && (m.code == Some(EmployeeDisabled) <==>
                  clear && exists p :: p in d.employees && !p.active && LeadsOnlyTo(provider, email, d, p.id))
            && (m.code == Some(EmployeeWithoutSub) <==>
                  clear && exists p :: p in d.employees && p.active && LeadsOnlyTo(provider, email, d, p.id)
                                       && provider.Photonpay? && p.id !in d.subMapped)
            && (m.code == Some(EmployeeNotFound) <==>
                  clear && forall e :: LeadsTo(provider, email, d, e) ==>
                             LeadsOnlyTo(provider, email, d, e) && forall p :: p in d.employees ==> p.id != e)
            && (m.status.Conflict? <==>
                  m.code.Some? && m.code.value in {EmployeeEmailAmbiguous, AliasAmbiguous, PrimaryAliasConflict})
  {
    if email.wellFormed {
      hide Select, HasEmail, HasId, AppliesTo, TwoPrimaries, TwoAliases, LeadsTo, LeadsOnlyTo, UniqueIds, Effective,
           Chosen;
      var ps := Select(d.employees, HasEmail(email));
      var aliases := if provider.Photonpay? then Select(d.aliases, AppliesTo(email, d.at)) else [];
      PrimariesAre(email, d);
      AliasesAre(email, d);
      if |ps| <= 1 && |aliases| <= 1 {
        WhereItLeads(provider, email, d, ps, aliases);
        CodeOfTheChoice(provider, ps, aliases, d);
      }
    }
  }

  lemma WhereItLeads(provider: Provider, email: Email, d: Directory, ps: seq<Employee>, aliases: seq<Alias>)
    requires forall p :: p in ps <==> p in d.employees && p.email == Some(email)
    requires forall a :: a in aliases
                         <==> provider.Photonpay? && a in d.aliases && a.email == email && Effective(a, d.at)
    requires |ps| <= 1 && |aliases| <= 1
    ensures var both := ps != [] && aliases != [] && ps[0].id != aliases[0].employee;
            var found := ps != [] || aliases != [];
            && (both <==> exists e, f :: e != f && LeadsTo(provider, email, d, e) && LeadsTo(provider, email, d, f))
            && (forall e :: LeadsOnlyTo(provider, email, d, e) <==> found && !both && e == Lead(ps, aliases))
            && (!found ==> forall e :: !LeadsTo(provider, email, d, e))
            && (found ==> LeadsTo(provider, email, d, Lead(ps, aliases)))
            && (!both ==> forall e :: LeadsTo(provider, email, d, e) ==> e == Lead(ps, aliases))
  {
    hide LeadsTo, Effective;
    forall f: EmployeeId
      ensures LeadsTo(provider, email, d, f)
              <==> (ps != [] && ps[0].id == f) || (aliases != [] && aliases[0].employee == f)
    {
      LeadsToThem(provider, email, d, ps, aliases, f);
    }
    assert ps != [] ==> LeadsTo(provider, email, d, ps[0].id);
    assert aliases != [] ==> LeadsTo(provider, email, d, aliases[0].employee);
  }

  /** The code with at most one address and one alias. */
  lemma CodeOfTheChoice(provider: Provider, ps: seq<Employee>, aliases: seq<Alias>, d: Directory)
    requires UniqueIds(d) && forall p :: p in ps ==> p in d.employees
    ensures var m := Chosen(provider, ps, aliases, d);
            var both := ps != [] && aliases != [] && ps[0].id != aliases[0].employee;
            var found := ps != [] || aliases != [];
            && (m.code == Some(PrimaryAliasConflict) <==> both)
            && (m.code == Some(EmployeeDisabled) <==>
                  found && !both && exists p :: p in d.employees && p.id == Lead(ps, aliases) && !p.active)
            && (m.code == Some(EmployeeWithoutSub) <==>
                  found && !both && provider.Photonpay? && Lead(ps, aliases) !in d.subMapped
                  && exists p :: p in d.employees && p.id == Lead(ps, aliases) && p.active)
            && (m.code == Some(EmployeeNotFound) <==>
                  !both && (found ==> forall p :: p in d.employees ==> p.id != Lead(ps, aliases)))
            && (m.status.Conflict? <==> both)
            && (m.code.Some? ==> m.code.value in {PrimaryAliasConflict, EmployeeDisabled, EmployeeWithoutSub,
                                                  EmployeeNotFound})
  {
    hide Select, HasId;
    assert forall p, q :: p in d.employees && q in d.employees && p.id == q.id ==> p == q;
    if ps != [] {
      assert ps[0] in ps;
    } else if aliases != [] {
      HolderIs(provider, d, aliases[0].employee);
      var holders := Select(d.employees, HasId(aliases[0].employee));
      assert holders != [] ==> holders[0] in holders;
      assert forall p :: p in d.employees && p.id == aliases[0].employee ==> p in holders;
    }
  }

  function Lead(ps: seq<Employee>, aliases: seq<Alias>): EmployeeId {
    if ps != [] then ps[0].id else if aliases != [] then aliases[0].employee else 0
  }

  // ---------- aliases that do not overlap ----------

  /** Half-open periods without a common instant. */
  predicate Disjoint(a: Alias, b: Alias) {
    (a.validTo.Some? && a.validTo.value <= b.validFrom) || (b.validTo.Some? && b.validTo.value <= a.validFrom)
  }

  /** Of disjoint aliases at most one is in force at an instant, so no email is ambiguous by its aliases. */
  lemma DisjointAliasesAreUnambiguous(provider: Provider, email: Option<Email>, forced: Option<Code>, d: Directory)
    requires UniqueAliases(d.aliases) && forced != Some(AliasAmbiguous)
    requires forall a, b ::
               a in d.aliases && b in d.aliases && a.id != b.id && a.active && b.active && a.email == b.email ==>
                 Disjoint(a, b)
    ensures MatchProviderCard(provider, email, forced, d).code != Some(AliasAmbiguous)
  {
    if email.Some? {
      AliasesAre(email.value, d);
    }
  }
}
