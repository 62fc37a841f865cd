/** Which versions of the SUB mappings are in force for a settlement month. */
module SubIdMappings {
  import opened Wrappers
  import opened CommonTypes
  import opened Selections


  datatype BusinessKey = BusinessKey(account: nat, field: nat, value: nat)
  datatype Mapping = Mapping(id: nat, key: BusinessKey, effectiveMonth: Month, employee: nat, active: bool,
                             employeeActive: bool)

  datatype Query = Query(settlementMonth: Month, account: Option<nat>, field: Option<nat>, value: Option<nat>,
                         values: Option<seq<nat>>, employee: Option<nat>)

  datatype ResolveError = ValueAndValues

  // ---------- what is in force ----------

  predicate NoneLater(rows: seq<Mapping>, r: Mapping) {
    forall x :: x in rows && x.key == r.key ==> x.effectiveMonth <= r.effectiveMonth
  }

  function LatestAmong(rows: seq<Mapping>): Mapping -> bool {
    (r: Mapping) => NoneLater(rows, r)
  }

  function LatestOfKey(rows: seq<Mapping>, k: BusinessKey): Mapping -> bool {
    (r: Mapping) => r.key == k && NoneLater(rows, r)
  }

  /** The latest versions of one key, all of them when several share the month. */
  function LatestRows(rows: seq<Mapping>, k: BusinessKey): seq<Mapping> {
    Select(rows, LatestOfKey(rows, k))
  }

  /** The row is in force in the month: no version of its key takes effect later and not after the month. */
  predicate InForce(table: seq<Mapping>, month: Month, r: Mapping) {
    && r.effectiveMonth <= month
    && forall x :: x in table && x.key == r.key && x.effectiveMonth <= month ==> x.effectiveMonth <= r.effectiveMonth
  }

  predicate KeyMatches(q: Query, k: BusinessKey) {
    && (q.account.Some? ==> k.account == q.account.value)
    && (q.field.Some? ==> k.field == q.field.value)
    && (q.value.Some? ==> k.value == q.value.value)
    && (q.value.None? && q.values.Some? ==> k.value in q.values.value)
  }

  predicate EmployeeMatches(q: Query, r: Mapping) {
    q.employee.Some? ==> r.employee == q.employee.value
  }

  function ByEmployee(q: Query): Mapping -> bool {
    (r: Mapping) => EmployeeMatches(q, r)
  }

  /** The rows the database is asked for. */
  function Queried(q: Query): Mapping -> bool {
    (r: Mapping) => KeyMatches(q, r.key) && r.effectiveMonth <= q.settlementMonth
  }

  /** The rows that answer the query. */
  function Answers(table: seq<Mapping>, q: Query): Mapping -> bool {
    (r: Mapping) => InForce(table, q.settlementMonth, r) && KeyMatches(q, r.key) && EmployeeMatches(q, r)
  }

  // ---------- the resolver ----------

  datatype Latest = Latest(effectiveMonth: Month, rows: seq<Mapping>)

  /** The keys in the order the rows bring them up, each once. */
  function KeysInOrder(rows: seq<Mapping>): seq<BusinessKey> {
    if rows == [] then [] else
      var before, k := KeysInOrder(rows[..|rows| - 1]), rows[|rows| - 1].key;
      before + if k in before then [] else [k]
  }

  function RowsByKey(keys: seq<BusinessKey>, rows: seq<Mapping>): seq<Mapping> {
    if keys == [] then [] else RowsByKey(keys[..|keys| - 1], rows) + LatestRows(rows, keys[|keys| - 1])
  }

  /** What the map holds for a key after the rows so far. */
  predicate Holds(latest: map<BusinessKey, Latest>, rows: seq<Mapping>, k: BusinessKey) {
    && (k in latest <==> exists r :: r in rows && r.key == k)
    && (k in latest ==>
          && latest[k].rows == LatestRows(rows, k)
          && (forall r :: r in rows && r.key == k ==> r.effectiveMonth <= latest[k].effectiveMonth)
          && exists r :: r in rows && r.key == k && r.effectiveMonth == latest[k].effectiveMonth)
  }

  lemma OneMoreRow(rows: seq<Mapping>, r: Mapping, k: BusinessKey)
    ensures LatestRows(rows + [r], k)
            == if r.key != k || exists x :: x in rows && x.key == k && x.effectiveMonth > r.effectiveMonth then
                 LatestRows(rows, k)
               else if exists x :: x in rows && x.key == k && x.effectiveMonth == r.effectiveMonth then
                 LatestRows(rows, k) + [r]
               else [r]
  {
    var all := rows + [r];
    assert all[..|all| - 1] == rows;
    assert forall x :: x in all <==> x in rows || x == r;
    var before, after := LatestOfKey(rows, k), LatestOfKey(all, k);
    if r.key == k && forall x :: x in rows && x.key == k ==> x.effectiveMonth < r.effectiveMonth {
      SelectNone(rows, after);
    } else {
      SelectSame(rows, before, after);
    }
  }

  /** The map after one more row. */
  function Noted(latest: map<BusinessKey, Latest>, r: Mapping): map<BusinessKey, Latest> {
    if r.key !in latest || r.effectiveMonth > latest[r.key].effectiveMonth then
      latest[r.key := Latest(r.effectiveMonth, [r])]
    else if r.effectiveMonth == latest[r.key].effectiveMonth then
      latest[r.key := Latest(r.effectiveMonth, latest[r.key].rows + [r])]
    else latest
  }

  lemma HoldsAfterOneMore(latest: map<BusinessKey, Latest>, rows: seq<Mapping>, r: Mapping, k: BusinessKey)
    requires Holds(latest, rows, k)
    ensures Holds(Noted(latest, r), rows + [r], k)
  {
    hide LatestRows;
    OneMoreRow(rows, r, k);
    assert forall x :: x in rows + [r] <==> x in rows || x == r;
  }

  method IndexLatest(rows: seq<Mapping>) returns (latest: map<BusinessKey, Latest>, order: seq<BusinessKey>)
    ensures order == KeysInOrder(rows)
    ensures forall k :: Holds(latest, rows, k)
    ensures forall k :: k in order <==> k in latest
  {
    hide Holds;
    latest, order := map[], [];
    NothingHeld();
    for i := 0 to |rows|
      invariant order == KeysInOrder(rows[..i])
      invariant forall k :: Holds(latest, rows[..i], k)
      invariant forall k :: k in order <==> k in latest
    {
      var r := rows[i];
      ghost var before, seen := latest, rows[..i + 1];
      assert seen == rows[..i] + [r] && seen[..i] == rows[..i];
      if r.key !in latest {
        latest := latest[r.key := Latest(r.effectiveMonth, [r])];
        order := order + [r.key];
      } else if r.effectiveMonth > latest[r.key].effectiveMonth {
        latest := latest[r.key := Latest(r.effectiveMonth, [r])];
      } else if r.effectiveMonth == latest[r.key].effectiveMonth {
        latest := latest[r.key := Latest(r.effectiveMonth, latest[r.key].rows + [r])];
      }
      forall k ensures Holds(latest, seen, k) {
        HoldsAfterOneMore(before, rows[..i], r, k);
      }
    }
    assert rows[..|rows|] == rows;
  }

  lemma NothingHeld()
    ensures forall k :: Holds(map[], [], k)
  {
  }

  method FlattenLatest(rows: seq<Mapping>, latest: map<BusinessKey, Latest>, order: seq<BusinessKey>)
    returns (effective: seq<Mapping>)
    requires forall k :: k in order ==> k in latest && latest[k].rows == LatestRows(rows, k)
    ensures effective == RowsByKey(order, rows)
  {
    hide LatestRows;
    effective := [];
    for i := 0 to |order|
      invariant effective == RowsByKey(order[..i], rows)
    {
      assert order[..i + 1][..i] == order[..i];
      effective := effective + latest[order[i]].rows;
    }
    assert order[..|order|] == order;
  }

  lemma {:induction false} KeysAreDistinct(rows: seq<Mapping>)
    ensures forall k :: k in KeysInOrder(rows) <==> exists r :: r in rows && r.key == k
    ensures forall i, j :: 0 <= i < j < |KeysInOrder(rows)| ==> KeysInOrder(rows)[i] != KeysInOrder(rows)[j]
  {
    if rows != [] {
      KeysAreDistinct(rows[..|rows| - 1]);
      assert forall r :: r in rows <==> r in rows[..|rows| - 1] || r == rows[|rows| - 1];
    }
  }

  function LatestOfKeys(rows: seq<Mapping>, ks: seq<BusinessKey>): Mapping -> bool {
    (r: Mapping) => r.key in ks && NoneLater(rows, r)
  }

  lemma {:induction false} RowsByKeyAreLatest(keys: seq<BusinessKey>, rows: seq<Mapping>)
    requires forall i, j :: 0 <= i < j < |keys| ==> keys[i] != keys[j]
    ensures multiset(RowsByKey(keys, rows)) == multiset(Select(rows, LatestOfKeys(rows, keys)))
  {
    if keys == [] {
      SelectNone(rows, LatestOfKeys(rows, keys));
    } else {
      var n := |keys| - 1;
      RowsByKeyAreLatest(keys[..n], rows);
      assert forall k :: k in keys <==> k in keys[..n] || k == keys[n];
      SelectEither(rows, LatestOfKeys(rows, keys[..n]), LatestOfKey(rows, keys[n]), LatestOfKeys(rows, keys));
    }
  }

  /** For rows in any order the resolver's answer is exactly the rows in force that match: the key filters may be
      applied first, the employee filter has to come after. */
  lemma ResolvedAreInForce(table: seq<Mapping>, q: Query, found: seq<Mapping>)
    requires multiset(found) == multiset(Select(table, Queried(q)))
    ensures multiset(Select(RowsByKey(KeysInOrder(found), found), ByEmployee(q)))
            == multiset(Select(table, Answers(table, q)))
  {
    hide Select, RowsByKey, KeysInOrder;
    var keys, latest, queried := KeysInOrder(found), LatestAmong(found), Queried(q);
    KeysAreDistinct(found);
    RowsByKeyAreLatest(keys, found);
    SelectSame(found, LatestOfKeys(found, keys), latest);
    SelectReordered(RowsByKey(keys, found), Select(found, latest), ByEmployee(q));
    var both := Both(latest, ByEmployee(q));
    SelectTwice(found, latest, ByEmployee(q));
    SelectReordered(found, Select(table, queried), both);
    SelectTwice(table, queried, both);
    FoundAreQueried(table, q, found);
    SelectSame(table, Both(queried, both), Answers(table, q));
  }

  lemma FoundAreQueried(table: seq<Mapping>, q: Query, found: seq<Mapping>)
    requires multiset(found) == multiset(Select(table, Queried(q)))
    ensures forall r :: r in found <==> r in table && Queried(q)(r)
    ensures forall r :: r in table && Queried(q)(r) ==> (NoneLater(found, r) <==> InForce(table, q.settlementMonth, r))
  {
    SelectHas(table, Queried(q));
    assert forall r :: r in found <==> r in multiset(found);
    assert forall r :: r in Select(table, Queried(q)) <==> r in multiset(Select(table, Queried(q)));
  }

  /** `resolveEffectiveSubIdMappings`; `found` is what the query returned, in whatever order. */
  method Resolve(ghost table: seq<Mapping>, found: seq<Mapping>, q: Query)
    returns (r: Result<seq<Mapping>, ResolveError>)
    requires multiset(found) == multiset(Select(table, Queried(q)))
    ensures r.Failure? <==> q.value.Some? && q.values.Some?
    ensures r.Success? ==> multiset(r.value) == multiset(Select(table, Answers(table, q)))
  {
    if q.value.Some? && q.values.Some? {
      return Failure(ValueAndValues);
    }
    if q.values.Some? && |q.values.value| == 0 {
      SelectNone(table, Answers(table, q));
      return Success([]);
    }
    hide Select, RowsByKey, KeysInOrder, LatestRows;
    var latest, order := IndexLatest(found);
    assert forall k :: k in order ==> Holds(latest, found, k);
    var effective := FlattenLatest(found, latest, order);
    ResolvedAreInForce(table, q, found);
    if q.employee.None? {
      SelectAll(effective, ByEmployee(q));
      return Success(effective);
    }
    return Success(Select(effective, ByEmployee(q)));
  }

  // ---------- consequences ----------

  /** The unique key of the table. */
  predicate OneVersionPerMonth(table: seq<Mapping>) {
    forall x, y :: x in table && y in table && x.key == y.key && x.effectiveMonth == y.effectiveMonth ==> x == y
  }

  /** A disabled latest version answers alone: no older active version of its key is used instead. */
  lemma DisabledVersionBlocks(table: seq<Mapping>, q: Query, disabled: Mapping, r: Mapping)
    requires OneVersionPerMonth(table)
    requires disabled in table && !disabled.active && InForce(table, q.settlementMonth, disabled)
    requires r in Select(table, Answers(table, q)) && r.key == disabled.key
    ensures !r.active
  {
    SelectHas(table, Answers(table, q));
  }

  function Owned(e: nat): Mapping -> bool {
    (r: Mapping) => r.employee == e
  }

  /** Another employee's version of the same key supersedes the employee's own latest one. */
  predicate Reassigned(rows: seq<Mapping>, e: nat) {
    exists r, x :: r in rows && x in rows && r.employee == e && x.key == r.key && x.effectiveMonth > r.effectiveMonth
                   && NoneLater(Select(rows, Owned(e)), r)
  }

  /** Asking the database for one employee's rows only would give the same answer exactly when none of the
      employee's keys has moved on to someone else. */
  lemma EmployeeFilterComesLast(rows: seq<Mapping>, e: nat)
    ensures var own := Select(rows, Owned(e));
            multiset(Select(own, LatestAmong(own))) == multiset(Select(Select(rows, LatestAmong(rows)), Owned(e)))
            <==> !Reassigned(rows, e)
  {
    var own := Select(rows, Owned(e));
    var early, late := Select(own, LatestAmong(own)), Select(Select(rows, LatestAmong(rows)), Owned(e));
    hide Select;
    SelectHas(rows, Owned(e));
    SelectTwice(rows, Owned(e), LatestAmong(own));
    SelectTwice(rows, LatestAmong(rows), Owned(e));
    if Reassigned(rows, e) {
      var r, x :| r in rows && x in rows && r.employee == e && x.key == r.key && x.effectiveMonth > r.effectiveMonth
                  && NoneLater(own, r);
      SelectCounts(rows, Both(Owned(e), LatestAmong(own)), r);
      SelectCounts(rows, Both(LatestAmong(rows), Owned(e)), r);
      assert r in multiset(rows);
    } else {
      SelectSame(rows, Both(Owned(e), LatestAmong(own)), Both(LatestAmong(rows), Owned(e)));
    }
  }
}
