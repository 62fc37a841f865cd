/** Amounts posted to keys, and the totals that accumulating loops compute. */
module Postings {
  import opened Wrappers

  type Key = nat
  datatype Posting = Posting(key: Key, amount: real)

  // ---------- totals over a list of records ----------

  function AmountFor(p: Option<Posting>, k: Key): real {
    if p.Some? && p.value.key == k then p.value.amount else 0.0
  }

  /** What the records post to key k. */
  function TotalFor<R>(rs: seq<R>, post: R -> Option<Posting>, k: Key): real {
    if rs == [] then 0.0 else TotalFor(rs[..|rs| - 1], post, k) + AmountFor(post(rs[|rs| - 1]), k)
  }

  /** What the records post in all. */
  function Total<R>(rs: seq<R>, post: R -> Option<Posting>): real {
    if rs == [] then 0.0 else
      var p := post(rs[|rs| - 1]);
      Total(rs[..|rs| - 1], post) + if p.Some? then p.value.amount else 0.0
  }

  /** The keys the records post to. */
  function KeysOf<R>(rs: seq<R>, post: R -> Option<Posting>): set<Key> {
    if rs == [] then {} else
      var p := post(rs[|rs| - 1]);
      KeysOf(rs[..|rs| - 1], post) + if p.Some? then {p.value.key} else {}
  }

  /** Every posting weighted by a factor of its key. */
  function Weighted<R>(rs: seq<R>, post: R -> Option<Posting>, weight: Key -> real): real {
    if rs == [] then 0.0 else
      var p := post(rs[|rs| - 1]);
      Weighted(rs[..|rs| - 1], post, weight) + if p.Some? then weight(p.value.key) * p.value.amount else 0.0
  }

  function Get(m: map<Key, real>, k: Key): real {
    if k in m then m[k] else 0.0
  }

  /** The accumulating loop: one map entry per key, with `addToMap` for every record that counts. */
  method Accumulate<R>(rs: seq<R>, post: R -> Option<Posting>) returns (m: map<Key, real>)
    ensures m.Keys == KeysOf(rs, post)
    ensures forall k :: Get(m, k) == TotalFor(rs, post, k)
  {
    m := map[];
    for i := 0 to |rs|
      invariant m.Keys == KeysOf(rs[..i], post)
      invariant forall k :: Get(m, k) == TotalFor(rs[..i], post, k)
    {
      assert rs[..i + 1][..i] == rs[..i];
      var p := post(rs[i]);
      if p.Some? {
        m := m[p.value.key := Get(m, p.value.key) + p.value.amount];
      }
    }
    assert rs[..|rs|] == rs;
  }

  /** One more record, in the form the loops need it. */
  lemma TotalsStep<R>(rs: seq<R>, post: R -> Option<Posting>, i: nat)
    requires i < |rs|
    ensures forall k :: TotalFor(rs[..i + 1], post, k) == TotalFor(rs[..i], post, k) + AmountFor(post(rs[i]), k)
  {
    assert rs[..i + 1][..i] == rs[..i];
  }

  lemma {:induction false} AbsentKeyHasNoTotal<R>(rs: seq<R>, post: R -> Option<Posting>, k: Key)
    requires k !in KeysOf(rs, post)
    ensures TotalFor(rs, post, k) == 0.0
  {
    if rs != [] {
      AbsentKeyHasNoTotal(rs[..|rs| - 1], post, k);
    }
  }

  lemma {:induction false} KeysAreKeysOfMembers<R>(rs: seq<R>, post: R -> Option<Posting>, k: Key)
    ensures k in KeysOf(rs, post) <==> exists r :: r in rs && post(r).Some? && post(r).value.key == k
  {
    if rs != [] {
      var front, last := rs[..|rs| - 1], rs[|rs| - 1];
      KeysAreKeysOfMembers(front, post, k);
      assert forall r :: r in rs <==> r in front || r == last;
    }
  }

  lemma {:induction false} SamePostings<R>(rs: seq<R>, p: R -> Option<Posting>, q: R -> Option<Posting>, k: Key)
    requires forall r :: r in rs ==> p(r) == q(r)
    ensures TotalFor(rs, p, k) == TotalFor(rs, q, k)
  {
    if rs != [] {
      assert rs[|rs| - 1] in rs;
      SamePostings(rs[..|rs| - 1], p, q, k);
    }
  }

  lemma {:induction false} SameKeys<R>(rs: seq<R>, p: R -> Option<Posting>, q: R -> Option<Posting>)
    requires forall r :: p(r).Some? == q(r).Some? && (p(r).Some? ==> p(r).value.key == q(r).value.key)
    ensures KeysOf(rs, p) == KeysOf(rs, q)
  {
    if rs != [] {
      SameKeys(rs[..|rs| - 1], p, q);
    }
  }

  // ---------- sums over a list of keys ----------

  function SumOver(ks: seq<Key>, f: Key -> real): real {
    if ks == [] then 0.0 else SumOver(ks[..|ks| - 1], f) + f(ks[|ks| - 1])
  }

  predicate NoDuplicates(ks: seq<Key>) {
    forall i, j :: 0 <= i < j < |ks| ==> ks[i] != ks[j]
  }

  lemma {:induction false} SameSummands(ks: seq<Key>, f: Key -> real, g: Key -> real)
    requires forall k :: k in ks ==> f(k) == g(k)
    ensures SumOver(ks, f) == SumOver(ks, g)
  {
    if ks != [] {
      SameSummands(ks[..|ks| - 1], f, g);
      assert ks[|ks| - 1] in ks;
    }
  }

  function Scaled<R>(rs: seq<R>, post: R -> Option<Posting>, weight: Key -> real): Key -> real {
    (k: Key) => weight(k) * TotalFor(rs, post, k)
  }

  lemma ScaledStep<R>(rs: seq<R>, post: R -> Option<Posting>, weight: Key -> real, k: Key)
    requires rs != []
    ensures Scaled(rs, post, weight)(k)
            == Scaled(rs[..|rs| - 1], post, weight)(k) + weight(k) * AmountFor(post(rs[|rs| - 1]), k)
  {
    var w, t, a := weight(k), TotalFor(rs[..|rs| - 1], post, k), AmountFor(post(rs[|rs| - 1]), k);
    assert w * (t + a) == w * t + w * a;
  }

  /** Adding one posting to the list adds its weighted amount to the sum over any duplicate-free list of
      keys that has its key. */
  lemma {:induction false} SumGrowsByPosting<R>(ks: seq<Key>, rs: seq<R>, post: R -> Option<Posting>,
                                                weight: Key -> real)
    requires rs != [] && NoDuplicates(ks)
    ensures var p := post(rs[|rs| - 1]);
            SumOver(ks, Scaled(rs, post, weight))
            == SumOver(ks, Scaled(rs[..|rs| - 1], post, weight))
               + if p.Some? && p.value.key in ks then weight(p.value.key) * p.value.amount else 0.0
  {
    if ks != [] {
      var n := |ks| - 1;
      SumGrowsByPosting(ks[..n], rs, post, weight);
      ScaledStep(rs, post, weight, ks[n]);
      var p := post(rs[|rs| - 1]);
      if p.Some? && p.value.key == ks[n] {
        assert p.value.key !in ks[..n];
      } else {
        assert weight(ks[n]) * AmountFor(p, ks[n]) == 0.0;
        assert p.Some? ==> (p.value.key in ks <==> p.value.key in ks[..n]);
      }
    }
  }

  /** Summing the records is summing the keys: nothing is lost and nothing is counted twice. */
  lemma {:induction false} WeightedIsSumOverKeys<R>(rs: seq<R>, post: R -> Option<Posting>, weight: Key -> real,
                                                     ks: seq<Key>)
    requires NoDuplicates(ks) && forall k :: k in KeysOf(rs, post) ==> k in ks
    ensures Weighted(rs, post, weight) == SumOver(ks, Scaled(rs, post, weight))
  {
    if rs == [] {
      ZeroSum(ks, Scaled(rs, post, weight));
    } else {
      WeightedIsSumOverKeys(rs[..|rs| - 1], post, weight, ks);
      SumGrowsByPosting(ks, rs, post, weight);
    }
  }

  lemma {:induction false} ZeroSum(ks: seq<Key>, f: Key -> real)
    requires forall k :: k in ks ==> f(k) == 0.0
    ensures SumOver(ks, f) == 0.0
  {
    if ks != [] {
      ZeroSum(ks[..|ks| - 1], f);
      assert ks[|ks| - 1] in ks;
    }
  }

  function Balance<R>(rs: seq<R>, post: R -> Option<Posting>): Key -> real {
    (k: Key) => TotalFor(rs, post, k)
  }

  lemma TotalIsSumOverKeys<R>(rs: seq<R>, post: R -> Option<Posting>, ks: seq<Key>)
    requires NoDuplicates(ks) && forall k :: k in KeysOf(rs, post) ==> k in ks
    ensures Total(rs, post) == SumOver(ks, Balance(rs, post))
  {
    var one := (k: Key) => 1.0;
    WeightedIsSumOverKeys(rs, post, one, ks);
    SameSummands(ks, Scaled(rs, post, one), Balance(rs, post));
    UnitWeight(rs, post, one);
  }

  lemma {:induction false} UnitWeight<R>(rs: seq<R>, post: R -> Option<Posting>, one: Key -> real)
    requires forall k :: one(k) == 1.0
    ensures Weighted(rs, post, one) == Total(rs, post)
  {
    if rs != [] {
      UnitWeight(rs[..|rs| - 1], post, one);
    }
  }

  // ---------- order does not matter ----------

  lemma {:induction false} RemovingARecord<R>(rs: seq<R>, post: R -> Option<Posting>, k: Key, j: nat)
    requires j < |rs|
    ensures TotalFor(rs, post, k) == TotalFor(rs[..j] + rs[j + 1..], post, k) + AmountFor(post(rs[j]), k)
  {
    var n := |rs| - 1;
    if j == n {
      assert rs[..j] + rs[j + 1..] == rs[..n];
    } else {
      RemovingARecord(rs[..n], post, k, j);
      var rest := rs[..j] + rs[j + 1..];
      assert rest[..|rest| - 1] == rs[..n][..j] + rs[..n][j + 1..];
    }
  }

  lemma Appended<R>(rs: seq<R>, r: R, post: R -> Option<Posting>, k: Key)
    ensures TotalFor(rs + [r], post, k) == TotalFor(rs, post, k) + AmountFor(post(r), k)
  {
    assert (rs + [r])[..|rs|] == rs;
  }

  lemma {:induction false} ConcatenatedTotals<R>(a: seq<R>, b: seq<R>, post: R -> Option<Posting>, k: Key)
    ensures TotalFor(a + b, post, k) == TotalFor(a, post, k) + TotalFor(b, post, k)
  {
    if b == [] {
      assert a + b == a;
    } else {
      var n := |b| - 1;
      assert (a + b)[..|a| + n] == a + b[..n];
      ConcatenatedTotals(a, b[..n], post, k);
    }
  }

  lemma {:induction false} ReplacingARecord<R>(rs: seq<R>, post: R -> Option<Posting>, k: Key, j: nat, r: R)
    requires j < |rs|
    ensures TotalFor(rs[j := r], post, k)
            == TotalFor(rs, post, k) - AmountFor(post(rs[j]), k) + AmountFor(post(r), k)
  {
    var n := |rs| - 1;
    if j == n {
      assert rs[j := r][..n] == rs[..n];
    } else {
      ReplacingARecord(rs[..n], post, k, j, r);
      assert rs[j := r][..n] == rs[..n][j := r];
    }
  }

  lemma {:induction false} PermutedTotals<R>(a: seq<R>, b: seq<R>, post: R -> Option<Posting>, k: Key)
    requires multiset(a) == multiset(b)
    ensures TotalFor(a, post, k) == TotalFor(b, post, k)
  {
    if a == [] {
      assert |multiset(b)| == 0;
    } else {
      var n, x := |a| - 1, a[|a| - 1];
      assert x in multiset(b);
      var j :| 0 <= j < |b| && b[j] == x;
      var rest := b[..j] + b[j + 1..];
      assert b == b[..j] + [x] + b[j + 1..];
      assert a == a[..n] + [x];
      assert multiset(a[..n]) == multiset(a) - multiset{x} == multiset(b) - multiset{x} == multiset(rest);
      PermutedTotals(a[..n], rest, post, k);
      RemovingARecord(b, post, k, j);
    }
  }

  lemma PermutedKeys<R>(a: seq<R>, b: seq<R>, post: R -> Option<Posting>)
    requires multiset(a) == multiset(b)
    ensures KeysOf(a, post) == KeysOf(b, post)
  {
    assert forall r :: r in a <==> r in multiset(a);
    assert forall r :: r in b <==> r in multiset(b);
    forall k ensures k in KeysOf(a, post) <==> k in KeysOf(b, post) {
      KeysAreKeysOfMembers(a, post, k);
      KeysAreKeysOfMembers(b, post, k);
    }
  }

  // ---------- maps built from a list: the last record of a key wins ----------

  function LastFor<R>(rs: seq<R>, key: R -> Key, k: Key): Option<R> {
    if rs == [] then None
    else if key(rs[|rs| - 1]) == k then Some(rs[|rs| - 1])
    else LastFor(rs[..|rs| - 1], key, k)
  }

  lemma {:induction false} LastForHasKey<R>(rs: seq<R>, key: R -> Key, k: Key)
    ensures LastFor(rs, key, k).Some? ==> LastFor(rs, key, k).value in rs && key(LastFor(rs, key, k).value) == k
    ensures LastFor(rs, key, k).None? ==> forall r :: r in rs ==> key(r) != k
  {
    if rs != [] {
      assert forall r :: r in rs <==> r in rs[..|rs| - 1] || r == rs[|rs| - 1];
      LastForHasKey(rs[..|rs| - 1], key, k);
    }
  }

  predicate DistinctKeys<R>(rs: seq<R>, key: R -> Key) {
    forall i, j :: 0 <= i < j < |rs| ==> key(rs[i]) != key(rs[j])
  }

  /** One for every record, posted to its key. */
  function Count<R>(key: R -> Key): R -> Option<Posting> {
    r => Some(Posting(key(r), 1.0))
  }

  lemma {:induction false} CountIsNotNegative<R>(rs: seq<R>, key: R -> Key, k: Key)
    ensures TotalFor(rs, Count(key), k) >= 0.0
    ensures TotalFor(rs, Count(key), k) < 1.0 <==> forall r :: r in rs ==> key(r) != k
  {
    if rs != [] {
      var front, last := rs[..|rs| - 1], rs[|rs| - 1];
      CountIsNotNegative(front, key, k);
      assert forall r :: r in rs <==> r in front || r == last;
    }
  }

  lemma {:induction false} DistinctIsCountedOnce<R>(rs: seq<R>, key: R -> Key, k: Key)
    requires DistinctKeys(rs, key)
    ensures TotalFor(rs, Count(key), k) <= 1.0
  {
    if rs != [] {
      var n := |rs| - 1;
      DistinctIsCountedOnce(rs[..n], key, k);
      if key(rs[n]) == k {
        forall r | r in rs[..n] ensures key(r) != k {
        }
        CountIsZero(rs[..n], key, k);
      }
    }
  }

  lemma {:induction false} CountIsZero<R>(rs: seq<R>, key: R -> Key, k: Key)
    requires forall r :: r in rs ==> key(r) != k
    ensures TotalFor(rs, Count(key), k) == 0.0
  {
    if rs != [] {
      assert rs[|rs| - 1] in rs;
      CountIsZero(rs[..|rs| - 1], key, k);
    }
  }

  lemma {:induction false} CountedOnceIsDistinct<R>(rs: seq<R>, key: R -> Key)
    requires forall k :: TotalFor(rs, Count(key), k) <= 1.0
    ensures DistinctKeys(rs, key)
  {
    if rs != [] {
      var n := |rs| - 1;
      forall k ensures TotalFor(rs[..n], Count(key), k) <= 1.0 {
        assert TotalFor(rs, Count(key), k) <= 1.0;
      }
      CountedOnceIsDistinct(rs[..n], key);
      CountIsNotNegative(rs[..n], key, key(rs[n]));
      assert TotalFor(rs, Count(key), key(rs[n])) <= 1.0;
      forall i | 0 <= i < n ensures key(rs[i]) != key(rs[n]) {
        assert rs[i] in rs[..n];
      }
    }
  }

  lemma {:induction false} LastForIsTheOnlyOne<R>(rs: seq<R>, key: R -> Key, k: Key)
    requires DistinctKeys(rs, key)
    ensures LastFor(rs, key, k).None? ==> forall r :: r in rs ==> key(r) != k
    ensures LastFor(rs, key, k).Some? ==> LastFor(rs, key, k).value in rs && key(LastFor(rs, key, k).value) == k
    ensures forall r :: r in rs && key(r) == k ==> LastFor(rs, key, k) == Some(r)
  {
    if rs != [] {
      var front, last := rs[..|rs| - 1], rs[|rs| - 1];
      LastForIsTheOnlyOne(front, key, k);
      assert forall r :: r in rs <==> r in front || r == last;
      assert forall r :: r in front ==> key(r) != key(last);
    }
  }

  /** An amount of every record, posted to its key. */
  function By<R>(key: R -> Key, amount: R -> real): R -> Option<Posting> {
    r => Some(Posting(key(r), amount(r)))
  }

  lemma {:induction false} DistinctTotals<R>(rs: seq<R>, key: R -> Key, amount: R -> real, k: Key)
    requires DistinctKeys(rs, key)
    ensures TotalFor(rs, By(key, amount), k)
            == match LastFor(rs, key, k) case Some(r) => amount(r) case None => 0.0
  {
    if rs != [] {
      var front := rs[..|rs| - 1];
      DistinctTotals(front, key, amount, k);
      LastForIsTheOnlyOne(front, key, k);
    }
  }

  lemma PermutedLookup<R>(a: seq<R>, b: seq<R>, key: R -> Key)
    requires multiset(a) == multiset(b) && DistinctKeys(a, key)
    ensures DistinctKeys(b, key)
    ensures forall k :: LastFor(a, key, k) == LastFor(b, key, k)
  {
    forall k ensures TotalFor(b, Count(key), k) <= 1.0 {
      DistinctIsCountedOnce(a, key, k);
      PermutedTotals(a, b, Count(key), k);
    }
    CountedOnceIsDistinct(b, key);
    assert forall r :: r in a <==> r in multiset(a);
    assert forall r :: r in b <==> r in multiset(b);
    forall k ensures LastFor(a, key, k) == LastFor(b, key, k) {
      LastForIsTheOnlyOne(a, key, k);
      LastForIsTheOnlyOne(b, key, k);
    }
  }

  // ---------- a set of keys in ascending order ----------

  /** The least element is found by counting up to it. */
  function Least(ks: set<Key>, from: Key): (least: Key)
    requires ks != {} && forall k :: k in ks ==> from <= k
    ensures least in ks && forall k :: k in ks ==> least <= k
    decreases var k :| k in ks; k - from
  {
    if from in ks then from else Least(ks, from + 1)
  }

  function Ascending(ks: set<Key>): (s: seq<Key>)
    ensures forall k :: k in s <==> k in ks
    ensures forall i, j :: 0 <= i < j < |s| ==> s[i] < s[j]
    ensures NoDuplicates(s)
  {
    if ks == {} then [] else
      var least := Least(ks, 0);
      var rest := Ascending(ks - {least});
      assert forall k :: k in rest ==> least < k;
      [least] + rest
  }
}
