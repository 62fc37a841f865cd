/** The records of a list that satisfy a test, in their order. */
module Selections {
  function Select<R>(rows: seq<R>, p: R -> bool): seq<R> {
    if rows == [] then [] else
      Select(rows[..|rows| - 1], p) + if p(rows[|rows| - 1]) then [rows[|rows| - 1]] else []
  }

  lemma SelectUnfold<R>(rows: seq<R>, p: R -> bool)
    requires rows != []
    ensures Select(rows, p)
            == Select(rows[..|rows| - 1], p) + if p(rows[|rows| - 1]) then [rows[|rows| - 1]] else []
  {
  }

  lemma {:induction false} SelectHas<R>(rows: seq<R>, p: R -> bool)
    ensures forall r :: r in Select(rows, p) <==> r in rows && p(r)
  {
    if rows != [] {
      SelectHas(rows[..|rows| - 1], p);
      assert forall r :: r in rows <==> r in rows[..|rows| - 1] || r == rows[|rows| - 1];
    }
  }

  lemma {:induction false} SelectSame<R>(rows: seq<R>, p: R -> bool, q: R -> bool)
    requires forall r :: r in rows ==> p(r) == q(r)
    ensures Select(rows, p) == Select(rows, q)
  {
    if rows != [] {
      assert rows[|rows| - 1] in rows;
      SelectSame(rows[..|rows| - 1], p, q);
    }
  }

  lemma {:induction false} SelectNone<R>(rows: seq<R>, p: R -> bool)
    requires forall r :: r in rows ==> !p(r)
    ensures Select(rows, p) == []
  {
    if rows != [] {
      assert rows[|rows| - 1] in rows;
      SelectNone(rows[..|rows| - 1], p);
    }
  }

  function Both<R>(p: R -> bool, q: R -> bool): R -> bool {
    r => p(r) && q(r)
  }

  lemma {:induction false} SelectTwice<R>(rows: seq<R>, p: R -> bool, q: R -> bool)
    ensures Select(Select(rows, p), q) == Select(rows, Both(p, q))
  {
    if rows != [] {
      var front, last := rows[..|rows| - 1], rows[|rows| - 1];
      SelectTwice(front, p, q);
      if p(last) {
        assert Select(rows, p)[..|Select(rows, p)| - 1] == Select(front, p);
      } else {
        assert Select(rows, p) == Select(front, p);
      }
    }
  }

  lemma {:induction false} SelectEither<R>(rows: seq<R>, p: R -> bool, q: R -> bool, either: R -> bool)
    requires forall r :: either(r) <==> p(r) || q(r)
    requires forall r :: !(p(r) && q(r))
    ensures multiset(Select(rows, either)) == multiset(Select(rows, p)) + multiset(Select(rows, q))
  {
    if rows != [] {
      SelectEither(rows[..|rows| - 1], p, q, either);
    }
  }

  lemma {:induction false} SelectCounts<R>(rows: seq<R>, p: R -> bool, r: R)
    ensures multiset(Select(rows, p))[r] == if p(r) then multiset(rows)[r] else 0
  {
    if rows != [] {
      SelectCounts(rows[..|rows| - 1], p, r);
      assert rows == rows[..|rows| - 1] + [rows[|rows| - 1]];
    }
  }

  function Taken<R>(p: R -> bool, r: R): multiset<R> {
    if p(r) then multiset{r} else multiset{}
  }

  lemma SelectLast<R>(rows: seq<R>, p: R -> bool)
    requires rows != []
    ensures multiset(Select(rows, p)) == multiset(Select(rows[..|rows| - 1], p)) + Taken(p, rows[|rows| - 1])
  {
  }

  lemma {:induction false} SelectWithout<R>(rows: seq<R>, p: R -> bool, j: nat)
    requires j < |rows|
    ensures multiset(Select(rows, p)) == multiset(Select(rows[..j] + rows[j + 1..], p)) + Taken(p, rows[j])
  {
    hide Select, Taken;
    var n := |rows| - 1;
    SelectLast(rows, p);
    if j == n {
      assert rows[..j] + rows[j + 1..] == rows[..n];
    } else {
      SelectWithout(rows[..n], p, j);
      var rest := rows[..j] + rows[j + 1..];
      assert rest[..|rest| - 1] == rows[..n][..j] + rows[..n][j + 1..];
      SelectLast(rest, p);
    }
  }

  lemma RestIsReordered<R>(a: seq<R>, b: seq<R>, j: nat)
    requires a != [] && j < |b| && multiset(a) == multiset(b) && b[j] == a[|a| - 1]
    ensures multiset(a[..|a| - 1]) == multiset(b[..j] + b[j + 1..])
  {
    var x, rest := b[j], b[..j] + b[j + 1..];
    assert a == a[..|a| - 1] + [x] && b == b[..j] + [x] + b[j + 1..];
    assert multiset(a[..|a| - 1]) == multiset(a) - multiset{x} == multiset(b) - multiset{x} == multiset(rest);
  }

  lemma {:induction false} SelectReordered<R>(a: seq<R>, b: seq<R>, p: R -> bool)
    requires multiset(a) == multiset(b)
    ensures multiset(Select(a, p)) == multiset(Select(b, p))
  {
    if a == [] {
      assert |multiset(b)| == 0;
    } else {
      hide Select, Taken;
      assert a[|a| - 1] in multiset(b);
      var j :| 0 <= j < |b| && b[j] == a[|a| - 1];
      RestIsReordered(a, b, j);
      SelectReordered(a[..|a| - 1], b[..j] + b[j + 1..], p);
      SelectWithout(b, p, j);
      SelectLast(a, p);
    }
  }

  lemma {:induction false} SelectAll<R>(rows: seq<R>, p: R -> bool)
    requires forall r :: r in rows ==> p(r)
    ensures Select(rows, p) == rows
  {
    if rows != [] {
      assert rows[|rows| - 1] in rows;
      SelectAll(rows[..|rows| - 1], p);
    }
  }
}
